# sifat-chatbot core, modelled in Dafny

The chatbot answers a sales team's questions about an ERP. The model proves properties of:

- **Server routes** that the assistant's function calls reach:
  - sales details of a product by hour of sale (`get_sales_details_by_product`);
  - birthdays of a month (`get_birthdays_by_month`);
  - the weekly sales comparison (`get_weekly_sales_comparison`);
  - products without sales since a date (`get_products_without_sales_since`).
- **Client side:**
  - the tool list sent to the model (`getTools`);
  - the client functions that build query strings and the `functionsMap` registry (`config/functions.ts`);
  - the conversation store;
  - the small computations the tool-call cards make: overdue days, days to a birthday, initials, card width.

Every route is a function of its query, with the clock, the environment variables and the ERP's answer passed in as parameters. A route's answer is a `Reply(status, body)`.

The birthday day count, in the route and in the card, reads the year and the month of a birth date as its month and day (see "## Findings"). The route and the card take the count as a parameter (`Birthdays.Count`): `AsWritten` is what the code computes, and `Corrected` counts on the month and the day. `Birthdays.Birthdays` is the route as written and `Birthdays.BirthdaysCorrected` the intended one; the card as written is `ToolCallHelpers.Remaining` with `AsWritten`.

Shared modules model the JavaScript library behaviour the routes rely on:

- `JsText`:
  - JavaScript's whitespace set, `trim`, `split` and `parseInt` (radix 10);
  - `Number` on decimal numerals;
  - `toLowerCase`/`toUpperCase`, `String(n)` and `padStart`.
- `JsValue`: JSON values with `undefined`.
- `Dates`: the day arithmetic of ECMA-262 section 21.4.1 (`MakeDay`, `Date.UTC`, `setUTCMonth`), the date-only string forms `new Date` accepts, and the date part of `toISOString`.
- `Http`: a query as the ordered list of its decoded pairs, and `searchParams.get`.
- `SeqUtil`: the order-preserving filter and subsequences.

Modules and files:

| module | file |
|---|---|
| `SalesDetails` | sales_details.dfy |
| `Birthdays` | birthdays.dfy |
| `WeeklySales` | weekly_sales.dfy |
| `ProductsWithoutSales` | products_without_sales.dfy |
| `Tools` | tools.dfy |
| `ClientFunctions` | client_functions.dfy |
| `ConversationStore` | conversation_store.dfy |
| `ToolCallHelpers` | tool_call_helpers.dfy |

The model takes the code's form:

- Loops that build lists or counts step by step are methods, with loop invariants and a specifying function. These are:
  - the hour histogram (`TallyHours`);
  - the tool list (`GetTools` and its helpers);
  - the query-parameter assembly (`TopSellingUrl`, `SalesDetailsUrl`);
  - the per-week row (`BuildRow`).
- `URLSearchParams`, `functionsMap` and the conversation store are classes whose methods update fields.
- Everything else is functions and lemmas.

## Model

| member | source | states |
|---|---|---|
| Http.ParamSpec | app/api/functions/get_sales_details_by_product/route.ts:3-6 | `searchParams.get` is null exactly when no pair has the name, and otherwise gives the value of the first pair with that name |
| JsText.ParseInt | app/api/functions/get_sales_details_by_product/route.ts:72 | `parseInt` is NaN exactly when no digit follows the leading whitespace and optional sign |
| JsText.ParseIntOfDigits | app/api/functions/get_sales_details_by_product/route.ts:72 | `parseInt` of a digit string is that string's decimal value |
| JsText.ParseIntOfText | app/api/functions/get_sales_details_by_product/route.ts:72 | `parseInt` skips leading whitespace, reads an optional sign and the digits after it, and ignores whatever follows them |
| JsText.ParseIntPadded | app/api/functions/get_sales_details_by_product/route.ts:65 | a number written with `String` and left-padded with zeros parses back to itself |
| JsText.NatToString | app/api/functions/get_sales_details_by_product/route.ts:65 | `String(n)` is a non-empty digit string with no leading zero whose decimal value is `n` |
| JsText.PadStart | app/api/functions/get_sales_details_by_product/route.ts:65 | `padStart` keeps the string as the suffix, fills only the left, and reaches the width when the string is shorter |
| JsText.Split | app/api/functions/get_weekly_sales_comparison/route.ts:15 | `split` gives at least one piece, and no piece contains the separator |
| JsText.JoinSplit | app/api/functions/get_weekly_sales_comparison/route.ts:15 | joining the pieces of `split` with the separator gives back the string |
| JsText.TrimIsMiddle | app/api/functions/get_birthdays_by_month/route.ts:17 | `trim` removes exactly the leading and trailing whitespace and keeps the middle |
| JsText.InCommaList | app/api/functions/get_weekly_sales_comparison/route.ts:27-30 | a non-empty name is in the comma list exactly when some comma-separated piece trims to it |
| JsText.DropEmpty | app/api/functions/get_weekly_sales_comparison/route.ts:30 | `filter(Boolean)` is the order-preserving filter that keeps exactly the non-empty strings |
| JsText.CommaListSpec | app/api/functions/get_weekly_sales_comparison/route.ts:27-30 | the comma list is a subsequence of the trimmed pieces: it keeps their order, never holds the empty string, and holds each non-empty piece exactly as often as the pieces do |
| JsText.IndexOf | app/api/functions/get_birthdays_by_month/route.ts:20 | `indexOf` is the first position of the element, or -1 exactly when it is absent |
| JsText.ToLowerIdempotent | app/api/functions/get_birthdays_by_month/route.ts:17 | lower-casing an already lower-cased string changes nothing |
| JsText.ToUpper | components/tool-call.tsx:324 | `toUpperCase` never shortens, and keeps the length when no character is 'ß' |
| JsText.NumberNoMinus | app/api/functions/get_birthdays_by_month/route.ts:67 | `Number` of a text without '-' is never negative |
| SeqUtil.FilterIsSubsequence | app/api/functions/get_products_without_sales_since/route.ts:27-31 | `filter` keeps a subsequence, in order |
| SeqUtil.FilterCount | app/api/functions/get_weekly_sales_comparison/route.ts:30 | `filter` keeps each kept element as often as it occurs, and drops every other element altogether |
| SeqUtil.SubsequenceIncreasing | app/api/functions/get_sales_details_by_product/route.ts:80 | a subsequence of a list strictly increasing in a key is strictly increasing too |
| Dates.ParseDateForm | app/api/functions/get_products_without_sales_since/route.ts:26 | a date-only string that `new Date` accepts denotes a valid calendar date |
| Dates.IsoDateRoundTrip | app/api/functions/get_weekly_sales_comparison/route.ts:7 | for four-digit years, the date part of `toISOString` parses back to the same date |
| Dates.SetUtcMonth | app/api/functions/get_weekly_sales_comparison/route.ts:5-6 | `setUTCMonth` gives the valid date whose day number is `MakeDay` of the year, the new month and the same day |
| Dates.MakeDayCarry | app/api/functions/get_birthdays_by_month/route.ts:68 | `MakeDay` carries a month index of 12 or more into the year |
| Dates.MonthOverflow | app/api/functions/get_birthdays_by_month/route.ts:68 | a day past the month's end rolls into the next month |
| Dates.DateUtcWithinYear | app/api/functions/get_birthdays_by_month/route.ts:63-65 | `Date.UTC` of a valid date falls within its year, the years 0-99 being read as 1900-1999 |
| Dates.NextYearDate | app/api/functions/get_birthdays_by_month/route.ts:70 | the date moved to next year is never earlier than today |
| SalesDetails.StripTrailingSlash | app/api/functions/get_sales_details_by_product/route.ts:25 | exactly one trailing '/' is removed, and any other base URL is kept |
| SalesDetails.Project | app/api/functions/get_sales_details_by_product/route.ts:50-61 | projecting a note fails exactly on null or undefined, and otherwise copies each of its ten fields by name |
| SalesDetails.ProjectAll | app/api/functions/get_sales_details_by_product/route.ts:50-61 | the projection fails exactly when some note is null or undefined; otherwise it keeps length and order, and each item is its note's projection |
| SalesDetails.HourOf | app/api/functions/get_sales_details_by_product/route.ts:70-73 | an hour is counted only for a string containing ':', and it is below 24 |
| SalesDetails.HourOfText | app/api/functions/get_sales_details_by_product/route.ts:70-73 | a note counts exactly when `parseInt` of the text before the first ':' is in 0..23, and then it counts at that hour |
| SalesDetails.HourLabels | app/api/functions/get_sales_details_by_product/route.ts:65 | the label of hour h is two digits, zero-padded, and parses back to h |
| SalesDetails.TallyHours | app/api/functions/get_sales_details_by_product/route.ts:69-77 | the counting loop yields the histogram of the notes |
| SalesDetails.Histogram | app/api/functions/get_sales_details_by_product/route.ts:64-67 | the histogram has 24 buckets |
| SalesDetails.HistogramShape | app/api/functions/get_sales_details_by_product/route.ts:64-80 | bucket h is hour h and counts the notes of that hour; the buckets, and so the peak hours, are in strictly ascending hour order |
| SalesDetails.OneNoteOneBucket | app/api/functions/get_sales_details_by_product/route.ts:69-77 | one more note raises exactly the bucket of its hour by one, and no bucket when it has no hour |
| SalesDetails.HistogramTotal | app/api/functions/get_sales_details_by_product/route.ts:69-77 | the counts add up to the notes with an hour, at most the number of notes |
| SalesDetails.MaxCount | app/api/functions/get_sales_details_by_product/route.ts:79 | the maximum bounds every count and is attained, or is 0 |
| SalesDetails.PeakHoursSpec | app/api/functions/get_sales_details_by_product/route.ts:79-80 | the peak hours are empty exactly when every count is 0; otherwise they are exactly the buckets with the maximal count, in the histogram's order |
| SalesDetails.HandleGet | app/api/functions/get_sales_details_by_product/route.ts:1-103 | the handler's steps give the route's reply |
| SalesDetails.ValidationFirst | app/api/functions/get_sales_details_by_product/route.ts:10-15 | a missing or empty required parameter gives 400, whatever the token and the ERP |
| SalesDetails.TokenRequired | app/api/functions/get_sales_details_by_product/route.ts:17-23 | a valid query without a token gives 500, whatever the ERP |
| SalesDetails.RequestShape | app/api/functions/get_sales_details_by_product/route.ts:4-35 | the ERP request goes to `/vendas/nota` under the base URL, with the five parameters in order, `page` defaulting to "0" and `size` to "2000", and a Bearer token |
| SalesDetails.UpstreamFailureReply | app/api/functions/get_sales_details_by_product/route.ts:37-44 | a non-ok ERP answer gives 502 with the upstream status and body text |
| SalesDetails.OkReply | app/api/functions/get_sales_details_by_product/route.ts:46-95 | an ok answer gives 200 with the projected notes in order, their histogram and peak hours, and the paging fields passed through when set, with fallbacks only for null or undefined |
| SalesDetails.NullNoteFails | app/api/functions/get_sales_details_by_product/route.ts:50-101 | a null note makes the projection throw, and the route answers 500 |
| Birthdays.MonthIn | app/api/functions/get_birthdays_by_month/route.ts:16-22 | a month is the number in [1, 12] that the lower-cased, trimmed input denotes; failing that, it is null exactly when the input is not in the name table; any month read lies in [1, 12] |
| Birthdays.AnyCaseMonthName | app/api/functions/get_birthdays_by_month/route.ts:17-21 | any input that lower-cases and trims to the i-th month name is month i+1 |
| Birthdays.MonthNames | app/api/functions/get_birthdays_by_month/route.ts:1-21 | each Portuguese month name is its own 1-based position |
| Birthdays.MonthNamesDistinct | app/api/functions/get_birthdays_by_month/route.ts:1-14 | the twelve names are distinct |
| Birthdays.UnaccentedMonth | app/api/functions/get_birthdays_by_month/route.ts:4 | "marco" without the cedilla is not a month |
| Birthdays.NumericMonths | app/api/functions/get_birthdays_by_month/route.ts:18-19 | a digit string worth 1 to 12 is that month |
| Birthdays.FractionalMonth | app/api/functions/get_birthdays_by_month/route.ts:19 | "7.5" is accepted as month 7.5 |
| Birthdays.BlankRejected | app/api/functions/get_birthdays_by_month/route.ts:17-21 | whitespace-only input is no month |
| Birthdays.BirthdayArgsOfIsoDate | app/api/functions/get_birthdays_by_month/route.ts:67-68 | for "YYYY-MM-DD" the month index passed to `Date.UTC` is the year less one and the day is the month |
| Birthdays.DaysUntilAsWritten | app/api/functions/get_birthdays_by_month/route.ts:66-73 | the day count as written is never negative |
| Birthdays.DaysUntil | app/api/functions/get_birthdays_by_month/route.ts:66-73 | the day count to the next birthday, taken from the birth date's month and day, is never negative |
| Birthdays.MonthDayArgsOfIsoDate | app/api/functions/get_birthdays_by_month/route.ts:67-68 | for "YYYY-MM-DD" the corrected month index is the month less one and the day is the day of the month |
| Birthdays.BirthdayIsToday | app/api/functions/get_birthdays_by_month/route.ts:66-73 | on the birthday itself the corrected count is 0, whatever the birth year |
| Birthdays.ZeroIsToday | app/api/functions/get_birthdays_by_month/route.ts:66-73 | a corrected count of 0 means this year's birthday is today's date |
| Birthdays.BirthdayMonthDayMixUp | app/api/functions/get_birthdays_by_month/route.ts:67-68 | born on 5 July 1990, on 5 July 2025 the corrected count is 0, while the count as written exceeds 60000 days |
| Birthdays.SortByDaysSpec | app/api/functions/get_birthdays_by_month/route.ts:77 | the sort orders by day count, is a permutation, and keeps ties in input order |
| Birthdays.BirthdaysOfSpec | app/api/functions/get_birthdays_by_month/route.ts:57-78 | for either day count, every listed customer is a mock customer born in the requested month with its non-negative day count; the list is sorted, stable and complete, and empty for a non-whole month |
| Birthdays.BirthdaysReply | app/api/functions/get_birthdays_by_month/route.ts:27-82 | for either day count, a missing or empty month gives 400, an unreadable one gives the other 400, and otherwise 200 with the month read and that month's customers, sorted by the count |
| WeeklySales.MonthsBefore | app/api/functions/get_weekly_sales_comparison/route.ts:5-6 | the start date is the valid date `MakeDay` places at today's day, the given months earlier |
| WeeklySales.MonthsBeforeEarlier | app/api/functions/get_weekly_sales_comparison/route.ts:5-11 | one to eleven months back is strictly earlier than today |
| WeeklySales.LastMonthPeriod | app/api/functions/get_weekly_sales_comparison/route.ts:2-8 | with no period or "last_month", the range ends today and starts one month earlier |
| WeeklySales.LastThreeMonthsPeriod | app/api/functions/get_weekly_sales_comparison/route.ts:9-13 | "last_3_months" ends today and starts three months earlier |
| WeeklySales.CustomPeriod | app/api/functions/get_weekly_sales_comparison/route.ts:15-18 | a period with exactly one ':' is returned as its two sides, unchecked |
| WeeklySales.FallbackPeriod | app/api/functions/get_weekly_sales_comparison/route.ts:19-20 | any other period gives today as both ends |
| WeeklySales.BuildRow | app/api/functions/get_weekly_sales_comparison/route.ts:44-54 | building a row field by field gives the specified row |
| WeeklySales.RowSpec | app/api/functions/get_weekly_sales_comparison/route.ts:45-52 | a row carries its week, and has a metric's field exactly when that metric was requested; the values follow the mock formulas; the ticket is revenue over orders |
| WeeklySales.MetricsGrow | app/api/functions/get_weekly_sales_comparison/route.ts:46-47 | later weeks have strictly more revenue and more orders |
| WeeklySales.DefaultMetricList | app/api/functions/get_weekly_sales_comparison/route.ts:27 | without a metrics parameter the list is revenue, orders, avg_ticket |
| WeeklySales.WeeklySalesSpec | app/api/functions/get_weekly_sales_comparison/route.ts:23-64 | the reply is 200 with the period parsed, the six weeks in order and BRL; the metrics are the comma list of the parameter, or of the default list, in order and with repeats |
| WeeklySales.WeeksIgnorePeriod | app/api/functions/get_weekly_sales_comparison/route.ts:35-54 | the weeks depend on the metrics only, not on the period or the date |
| ProductsWithoutSales.ProductsWithoutSales | app/api/functions/get_products_without_sales_since/route.ts:1-36 | a missing or empty `since` gives 400 and exactly then; otherwise 200 echoing `since` |
| ProductsWithoutSales.UnsoldInOrder | app/api/functions/get_products_without_sales_since/route.ts:15-31 | the listing is a subsequence of the catalogue |
| ProductsWithoutSales.SameDayExcluded | app/api/functions/get_products_without_sales_since/route.ts:30 | a product last sold on the `since` day is not listed |
| ProductsWithoutSales.InvalidSinceKeepsUndated | app/api/functions/get_products_without_sales_since/route.ts:26-30 | with an invalid `since`, exactly the products without a date are listed |
| ProductsWithoutSales.LaterSinceListsMore | app/api/functions/get_products_without_sales_since/route.ts:26-31 | a later `since` lists every product an earlier one lists |
| ProductsWithoutSales.ListedReply | app/api/functions/get_products_without_sales_since/route.ts:26-35 | a non-empty `since` answers the catalogue filtered by it |
| Tools.GetTools | lib/tools/tools.ts:21-106 | the push-by-push construction yields the specified tool list |
| Tools.PushFunctionTools | lib/tools/tools.ts:51-68 | one function tool is appended per definition, in order |
| Tools.CollectCandidates | lib/tools/tools.ts:70-84 | the candidate loop collects the specified candidates |
| Tools.PushMcpTools | lib/tools/tools.ts:85-101 | one MCP tool is appended per candidate, in order |
| Tools.ServersSpec | lib/tools/tools.ts:77-83 | a server is kept exactly when it is present with a truthy URL and label |
| Tools.ServersCount | lib/tools/tools.ts:77-83 | no more servers are kept than listed |
| Tools.CandidatesSpec | lib/tools/tools.ts:71-84 | a configuration is a candidate exactly when it is the usable single one or a usable listed server |
| Tools.ToolsInOrder | lib/tools/tools.ts:23-102 | the tools are ordered web search, file search, code interpreter, functions, MCP |
| Tools.ToolsEmpty | lib/tools/tools.ts:21-106 | the list is empty exactly when every kind is disabled or contributes nothing |
| Tools.WebSearchFirst | lib/tools/tools.ts:23-37 | with web search on, it comes first and carries the location exactly when one field is not "" |
| Tools.FunctionToolAt | lib/tools/tools.ts:51-68 | the k-th definition becomes the function tool after the enabled built-in tools, with all keys required, no additional properties and strict |
| Tools.McpToolSpec | lib/tools/tools.ts:86-99 | approval is "never" exactly when approval is skipped; `allowed_tools` is present exactly when the text is not blank, and is then the comma list of the text, in order |
| ClientFunctions.Without | config/functions.ts:39 | removing a name removes all its pairs and keeps every other name's value |
| ClientFunctions.ReplaceSpec | config/functions.ts:39 | setting a present name gives it the new value and keeps every other name |
| ClientFunctions.SetParamSpec | config/functions.ts:38-43 | after `set` the name has the value and every other name is unchanged |
| ClientFunctions.SearchParams.Set | config/functions.ts:39-43 | `params.set` updates the pairs as `set` specifies |
| ClientFunctions.SearchParams.FromRecord | config/functions.ts:133 | a record gives its pairs in order |
| ClientFunctions.Serialize | config/functions.ts:45 | the query text is empty exactly when no parameter was set |
| ClientFunctions.WithQuery | config/functions.ts:45-46 | the URL gets '?' and the query only when a parameter was set |
| ClientFunctions.TopSellingUrl | config/functions.ts:38-46 | the URL built step by step is the path with the specified query |
| ClientFunctions.TopSellingQuerySpec | config/functions.ts:38-43 | the texts are set only when truthy, and `considerarFaturamento` whenever it is a boolean, false included |
| ClientFunctions.SalesDetailsUrl | config/functions.ts:133-137 | the URL built step by step is the path with the specified query |
| ClientFunctions.SalesDetailsQuerySpec | config/functions.ts:133-136 | the query starts with the three required pairs in order; `nomeProduto` is set only when truthy, and `page`/`size` whenever they are numbers, 0 included |
| ClientFunctions.RequestDateInput | config/functions.ts:61-69 | a date input request, whose defaults also replace empty texts |
| ClientFunctions.RequestMonthInput | config/functions.ts:108-114 | a month input request, whose defaults also replace empty texts |
| ClientFunctions.FunctionsMap.constructor | config/functions.ts:23-25 | the map starts with `get_weather` alone |
| ClientFunctions.FunctionsMap.Assign | config/functions.ts:52 | `Object.assign` adds or replaces one name and keeps the others |
| ClientFunctions.LoadFunctionsMap | config/functions.ts:23-141 | after loading, the map is the registry of ten functions |
| ClientFunctions.RegistrySpec | config/functions.ts:23-141 | the registry holds ten names, each mapped to the client function of that name |
| ClientFunctions.RegistryInjective | config/functions.ts:23-141 | no client function is registered under two names |
| ConversationStore.Store.constructor | stores/useConversationStore.ts:22-25 | the store starts with both lists empty and no answer awaited |
| ConversationStore.Store.SetChatMessages | stores/useConversationStore.ts:26 | the chat list is replaced, nothing else changes |
| ConversationStore.Store.SetConversationItems | stores/useConversationStore.ts:27 | the conversation list is replaced, nothing else changes |
| ConversationStore.Store.AddChatMessage | stores/useConversationStore.ts:28-29 | the item is appended to the chat list, nothing else changes |
| ConversationStore.Store.AddConversationItem | stores/useConversationStore.ts:30-33 | the message is appended to the conversation list, nothing else changes |
| ConversationStore.Store.SetAssistantLoading | stores/useConversationStore.ts:34 | only the flag changes |
| ConversationStore.Store.Reset | stores/useConversationStore.ts:36 | the store is back in its initial state |
| ConversationStore.ResetTwice | stores/useConversationStore.ts:36 | two resets leave the initial state, as one does |
| ToolCallHelpers.DaysBetween | components/tool-call.tsx:211 | the count is defined exactly when both dates are, never negative, 0 exactly below one day, and otherwise the floor of the whole days |
| ToolCallHelpers.MidnightDays | components/tool-call.tsx:211 | between two midnights the count is the difference of day numbers, clamped at 0 |
| ToolCallHelpers.OverdueDays | components/tool-call.tsx:216-217 | no overdue count exactly when there is no due date |
| ToolCallHelpers.OverdueOfDates | components/tool-call.tsx:209-217 | with valid dates the count is the days from due date to report date, or 0 when not yet due |
| ToolCallHelpers.Remaining | components/tool-call.tsx:302-326 | the days to the birthday are never negative, for either day count |
| ToolCallHelpers.RemainingLabel | components/tool-call.tsx:338-341 | the label is "Hoje" exactly when no days remain |
| ToolCallHelpers.HojeOnTheDay | components/tool-call.tsx:326-341 | "Hoje" is shown exactly when the chosen day count is 0 |
| ToolCallHelpers.HojeOnTheBirthday | components/tool-call.tsx:302-341 | with the corrected count, "Hoje" is shown when the birth date's month and day are today's |
| ToolCallHelpers.CardMissesBirthday | components/tool-call.tsx:302-341 | the card as written does not show "Hoje" for a birth date of 1990-07-05 on 5 July 2025 |
| ToolCallHelpers.FirstChar | components/tool-call.tsx:321 | an empty word adds nothing, and any other word adds its first character |
| ToolCallHelpers.Picked | components/tool-call.tsx:319-323 | at most two characters are picked |
| ToolCallHelpers.InitialsLength | components/tool-call.tsx:319-324 | the initials are at most two characters unless one is 'ß', and at most four |
| ToolCallHelpers.InitialsOf | components/tool-call.tsx:319-324 | the initials are the upper-cased first characters of the first two words |
| ToolCallHelpers.FullWidthRegistered | components/tool-call.tsx:649-657 | a full-width card belongs to a registered table function |

## Findings

| source | as written | input that shows it | evidently intended | confidence | as-written member | corrected member |
|---|---|---|---|---|---|---|
| app/api/functions/get_birthdays_by_month/route.ts:67 | `const [m, d] = isoBirthDate.split("-")` takes the year and the month of "YYYY-MM-DD" as month and day (components/tool-call.tsx:307 does the same) | "1990-07-05" on 5 July 2025: `Date.UTC(2025, 1989, 7)` is in October 2190, so the count exceeds 60000 days instead of 0 | the month and day, the second and third fields | not executed | Birthdays.DaysUntilAsWritten, Birthdays.Birthdays, Birthdays.BirthdayMonthDayMixUp, ToolCallHelpers.CardMissesBirthday | Birthdays.DaysUntil, Birthdays.BirthdaysCorrected, Birthdays.BirthdayIsToday, ToolCallHelpers.HojeOnTheBirthday |

## Left out

- Network, environment, console and response objects. Examples are `fetch`, `process.env`, logging, `Response` and `JSON.stringify`. The ERP answer, the environment and the date are parameters. A reply is a status and a body value.
- Exceptions beyond the ones modelled. The sales route's catch is modelled: `resp.json()` failing, a null note, and a network error all give 500. The other routes' catch blocks are unreachable in the model.
- JavaScript's full `Number` grammar. The model covers decimal numerals only: hexadecimal, exponents and `Infinity` read as NaN. Values are exact rationals, with no double rounding.
- `avg_ticket` is exact rational division. The source's floating-point quotient is not modelled.
- `parseInt` keeps unbounded precision, where JavaScript rounds very long digit strings.
- Case mapping is modelled for ASCII and Latin-1 only. Text is a sequence of characters, not UTF-16 code units.
- `URLSearchParams` serialisation is modelled without percent-encoding. A query is the ordered list of its decoded pairs.
- The fetch-only client wrappers are not modelled. These are `get_weather`, `get_products_without_sales_since`, `get_weekly_sales_comparison`, `get_overdue_payables`, `get_upcoming_payables_next_7_days` and `get_birthdays_by_month`. They pass their arguments straight to a route. Only their registration in `functionsMap` is modelled.
- `rawSet` of the conversation store is not modelled: it applies a library-defined merge of arbitrary state. The tools store and its `persist` middleware are not modelled either.
- Dates.ParseDateForm: treats a day past the month's end (such as "2025-02-30") as an invalid date. The date format itself only bounds the day to 01-31, and V8, the engine of Node.js where the routes run, rolls such a day over into the next month ("2025-02-30" is 2 March).
- Dates.SetUtcMonth: the limit on time values (±8.64e15 ms), beyond which JavaScript gives an Invalid Date, is not modelled.
- Dates.IsoDateRoundTrip: is proved for four-digit years only. `toISOString` writes other years with a sign and six digits.
- ToolCallHelpers.Remaining: reuses the route's day count, chosen by the same parameter; the card has the same month and day mix-up (components/tool-call.tsx:307). The card rounds with `Math.round` where the route floors, but both differences are whole days, so they agree. The card moves a past birthday to `Date.UTC` of the local year plus one. The route uses the year of today's UTC midnight plus one, and `Date.UTC` reads the years 0-99 as 1900-1999. The two differ only when today's year is 99, which the card reads as year 100 and the model as 2000.
- `today` is passed in as a civil date in both the route and the card. Whether it is the local or the UTC date is the caller's concern.
- The `now` of the overdue card is a parameter.
- ClientFunctions.SalesDetailsQuerySpec: `page` and `size` are integers. A non-integral number would be written by JavaScript with a fraction; NaN and ±Infinity, which are numbers too, would be set as "NaN" and "Infinity", and from 1e21 on `String` writes the exponent form. None of these is modelled.
- Tools.FunctionToolAt: `required` keeps the parameters in insertion order. `Object.keys` puts integer-like keys ("0", "1", …) first, in ascending order, which the model does not do.
- WeeklySales.ParsePeriod: `today` is the date of `end`, after `Date.UTC` has read a clock year 0-99 as 1900-1999. The clock reading itself, like every clock, is outside the model.
- Tools.FunctionToolAt: `properties` is a shallow copy of the parameters in the source, and a value in the model, so aliasing is not captured.
- The JSX of the tool-call cards and the other UI components is not modelled.
