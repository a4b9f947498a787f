/**
 * The JavaScript string built-ins the routes rely on, over `string` (a
 * sequence of Unicode scalar values): trimming, splitting on one character,
 * `parseInt(s, 10)`, `Number(s)` for decimal numerals, `String(n)` for
 * integers, `padStart`, and `toLowerCase`/`toUpperCase` for Latin-1.
 */
module JsText {

  import opened Wrappers
  import opened SeqUtil

  /** StrWhiteSpaceChar of ECMA-262: WhiteSpace (TAB, VT, FF, ZWNBSP, every
      Zs space) and LineTerminator (LF, CR, LS, PS). `trim` and `parseInt`
      both skip exactly these. TAB to CR are U+0009 to U+000D. */
  predicate IsSpace(c: char) {
    if c <= ' ' then c == ' ' || '\t' <= c <= '\r'
    else '\U{A0}' <= c && IsWideSpace(c)
  }

  /** The white space above U+00A0. */
  predicate IsWideSpace(c: char) {
    c == '\U{A0}' || c == '\U{1680}' || ('\U{2000}' <= c <= '\U{200A}') ||
    c == '\U{2028}' || c == '\U{2029}' || c == '\U{202F}' || c == '\U{205F}' ||
    c == '\U{3000}' || c == '\U{FEFF}'
  }

  predicate IsDigit(c: char) { '0' <= c <= '9' }

  predicate AllDigits(s: string) { forall i :: 0 <= i < |s| ==> IsDigit(s[i]) }

  function DigitValue(c: char): (d: nat)
    requires IsDigit(c)
    ensures d < 10
  {
    (c as int) - ('0' as int)
  }

  function DigitChar(d: nat): (c: char)
    requires d < 10
    ensures IsDigit(c) && DigitValue(c) == d
  {
    (('0' as int) + d) as char
  }

  /** `s.trimStart()`: drops the leading white space. */
  function TrimStart(s: string): (r: string)
    ensures |r| <= |s| && r == s[|s| - |r|..]
    ensures forall i :: 0 <= i < |s| - |r| ==> IsSpace(s[i])
    ensures r == [] || !IsSpace(r[0])
  {
    if |s| > 0 && IsSpace(s[0]) then TrimStart(s[1..]) else s
  }

  /** `s.trimEnd()`: drops the trailing white space. */
  function TrimEnd(s: string): (r: string)
    ensures |r| <= |s| && r == s[..|r|]
    ensures forall i :: |r| <= i < |s| ==> IsSpace(s[i])
    ensures r == [] || !IsSpace(r[|r| - 1])
  {
    if |s| > 0 && IsSpace(s[|s| - 1]) then TrimEnd(s[..|s| - 1]) else s
  }

  /** `s.trim()`. */
  function Trim(s: string): (r: string)
  {
    TrimEnd(TrimStart(s))
  }

  /** Text that neither starts nor ends with white space is its own trim. */
  lemma TrimUnchanged(s: string)
    requires |s| > 0 && !IsSpace(s[0]) && !IsSpace(s[|s| - 1])
    ensures TrimStart(s) == s && TrimEnd(s) == s && Trim(s) == s
  {
  }

  /** White space alone trims to nothing. */
  lemma TrimBlank(s: string)
    requires forall i :: 0 <= i < |s| ==> IsSpace(s[i])
    ensures Trim(s) == []
  {
  }

  /** Trim keeps a contiguous middle part of its input, and what it drops on
      either side is white space; the result starts and ends with a
      non-space character. */
  lemma TrimIsMiddle(s: string) returns (k: nat)
    ensures k + |Trim(s)| <= |s| && Trim(s) == s[k..k + |Trim(s)|]
    ensures forall i :: 0 <= i < k ==> IsSpace(s[i])
    ensures forall i :: k + |Trim(s)| <= i < |s| ==> IsSpace(s[i])
    ensures Trim(s) == [] || (!IsSpace(Trim(s)[0]) && !IsSpace(Trim(s)[|Trim(s)| - 1]))
  {
    k := |s| - |TrimStart(s)|;
    TrimSlice(s, k);
    TrimTail(s, k);
    TrimEnds(s);
  }

  lemma TrimSlice(s: string, k: nat)
    requires k == |s| - |TrimStart(s)|
    ensures k + |Trim(s)| <= |s| && Trim(s) == s[k..k + |Trim(s)|]
  {
    SliceOfSlice(s, TrimStart(s), Trim(s), k);
  }

  lemma SliceOfSlice(s: string, t: string, r: string, k: nat)
    requires k <= |s| && t == s[k..] && |r| <= |t| && r == t[..|r|]
    ensures k + |r| <= |s| && r == s[k..k + |r|]
  {
  }

  lemma TrimTail(s: string, k: nat)
    requires k == |s| - |TrimStart(s)|
    ensures forall i :: k + |Trim(s)| <= i < |s| ==> IsSpace(s[i])
  {
    var t := TrimStart(s);
    var r := TrimEnd(t);
    assert t == s[k..] && Trim(s) == r;
    forall i | k + |r| <= i < |s| ensures IsSpace(s[i]) {
      assert |r| <= i - k < |t| && IsSpace(t[i - k]);
      assert s[i] == t[i - k];
    }
  }

  lemma TrimEnds(s: string)
    ensures Trim(s) == [] || (!IsSpace(Trim(s)[0]) && !IsSpace(Trim(s)[|Trim(s)| - 1]))
  {
    var t := TrimStart(s);
    var r := TrimEnd(t);
    if r != [] {
      assert r[0] == t[0];
    }
  }

  /** `s.split(sep)` for a one-character separator: the pieces between the
      separators, always at least one (`"".split(",")` is `[""]`). */
  function Split(s: string, sep: char): (r: seq<string>)
    ensures |r| >= 1
    ensures forall i :: 0 <= i < |r| ==> sep !in r[i]
  {
    if |s| == 0 then [""]
    else
      var rest := Split(s[1..], sep);
      if s[0] == sep then [""] + rest
      else [[s[0]] + rest[0]] + rest[1..]
  }

  /** `parts.join(sep)`. */
  function Join(parts: seq<string>, sep: char): string
    requires |parts| >= 1
  {
    if |parts| == 1 then parts[0] else parts[0] + [sep] + Join(parts[1..], sep)
  }

  /** Splitting and joining back on the same separator gives the input:
      Split loses nothing and invents nothing. */
  lemma {:induction false} JoinSplit(s: string, sep: char)
    ensures Join(Split(s, sep), sep) == s
  {
    if |s| > 0 {
      var rest := Split(s[1..], sep);
      JoinSplit(s[1..], sep);
      if s[0] == sep {
        assert Split(s, sep)[1..] == rest;
      } else {
        var r := Split(s, sep);
        if |rest| == 1 {
          assert r == [[s[0]] + rest[0]];
        } else {
          assert r[1..] == rest[1..];
          assert Join(rest, sep) == rest[0] + [sep] + Join(rest[1..], sep);
        }
      }
    }
  }

  /** The first piece of a split is the text before the first separator. */
  lemma {:induction false} SplitFirst(s: string, sep: char, i: nat)
    requires i <= |s| && sep !in s[..i] && (i == |s| || s[i] == sep)
    ensures Split(s, sep)[0] == s[..i]
  {
    if i > 0 {
      assert s[0] == s[..i][0];
      SplitFirst(s[1..], sep, i - 1);
      assert s[1..][..i - 1] == s[..i][1..];
    }
  }

  /** Text without the separator splits into itself alone. */
  lemma {:induction false} SplitNoSeparator(s: string, sep: char)
    requires sep !in s
    ensures Split(s, sep) == [s]
  {
    if |s| > 0 {
      assert sep !in s[1..] by {
        forall i | 0 <= i < |s[1..]| ensures s[1..][i] != sep {
          assert s[1..][i] == s[i + 1];
        }
      }
      SplitNoSeparator(s[1..], sep);
      assert [s[0]] + s[1..] == s;
    }
  }

  /** Splitting text that begins with a separator-free piece and a
      separator gives that piece, then the split of the rest. */
  lemma {:induction false} SplitAt(a: string, sep: char, b: string)
    requires sep !in a
    ensures Split(a + [sep] + b, sep) == [a] + Split(b, sep)
  {
    if a != [] {
      var s := a + [sep] + b;
      assert s[0] == a[0] && s[1..] == a[1..] + [sep] + b;
      SplitAt(a[1..], sep, b);
      var rest := Split(s[1..], sep);
      assert rest == [a[1..]] + Split(b, sep);
      assert Split(s, sep) == [[a[0]] + rest[0]] + rest[1..];
      assert [a[0]] + a[1..] == a;
    } else {
      assert (a + [sep] + b)[1..] == b;
    }
  }

  /** The longest prefix made of decimal digits. */
  function DigitPrefix(s: string): (r: string)
    ensures |r| <= |s| && r == s[..|r|]
    ensures AllDigits(r)
    ensures |r| == |s| || !IsDigit(s[|r|])
  {
    if |s| > 0 && IsDigit(s[0]) then [s[0]] + DigitPrefix(s[1..]) else []
  }

  /** The value of a string of decimal digits, most significant first. */
  function DigitsValue(ds: string): (n: nat)
    requires AllDigits(ds)
  {
    if |ds| == 0 then 0 else 10 * DigitsValue(ds[..|ds| - 1]) + DigitValue(ds[|ds| - 1])
  }

  function Pow10(k: nat): (p: nat)
    ensures p >= 1
  {
    if k == 0 then 1 else 10 * Pow10(k - 1)
  }

  /** `parseInt(s, 10)`: white space is skipped, an optional sign is read,
      then the longest run of decimal digits; no digit at all gives NaN,
      modelled as None. */
  function ParseInt(s: string): (r: Option<int>)
    ensures r.None? <==> DigitPrefix(SignFree(TrimStart(s))) == []
  {
    var t := TrimStart(s);
    var digits := DigitPrefix(SignFree(t));
    if digits == [] then None
    else if |t| > 0 && t[0] == '-' then Some(0 - DigitsValue(digits))
    else Some(DigitsValue(digits))
  }

  /** The text after an optional leading '+' or '-'. */
  function SignFree(t: string): string {
    if |t| > 0 && (t[0] == '-' || t[0] == '+') then t[1..] else t
  }

  /** Skipping white space stops at the first character that is not. */
  lemma {:induction false} TrimStartSkips(ws: string, t: string)
    requires forall i :: 0 <= i < |ws| ==> IsSpace(ws[i])
    requires t == [] || !IsSpace(t[0])
    ensures TrimStart(ws + t) == t
  {
    if ws == [] {
      assert ws + t == t;
    } else {
      assert (ws + t)[1..] == ws[1..] + t;
      TrimStartSkips(ws[1..], t);
    }
  }

  /** The digit run ends at the first character that is not a digit. */
  lemma {:induction false} DigitPrefixStops(ds: string, rest: string)
    requires AllDigits(ds)
    requires rest == [] || !IsDigit(rest[0])
    ensures DigitPrefix(ds + rest) == ds
  {
    if ds == [] {
      assert ds + rest == rest;
    } else {
      assert (ds + rest)[1..] == ds[1..] + rest;
      DigitPrefixStops(ds[1..], rest);
    }
  }

  lemma Regroup(a: string, b: string, c: string, d: string)
    ensures a + b + c + d == a + (b + (c + d))
  {
  }

  /** A sign read off the front leaves the text after it. */
  lemma SignFreeOf(sg: string, u: string)
    requires sg == "" || sg == "+" || sg == "-"
    requires u == [] || (u[0] != '-' && u[0] != '+')
    ensures SignFree(sg + u) == u
    ensures |sg + u| > 0 && (sg + u)[0] == '-' ==> sg == "-"
  {
    if sg != "" {
      assert (sg + u)[1..] == u;
    } else {
      assert sg + u == u;
    }
  }

  /** `parseInt` skips leading white space, reads an optional sign, takes
      the digits that follow and ignores the rest of the text. */
  lemma ParseIntOfText(ws: string, sg: string, ds: string, rest: string)
    requires forall i :: 0 <= i < |ws| ==> IsSpace(ws[i])
    requires sg == "" || sg == "+" || sg == "-"
    requires |ds| > 0 && AllDigits(ds)
    requires rest == [] || !IsDigit(rest[0])
    ensures ParseInt(ws + sg + ds + rest) == Some(if sg == "-" then 0 - DigitsValue(ds) else DigitsValue(ds))
  {
    var u := ds + rest;
    var t := sg + u;
    Regroup(ws, sg, ds, rest);
    assert IsDigit(ds[0]) && u[0] == ds[0];
    assert t[0] == if sg == "" then u[0] else sg[0];
    TrimStartSkips(ws, t);
    SignFreeOf(sg, u);
    DigitPrefixStops(ds, rest);
    ParseIntParts(ws + t, t, ds);
  }

  /** `parseInt` once the white space is skipped and the digits are found. */
  lemma ParseIntParts(s: string, t: string, ds: string)
    requires TrimStart(s) == t && ds != [] && DigitPrefix(SignFree(t)) == ds
    ensures ParseInt(s) == Some(if t[0] == '-' then 0 - DigitsValue(ds) else DigitsValue(ds))
  {
  }

  /** `String(n)` for a natural number: its decimal digits, no leading zero. */
  function NatToString(n: nat): (s: string)
    ensures |s| >= 1
    ensures AllDigits(s)
    ensures DigitsValue(s) == n
    ensures |s| > 1 ==> s[0] != '0'
  {
    if n < 10 then [DigitChar(n)]
    else
      var s := NatToString(n / 10) + [DigitChar(n % 10)];
      assert s[..|s| - 1] == NatToString(n / 10);
      s
  }

  /** `String(i)` for an integer. */
  function IntToString(i: int): (s: string)
    ensures |s| >= 1
    ensures i < 0 <==> s[0] == '-'
  {
    if i < 0 then "-" + NatToString(-i) else NatToString(i)
  }

  /** `s.padStart(width, fill)`. */
  function PadStart(s: string, width: nat, fill: char): (r: string)
    ensures |r| == if |s| < width then width else |s|
    ensures r[|r| - |s|..] == s
    ensures forall i :: 0 <= i < |r| - |s| ==> r[i] == fill
  {
    if |s| < width then seq(width - |s|, _ => fill) + s else s
  }

  /** Leading zeros do not change the value of a digit string. */
  lemma {:induction false} DigitsValueLeadingZeros(k: nat, ds: string)
    requires AllDigits(ds)
    ensures var zs := seq(k, _ => '0') + ds;
      AllDigits(zs) && DigitsValue(zs) == DigitsValue(ds)
  {
    var zs := seq(k, _ => '0') + ds;
    if |ds| == 0 {
      ZerosValue(k);
      assert zs == seq(k, _ => '0');
    } else {
      DigitsValueLeadingZeros(k, ds[..|ds| - 1]);
      assert zs[..|zs| - 1] == seq(k, _ => '0') + ds[..|ds| - 1];
    }
  }

  lemma {:induction false} ZerosValue(k: nat)
    ensures DigitsValue(seq(k, _ => '0')) == 0
  {
    if k > 0 {
      ZerosValue(k - 1);
      assert seq(k, _ => '0')[..k - 1] == seq(k - 1, _ => '0');
    }
  }

  lemma {:induction false} DigitPrefixOfDigits(s: string)
    requires AllDigits(s)
    ensures DigitPrefix(s) == s
  {
    if |s| > 0 {
      DigitPrefixOfDigits(s[1..]);
    }
  }

  /** On a non-empty string of digits, `parseInt` is the digits' value. */
  lemma ParseIntOfDigits(p: string)
    requires |p| > 0 && AllDigits(p)
    ensures ParseInt(p) == Some(DigitsValue(p))
  {
    assert IsDigit(p[0]) && p[0] != '-' && p[0] != '+';
    assert TrimStart(p) == p;
    assert SignFree(p) == p;
    DigitPrefixOfDigits(p);
  }

  /** On a non-empty string of digits, `Number` is the digits' value. */
  lemma NumberOfDigits(p: string)
    requires |p| > 0 && AllDigits(p)
    ensures Trim(p) == p && Number(p) == Some(DigitsValue(p) as real)
  {
    assert IsDigit(p[0]) && IsDigit(p[|p| - 1]);
    TrimUnchanged(p);
    assert SignFree(p) == p;
    UnsignedDigits(p);
  }

  lemma UnsignedDigits(p: string)
    requires |p| > 0 && AllDigits(p)
    ensures UnsignedDecimal(p) == Some(DigitsValue(p) as real)
  {
    DigitPrefixOfDigits(p);
    assert p[|p|..] == [];
  }

  /** A word that starts with something other than white space, a sign, a
      point or a digit is not a number. */
  lemma NumberOfWord(w: string)
    requires |w| > 0 && !IsSpace(w[0]) && !IsSpace(w[|w| - 1])
    requires !IsDigit(w[0]) && w[0] != '+' && w[0] != '-' && w[0] != '.'
    ensures Number(w) == None
  {
    assert TrimStart(w) == w;
    assert TrimEnd(w) == w;
  }

  /** `parseInt` reads back what `String(n).padStart(w, "0")` writes. */
  lemma ParseIntPadded(n: nat, width: nat)
    ensures ParseInt(PadStart(NatToString(n), width, '0')) == Some(n)
  {
    var ds := NatToString(n);
    var p := PadStart(ds, width, '0');
    var k := |p| - |ds|;
    assert p == seq(k, _ => '0') + ds;
    DigitsValueLeadingZeros(k, ds);
    ParseIntOfDigits(p);
  }

  /** `Number(s)` for decimal numerals: surrounding white space is ignored,
      the empty string is 0, otherwise an optional sign then digits with an
      optional fraction ("7", "+7", "07", "7.5", ".5", "5."). Anything else
      is NaN (None). The value is the exact rational the numeral denotes. */
  function Number(s: string): (r: Option<real>)
  {
    var t := Trim(s);
    if t == [] then Some(0.0)
    else
      match UnsignedDecimal(SignFree(t))
      case None => None
      case Some(v) => Some(if t[0] == '-' then -v else v)
  }

  /** Digits with an optional fraction, at least one digit in all. */
  function UnsignedDecimal(u: string): (r: Option<real>)
    ensures r.Some? ==> r.value >= 0.0
  {
    var ip := DigitPrefix(u);
    var rest := u[|ip|..];
    if rest == [] then
      (if ip == [] then None else Some(DigitsValue(ip) as real))
    else if rest[0] != '.' then None
    else
      var fp := DigitPrefix(rest[1..]);
      if |fp| != |rest| - 1 || (ip == [] && fp == []) then None
      else Some(DigitsValue(ip) as real + FractionValue(fp))
  }

  /** The value of the digits after a decimal point: 0.d1d2... */
  function FractionValue(fp: string): (v: real)
    requires AllDigits(fp)
    ensures 0.0 <= v < 1.0
  {
    if fp == [] then 0.0 else (DigitValue(fp[0]) as real + FractionValue(fp[1..])) / 10.0
  }

  /** A numeral without a minus sign never denotes a negative number. */
  lemma NumberNoMinus(s: string)
    requires '-' !in s
    ensures Number(s).Some? ==> Number(s).value >= 0.0
  {
    var t := TrimStart(s);
    var r := TrimEnd(t);
    if r != [] {
      assert r[0] == t[0] == s[|s| - |t|];
    }
  }

  /** `toLowerCase` of one character, for Latin-1 (A-Z and À-Þ but ×). */
  function LowerChar(c: char): char {
    if 'A' <= c <= 'Z' || ('À' <= c <= 'Þ' && c != '×') then
      ((c as int) + 32) as char
    else c
  }

  function ToLower(s: string): (r: string)
    ensures |r| == |s| && forall i :: 0 <= i < |s| ==> r[i] == LowerChar(s[i])
  {
    seq(|s|, i requires 0 <= i < |s| => LowerChar(s[i]))
  }

  /** Lower-casing twice is lower-casing once: no lowered character is a
      capital any more. */
  lemma ToLowerIdempotent(s: string)
    ensures ToLower(ToLower(s)) == ToLower(s)
  {
    forall i | 0 <= i < |s| ensures LowerChar(LowerChar(s[i])) == LowerChar(s[i]) {
      LowerCharIdempotent(s[i]);
    }
  }

  lemma LowerCharIdempotent(c: char)
    ensures LowerChar(LowerChar(c)) == LowerChar(c)
  {
  }

  /** Lower-casing leaves a string without capitals unchanged. */
  lemma LowerFixed(s: string)
    requires forall i :: 0 <= i < |s| ==> LowerChar(s[i]) == s[i]
    ensures ToLower(s) == s
  {
  }

  /** Digits are left as they are by `toLowerCase().trim()`, and `Number`
      reads them as their value. */
  lemma DigitsNumber(ds: string)
    requires |ds| > 0 && AllDigits(ds)
    ensures Trim(ToLower(ds)) == ds && Number(ds) == Some(DigitsValue(ds) as real)
  {
    assert forall i :: 0 <= i < |ds| ==> LowerChar(ds[i]) == ds[i] by {
      forall i | 0 <= i < |ds| ensures LowerChar(ds[i]) == ds[i] {
        assert IsDigit(ds[i]);
      }
    }
    LowerFixed(ds);
    NumberOfDigits(ds);
  }

  /** `toUpperCase` of one character, for Latin-1: a-z and à-þ but ÷ move up
      by 32, ÿ becomes Ÿ, µ becomes Greek capital mu, and ß becomes "SS". */
  function UpperChar(c: char): (r: string)
    ensures 1 <= |r| <= 2 && (|r| == 2 <==> c == 'ß')
  {
    if 'a' <= c <= 'z' || ('à' <= c <= 'þ' && c != '÷') then [((c as int) - 32) as char]
    else if c == 'ÿ' then ['Ÿ']
    else if c == 'µ' then ['Μ']
    else if c == 'ß' then "SS"
    else [c]
  }

  function ToUpper(s: string): (r: string)
    ensures |r| >= |s|
    ensures (forall i :: 0 <= i < |s| ==> s[i] != 'ß') ==> |r| == |s|
  {
    if s == [] then [] else UpperChar(s[0]) + ToUpper(s[1..])
  }

  /** JavaScript truthiness of a possibly-absent string: present and non-empty. */
  predicate Truthy(s: Option<string>) {
    s.Some? && s.value != ""
  }

  /** `s || fallback` for a possibly-absent string. */
  function OrElse(s: Option<string>, fallback: string): (r: string)
    ensures Truthy(s) ==> r == s.value
    ensures !Truthy(s) ==> r == fallback
  {
    if Truthy(s) then s.value else fallback
  }

  /** `list.indexOf(x)` for a list of strings; -1 when absent. */
  function IndexOf(list: seq<string>, x: string): (r: int)
    ensures -1 <= r < |list|
    ensures r >= 0 ==> list[r] == x && forall j :: 0 <= j < r ==> list[j] != x
    ensures r == -1 <==> x !in list
  {
    if |list| == 0 then -1
    else if list[0] == x then 0
    else
      var k := IndexOf(list[1..], x);
      if k == -1 then -1 else k + 1
  }

  /** Splits on commas, trims each piece, and keeps the non-empty ones, in
      order and with repeats: `s.split(",").map(t => t.trim()).filter(Boolean)`. */
  function CommaList(s: string): (r: seq<string>)
  {
    DropEmpty(TrimAll(Split(s, ',')))
  }

  /** The comma list keeps the trimmed pieces in order: each non-empty one
      as often as it occurs, and no empty one. */
  lemma CommaListSpec(s: string)
    ensures IsSubsequence(CommaList(s), TrimAll(Split(s, ',')))
    ensures [] !in CommaList(s)
    ensures forall x :: x != [] ==> multiset(CommaList(s))[x] == multiset(TrimAll(Split(s, ',')))[x]
  {
    var ts := TrimAll(Split(s, ','));
    FilterIsSubsequence(ts, NonEmpty);
    forall x | x != [] ensures multiset(CommaList(s))[x] == multiset(ts)[x] {
      FilterCount(ts, NonEmpty, x);
    }
  }

  function TrimAll(parts: seq<string>): (r: seq<string>)
    ensures |r| == |parts| && forall i :: 0 <= i < |parts| ==> r[i] == Trim(parts[i])
  {
    seq(|parts|, i requires 0 <= i < |parts| => Trim(parts[i]))
  }

  /** `Boolean` on a string: it is truthy when it is not empty. */
  predicate NonEmpty(x: string) {
    x != []
  }

  /** `xs.filter(Boolean)` on strings: the non-empty ones, in order. */
  function DropEmpty(xs: seq<string>): (r: seq<string>)
    ensures |r| <= |xs|
    ensures forall x :: x in r <==> x in xs && x != []
    ensures r == Filter(xs, NonEmpty)
  {
    if xs == [] then []
    else if xs[0] == [] then DropEmpty(xs[1..])
    else [xs[0]] + DropEmpty(xs[1..])
  }

  /** Some piece trims to `x`. */
  predicate TrimsTo(parts: seq<string>, x: string) {
    exists i :: 0 <= i < |parts| && Trim(parts[i]) == x
  }

  /** A name is in the comma list exactly when some comma-separated piece
      trims to it. */
  lemma InCommaList(s: string, x: string)
    requires x != []
    ensures x in CommaList(s) <==> TrimsTo(Split(s, ','), x)
  {
    InTrimmed(Split(s, ','), x);
  }

  lemma InTrimmed(parts: seq<string>, x: string)
    requires x != []
    ensures x in DropEmpty(TrimAll(parts)) <==> TrimsTo(parts, x)
  {
    var ts := TrimAll(parts);
    if x in ts {
      var i :| 0 <= i < |ts| && ts[i] == x;
      assert Trim(parts[i]) == x;
    }
  }
}
