/** The conversation store: the messages shown in the chat, the items sent
    to the model, and whether an answer is awaited. `T` is the type of a chat
    item and `M` that of a conversation item; the store never looks inside
    either. */
module ConversationStore {

  class Store<T, M> {
    var chatMessages: seq<T>
    var conversationItems: seq<M>
    var isAssistantLoading: bool

    /** Both lists empty and no answer awaited. */
    predicate Initial()
      reads this
    {
      chatMessages == [] && conversationItems == [] && !isAssistantLoading
    }

    /** The store as `create` builds it. */
    constructor ()
      ensures Initial()
    {
      chatMessages := [];
      conversationItems := [];
      isAssistantLoading := false;
    }

    /** `setChatMessages`: the chat list is replaced, the rest is kept. */
    method SetChatMessages(items: seq<T>)
      modifies this
      ensures chatMessages == items
      ensures conversationItems == old(conversationItems) && isAssistantLoading == old(isAssistantLoading)
    {
      chatMessages := items;
    }

    /** `setConversationItems`: the conversation list is replaced, the rest
        is kept. */
    method SetConversationItems(messages: seq<M>)
      modifies this
      ensures conversationItems == messages
      ensures chatMessages == old(chatMessages) && isAssistantLoading == old(isAssistantLoading)
    {
      conversationItems := messages;
    }

    /** `addChatMessage`: the item goes at the end of the chat list. */
    method AddChatMessage(item: T)
      modifies this
      ensures chatMessages == old(chatMessages) + [item]
      ensures conversationItems == old(conversationItems) && isAssistantLoading == old(isAssistantLoading)
    {
      chatMessages := chatMessages + [item];
    }

    /** `addConversationItem`: the message goes at the end of the
        conversation list. */
    method AddConversationItem(message: M)
      modifies this
      ensures conversationItems == old(conversationItems) + [message]
      ensures chatMessages == old(chatMessages) && isAssistantLoading == old(isAssistantLoading)
    {
      conversationItems := conversationItems + [message];
    }

    /** `setAssistantLoading`: only the flag changes. */
    method SetAssistantLoading(loading: bool)
      modifies this
      ensures isAssistantLoading == loading
      ensures chatMessages == old(chatMessages) && conversationItems == old(conversationItems)
    {
      isAssistantLoading := loading;
    }

    /** `reset`: back to the initial state, whatever the state was, so a
        second reset changes nothing. */
    method Reset()
      modifies this
      ensures Initial()
    {
      chatMessages := [];
      conversationItems := [];
      isAssistantLoading := false;
    }
  }

  /** Resetting twice leaves the store as resetting once does. */
  method ResetTwice<T, M>(s: Store<T, M>)
    modifies s
    ensures s.Initial()
  {
    s.Reset();
    assert s.Initial();
    s.Reset();
  }
}
