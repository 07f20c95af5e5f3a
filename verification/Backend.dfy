/** The stores that the RPC handlers share. */
module Backend {
  import opened Ids
  import opened Messages
  import opened Rooms
  import opened Authorizer
  import AccountStore
  import ChatStore
  import IntentStore
  import MessageStore

  class Backend {
    const accounts: AccountStore.Memory
    const chats: ChatStore.InMemoryStore
    const intents: IntentStore.InMemoryStore
    const messages: MessageStore.Memory

    constructor ()
      ensures Valid() && Abs() == Stores(EMPTY, {}, map[], {})
      ensures fresh(accounts) && fresh(chats) && fresh(intents) && fresh(messages)
    {
      accounts := new AccountStore.Memory();
      chats := new ChatStore.InMemoryStore();
      intents := new IntentStore.InMemoryStore();
      messages := new MessageStore.Memory();
    }

    ghost predicate Valid()
      reads accounts, chats, messages
    {
      accounts.Valid() && chats.Valid() && messages.Valid()
    }

    ghost function Abs(): Stores
      reads accounts, chats, intents, messages
    {
      Stores(chats.Abs(), accounts.registeredUsers,
             map chat | chat in messages.messages :: ById(messages.messages[chat]),
             intents.fulfilledIntents)
    }

    /** Uses up a payment: only the first caller succeeds. */
    method MarkFulfilled(intent: IntentId) returns (marked: bool)
      requires Valid()
      modifies intents
      ensures Valid()
      ensures marked <==> intent !in old(Abs()).fulfilled
      ensures Abs() == old(Abs()).(fulfilled := old(Abs()).fulfilled + {intent})
      ensures !marked ==> Abs() == old(Abs())
    {
      marked := intents.MarkFulfilled(intent);
      assert Abs().logs == old(Abs()).logs;
    }
  }
}
