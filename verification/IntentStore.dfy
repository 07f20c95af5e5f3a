/** The in-memory store of payment intents that have been used up. */
module IntentStore {
  import opened Ids

  class InMemoryStore {
    var fulfilledIntents: set<IntentId>

    constructor ()
      ensures fulfilledIntents == {}
    {
      fulfilledIntents := {};
    }

    method IsFulfilled(id: IntentId) returns (isFulfilled: bool)
      ensures isFulfilled == (id in fulfilledIntents)
    {
      return id in fulfilledIntents;
    }

    /** Check and set in one critical section: only the first caller succeeds. */
    method MarkFulfilled(id: IntentId) returns (marked: bool)
      modifies this
      ensures fulfilledIntents == old(fulfilledIntents) + {id}
      ensures marked <==> fulfilledIntents != old(fulfilledIntents)
    {
      if id in fulfilledIntents {
        return false;
      }
      fulfilledIntents := fulfilledIntents + {id};
      return true;
    }
  }
}
