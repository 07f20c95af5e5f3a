/** The unread answer the chat server gives, from a capped count. */
module UnreadCount {
  import opened Ids
  import opened Messages
  import opened MessageStore

  const MAX_UNREAD_COUNT: nat := 99

  /** A read pointer that is not given is looked up in the caller's pointers. */
  method GetUnreadCount(store: Memory, chat: ChatId, caller: UserId, given: Option<MessageId>)
    returns (count: nat, hasMore: bool)
    requires store.Valid()
    ensures var readPtr := if given.Some? then given else Held(store.slots, Slot(chat, caller, Read));
            var n := |UnreadPositions(store.Log(chat), caller, readPtr)|;
            && hasMore == (n > 99)
            && count == if hasMore then 99 else n
  {
    var readPtr := given;
    if given.None? {
      var ptrs := store.GetPointers(chat, caller);
      ghost var found := FindPointer(ptrs, Read);
      for i := 0 to |ptrs|
        invariant readPtr == None
        invariant found == FindPointer(ptrs[i..], Read)
      {
        if ptrs[i].kind == Read {
          readPtr := Some(ptrs[i].value);
          break;
        }
        assert ptrs[i..][1..] == ptrs[i + 1..];
      }
    }
    var unread := store.CountUnread(chat, caller, readPtr, MAX_UNREAD_COUNT + 1);
    if unread > MAX_UNREAD_COUNT {
      return MAX_UNREAD_COUNT, true;
    }
    return unread, false;
  }

  /** Reading further never makes more messages unread. */
  lemma {:induction false} ReadingOnNeverRaisesUnread(log: seq<Message>, user: UserId, before: Option<MessageId>,
                                                      after: MessageId)
    requires before.Some? ==> before.value == after || Less(before.value, after)
    ensures UnreadPositions(log, user, Some(after)) <= UnreadPositions(log, user, before)
    ensures |UnreadPositions(log, user, Some(after))| <= |UnreadPositions(log, user, before)|
  {
    var a, b := UnreadPositions(log, user, Some(after)), UnreadPositions(log, user, before);
    forall i | i in a ensures i in b {
      if before.Some? && before.value != after {
        LessIsTransitive(before.value, after, log[i].id);
      }
    }
    SubsetIsSmaller(a, b);
  }

  lemma {:induction false} SubsetIsSmaller<T>(a: set<T>, b: set<T>)
    requires a <= b
    ensures |a| <= |b|
  {
    if a != {} {
      var x :| x in a;
      SubsetIsSmaller(a - {x}, b - {x});
    }
  }

  lemma SameUnread(log: seq<Message>, other: seq<Message>, user: UserId, lastRead: Option<MessageId>)
    requires forall m :: m in log <==> m in other
    ensures Unread(log, user, lastRead) == Unread(other, user, lastRead)
  {
  }

  /** A put makes one more message unread for a user exactly if it is text or a reply,
      is by somebody else, and comes after the user's pointer; otherwise none. */
  lemma {:induction false} PutRaisesUnreadByAtMostOne(log: seq<Message>, msg: Message, after: seq<Message>,
                                                      user: UserId, lastRead: Option<MessageId>)
    requires Sorted(log) && msg.id !in ById(log)
    requires forall m :: m in after <==> m in log || m == msg
    ensures var more := if && (msg.content.Text? || msg.content.Reply?) && msg.sender != Some(user)
                           && (lastRead.None? || Less(lastRead.value, msg.id)) then 1 else 0;
            && |Unread(after, user, lastRead)| == |Unread(log, user, lastRead)| + more
            && (Sorted(after) ==>
                  |UnreadPositions(after, user, lastRead)| == |UnreadPositions(log, user, lastRead)| + more)
    ensures msg.sender == Some(user) ==> Unread(after, user, lastRead) == Unread(log, user, lastRead)
  {
    ByIdKeys(log);
    UnreadIsCounted(log, user, lastRead);
    if Sorted(after) {
      UnreadIsCounted(after, user, lastRead);
    }
    UnreadWith(log, msg, user, lastRead);
    SameUnread(after, log + [msg], user, lastRead);
    forall m | m in log ensures m.id != msg.id {
      var i :| 0 <= i < |log| && log[i] == m;
      assert log[i].id in IdsIn(log);
    }
  }
}
