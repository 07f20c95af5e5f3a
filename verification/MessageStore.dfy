/** The in-memory message and pointer store: per-chat logs kept sorted by id,
    and per-user lists of pointers. */
module MessageStore {
  import opened Ids
  import opened Messages
  import opened Query

  datatype Result<+T> = Ok(value: T) | MessageNotFound | IdProvided

  /** A message to be stored: the store chooses its id, and its time if it has none. */
  datatype Draft = Draft(id: Option<MessageId>, sender: Option<UserId>, content: Content, offStage: bool,
                         ts: Option<int>)

  datatype PointerType = Sent | Delivered | Read

  datatype Pointer = Pointer(kind: PointerType, value: MessageId)

  /** Where a pointer is kept. */
  datatype Slot = Slot(chat: ChatId, user: UserId, kind: PointerType)

  /** Comes strictly after `token` when reading in the given order. */
  predicate After(order: Order, id: MessageId, token: MessageId)
  {
    if order == Asc then Less(token, id) else Less(id, token)
  }

  function Reverse<T>(s: seq<T>): (r: seq<T>)
    ensures |r| == |s|
    ensures forall i :: 0 <= i < |s| ==> r[i] == s[|s| - 1 - i]
  {
    if s == [] then [] else [s[|s| - 1]] + Reverse(s[..|s| - 1])
  }

  /** The log in reading order. */
  function InOrder(log: seq<Message>, order: Order): seq<Message>
  {
    if order == Asc then log else Reverse(log)
  }

  /** How many messages come no later than the token. */
  function Passed(ordered: seq<Message>, order: Order, token: Option<seq<Byte>>): (k: nat)
    ensures k <= |ordered|
  {
    if token.None? || ordered == [] || After(order, ordered[0].id, token.value) then 0
    else 1 + Passed(ordered[1..], order, token)
  }

  /** The next `limit` messages after the token. */
  function Page(log: seq<Message>, options: Options): seq<Message>
  {
    var ordered := InOrder(log, options.order);
    var rest := ordered[Passed(ordered, options.order, options.token)..];
    if 0 <= options.limit < |rest| then rest[..options.limit] else rest
  }

  predicate CountsAsUnread(m: Message, user: UserId, lastRead: Option<MessageId>)
  {
    && (lastRead.Some? ==> Less(lastRead.value, m.id))
    && m.sender != Some(user)
    && (m.content.Text? || m.content.Reply?)
  }

  /** The messages the user has not read. */
  function Unread(log: seq<Message>, user: UserId, lastRead: Option<MessageId>): set<MessageId>
  {
    set m | m in log && CountsAsUnread(m, user, lastRead) :: m.id
  }

  /** Where the log holds text or a reply by somebody else that comes after the pointer. */
  function UnreadPositions(log: seq<Message>, user: UserId, lastRead: Option<MessageId>): set<int>
  {
    set i | && 0 <= i < |log|
            && (log[i].content.Text? || log[i].content.Reply?)
            && log[i].sender != Some(user)
            && (lastRead.None? || Less(lastRead.value, log[i].id))
  }

  /** The pointer of one type in a user's list. */
  function FindPointer(list: seq<Pointer>, kind: PointerType): Option<MessageId>
  {
    if list == [] then None
    else if list[0].kind == kind then Some(list[0].value)
    else FindPointer(list[1..], kind)
  }

  type PointerLists = map<ChatId, map<UserId, seq<Pointer>>>

  function UserPointers(pointers: PointerLists, chat: ChatId, user: UserId): seq<Pointer>
  {
    if chat in pointers && user in pointers[chat] then pointers[chat][user] else []
  }

  /** `FindPointer` answers from every list what the slots hold. */
  ghost predicate PointersMatch(pointers: PointerLists, slots: map<Slot, MessageId>)
  {
    && (forall chat, user :: AtMostOnePerType(UserPointers(pointers, chat, user)))
    && (forall chat, user, kind ::
          FindPointer(UserPointers(pointers, chat, user), kind) == Held(slots, Slot(chat, user, kind)))
  }

  function Held(slots: map<Slot, MessageId>, slot: Slot): Option<MessageId>
  {
    if slot in slots then Some(slots[slot]) else None
  }

  /** Writing back a list in which one type changed changes one slot. */
  lemma SetUserPointers(before: PointerLists, after: PointerLists, slots: map<Slot, MessageId>,
                        chat: ChatId, user: UserId, list: seq<Pointer>, pointer: Pointer)
    requires PointersMatch(before, slots)
    requires AtMostOnePerType(list)
    requires forall kind :: FindPointer(list, kind) ==
                            if kind == pointer.kind then Some(pointer.value)
                            else FindPointer(UserPointers(before, chat, user), kind)
    requires forall c, u :: UserPointers(after, c, u) == if c == chat
             && u == user then list else UserPointers(before, c, u)
    ensures PointersMatch(after, slots[Slot(chat, user, pointer.kind) := pointer.value])
  {
  }

  class Memory {
    var messages: map<ChatId, seq<Message>>
    var pointers: map<ChatId, map<UserId, seq<Pointer>>>

    /** Every pointer in the store. */
    ghost var slots: map<Slot, MessageId>

    function Log(chat: ChatId): seq<Message>
      reads this
    {
      if chat in messages then messages[chat] else []
    }

    ghost predicate Valid()
      reads this
    {
      && (forall chat :: chat in messages ==> Sorted(messages[chat]))
      && PointersMatch(pointers, slots)
    }

    constructor ()
      ensures Valid()
      ensures messages == map[] && slots == map[]
    {
      messages := map[];
      pointers := map[];
      slots := map[];
    }

    method GetMessage(chat: ChatId, id: MessageId) returns (r: Result<Message>)
      requires Valid()
      ensures r == if id in ById(Log(chat)) then Ok(ById(Log(chat))[id]) else MessageNotFound
    {
      var log := Log(chat);
      ByIdLooksUp(log);
      for i := 0 to |log|
        invariant forall j :: 0 <= j < i ==> log[j].id != id
      {
        if log[i].id == id {
          assert log[i] in log;
          return Ok(log[i]);
        }
      }
      return MessageNotFound;
    }

    /** `newId` is the generated id, assumed new to the chat; `now` is the clock. */
    method PutMessage(chat: ChatId, draft: Draft, newId: MessageId, now: int) returns (r: Result<Message>)
      requires Valid()
      requires newId !in ById(Log(chat))
      modifies this
      ensures Valid()
      ensures pointers == old(pointers) && slots == old(slots)
      ensures draft.id.Some? ==> r == IdProvided && messages == old(messages)
      ensures draft.id.None? ==>
                && r == Ok(Message(newId, draft.sender, draft.content, draft.offStage,
                                   if draft.ts.Some? then draft.ts.value else now))
                && messages.Keys == old(messages).Keys + {chat}
                && (forall other :: other in old(messages) && other != chat ==> messages[other] == old(messages)[other])
                && ById(Log(chat)) == old(ById(Log(chat)))[newId := r.value]
                && (forall m :: m in Log(chat) <==> m in old(Log(chat)) || m == r.value)
    {
      if draft.id.Some? {
        return IdProvided;
      }
      var ts := if draft.ts.Some? then draft.ts.value else now;
      var msg := Message(newId, draft.sender, draft.content, draft.offStage, ts);
      var log := Log(chat);
      AppendAndSort(log, msg);
      messages := messages[chat := SortById(log + [msg])];
      r := Ok(msg);
    }

    method GetPagedMessages(chat: ChatId, options: seq<QueryOption>) returns (page: seq<Message>)
      requires Valid()
      ensures page == Page(Log(chat), Options(LastLimit(options), LastToken(options), LastOrder(options)))
    {
      var applied := ApplyOptions(options);
      var log := Log(chat);
      if |log| == 0 {
        return [];
      }
      var cloned: seq<Message> := [];
      for i := 0 to |log|
        invariant cloned == Kept(log[..i], applied)
      {
        assert log[..i + 1][..i] == log[..i];
        if applied.token.Some? && applied.order == Asc && !Less(applied.token.value, log[i].id) {
          continue;
        }
        if applied.token.Some? && applied.order == Desc && !Less(log[i].id, applied.token.value) {
          continue;
        }
        cloned := cloned + [log[i]];
      }
      assert log[..|log|] == log;
      KeptIsTheRest(log, applied);
      var sorted := cloned;
      if applied.order == Desc {
        sorted := SortDescending(cloned);
      }
      if |sorted| > applied.limit {
        sorted := sorted[..applied.limit];
      }
      page := sorted;
    }

    /** Counting over the whole log and capping at the end. */
    method CountUnread(chat: ChatId, user: UserId, lastRead: Option<MessageId>, maxValue: int) returns (count: nat)
      requires Valid()
      ensures var unread := |UnreadPositions(Log(chat), user, lastRead)|;
              count == if 0 <= maxValue < unread then maxValue else unread
    {
      UnreadIsCounted(Log(chat), user, lastRead);
      var unread: nat := 0;
      var log := Log(chat);
      for i := 0 to |log|
        invariant unread == |Unread(log[..i], user, lastRead)|
      {
        UnreadOfOneMore(log, i, user, lastRead);
        if lastRead.Some? && !Less(lastRead.value, log[i].id) {
          continue;
        }
        if log[i].sender.Some? && log[i].sender.value == user {
          continue;
        }
        if log[i].content.Text? || log[i].content.Reply? {
          unread := unread + 1;
        }
      }
      assert log[..|log|] == log;
      if maxValue >= 0 && unread > maxValue {
        return maxValue;
      }
      return unread;
    }

    /** Creates the pointer or raises it; never lowers it. */
    method AdvancePointer(chat: ChatId, user: UserId, pointer: Pointer) returns (advanced: bool)
      requires Valid()
      modifies this
      ensures Valid()
      ensures messages == old(messages)
      ensures slots == Advance(old(slots), Slot(chat, user, pointer.kind), pointer.value)
      ensures advanced <==> slots != old(slots)
    {
      var chatPtrs := if chat in pointers then pointers[chat] else map[];
      if chat !in pointers {
        pointers := pointers[chat := chatPtrs];
      }
      assert forall c, u :: UserPointers(pointers, c, u) == UserPointers(old(pointers), c, u);
      ghost var before := pointers;
      var userPtrs := if user in chatPtrs then chatPtrs[user] else [];
      assert userPtrs == UserPointers(before, chat, user);
      assert FindPointer(userPtrs, pointer.kind) == Held(slots, Slot(chat, user, pointer.kind));
      for i := 0 to |userPtrs|
        invariant forall j :: 0 <= j < i ==> userPtrs[j].kind != pointer.kind
        invariant pointers == before && slots == old(slots) && messages == old(messages)
      {
        if userPtrs[i].kind != pointer.kind {
          continue;
        }
        FindPointerAt(userPtrs, i);
        LessIsTotal(userPtrs[i].value, pointer.value);
        if Less(userPtrs[i].value, pointer.value) {
          ReplacePointer(userPtrs, i, pointer.value);
          WritePointers(chat, user, userPtrs[i := Pointer(userPtrs[i].kind, pointer.value)], pointer);
          return true;
        } else {
          return false;
        }
      }
      AppendPointer(userPtrs, pointer);
      WritePointers(chat, user, userPtrs + [pointer], pointer);
      return true;
    }

    /** Stores a user's pointers in a chat after one of them was set. */
    method WritePointers(chat: ChatId, user: UserId, list: seq<Pointer>, pointer: Pointer)
      requires Valid() && chat in pointers && AtMostOnePerType(list)
      requires forall kind :: FindPointer(list, kind) ==
                              if kind == pointer.kind then Some(pointer.value)
                              else FindPointer(UserPointers(pointers, chat, user), kind)
      modifies this`pointers, this`slots
      ensures Valid()
      ensures slots == old(slots)[Slot(chat, user, pointer.kind) := pointer.value]
    {
      ghost var before := pointers;
      pointers := pointers[chat := pointers[chat][user := list]];
      SetUserPointers(before, pointers, slots, chat, user, list, pointer);
      slots := slots[Slot(chat, user, pointer.kind) := pointer.value];
    }

    method GetPointers(chat: ChatId, user: UserId) returns (result: seq<Pointer>)
      requires Valid()
      ensures AtMostOnePerType(result)
      ensures forall kind :: FindPointer(result, kind) == Held(slots, Slot(chat, user, kind))
    {
      var list := UserPointers(pointers, chat, user);
      result := [];
      for i := 0 to |list|
        invariant result == list[..i]
      {
        result := result + [list[i]];
      }
      assert list[..|list|] == list;
    }
  }

  predicate AtMostOnePerType(list: seq<Pointer>)
  {
    forall i, j :: 0 <= i < j < |list| ==> list[i].kind != list[j].kind
  }

  /** Raises one slot, or creates it. */
  function Advance(slots: map<Slot, MessageId>, slot: Slot, value: MessageId): map<Slot, MessageId>
  {
    if slot in slots && !Less(slots[slot], value) then slots else slots[slot := value]
  }

  lemma {:induction false} FindPointerAt(list: seq<Pointer>, i: nat)
    requires i < |list|
    requires forall j :: 0 <= j < i ==> list[j].kind != list[i].kind
    ensures FindPointer(list, list[i].kind) == Some(list[i].value)
  {
    if i > 0 {
      FindPointerAt(list[1..], i - 1);
    }
  }

  lemma {:induction false} ReplacePointer(list: seq<Pointer>, i: nat, value: MessageId)
    requires i < |list| && AtMostOnePerType(list)
    ensures var after := list[i := Pointer(list[i].kind, value)];
            && AtMostOnePerType(after)
            && forall kind :: FindPointer(after, kind) == if kind == list[i].kind then Some(value)
               else FindPointer(list, kind)
  {
    var after := list[i := Pointer(list[i].kind, value)];
    if i > 0 {
      ReplacePointer(list[1..], i - 1, value);
      assert after[1..] == list[1..][i - 1 := Pointer(list[i].kind, value)];
    } else {
      assert after[1..] == list[1..];
    }
  }

  lemma {:induction false} AppendPointer(list: seq<Pointer>, pointer: Pointer)
    requires AtMostOnePerType(list)
    requires forall i :: 0 <= i < |list| ==> list[i].kind != pointer.kind
    ensures AtMostOnePerType(list + [pointer])
    ensures FindPointer(list, pointer.kind) == None
    ensures forall kind :: FindPointer(list + [pointer], kind) ==
                           if kind == pointer.kind then Some(pointer.value) else FindPointer(list, kind)
  {
    if list != [] {
      AppendPointer(list[1..], pointer);
      assert (list + [pointer])[1..] == list[1..] + [pointer];
    }
  }

  /** `sort.Sort(sort.Reverse(...))` by id. */
  function SortDescending(log: seq<Message>): (sorted: seq<Message>)
    requires Sorted(log)
    ensures forall i, j :: 0 <= i < j < |sorted| ==> Less(sorted[j].id, sorted[i].id)
    ensures sorted == Reverse(log)
  {
    Reverse(log)
  }

  /** The messages the paging filter lets through, in log order. */
  function Kept(log: seq<Message>, options: Options): seq<Message>
  {
    if log == [] then []
    else
      var front, last := log[..|log| - 1], log[|log| - 1];
      Kept(front, options)
      + (if options.token.Some? && !After(options.order, last.id, options.token.value) then [] else [last])
  }

  lemma {:induction false} KeptIsInLog(log: seq<Message>, options: Options)
    ensures forall m :: m in Kept(log, options) <==>
                          m in log && (options.token.Some? ==> After(options.order, m.id, options.token.value))
  {
    if log != [] {
      KeptIsInLog(log[..|log| - 1], options);
    }
  }

  lemma {:induction false} KeptIsSorted(log: seq<Message>, options: Options)
    requires Sorted(log)
    ensures Sorted(Kept(log, options))
  {
    if log != [] {
      var front, last := log[..|log| - 1], log[|log| - 1];
      KeptIsSorted(front, options);
      KeptIsInLog(front, options);
      forall m | m in Kept(front, options) ensures Less(m.id, last.id) {
        var i :| 0 <= i < |front| && log[i] == m;
      }
    }
  }

  /** Filtering first and reversing afterwards leaves the same messages as
      reading in order and dropping those up to the token. */
  lemma KeptIsTheRest(log: seq<Message>, options: Options)
    requires Sorted(log)
    ensures Sorted(Kept(log, options))
    ensures var ordered := InOrder(log, options.order);
            InOrder(Kept(log, options), options.order) == ordered[Passed(ordered, options.order, options.token)..]
  {
    KeptIsSorted(log, options);
    if options.order == Asc {
      KeptAscending(log, options);
    } else {
      KeptDescending(log, options);
    }
  }

  lemma KeptOneMore(log: seq<Message>, msg: Message, options: Options)
    ensures Kept(log + [msg], options) ==
            Kept(log, options) + (if options.token.Some?
                                  && !After(options.order, msg.id, options.token.value) then [] else [msg])
  {
    assert (log + [msg])[..|log|] == log;
  }

  lemma {:induction false} KeptOfSplit(a: seq<Message>, b: seq<Message>, options: Options)
    ensures Kept(a + b, options) == Kept(a, options) + Kept(b, options)
  {
    if b == [] {
      assert a + b == a;
    } else {
      var front, last := b[..|b| - 1], b[|b| - 1];
      KeptOfSplit(a, front, options);
      assert a + b == (a + front) + [last] && b == front + [last];
      KeptOneMore(a + front, last, options);
      KeptOneMore(front, last, options);
    }
  }

  lemma {:induction false} KeptAll(log: seq<Message>, options: Options)
    requires options.token.Some? ==> forall i :: 0 <= i < |log| ==> After(options.order, log[i].id, options.token.value)
    ensures Kept(log, options) == log
  {
    if log != [] {
      KeptAll(log[..|log| - 1], options);
    }
  }

  lemma {:induction false} KeptAscending(log: seq<Message>, options: Options)
    requires Sorted(log) && options.order == Asc
    ensures Kept(log, options) == log[Passed(log, Asc, options.token)..]
  {
    if log == [] || options.token.None? {
      KeptAll(log, options);
    } else if After(Asc, log[0].id, options.token.value) {
      forall i | 0 <= i < |log| ensures After(Asc, log[i].id, options.token.value) {
        if i > 0 {
          LessIsTransitive(options.token.value, log[0].id, log[i].id);
        }
      }
      KeptAll(log, options);
    } else {
      KeptAscending(log[1..], options);
      KeptOfSplit([log[0]], log[1..], options);
      assert log == [log[0]] + log[1..];
      assert Kept([log[0]], options) == [];
    }
  }

  lemma {:induction false} KeptDescending(log: seq<Message>, options: Options)
    requires Sorted(log) && options.order == Desc
    ensures Reverse(Kept(log, options)) == Reverse(log)[Passed(Reverse(log), Desc, options.token)..]
  {
    if log == [] || options.token.None? {
      KeptAll(log, options);
    } else {
      var front, last := log[..|log| - 1], log[|log| - 1];
      if After(Desc, last.id, options.token.value) {
        forall i | 0 <= i < |log| ensures After(Desc, log[i].id, options.token.value) {
          if i < |log| - 1 {
            LessIsTransitive(log[i].id, last.id, options.token.value);
          }
        }
        KeptAll(log, options);
      } else {
        KeptDescending(front, options);
        assert Kept(log, options) == Kept(front, options);
        assert Reverse(log)[1..] == Reverse(front);
      }
    }
  }

  lemma UnreadOfOneMore(log: seq<Message>, i: nat, user: UserId, lastRead: Option<MessageId>)
    requires Sorted(log) && i < |log|
    ensures var before, after := Unread(log[..i], user, lastRead), Unread(log[..i + 1], user, lastRead);
            |after| == if CountsAsUnread(log[i], user, lastRead) then |before| + 1 else |before|
  {
    assert log[..i + 1] == log[..i] + [log[i]];
    UnreadWith(log[..i], log[i], user, lastRead);
    forall m | m in log[..i] ensures m.id != log[i].id {
      LessIsTotal(m.id, log[i].id);
    }
  }

  lemma UnreadWith(log: seq<Message>, last: Message, user: UserId, lastRead: Option<MessageId>)
    ensures Unread(log + [last], user, lastRead) ==
            Unread(log, user, lastRead) + if CountsAsUnread(last, user, lastRead) then {last.id} else {}
  {
    var after := Unread(log + [last], user, lastRead);
    assert last in log + [last];
    forall id | id in Unread(log, user, lastRead) ensures id in after {
      var m :| m in log && CountsAsUnread(m, user, lastRead) && m.id == id;
      assert m in log + [last];
    }
  }

  lemma PositionsOfOneMore(front: seq<Message>, last: Message, user: UserId, lastRead: Option<MessageId>)
    ensures UnreadPositions(front + [last], user, lastRead)
            == UnreadPositions(front, user, lastRead)
               + if CountsAsUnread(last, user, lastRead) then {|front|} else {}
  {
    assert forall i :: 0 <= i < |front| ==> (front + [last])[i] == front[i];
  }

  /** The number of unread messages is the number of positions that hold one. */
  lemma {:induction false} UnreadIsCounted(log: seq<Message>, user: UserId, lastRead: Option<MessageId>)
    requires Sorted(log)
    ensures |Unread(log, user, lastRead)| == |UnreadPositions(log, user, lastRead)|
  {
    if log == [] {
      assert Unread(log, user, lastRead) == {} && UnreadPositions(log, user, lastRead) == {};
    } else {
      var n := |log| - 1;
      UnreadIsCounted(log[..n], user, lastRead);
      UnreadOfOneMore(log, n, user, lastRead);
      PositionsOfOneMore(log[..n], log[n], user, lastRead);
      assert log[..n + 1] == log && log[..n] + [log[n]] == log;
    }
  }
}
