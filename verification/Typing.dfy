/** Typing notices and the worker that times them out. */
module Typing {
  import opened Ids
  import ChatStore

  datatype Key = Key(chat: ChatId, user: UserId)

  datatype TypingState = StartedTyping | StillTyping | StoppedTyping | TypingTimedOut

  datatype NotifyAnswer = Ok | Denied | InvalidArgument

  datatype Event = Event(key: Key, state: TypingState, at: int)

  /** One minute, in nanoseconds. */
  const IS_TYPING_NOTIFICATION_TIMEOUT: int := 60 * 1_000_000_000

  predicate IsTyping(state: TypingState)
  {
    state.StartedTyping? || state.StillTyping?
  }

  /** Who is typing and since when they were last heard of, and every event published. */
  datatype Tracker = Tracker(active: map<Key, int>, trace: seq<Event>)

  function Noticed(active: map<Key, int>, key: Key, state: TypingState, now: int): map<Key, int>
  {
    if IsTyping(state) then active[key := now] else active - {key}
  }

  function Expired(active: map<Key, int>, now: int): set<Key>
  {
    set key | key in active && now - active[key] >= IS_TYPING_NOTIFICATION_TIMEOUT
  }

  /** The events of one worker pass, which visits the expired keys in some order. */
  function TimeOuts(order: seq<Key>, now: int): (events: seq<Event>)
    ensures |events| == |order|
    ensures forall i :: 0 <= i < |order| ==> events[i] == Event(order[i], TypingTimedOut, now)
  {
    if order == [] then [] else TimeOuts(order[..|order| - 1], now) + [Event(order[|order| - 1], TypingTimedOut, now)]
  }

  predicate Enumerates(order: seq<Key>, keys: set<Key>)
  {
    && (forall i, j :: 0 <= i < j < |order| ==> order[i] != order[j])
    && (forall key :: key in order ==> key in keys)
    && (forall key :: key in keys ==> key in order)
  }

  lemma EnumeratesOneMore(order: seq<Key>, keys: set<Key>, key: Key)
    requires Enumerates(order, keys) && key !in keys
    ensures Enumerates(order + [key], keys + {key})
  {
  }

  datatype Step =
    | Notify(key: Key, state: TypingState, isMember: bool, now: int)
    | WorkerPass(order: seq<Key>, now: int)

  /** Clients cannot send a time-out themselves, and only members are heard. */
  function Next(t: Tracker, step: Step): Tracker
  {
    match step
    case Notify(key, state, isMember, now) =>
      if state.TypingTimedOut? || !isMember then t
      else Tracker(Noticed(t.active, key, state, now), t.trace + [Event(key, state, now)])
    case WorkerPass(order, now) =>
      if !Enumerates(order, Expired(t.active, now)) then t
      else Tracker(t.active - Expired(t.active, now), t.trace + TimeOuts(order, now))
  }

  function Run(steps: seq<Step>): Tracker
  {
    if steps == [] then Tracker(map[], []) else Next(Run(steps[..|steps| - 1]), steps[|steps| - 1])
  }

  /** The latest event about a key. */
  function Latest(trace: seq<Event>, key: Key): Option<Event>
  {
    if trace == [] then None
    else if trace[|trace| - 1].key == key then Some(trace[|trace| - 1])
    else Latest(trace[..|trace| - 1], key)
  }

  /** The map remembers, for each key, the time of its latest event if that was typing. */
  ghost predicate Remembers(t: Tracker)
  {
    forall key :: if key in t.active then
                    Latest(t.trace, key).Some? && IsTyping(Latest(t.trace, key).value.state)
                    && Latest(t.trace, key).value.at == t.active[key]
                  else Latest(t.trace, key).Some? ==> !IsTyping(Latest(t.trace, key).value.state)
  }

  /** The i-th event is no time-out, or times out the typing notice that was the
      latest event about its key, at least the timeout earlier. */
  ghost predicate IsDue(trace: seq<Event>, i: nat)
    requires i < |trace|
  {
    trace[i].state.TypingTimedOut? ==>
      exists j :: 0 <= j < i && TimesOut(trace, j, i)
  }

  ghost predicate TimesOut(trace: seq<Event>, j: nat, i: nat)
    requires j < i < |trace|
  {
    && trace[j].key == trace[i].key && (trace[j].state.StartedTyping? || trace[j].state.StillTyping?)
    && trace[i].at - trace[j].at >= 60 * 1_000_000_000
    && forall k :: j < k < i ==> trace[k].key != trace[i].key
  }

  lemma {:induction false} LatestIsIndexed(trace: seq<Event>, key: Key)
    requires Latest(trace, key).Some?
    ensures exists j :: 0 <= j < |trace| && trace[j] == Latest(trace, key).value && trace[j].key == key
                        && forall k :: j < k < |trace| ==> trace[k].key != key
  {
    var front, last := trace[..|trace| - 1], trace[|trace| - 1];
    if last.key == key {
      assert trace[|trace| - 1] == last;
    } else {
      LatestIsIndexed(front, key);
      var j :| 0 <= j < |front| && front[j] == Latest(front, key).value && front[j].key == key
               && forall k :: j < k < |front| ==> front[k].key != key;
      assert trace[j] == front[j];
      forall k | j < k < |trace| ensures trace[k].key != key {
        if k < |front| {
          assert trace[k] == front[k];
        }
      }
    }
  }

  lemma {:induction false} LatestAfterTimeOuts(trace: seq<Event>, order: seq<Key>, now: int, key: Key)
    ensures Latest(trace + TimeOuts(order, now), key)
            == if key in order then Some(Event(key, TypingTimedOut, now)) else Latest(trace, key)
  {
    if order == [] {
      assert trace + TimeOuts(order, now) == trace;
    } else {
      var front, last := order[..|order| - 1], order[|order| - 1];
      assert order == front + [last];
      LatestAfterTimeOuts(trace, front, now, key);
      var all := trace + TimeOuts(order, now);
      assert all == trace + TimeOuts(front, now) + [Event(last, TypingTimedOut, now)];
      assert all[..|all| - 1] == trace + TimeOuts(front, now);
    }
  }

  lemma StillRemembers(t: Tracker, step: Step)
    requires Remembers(t)
    ensures Remembers(Next(t, step))
  {
    match step
    case Notify(key, state, isMember, now) =>
      if !state.TypingTimedOut? && isMember {
        assert (t.trace + [Event(key, state, now)])[..|t.trace|] == t.trace;
      }
    case WorkerPass(order, now) =>
      if Enumerates(order, Expired(t.active, now)) {
        forall key ensures Latest(t.trace + TimeOuts(order, now), key)
                           == if key in order then Some(Event(key, TypingTimedOut, now)) else Latest(t.trace, key) {
          LatestAfterTimeOuts(t.trace, order, now, key);
        }
      }
  }

  /** Earlier events stay due when more are appended. */
  lemma StaysDue(trace: seq<Event>, more: seq<Event>, i: nat)
    requires i < |trace| && IsDue(trace, i)
    ensures IsDue(trace + more, i)
  {
    var all := trace + more;
    assert forall k :: 0 <= k < |trace| ==> all[k] == trace[k];
    if trace[i].state.TypingTimedOut? {
      var j :| 0 <= j < i && TimesOut(trace, j, i);
      assert TimesOut(all, j, i);
    }
  }

  lemma {:induction false} TimeOutIsDue(t: Tracker, order: seq<Key>, now: int, n: nat)
    requires Remembers(t) && Enumerates(order, Expired(t.active, now)) && n < |order|
    ensures IsDue(t.trace + TimeOuts(order, now), |t.trace| + n)
  {
    var key, all, i := order[n], t.trace + TimeOuts(order, now), |t.trace| + n;
    assert key in order;
    LatestIsIndexed(t.trace, key);
    var j :| 0 <= j < |t.trace| && t.trace[j] == Latest(t.trace, key).value && t.trace[j].key == key
             && forall k :: j < k < |t.trace| ==> t.trace[k].key != key;
    assert all[j] == t.trace[j] && all[i] == Event(key, TypingTimedOut, now);
    forall k | j < k < i ensures all[k].key != key {
      if k < |t.trace| {
        assert all[k] == t.trace[k];
      } else {
        assert all[k].key == order[k - |t.trace|];
      }
    }
    assert TimesOut(all, j, i);
  }

  lemma AllStayDue(t: Tracker, step: Step)
    requires Remembers(t) && forall i :: 0 <= i < |t.trace| ==> IsDue(t.trace, i)
    ensures forall i :: 0 <= i < |Next(t, step).trace| ==> IsDue(Next(t, step).trace, i)
  {
    var after := Next(t, step).trace;
    forall i | 0 <= i < |after| ensures IsDue(after, i) {
      if i < |t.trace| {
        assert t.trace + [] == t.trace;
        StaysDue(t.trace, after[|t.trace|..], i);
        assert t.trace + after[|t.trace|..] == after;
      } else if step.WorkerPass? {
        TimeOutIsDue(t, step.order, step.now, i - |t.trace|);
      }
    }
  }

  /** Over every run, each time-out of a user in a chat follows a typing notice of
      theirs at least the timeout earlier, with no other event about them in
      between; so no notice times out twice. */
  lemma {:induction false} EveryTimeOutIsDue(steps: seq<Step>)
    ensures Remembers(Run(steps))
    ensures forall i :: 0 <= i < |Run(steps).trace| ==> IsDue(Run(steps).trace, i)
  {
    if steps != [] {
      EveryTimeOutIsDue(steps[..|steps| - 1]);
      StillRemembers(Run(steps[..|steps| - 1]), steps[|steps| - 1]);
      AllStayDue(Run(steps[..|steps| - 1]), steps[|steps| - 1]);
    }
  }

  /** Between two time-outs of one user in one chat they were heard typing again. */
  lemma NoNoticeTimesOutTwice(steps: seq<Step>, i: nat, k: nat)
    requires i < k < |Run(steps).trace| && Run(steps).trace[i].key == Run(steps).trace[k].key
    requires Run(steps).trace[i].state.TypingTimedOut? && Run(steps).trace[k].state.TypingTimedOut?
    ensures exists j :: i < j < k && TimesOut(Run(steps).trace, j, k)
  {
    var trace := Run(steps).trace;
    EveryTimeOutIsDue(steps);
    assert IsDue(trace, k);
    var j :| 0 <= j < k && TimesOut(trace, j, k);
    assert i <= j;
  }

  /** After any run, a worker pass times a user out exactly when the latest event
      about them is a typing notice at least the timeout old. */
  lemma PassTimesOutExactly(steps: seq<Step>, order: seq<Key>, now: int, key: Key)
    requires Enumerates(order, Expired(Run(steps).active, now))
    ensures key in order <==>
            var latest := Latest(Run(steps).trace, key);
            && latest.Some? && (latest.value.state.StartedTyping? || latest.value.state.StillTyping?)
            && now - latest.value.at >= 60 * 1_000_000_000
  {
    EveryTimeOutIsDue(steps);
    assert key in order <==> key in Expired(Run(steps).active, now);
  }

  /** The server's map of typing users, changed under its mutex. */
  class TypingUsers {
    var activelyTypingUsers: map<Key, int>

    constructor ()
      ensures activelyTypingUsers == map[]
    {
      activelyTypingUsers := map[];
    }

    /** The notice of a member is published, and the map remembers it unless it says
        the user stopped. */
    method NotifyIsTyping(chats: ChatStore.InMemoryStore, key: Key, state: TypingState, now: int)
      returns (answer: NotifyAnswer, published: seq<Event>)
      requires chats.Valid()
      modifies this
      ensures answer == if state.TypingTimedOut? then InvalidArgument
                        else if !chats.Abs().IsActive(key.chat, key.user) then Denied else Ok
      ensures answer != Ok ==> published == [] && activelyTypingUsers == old(activelyTypingUsers)
      ensures answer == Ok ==>
                && published == [Event(key, state, now)]
                && activelyTypingUsers == if state.StoppedTyping? then old(activelyTypingUsers) - {key}
                                          else old(activelyTypingUsers)[key := now]
      ensures forall trace ::
                Tracker(activelyTypingUsers, trace + published)
                == Next(Tracker(old(activelyTypingUsers), trace),
                        Notify(key, state, chats.Abs().IsActive(key.chat, key.user), now))
    {
      published := [];
      assert forall trace: seq<Event> :: trace + published == trace;
      if state.TypingTimedOut? {
        return InvalidArgument, published;
      }
      var isMember := chats.IsMember(key.chat, key.user);
      if !isMember {
        return Denied, published;
      }
      published := [Event(key, state, now)];
      activelyTypingUsers := activelyTypingUsers - {key};
      if state.StartedTyping? || state.StillTyping? {
        activelyTypingUsers := activelyTypingUsers[key := now];
      }
      assert activelyTypingUsers == Noticed(old(activelyTypingUsers), key, state, now);
      return Ok, published;
    }

    /** The worker's first loop: publish a time-out for every expired user, and list them. */
    method CollectExpired(now: int) returns (keysToDelete: seq<Key>, published: seq<Event>)
      ensures Enumerates(keysToDelete, Expired(activelyTypingUsers, now))
      ensures published == TimeOuts(keysToDelete, now)
      ensures forall key :: key in keysToDelete <==>
                key in activelyTypingUsers && now - activelyTypingUsers[key] >= 60 * 1_000_000_000
    {
      keysToDelete, published := [], [];
      var rest := activelyTypingUsers.Keys;
      ghost var expired := Expired(activelyTypingUsers, now);
      assert expired - rest == {};
      while rest != {}
        invariant rest <= activelyTypingUsers.Keys
        invariant Enumerates(keysToDelete, expired - rest)
        invariant published == TimeOuts(keysToDelete, now)
        decreases |rest|
      {
        var key :| key in rest;
        ghost var seen := expired - rest;
        rest := rest - {key};
        if now - activelyTypingUsers[key] >= IS_TYPING_NOTIFICATION_TIMEOUT {
          published := published + [Event(key, TypingTimedOut, now)];
          assert (keysToDelete + [key])[..|keysToDelete|] == keysToDelete;
          EnumeratesOneMore(keysToDelete, seen, key);
          keysToDelete := keysToDelete + [key];
          assert expired - rest == seen + {key};
        } else {
          assert expired - rest == seen;
        }
      }
      assert expired - rest == expired;
    }

    /** One pass of the worker: collect the expired users, then delete them. */
    method TimeOutPass(now: int) returns (keysToDelete: seq<Key>, published: seq<Event>)
      modifies this
      ensures Enumerates(keysToDelete, Expired(old(activelyTypingUsers), now))
      ensures activelyTypingUsers == map key |
                && key in old(activelyTypingUsers)
                && now - old(activelyTypingUsers)[key] < 60 * 1_000_000_000 :: old(activelyTypingUsers)[key]
      ensures |published| == |keysToDelete|
              && forall i :: 0 <= i < |published| ==> published[i] == Event(keysToDelete[i], TypingTimedOut, now)
      ensures forall trace :: Tracker(activelyTypingUsers, trace + published)
                              == Next(Tracker(old(activelyTypingUsers), trace), WorkerPass(keysToDelete, now))
    {
      keysToDelete, published := CollectExpired(now);
      for i := 0 to |keysToDelete|
        invariant activelyTypingUsers == old(activelyTypingUsers) - set key | key in keysToDelete[..i]
      {
        assert keysToDelete[..i + 1] == keysToDelete[..i] + [keysToDelete[i]];
        activelyTypingUsers := activelyTypingUsers - {keysToDelete[i]};
      }
      assert keysToDelete[..|keysToDelete|] == keysToDelete;
      assert (set key | key in keysToDelete) == Expired(old(activelyTypingUsers), now);
    }
  }
}
