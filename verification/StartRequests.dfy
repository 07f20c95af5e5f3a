/** What StartChat does to the stores when no other request comes in between. */
module StartRequests {
  import opened Ids
  import opened Rooms
  import opened Authorizer
  import opened Server
  import opened Requests

  datatype Parameters =
    | TwoWayChat(other: UserId)
    | GroupChat(users: seq<UserId>, intent: Option<IntentId>, flagged: bool)

  function UsersOf(creator: UserId, parameters: Parameters): seq<UserId>
  {
    match parameters
    case TwoWayChat(other) => [creator, other]
    case GroupChat(users, _, _) => users + [creator]
  }

  function IntentOf(parameters: Parameters): Option<IntentId>
  {
    if parameters.GroupChat? then parameters.intent else None
  }

  /** The answer to a request whose payment cannot start a group. */
  function RefusalOf(s: Stores, payments: Payments, creator: UserId, intent: Option<IntentId>,
                     flagged: bool): Option<Answer>
  {
    if intent.None? || intent.value in s.fulfilled then Some(Denied)
    else if intent.value !in payments || payments[intent.value].metadata.Missing? then Some(Denied)
    else if !payments[intent.value].metadata.ForGroup? then Some(Failed)
    else if payments[intent.value].metadata.user != creator || flagged then Some(Denied)
    else None
  }

  function CreatedIn(s: Stores, chat: ChatId, isGroup: bool, creator: UserId): Stores
  {
    if chat in s.rooms.chats then s
    else s.(rooms := s.rooms.WithChat(Metadata(chat, if isGroup then Group else TwoWay,
                                               if isGroup then Some(creator) else None, s.rooms.nextRoom, true)))
  }

  function NewMember(isGroup: bool, creator: UserId, user: UserId): Member
  {
    Member(user, Some(creator), false, false, isGroup && user == creator, true, false)
  }

  function WithMembers(rooms: View, chat: ChatId, isGroup: bool, creator: UserId, users: seq<UserId>): View
  {
    if users == [] then rooms
    else
      var before, user := WithMembers(rooms, chat, isGroup, creator, users[..|users| - 1]), users[|users| - 1];
      before.WithEntry(chat, Joined(before.Entry(chat, user), NewMember(isGroup, creator, user)))
  }

  /** A chat is created even if its payment turns out to be used, but stays empty. */
  function CreatedWith(s: Stores, chat: ChatId, isGroup: bool, creator: UserId, users: seq<UserId>,
                       intent: Option<IntentId>): (Stores, Answer)
  {
    var created := CreatedIn(s, chat, isGroup, creator);
    if intent.Some? && intent.value in s.fulfilled then (created, Denied)
    else
      (created.(fulfilled := s.fulfilled + (if intent.Some? then {intent.value} else {}),
                rooms := WithMembers(created.rooms, chat, isGroup, creator, users)), StartOk)
  }

  /** Nothing happens without a valid unused payment for a group; otherwise the chat
      exists, the payment is used up, and everyone named is a member. */
  function StartRequest(s: Stores, payments: Payments, creator: UserId, parameters: Parameters,
                        newChat: ChatId): (Stores, Answer)
  {
    var users := UsersOf(creator, parameters);
    match parameters
    case TwoWayChat(other) => CreatedWith(s, TwoWayChatId(creator, other), false, creator, users, None)
    case GroupChat(_, intent, flagged) =>
      var refusal := RefusalOf(s, payments, creator, intent, flagged);
      if refusal.Some? then (s, refusal.value) else CreatedWith(s, newChat, true, creator, users, intent)
  }

  function CheckStep(h: nat, creator: UserId, parameters: Parameters, newChat: ChatId): Step
  {
    match parameters
    case TwoWayChat(other) => StartTwoWay(h, creator, other)
    case GroupChat(users, intent, flagged) => StartGroup(h, creator, users, intent, flagged, newChat)
  }

  function WithUsers(t: Task, users: seq<UserId>): Task
    requires t.StartAdding?
  {
    StartAdding(t.chat, t.isGroup, t.creator, users, t.intent)
  }

  function Adds(h: nat, n: nat): seq<Step>
  {
    if n == 0 then [] else Adds(h, n - 1) + [StartAdd(h)]
  }

  /** All steps of the request: those after an early answer do nothing. */
  function StartSteps(h: nat, creator: UserId, parameters: Parameters, newChat: ChatId): seq<Step>
  {
    [CheckStep(h, creator, parameters, newChat), StartCreate(h), StartMark(h)]
    + Adds(h, |UsersOf(creator, parameters)| + 1)
  }

  // ----- Each step on its own -----

  lemma CheckTwoWay(payments: Payments, w: World, h: nat, creator: UserId, other: UserId)
    requires h !in w.tasks && |creator| == |other| == UUID_LENGTH
    ensures Next(payments, w, StartTwoWay(h, creator, other)) ==
            w.(tasks := w.tasks[h := StartCreating(TwoWayChatId(creator, other), false, creator, [creator, other],
                                                   None)])
  {
  }

  lemma CheckGroup(payments: Payments, w: World, step: Step)
    requires step.StartGroup? && step.h !in w.tasks && IsNewChatId(w, step.newChat)
    ensures var refusal := RefusalOf(w.stores, payments, step.creator, step.intent, step.flagged);
            Next(payments, w, step) == w.(tasks := w.tasks[step.h :=
              if refusal.Some? then Answered(refusal.value, step.intent)
              else StartCreating(step.newChat, true, step.creator, step.users + [step.creator], step.intent)])
  {
  }

  lemma CreateStep(payments: Payments, w: World, h: nat)
    requires h in w.tasks && w.tasks[h].StartCreating?
    ensures var t := w.tasks[h];
            Next(payments, w, StartCreate(h)) == w.(
              stores := CreatedIn(w.stores, t.chat, t.isGroup, t.creator),
              tasks := w.tasks[h := if t.intent.Some? then StartCreated(t.chat, t.isGroup, t.creator, t.users, t.intent)
                                    else StartAdding(t.chat, t.isGroup, t.creator, t.users, t.intent)])
  {
  }

  lemma MarkStep(payments: Payments, w: World, h: nat)
    requires h in w.tasks && w.tasks[h].StartCreated? && w.tasks[h].intent.Some?
    ensures var t := w.tasks[h];
            Next(payments, w, StartMark(h)) == w.(
              stores := w.stores.(fulfilled := w.stores.fulfilled + {t.intent.value}),
              tasks := w.tasks[h := if t.intent.value in w.stores.fulfilled then Answered(Denied, t.intent)
                                    else StartAdding(t.chat, t.isGroup, t.creator, t.users, t.intent)])
  {
    if w.tasks[h].intent.value in w.stores.fulfilled {
      assert w.stores.fulfilled + {w.tasks[h].intent.value} == w.stores.fulfilled;
    }
  }

  lemma NothingToMark(payments: Payments, w: World, h: nat)
    requires h in w.tasks && w.tasks[h].StartAdding?
    ensures Next(payments, w, StartMark(h)) == w
  {
  }

  lemma AddStep(payments: Payments, w: World, h: nat)
    requires h in w.tasks && w.tasks[h].StartAdding? && w.tasks[h].chat in w.stores.rooms.chats
    ensures var t, v := w.tasks[h], Next(payments, w, StartAdd(h));
            if t.users == [] then v == w.(tasks := w.tasks[h := Answered(StartOk, t.intent)])
            else
              var rooms := w.stores.rooms;
              var member := Joined(rooms.Entry(t.chat, t.users[0]), NewMember(t.isGroup, t.creator, t.users[0]));
              v == w.(stores := w.stores.(rooms := rooms.WithEntry(t.chat, member)),
                      tasks := w.tasks[h := WithUsers(t, t.users[1..])])
  {
  }

  lemma AnsweredIsFinal(payments: Payments, w: World, h: nat)
    requires h in w.tasks && w.tasks[h].Answered?
    ensures Next(payments, w, StartCreate(h)) == Next(payments, w, StartMark(h)) == Next(payments, w, StartAdd(h)) == w
  {
  }

  // ----- Adding one member after another -----

  function Adding(next: (World, Step) -> World, h: nat): World -> World
  {
    (v: World) => next(v, StartAdd(h))
  }

  function AddWith(payments: Payments, h: nat): World -> World
  {
    Adding(Stepper(payments), h)
  }

  function Repeated(f: World -> World, w: World, n: nat): World
  {
    if n == 0 then w else f(Repeated(f, w, n - 1))
  }

  lemma {:induction false} AddsRepeat(next: (World, Step) -> World, w: World, h: nat, n: nat)
    ensures Fold(next, w, Adds(h, n)) == Repeated(Adding(next, h), w, n)
  {
    if n > 0 {
      AddsRepeat(next, w, h, n - 1);
      assert Adds(h, n)[..|Adds(h, n)| - 1] == Adds(h, n - 1);
    }
  }

  lemma {:induction false} RepeatedStays(f: World -> World, w: World, n: nat)
    requires f(w) == w
    ensures Repeated(f, w, n) == w
  {
    if n > 0 {
      RepeatedStays(f, w, n - 1);
    }
  }

  /** The world when a request has added the first `n` of its members. */
  function Added(w: World, h: nat, n: nat): World
    requires h in w.tasks && w.tasks[h].StartAdding? && n <= |w.tasks[h].users|
  {
    var t := w.tasks[h];
    w.(stores := w.stores.(rooms := WithMembers(w.stores.rooms, t.chat, t.isGroup, t.creator, t.users[..n])),
       tasks := w.tasks[h := WithUsers(t, t.users[n..])])
  }

  lemma {:induction false} MembersKeepChats(rooms: View, chat: ChatId, isGroup: bool, creator: UserId,
                                            users: seq<UserId>)
    ensures WithMembers(rooms, chat, isGroup, creator, users).chats == rooms.chats
  {
    if users != [] {
      MembersKeepChats(rooms, chat, isGroup, creator, users[..|users| - 1]);
    }
  }

  lemma AddOne(payments: Payments, w: World, h: nat, n: nat)
    requires h in w.tasks && w.tasks[h].StartAdding? && n < |w.tasks[h].users|
             && w.tasks[h].chat in w.stores.rooms.chats
    ensures AddWith(payments, h)(Added(w, h, n)) == Added(w, h, n + 1)
  {
    var t := w.tasks[h];
    MembersKeepChats(w.stores.rooms, t.chat, t.isGroup, t.creator, t.users[..n]);
    AddStep(payments, Added(w, h, n), h);
    AddedOneMore(w, h, n);
  }

  lemma {:induction false} AddedOneMore(w: World, h: nat, n: nat)
    requires h in w.tasks && w.tasks[h].StartAdding? && n < |w.tasks[h].users|
    ensures var v := Added(w, h, n);
            var t, rooms := v.tasks[h], v.stores.rooms;
            && t.users != []
            && var member := Joined(rooms.Entry(t.chat, t.users[0]), NewMember(t.isGroup, t.creator, t.users[0]));
               v.(stores := v.stores.(rooms := rooms.WithEntry(t.chat, member)),
                  tasks := v.tasks[h := WithUsers(t, t.users[1..])])
               == Added(w, h, n + 1)
  {
    var t, v := w.tasks[h], Added(w, h, n);
    assert t.users[n..][1..] == t.users[n + 1..];
    assert t.users[..n + 1][..n] == t.users[..n];
    assert v.tasks[h := WithUsers(v.tasks[h], v.tasks[h].users[1..])] == Added(w, h, n + 1).tasks;
  }

  lemma AddLast(payments: Payments, w: World, h: nat)
    requires h in w.tasks && w.tasks[h].StartAdding? && w.tasks[h].chat in w.stores.rooms.chats
    ensures var t := w.tasks[h];
            AddWith(payments, h)(Added(w, h, |t.users|)) ==
            Done(w, h, (w.stores.(rooms := WithMembers(w.stores.rooms, t.chat, t.isGroup, t.creator, t.users)),
                        StartOk), t.intent)
  {
    var t := w.tasks[h];
    MembersKeepChats(w.stores.rooms, t.chat, t.isGroup, t.creator, t.users);
    assert t.users[..|t.users|] == t.users;
    AddStep(payments, Added(w, h, |t.users|), h);
  }

  lemma {:induction false} RepeatedAdds(f: World -> World, w: World, h: nat, n: nat)
    requires h in w.tasks && w.tasks[h].StartAdding? && n <= |w.tasks[h].users|
    requires forall k: nat :: k < n ==> f(Added(w, h, k)) == Added(w, h, k + 1)
    ensures Repeated(f, w, n) == Added(w, h, n)
  {
    if n == 0 {
      var t := w.tasks[h];
      assert t.users[..0] == [] && t.users[0..] == t.users;
      assert StartAdding(t.chat, t.isGroup, t.creator, t.users, t.intent) == t;
      assert w.tasks[h := t] == w.tasks;
    } else {
      RepeatedAdds(f, w, h, n - 1);
    }
  }

  lemma {:induction false} AddsAllAlone(payments: Payments, w: World, h: nat)
    requires h in w.tasks && w.tasks[h].StartAdding? && w.tasks[h].chat in w.stores.rooms.chats
    ensures var t := w.tasks[h];
            Repeated(AddWith(payments, h), w, |t.users| + 1) ==
            Done(w, h, (w.stores.(rooms := WithMembers(w.stores.rooms, t.chat, t.isGroup, t.creator, t.users)),
                        StartOk), t.intent)
  {
    var n := |w.tasks[h].users|;
    forall k: nat | k < n ensures AddWith(payments, h)(Added(w, h, k)) == Added(w, h, k + 1) {
      AddOne(payments, w, h, k);
    }
    RepeatedAdds(AddWith(payments, h), w, h, n);
    AddLast(payments, w, h);
  }

  // ----- The whole request -----

  /** From the created chat on. */
  lemma CreateAndAddAlone(payments: Payments, w: World, h: nat) returns (v: World, u: World)
    requires h in w.tasks && w.tasks[h].StartCreating?
    ensures Next(payments, w, StartCreate(h)) == v && Next(payments, v, StartMark(h)) == u
    ensures var t := w.tasks[h];
            Repeated(AddWith(payments, h), u, |t.users| + 1) ==
            Done(w, h, CreatedWith(w.stores, t.chat, t.isGroup, t.creator, t.users, t.intent), t.intent)
  {
    var t := w.tasks[h];
    CreateStep(payments, w, h);
    v := Next(payments, w, StartCreate(h));
    if t.intent.Some? && t.intent.value in w.stores.fulfilled {
      u := UsedPayment(payments, v, h);
      assert w.tasks[h := u.tasks[h]] == u.tasks;
    } else {
      u := MarkAndAdd(payments, v, h);
      assert w.tasks[h := Answered(StartOk, t.intent)] == v.tasks[h := Answered(StartOk, t.intent)];
    }
  }

  lemma UsedPayment(payments: Payments, v: World, h: nat) returns (u: World)
    requires h in v.tasks && v.tasks[h].StartCreated? && v.tasks[h].intent.Some?
    requires v.tasks[h].intent.value in v.stores.fulfilled
    ensures Next(payments, v, StartMark(h)) == u && u == Done(v, h, (v.stores, Denied), v.tasks[h].intent)
    ensures Repeated(AddWith(payments, h), u, |v.tasks[h].users| + 1) == u
  {
    MarkStep(payments, v, h);
    u := Next(payments, v, StartMark(h));
    assert v.stores.fulfilled + {v.tasks[h].intent.value} == v.stores.fulfilled;
    RefusedStays(payments, u, h, |v.tasks[h].users| + 1);
  }

  lemma MarkAndAdd(payments: Payments, v: World, h: nat) returns (u: World)
    requires h in v.tasks && (v.tasks[h].StartCreated? || v.tasks[h].StartAdding?)
             && v.tasks[h].chat in v.stores.rooms.chats
    requires v.tasks[h].StartCreated? <==> v.tasks[h].intent.Some?
    requires v.tasks[h].intent.Some? ==> v.tasks[h].intent.value !in v.stores.fulfilled
    ensures Next(payments, v, StartMark(h)) == u
    ensures var t := v.tasks[h];
            Repeated(AddWith(payments, h), u, |t.users| + 1) ==
            Done(v, h, (v.stores.(fulfilled := v.stores.fulfilled + (if t.intent.Some? then {t.intent.value} else {}),
                                  rooms := WithMembers(v.stores.rooms, t.chat, t.isGroup, t.creator, t.users)),
                                      StartOk), t.intent)
  {
    u := MarkAlone(payments, v, h);
    AddsAllAlone(payments, u, h);
    var done := Answered(StartOk, v.tasks[h].intent);
    assert u.tasks[h := done] == v.tasks[h := done];
  }

  lemma RefusedStays(payments: Payments, w: World, h: nat, n: nat)
    requires h in w.tasks && w.tasks[h].Answered?
    ensures Repeated(AddWith(payments, h), w, n) == w
  {
    AnsweredIsFinal(payments, w, h);
    RepeatedStays(AddWith(payments, h), w, n);
  }

  lemma MarkAlone(payments: Payments, v: World, h: nat) returns (u: World)
    requires h in v.tasks && (v.tasks[h].StartCreated? || v.tasks[h].StartAdding?)
    requires v.tasks[h].StartCreated? <==> v.tasks[h].intent.Some?
    requires v.tasks[h].intent.Some? ==> v.tasks[h].intent.value !in v.stores.fulfilled
    ensures var t := v.tasks[h];
            u == v.(stores := v.stores.(fulfilled := v.stores.fulfilled + if t.intent.Some? then {t.intent.value}
                                        else {}),
                    tasks := v.tasks[h := StartAdding(t.chat, t.isGroup, t.creator, t.users, t.intent)])
    ensures Next(payments, v, StartMark(h)) == u
  {
    var t := v.tasks[h];
    if t.intent.Some? {
      MarkStep(payments, v, h);
    } else {
      NothingToMark(payments, v, h);
      assert StartAdding(t.chat, t.isGroup, t.creator, t.users, t.intent) == t;
      assert v.tasks[h := t] == v.tasks;
    }
    u := Next(payments, v, StartMark(h));
  }

  lemma {:induction false} AllSteps(payments: Payments, w: World, h: nat, check: Step, n: nat, after: seq<World>)
    requires |after| == 3
    requires Next(payments, w, check) == after[0] && Next(payments, after[0], StartCreate(h)) == after[1]
    requires Next(payments, after[1], StartMark(h)) == after[2]
    ensures Run(payments, w, [check, StartCreate(h), StartMark(h)] + Adds(h, n))
            == Repeated(AddWith(payments, h), after[2], n)
  {
    ThreeSteps(payments, w, check, StartCreate(h), StartMark(h), after);
    RunIsFold(payments, w, [check, StartCreate(h), StartMark(h)]);
    RunIsFold(payments, w, [check, StartCreate(h), StartMark(h)] + Adds(h, n));
    FoldAppend(Stepper(payments), w, [check, StartCreate(h), StartMark(h)], Adds(h, n));
    AddsRepeat(Stepper(payments), after[2], h, n);
  }

  /** Undisturbed, the steps of StartChat do what the request is for. */
  lemma StartAlone(payments: Payments, w: World, h: nat, creator: UserId, parameters: Parameters, newChat: ChatId)
    requires h !in w.tasks && IsNewChatId(w, newChat)
    requires |creator| == UUID_LENGTH && (parameters.TwoWayChat? ==> |parameters.other| == UUID_LENGTH)
    ensures Run(payments, w, StartSteps(h, creator, parameters, newChat))
            == Done(w, h, StartRequest(w.stores, payments, creator, parameters, newChat), IntentOf(parameters))
  {
    var check, n := CheckStep(h, creator, parameters, newChat), |UsersOf(creator, parameters)| + 1;
    var after;
    if parameters.TwoWayChat? {
      after := StartTwoWayEnds(payments, w, h, creator, parameters.other);
    } else {
      after := StartGroupEnds(payments, w, check);
    }
    AllSteps(payments, w, h, check, n, after);
  }

  lemma {:induction false} StartTwoWayEnds(payments: Payments, w: World, h: nat, creator: UserId, other: UserId)
      returns (after: seq<World>)
    requires h !in w.tasks && |creator| == |other| == UUID_LENGTH
    ensures |after| == 3
    ensures Next(payments, w, StartTwoWay(h, creator, other)) == after[0]
    ensures Next(payments, after[0], StartCreate(h)) == after[1] && Next(payments, after[1], StartMark(h)) == after[2]
    ensures Repeated(AddWith(payments, h), after[2], 3) ==
            Done(w, h, CreatedWith(w.stores, TwoWayChatId(creator, other), false, creator, [creator, other], None),
                 None)
  {
    CheckTwoWay(payments, w, h, creator, other);
    var x := w.(tasks := w.tasks[h := StartCreating(TwoWayChatId(creator, other), false, creator, [creator, other],
                                                    None)]);
    var v, u := CreateAndAddAlone(payments, x, h);
    after := [x, v, u];
  }

  lemma StartGroupEnds(payments: Payments, w: World, step: Step) returns (after: seq<World>)
    requires step.StartGroup? && step.h !in w.tasks && IsNewChatId(w, step.newChat)
    ensures |after| == 3
    ensures Next(payments, w, step) == after[0]
    ensures Next(payments, after[0], StartCreate(step.h)) == after[1]
            && Next(payments, after[1], StartMark(step.h)) == after[2]
    ensures var users, refusal := step.users + [step.creator],
            RefusalOf(w.stores, payments, step.creator, step.intent, step.flagged);
            Repeated(AddWith(payments, step.h), after[2], |users| + 1) ==
            Done(w, step.h, if refusal.Some? then (w.stores, refusal.value)
                            else CreatedWith(w.stores, step.newChat, true, step.creator, users, step.intent),
                                step.intent)
  {
    CheckGroup(payments, w, step);
    var refusal := RefusalOf(w.stores, payments, step.creator, step.intent, step.flagged);
    if refusal.Some? {
      var x := w.(tasks := w.tasks[step.h := Answered(refusal.value, step.intent)]);
      AnsweredIsFinal(payments, x, step.h);
      RefusedStays(payments, x, step.h, |step.users| + 2);
      after := [x, x, x];
    } else {
      var x := w.(tasks := w.tasks[step.h :=
                                   StartCreating(step.newChat, true, step.creator, step.users + [step.creator],
                                                 step.intent)]);
      after := GroupEnds(payments, w, x, step.h);
    }
  }

  lemma GroupEnds(payments: Payments, w: World, x: World, h: nat) returns (after: seq<World>)
    requires h in x.tasks && x.tasks[h].StartCreating?
    requires x == w.(tasks := w.tasks[h := x.tasks[h]])
    ensures |after| == 3 && after[0] == x
    ensures Next(payments, x, StartCreate(h)) == after[1] && Next(payments, after[1], StartMark(h)) == after[2]
    ensures var t := x.tasks[h];
            Repeated(AddWith(payments, h), after[2], |t.users| + 1) ==
            Done(w, h, CreatedWith(w.stores, t.chat, t.isGroup, t.creator, t.users, t.intent), t.intent)
  {
    var t := x.tasks[h];
    var v, u := CreateAndAddAlone(payments, x, h);
    after := [x, v, u];
    var answer := CreatedWith(w.stores, t.chat, t.isGroup, t.creator, t.users, t.intent).1;
    assert x.tasks[h := Answered(answer, t.intent)] == w.tasks[h := Answered(answer, t.intent)];
  }
}
