/** The chat and messaging RPCs as interleaved steps over the stores.

    A handler runs as a task. Each of its store calls that changes anything is
    one step; the checks it makes before that are one step that reads. Steps of
    different tasks may come in any order. A step whose task is not at that
    point, or whose generated id is not new, leaves the world as it is. */
module Server {
  import opened Ids
  import opened Messages
  import opened Rooms
  import opened Authorizer

  datatype Answer = SendOk | StartOk | MuteOk(chat: ChatId, user: UserId) | OtherOk | NotRegistered | Denied | Failed

  /** What is left to do for one request. */
  datatype Task =
    | SendAllowed(chat: ChatId, user: UserId, content: Content, intent: Option<IntentId>, needsPayment: bool)
    | SendStored(chat: ChatId, user: UserId, content: Content, intent: Option<IntentId>, needsPayment: bool)
    | StartCreating(chat: ChatId, isGroup: bool, creator: UserId, users: seq<UserId>, intent: Option<IntentId>)
    | StartCreated(chat: ChatId, isGroup: bool, creator: UserId, users: seq<UserId>, intent: Option<IntentId>)
    | StartAdding(chat: ChatId, isGroup: bool, creator: UserId, users: seq<UserId>, intent: Option<IntentId>)
    | Joining(chat: ChatId, member: Member)
    | SettingSend(chat: ChatId, user: UserId, hasSendPermission: bool)
    | Muting(chat: ChatId, user: UserId)
    | Answered(answer: Answer, intent: Option<IntentId>)

  /** A stored message together with the request that stored it. */
  datatype Stored = Stored(chat: ChatId, msg: Message, intent: Option<IntentId>, needsPayment: bool)

  /** A tip whose payment was marked as used, as its two notifications are built. */
  datatype AcceptedTip = AcceptedTip(intent: IntentId, tipper: UserId, chat: ChatId, message: MessageId,
                                     author: UserId, quarks: nat)

  /** The stores, the tasks, and the history of stored messages and accepted tips. */
  datatype World = World(stores: Stores, tasks: map<nat, Task>, history: seq<Stored>, tips: seq<AcceptedTip>)

  datatype Step =
    | Register(user: UserId)
    | SendCheck(h: nat, chat: ChatId, user: UserId, content: Content, intent: Option<IntentId>)
    | SendPut(h: nat, id: MessageId, ts: int)
    | SendMark(h: nat)
    | Announce(chat: ChatId, text: string, id: MessageId, ts: int)
    | StartTwoWay(h: nat, creator: UserId, other: UserId)
    | StartGroup(h: nat, creator: UserId, users: seq<UserId>, intent: Option<IntentId>, flagged: bool, newChat: ChatId)
    | StartCreate(h: nat)
    | StartMark(h: nat)
    | StartAdd(h: nat)
    | JoinCheck(h: nat, chat: ChatId, user: UserId, withoutSendPermission: bool)
    | JoinAdd(h: nat)
    | Leave(chat: ChatId, user: UserId)
    | PromoteCheck(h: nat, chat: ChatId, caller: UserId, user: UserId, enableSend: bool)
    | DemoteCheck(h: nat, chat: ChatId, caller: UserId, user: UserId, disableSend: bool)
    | SetSend(h: nat)
    | MuteCheck(h: nat, chat: ChatId, caller: UserId, user: UserId)
    | MuteSet(h: nat)
    | SetOpen(chat: ChatId, caller: UserId, isOpen: bool)

  /** The one change a step makes to the stores. */
  datatype Effect =
    | Nothing
    | Registers(user: UserId)
    | SetsEntry(chat: ChatId, member: Member)
    | CreatesChat(md: Metadata)
    | Opens(chat: ChatId, isOpen: bool)
    | Puts(stored: Stored)
    | Fulfils(intent: IntentId, tip: Option<AcceptedTip>)

  datatype Outcome = Outcome(h: nat, task: Option<Task>, effect: Effect)

  const INITIAL := World(Stores(EMPTY, {}, map[], {}), map[], [], [])

  function NoChange(): Outcome { Outcome(0, None, Nothing) }

  function Becomes(h: nat, task: Task): Outcome { Outcome(h, Some(task), Nothing) }

  function Answers(h: nat, answer: Answer, intent: Option<IntentId>): Outcome
  {
    Outcome(h, Some(Answered(answer, intent)), Nothing)
  }

  function Affect(s: Stores, effect: Effect): Stores
  {
    match effect
    case Nothing => s
    case Registers(user) => s.(registered := s.registered + {user})
    case SetsEntry(chat, member) => s.(rooms := s.rooms.WithEntry(chat, member))
    case CreatesChat(md) => s.(rooms := s.rooms.WithChat(md))
    case Opens(chat, isOpen) =>
      if chat in s.rooms.chats then
        s.(rooms := s.rooms.(chats := s.rooms.chats[chat := s.rooms.chats[chat].(isOpen := isOpen)]))
      else s
    case Puts(stored) => s.(logs := s.logs[stored.chat := s.Log(stored.chat)[stored.msg.id := stored.msg]])
    case Fulfils(intent, _) => s.(fulfilled := s.fulfilled + {intent})
  }

  function Next(payments: Payments, w: World, step: Step): World
  {
    var o := Decide(payments, w, step);
    World(
      Affect(w.stores, o.effect),
      if o.task.Some? then w.tasks[o.h := o.task.value] else w.tasks,
      if o.effect.Puts? then w.history + [o.effect.stored] else w.history,
      if o.effect.Fulfils? && o.effect.tip.Some? then w.tips + [o.effect.tip.value] else w.tips)
  }

  function Run(payments: Payments, w: World, steps: seq<Step>): World
  {
    if steps == [] then w
    else Next(payments, Run(payments, w, steps[..|steps| - 1]), steps[|steps| - 1])
  }

  lemma {:induction false} RunOneMore(payments: Payments, w: World, steps: seq<Step>, step: Step)
    ensures Run(payments, w, steps + [step]) == Next(payments, Run(payments, w, steps), step)
  {
    assert (steps + [step])[..|steps|] == steps;
  }

  /** A run by any step function, for facts that do not depend on what a step does. */
  function Fold(next: (World, Step) -> World, w: World, steps: seq<Step>): World
  {
    if steps == [] then w else next(Fold(next, w, steps[..|steps| - 1]), steps[|steps| - 1])
  }

  function Stepper(payments: Payments): (World, Step) -> World
  {
    (v: World, step: Step) => Next(payments, v, step)
  }

  lemma {:induction false} RunIsFold(payments: Payments, w: World, steps: seq<Step>)
    ensures Run(payments, w, steps) == Fold(Stepper(payments), w, steps)
  {
    if steps != [] {
      RunIsFold(payments, w, steps[..|steps| - 1]);
    }
  }

  lemma {:induction false} FoldAppend(next: (World, Step) -> World, w: World, steps: seq<Step>, more: seq<Step>)
    ensures Fold(next, w, steps + more) == Fold(next, Fold(next, w, steps), more)
  {
    if more == [] {
      assert steps + more == steps;
    } else {
      FoldAppend(next, w, steps, more[..|more| - 1]);
      assert (steps + more)[..|steps + more| - 1] == steps + more[..|more| - 1];
    }
  }

  lemma RunAppend(payments: Payments, w: World, steps: seq<Step>, more: seq<Step>)
    ensures Run(payments, w, steps + more) == Run(payments, Run(payments, w, steps), more)
  {
    RunIsFold(payments, w, steps);
    RunIsFold(payments, w, steps + more);
    RunIsFold(payments, Run(payments, w, steps), more);
    FoldAppend(Stepper(payments), w, steps, more);
  }

  /** What holds at first and is kept by every step holds of every run. */
  lemma {:induction false} StepByStep(P: seq<Step> -> bool, steps: seq<Step>)
    requires P([]) && forall front, last :: P(front) ==> P(front + [last])
    ensures P(steps)
  {
    if steps != [] {
      StepByStep(P, steps[..|steps| - 1]);
      assert steps == steps[..|steps| - 1] + [steps[|steps| - 1]];
    }
  }

  lemma {:induction false} RunOfTwo(payments: Payments, w: World, a: Step, b: Step)
    ensures Run(payments, w, [a, b]) == Next(payments, Next(payments, w, a), b)
  {
    RunOneMore(payments, w, [], a);
    RunOneMore(payments, w, [a], b);
    assert [] + [a] == [a] && [a] + [b] == [a, b];
  }

  lemma {:induction false} RunOfThree(payments: Payments, w: World, a: Step, b: Step, c: Step)
    ensures Run(payments, w, [a, b, c]) == Next(payments, Next(payments, Next(payments, w, a), b), c)
  {
    RunOfTwo(payments, w, a, b);
    RunOneMore(payments, w, [a, b], c);
    assert [a, b] + [c] == [a, b, c];
  }

  function Decide(payments: Payments, w: World, step: Step): Outcome
  {
    match step
    case Register(user) => Outcome(0, None, Registers(user))
    case SendCheck(_, _, _, _, _) => DecideSend(payments, w, step)
    case SendPut(_, _, _) => DecideSend(payments, w, step)
    case SendMark(_) => DecideSend(payments, w, step)
    case Announce(chat, text, id, ts) =>
      if chat in w.stores.rooms.chats && id !in w.stores.Log(chat) then
        Outcome(0, None, Puts(Stored(chat, Message(id, None, Announcement(text), false, ts), None, false)))
      else NoChange()
    case StartTwoWay(_, _, _) => DecideStart(payments, w, step)
    case StartGroup(_, _, _, _, _, _) => DecideStart(payments, w, step)
    case StartCreate(_) => DecideStart(payments, w, step)
    case StartMark(_) => DecideStart(payments, w, step)
    case StartAdd(_) => DecideStart(payments, w, step)
    case _ => DecideMembership(w, step)
  }

  /** SendMessage: authorize, put, mark the payment as used. */
  function DecideSend(payments: Payments, w: World, step: Step): Outcome
  {
    match step
    case SendCheck(h, chat, user, content, intent) =>
      if h in w.tasks then NoChange()
      else if CanSendMessage(w.stores, payments, chat, user, content, intent) != Allow then Answers(h, Denied, intent)
      else Becomes(h, SendAllowed(chat, user, content, intent, NeedsPayment(w.stores, chat, user, content)))
    case SendPut(h, id, ts) =>
      if h in w.tasks && w.tasks[h].SendAllowed? && id !in w.stores.Log(w.tasks[h].chat) then
        var t := w.tasks[h];
        var offStage := t.intent.Some? && (t.content.Text? || t.content.Reply?);
        var stored := Stored(t.chat, Message(id, Some(t.user), t.content, offStage, ts), t.intent, t.needsPayment);
        Outcome(h,
                Some(if t.intent.Some? then SendStored(t.chat, t.user, t.content, t.intent, t.needsPayment)
                     else Answered(SendOk, None)),
                Puts(stored))
      else NoChange()
    case SendMark(h) =>
      if h in w.tasks && w.tasks[h].SendStored? && w.tasks[h].intent.Some? then
        var t := w.tasks[h];
        var intent := t.intent.value;
        if intent in w.stores.fulfilled then Answers(h, Denied, t.intent)
        else
          Outcome(h, Some(Answered(SendOk, t.intent)), Fulfils(intent, TipOf(payments, w.stores, t, intent)))
      else NoChange()
    case _ => NoChange()
  }

  /** The tip to notify about, once its payment is marked: its amount comes from
      the payment and its receiver from the message it points to. */
  function TipOf(payments: Payments, s: Stores, t: Task, intent: IntentId): Option<AcceptedTip>
    requires t.SendStored?
  {
    if !t.content.Tip? || intent !in payments || t.content.reference !in s.Log(t.chat) then None
    else
      var author := s.Log(t.chat)[t.content.reference].sender;
      if author.None? then None
      else Some(AcceptedTip(intent, t.user, t.chat, t.content.reference, author.value, payments[intent].quantity))
  }

  /** No chat has this id and no request is about to create one with it. */
  predicate IsNewChatId(w: World, chat: ChatId)
  {
    && |chat| == UUID_LENGTH
    && chat !in w.stores.rooms.chats
    && forall h :: h in w.tasks && w.tasks[h].StartCreating? ==> w.tasks[h].chat != chat
  }

  /** StartChat: check, create, mark the payment as used, add members one by one. */
  function DecideStart(payments: Payments, w: World, step: Step): Outcome
  {
    match step
    case StartTwoWay(h, creator, other) =>
      if h in w.tasks || |creator| != UUID_LENGTH || |other| != UUID_LENGTH then NoChange()
      else Becomes(h, StartCreating(TwoWayChatId(creator, other), false, creator, [creator, other], None))
    case StartGroup(h, creator, users, intent, flagged, newChat) =>
      if h in w.tasks || !IsNewChatId(w, newChat) then NoChange()
      else if intent.None? || intent.value in w.stores.fulfilled then Answers(h, Denied, intent)
      else
        var (decision, metadata) := LoadMetadata(payments, intent.value, (m: PaymentMetadata) => m.ForGroup?);
        if decision == Deny(MetadataMissing) then Answers(h, Denied, intent)
        else if decision.Deny? then Answers(h, Failed, intent)
        else if metadata.user != creator then Answers(h, Denied, intent)
        else if flagged then Answers(h, Denied, intent)
        else Becomes(h, StartCreating(newChat, true, creator, users + [creator], intent))
    case StartCreate(h) =>
      if h in w.tasks && w.tasks[h].StartCreating? then
        var t := w.tasks[h];
        var next := if t.intent.Some? then StartCreated(t.chat, t.isGroup, t.creator, t.users, t.intent)
                    else StartAdding(t.chat, t.isGroup, t.creator, t.users, t.intent);
        Outcome(h, Some(next),
                if t.chat in w.stores.rooms.chats then Nothing
                else CreatesChat(Metadata(t.chat, if t.isGroup then Group else TwoWay,
                                          if t.isGroup then Some(t.creator) else None, w.stores.rooms.nextRoom, true)))
      else NoChange()
    case StartMark(h) =>
      if h in w.tasks && w.tasks[h].StartCreated? && w.tasks[h].intent.Some? then
        var t := w.tasks[h];
        if t.intent.value in w.stores.fulfilled then Answers(h, Denied, t.intent)
        else Outcome(h, Some(StartAdding(t.chat, t.isGroup, t.creator, t.users, t.intent)),
                     Fulfils(t.intent.value, None))
      else NoChange()
    case StartAdd(h) =>
      if h in w.tasks && w.tasks[h].StartAdding? then
        var t := w.tasks[h];
        if t.users == [] then Outcome(h, Some(Answered(StartOk, t.intent)), Nothing)
        else
          var user := t.users[0];
          var member := Member(user, Some(t.creator), false, false, t.isGroup && user == t.creator, true, false);
          if t.chat !in w.stores.rooms.chats then Answers(h, Failed, t.intent)
          else Outcome(h, Some(t.(users := t.users[1..])),
                       SetsEntry(t.chat, Joined(w.stores.rooms.Entry(t.chat, user), member)))
      else NoChange()
    case _ => NoChange()
  }

  /** The caller owns the group chat and acts on another member. */
  predicate OwnerActsOnMember(s: Stores, chat: ChatId, caller: UserId, user: UserId)
  {
    caller != user && s.IsOwner(chat, caller) && s.rooms.IsActive(chat, user)
  }

  function LeaveEffect(s: Stores, chat: ChatId, user: UserId): Effect
  {
    if s.rooms.Entry(chat, user).Some? then SetsEntry(chat, Departed(s.rooms.Entry(chat, user).value)) else Nothing
  }

  /** Only the owner of a group opens or closes it. */
  function OpenEffect(s: Stores, chat: ChatId, caller: UserId, isOpen: bool): Effect
  {
    if s.IsOwner(chat, caller) && s.rooms.chats[chat].kind == Group then Opens(chat, isOpen) else Nothing
  }

  function DecideMembership(w: World, step: Step): Outcome
  {
    var rooms := w.stores.rooms;
    match step
    case JoinCheck(h, chat, user, withoutSendPermission) =>
      if h in w.tasks then NoChange()
      else if chat !in rooms.chats then Answers(h, Failed, None)
      else
        var isOwner := w.stores.IsOwner(chat, user);
        if !isOwner && !withoutSendPermission then Answers(h, Denied, None)
        else Becomes(h, Joining(chat, Member(user, None, true, false, isOwner, isOwner, false)))
    case JoinAdd(h) =>
      if h in w.tasks && w.tasks[h].Joining? then
        var t := w.tasks[h];
        if t.chat !in rooms.chats then Answers(h, Failed, None)
        else Outcome(h, Some(Answered(OtherOk, None)),
                     SetsEntry(t.chat, Joined(rooms.Entry(t.chat, t.member.userID), t.member)))
      else NoChange()
    case Leave(chat, user) => Outcome(0, None, LeaveEffect(w.stores, chat, user))
    case PromoteCheck(h, chat, caller, user, enableSend) =>
      if h in w.tasks then NoChange()
      else if !(OwnerActsOnMember(w.stores, chat, caller, user) && rooms.chats[chat].kind == Group)
          then Answers(h, Denied, None)
      else if user !in w.stores.registered then Answers(h, Answer.NotRegistered, None)
      else if !enableSend || rooms.Entry(chat, user).value.hasSendPermission then Answers(h, OtherOk, None)
      else Becomes(h, SettingSend(chat, user, true))
    case DemoteCheck(h, chat, caller, user, disableSend) =>
      if h in w.tasks then NoChange()
      else if !(OwnerActsOnMember(w.stores, chat, caller, user) && rooms.chats[chat].kind == Group)
          then Answers(h, Denied, None)
      else if !disableSend || !rooms.Entry(chat, user).value.hasSendPermission then Answers(h, OtherOk, None)
      else Becomes(h, SettingSend(chat, user, false))
    case SetSend(h) =>
      if h in w.tasks && w.tasks[h].SettingSend? then
        var t := w.tasks[h];
        var entry := rooms.Entry(t.chat, t.user);
        if entry.None? then Answers(h, Failed, None)
        else Outcome(h, Some(Answered(OtherOk, None)),
                     if rooms.IsActive(t.chat, t.user)
                     then SetsEntry(t.chat, entry.value.(hasSendPermission := t.hasSendPermission))
                     else Nothing)
      else NoChange()
    case MuteCheck(h, chat, caller, user) =>
      if h in w.tasks then NoChange()
      else if !OwnerActsOnMember(w.stores, chat, caller, user) then Answers(h, Denied, None)
      else if rooms.Entry(chat, user).value.isMuted then Answers(h, MuteOk(chat, user), None)
      else Becomes(h, Muting(chat, user))
    case MuteSet(h) =>
      if h in w.tasks && w.tasks[h].Muting? then
        var t := w.tasks[h];
        if !rooms.IsActive(t.chat, t.user) then Answers(h, Failed, None)
        else Outcome(h, Some(Answered(MuteOk(t.chat, t.user), None)),
                     SetsEntry(t.chat, rooms.Entry(t.chat, t.user).value.(isMuted := true)))
      else NoChange()
    case SetOpen(chat, caller, isOpen) => Outcome(0, None, OpenEffect(w.stores, chat, caller, isOpen))
    case _ => NoChange()
  }

  /** What checking a message to send comes to. */
  lemma SendCheckStep(payments: Payments, w: World, step: Step)
    requires step.SendCheck?
    ensures var allowed := CanSendMessage(w.stores, payments, step.chat, step.user, step.content, step.intent) == Allow;
            Next(payments, w, step) ==
            if step.h in w.tasks then w
            else w.(tasks := w.tasks[step.h :=
                      if !allowed then Answered(Denied, step.intent)
                      else SendAllowed(step.chat, step.user, step.content, step.intent,
                                       NeedsPayment(w.stores, step.chat, step.user, step.content))])
  {
  }

  /** What a step may store that does not belong to SendMessage: an announcement. */
  predicate IsAnnouncement(step: Step, stored: Stored)
  {
    && step.Announce? && stored.chat == step.chat && stored.msg.id == step.id
    && stored.msg.sender.None? && stored.msg.content.Announcement? && stored.intent.None? && !stored.needsPayment
  }

  predicate SendsNothing(tasks: map<nat, Task>, o: Outcome)
  {
    && (o.task.Some? ==> !o.task.value.SendAllowed? && !o.task.value.SendStored?)
    && (o.task.Some? && o.h in tasks ==> !tasks[o.h].SendAllowed? && !tasks[o.h].SendStored?)
    && (o.effect.Fulfils? ==> o.effect.tip.None?)
  }

  lemma {:induction false} StartSendsNothing(payments: Payments, w: World, step: Step)
    ensures var o := DecideStart(payments, w, step); SendsNothing(w.tasks, o) && !o.effect.Puts?
  {
  }

  lemma {:induction false} MembershipSendsNothing(w: World, step: Step)
    ensures var o := DecideMembership(w, step);
            SendsNothing(w.tasks, o) && !o.effect.Puts? && !o.effect.Fulfils? && !o.effect.CreatesChat?
  {
  }

  lemma {:induction false} OtherStepsSendNothing(payments: Payments, w: World, step: Step)
    requires !step.SendCheck? && !step.SendPut? && !step.SendMark?
    ensures var o := Decide(payments, w, step);
            && SendsNothing(w.tasks, o)
            && (o.effect.Puts? ==>
                  && IsAnnouncement(step, o.effect.stored)
                  && step.chat in w.stores.rooms.chats && step.id !in w.stores.Log(step.chat))
  {
    StartSendsNothing(payments, w, step);
    MembershipSendsNothing(w, step);
  }

  /** A message that is put is an announcement or belongs to a request that passed its check. */
  lemma {:induction false} PutComesFrom(payments: Payments, w: World, step: Step)
    ensures var o := Decide(payments, w, step);
            o.effect.Puts? ==>
              var stored := o.effect.stored;
              && stored.msg.id !in w.stores.Log(stored.chat)
              && if step.SendPut? then
                   && step.h in w.tasks && w.tasks[step.h].SendAllowed?
                   && var t := w.tasks[step.h];
                      && stored.chat == t.chat && stored.msg.id == step.id
                      && stored.msg.sender == Some(t.user) && stored.msg.content == t.content
                      && stored.intent == t.intent && stored.needsPayment == t.needsPayment
                 else IsAnnouncement(step, stored) && step.chat in w.stores.rooms.chats
  {
    if !step.SendCheck? && !step.SendPut? && !step.SendMark? {
      OtherStepsSendNothing(payments, w, step);
    }
  }

  /** A request is let through to send only by its check. */
  lemma {:induction false} AllowedComesFrom(payments: Payments, w: World, step: Step)
    ensures var o := Decide(payments, w, step);
            o.task.Some? && o.task.value.SendAllowed? ==>
              && step.SendCheck? && o.h == step.h && step.h !in w.tasks && o.effect.Nothing?
              && CanSendMessage(w.stores, payments, step.chat, step.user, step.content, step.intent) == Allow
              && o.task.value == SendAllowed(step.chat, step.user, step.content, step.intent,
                                             NeedsPayment(w.stores, step.chat, step.user, step.content))
  {
    if !step.SendCheck? && !step.SendPut? && !step.SendMark? {
      OtherStepsSendNothing(payments, w, step);
    }
  }

  /** The points a request goes through, in this order. */
  predicate CanFollow(t: Task, next: Task)
  {
    match t
    case SendAllowed(chat, user, content, intent, needsPayment) =>
      next == if intent.Some? then SendStored(chat, user, content, intent, needsPayment) else Answered(SendOk, None)
    case StartCreating(chat, isGroup, creator, users, intent) =>
      next == if intent.Some? then StartCreated(chat, isGroup, creator, users, intent)
              else StartAdding(chat, isGroup, creator, users, intent)
    case StartCreated(chat, isGroup, creator, users, intent) =>
      next.Answered? || next == StartAdding(chat, isGroup, creator, users, intent)
    case StartAdding(_, _, _, _, _) => next.Answered? || next.StartAdding?
    case Answered(_, _) => false
    case _ => next.Answered?
  }

  predicate MovesOn(tasks: map<nat, Task>, o: Outcome)
  {
    o.task.Some? && o.h in tasks ==> CanFollow(tasks[o.h], o.task.value)
  }

  lemma {:induction false} SendMovesOn(payments: Payments, w: World, step: Step)
    ensures MovesOn(w.tasks, DecideSend(payments, w, step))
  {
  }

  lemma {:induction false} StartMovesOn(payments: Payments, w: World, step: Step)
    ensures MovesOn(w.tasks, DecideStart(payments, w, step))
  {
  }

  lemma {:induction false} MembershipMovesOn(w: World, step: Step)
    ensures MovesOn(w.tasks, DecideMembership(w, step))
  {
  }

  lemma {:induction false} StepMovesOn(payments: Payments, w: World, step: Step)
    ensures MovesOn(w.tasks, Decide(payments, w, step))
  {
    SendMovesOn(payments, w, step);
    StartMovesOn(payments, w, step);
    MembershipMovesOn(w, step);
  }

  /** Of a request that is there, a step leaves what was or what can follow. */
  lemma {:induction false} TaskAfterStep(payments: Payments, w: World, step: Step, h: nat)
    requires h in w.tasks
    ensures var v := Next(payments, w, step);
            h in v.tasks && (v.tasks[h] == w.tasks[h] || CanFollow(w.tasks[h], v.tasks[h]))
  {
    StepMovesOn(payments, w, step);
  }
}
