/** What one RPC does to the stores when no other request comes in between, and
    that the interleaved steps of the request, taken alone, do just that. */
module Requests {
  import opened Ids
  import opened Messages
  import opened Rooms
  import opened Authorizer
  import opened Server

  /** The request has been answered and the stores look like this. */
  function Done(w: World, h: nat, result: (Stores, Answer), intent: Option<IntentId>): World
  {
    w.(stores := result.0, tasks := w.tasks[h := Answered(result.1, intent)])
  }

  lemma ThreeSteps(payments: Payments, w: World, a: Step, b: Step, c: Step, after: seq<World>)
    requires |after| == 3
    requires Next(payments, w, a) == after[0] && Next(payments, after[0], b) == after[1]
             && Next(payments, after[1], c) == after[2]
    ensures Run(payments, w, [a, b]) == after[1] && Run(payments, w, [a, b, c]) == after[2]
  {
    RunOfThree(payments, w, a, b, c);
    assert [a, b][..1] == [a] && [a][..0] == [];
    assert Run(payments, w, [a]) == Next(payments, Run(payments, w, []), a);
  }

  // ----- SendMessage -----

  function SentMessage(user: UserId, content: Content, intent: Option<IntentId>, id: MessageId, ts: int): Message
  {
    Message(id, Some(user), content, intent.Some? && (content.Text? || content.Reply?), ts)
  }

  /** A message that is allowed is stored, and any payment sent along is used up,
      even one that was not needed. */
  function SendRequest(s: Stores, payments: Payments, chat: ChatId, user: UserId, content: Content,
                       intent: Option<IntentId>, id: MessageId, ts: int): (Stores, Answer)
  {
    if CanSendMessage(s, payments, chat, user, content, intent) == Allow
        then Accept(s, chat, SentMessage(user, content, intent, id, ts), intent)
    else (s, Denied)
  }

  function Accept(s: Stores, chat: ChatId, msg: Message, intent: Option<IntentId>): (Stores, Answer)
  {
    var stored := s.(logs := s.logs[chat := s.Log(chat)[msg.id := msg]]);
    if intent.None? then (stored, SendOk)
    else (stored.(fulfilled := s.fulfilled + {intent.value}), if intent.value in s.fulfilled then Denied else SendOk)
  }

  lemma SendPutStep(payments: Payments, w: World, h: nat, id: MessageId, ts: int)
    requires h in w.tasks
    ensures var t, v := w.tasks[h], Next(payments, w, SendPut(h, id, ts));
            if t.SendAllowed? && id !in w.stores.Log(t.chat) then
              var msg := SentMessage(t.user, t.content, t.intent, id, ts);
              v == w.(stores := w.stores.(logs := w.stores.logs[t.chat := w.stores.Log(t.chat)[id := msg]]),
                      tasks := w.tasks[h := if t.intent.Some?
                                       then SendStored(t.chat, t.user, t.content, t.intent, t.needsPayment)
                                            else Answered(SendOk, None)],
                      history := w.history + [Stored(t.chat, msg, t.intent, t.needsPayment)])
            else v == w
  {
  }

  lemma SendMarkStep(payments: Payments, w: World, h: nat)
    requires h in w.tasks
    ensures var t, v := w.tasks[h], Next(payments, w, SendMark(h));
            if t.SendStored? && t.intent.Some? then
              && v.stores == w.stores.(fulfilled := w.stores.fulfilled + {t.intent.value})
              && v.tasks == w.tasks[h := Answered(if t.intent.value in w.stores.fulfilled then Denied else SendOk,
                                                  t.intent)]
              && v.history == w.history
            else v == w
  {
    var t := w.tasks[h];
    if t.SendStored? && t.intent.Some? && t.intent.value in w.stores.fulfilled {
      assert w.stores.fulfilled + {t.intent.value} == w.stores.fulfilled;
    }
  }

  lemma AcceptedEnds(w: World, payments: Payments, u: World, h: nat, chat: ChatId, user: UserId, content: Content,
                     intent: Option<IntentId>, needsPayment: bool, id: MessageId, ts: int) returns (after: seq<World>)
    requires h !in w.tasks && id !in w.stores.Log(chat)
    requires u == w.(tasks := w.tasks[h := SendAllowed(chat, user, content, intent, needsPayment)])
    ensures |after| == 3 && after[0] == u
    ensures Next(payments, u, SendPut(h, id, ts)) == after[1] && Next(payments, after[1], SendMark(h)) == after[2]
    ensures after[2].(history := w.history, tips := w.tips) ==
            Done(w, h, Accept(w.stores, chat, SentMessage(user, content, intent, id, ts), intent), intent)
  {
    var msg := SentMessage(user, content, intent, id, ts);
    var v := u.(stores := w.stores.(logs := w.stores.logs[chat := w.stores.Log(chat)[id := msg]]),
                tasks := w.tasks[h := if intent.Some? then SendStored(chat, user, content, intent, needsPayment)
                                 else Answered(SendOk, None)],
                history := w.history + [Stored(chat, msg, intent, needsPayment)]);
    SendPutStep(payments, u, h, id, ts);
    assert u.tasks[h := v.tasks[h]] == v.tasks;
    after := MarkEnds(w, h, payments, u, v, intent);
  }

  lemma DeniedEnds(w: World, payments: Payments, h: nat, id: MessageId, ts: int)
    requires h in w.tasks && w.tasks[h].Answered?
    ensures Next(payments, w, SendPut(h, id, ts)) == Next(payments, w, SendMark(h)) == w
  {
  }

  lemma MarkEnds(w: World, h: nat, payments: Payments, u: World, v: World, intent: Option<IntentId>)
      returns (after: seq<World>)
    requires h in v.tasks && v.tasks == w.tasks[h := v.tasks[h]] && v.tips == w.tips
    requires if intent.None? then v.tasks[h] == Answered(SendOk, None)
             else v.tasks[h].SendStored? && v.tasks[h].intent == intent
    ensures |after| == 3 && after[0] == u && after[1] == v && after[2] == Next(payments, v, SendMark(h))
    ensures var s := v.stores;
            after[2].(history := w.history, tips := w.tips) ==
            Done(w, h, if intent.None? then (s, SendOk)
                       else (s.(fulfilled := s.fulfilled + {intent.value}),
                             if intent.value in s.fulfilled then Denied else SendOk), intent)
  {
    SendMarkStep(payments, v, h);
    var x := Next(payments, v, SendMark(h));
    assert x.tasks == w.tasks[h := x.tasks[h]];
    return [u, v, x];
  }

  /** Undisturbed, the three steps of SendMessage do what the request is for. */
  lemma SendAlone(payments: Payments, w: World, h: nat, chat: ChatId, user: UserId, content: Content,
                  intent: Option<IntentId>, id: MessageId, ts: int)
    requires h !in w.tasks && id !in w.stores.Log(chat)
    ensures Run(payments, w, [SendCheck(h, chat, user, content, intent), SendPut(h, id, ts), SendMark(h)])
            .(history := w.history, tips := w.tips)
            == Done(w, h, SendRequest(w.stores, payments, chat, user, content, intent, id, ts), intent)
  {
    var check, after := SendCheck(h, chat, user, content, intent), [];
    SendCheckStep(payments, w, check);
    var u := Next(payments, w, check);
    if CanSendMessage(w.stores, payments, chat, user, content, intent) == Allow {
      after := AcceptedEnds(w, payments, u, h, chat, user, content, intent,
                            NeedsPayment(w.stores, chat, user, content), id, ts);
    } else {
      DeniedEnds(u, payments, h, id, ts);
      after := [u, u, u];
    }
    ThreeSteps(payments, w, check, SendPut(h, id, ts), SendMark(h), after);
  }

  /** The sender is told "denied" although the message was stored exactly when it
      came with a used payment that it did not need. */
  lemma {:induction false} DeniedButStoredExactlyWhen(s: Stores, payments: Payments, chat: ChatId, user: UserId,
                                                      content: Content,
                                   intent: Option<IntentId>, id: MessageId, ts: int)
    requires id !in s.Log(chat)
    ensures var (after, answer) := SendRequest(s, payments, chat, user, content, intent, id, ts);
            answer == Denied && id in after.Log(chat) <==>
              && CanSendMessage(s, payments, chat, user, content, None) == Allow
              && !NeedsPayment(s, chat, user, content)
              && intent.Some? && intent.value in s.fulfilled
  {
    AllowedByRules(s, payments, chat, user, content, intent);
    AllowedByRules(s, payments, chat, user, content, None);
  }

  // ----- Moderation, joining, leaving, opening -----

  lemma TwoSteps(payments: Payments, w: World, a: Step, b: Step, middle: World, after: World)
    requires Next(payments, w, a) == middle && Next(payments, middle, b) == after
    ensures Run(payments, w, [a, b]) == after
  {
    assert [a, b][..1] == [a] && [a][..0] == [];
    assert Run(payments, w, [a]) == Next(payments, Run(payments, w, []), a);
  }

  /** An owner mutes another active member for good. */
  function MuteRequest(s: Stores, chat: ChatId, caller: UserId, user: UserId): (Stores, Answer)
  {
    if !OwnerActsOnMember(s, chat, caller, user) then (s, Denied)
    else if s.rooms.Entry(chat, user).value.isMuted then (s, MuteOk(chat, user))
    else (s.(rooms := s.rooms.WithEntry(chat, s.rooms.Entry(chat, user).value.(isMuted := true))), MuteOk(chat, user))
  }

  /** An owner of a group lets another active member speak. */
  function PromoteRequest(s: Stores, chat: ChatId, caller: UserId, user: UserId, enableSend: bool): (Stores, Answer)
  {
    if !OwnerActsOnMember(s, chat, caller, user) || s.rooms.chats[chat].kind != Group then (s, Denied)
    else if user !in s.registered then (s, Answer.NotRegistered)
    else SetSendRequest(s, chat, user, enableSend, true)
  }

  /** An owner of a group makes another active member a listener. */
  function DemoteRequest(s: Stores, chat: ChatId, caller: UserId, user: UserId, disableSend: bool): (Stores, Answer)
  {
    if !OwnerActsOnMember(s, chat, caller, user) || s.rooms.chats[chat].kind != Group then (s, Denied)
    else SetSendRequest(s, chat, user, disableSend, false)
  }

  function SetSendRequest(s: Stores, chat: ChatId, user: UserId, wanted: bool, permission: bool): (Stores, Answer)
    requires s.rooms.IsActive(chat, user)
  {
    var entry := s.rooms.Entry(chat, user).value;
    if wanted && entry.hasSendPermission != permission then
      (s.(rooms := s.rooms.WithEntry(chat, entry.(hasSendPermission := permission))), OtherOk)
    else (s, OtherOk)
  }

  /** The owner joins with every permission and a spectator with none; a mute stays. */
  function JoinRequest(s: Stores, chat: ChatId, user: UserId, withoutSendPermission: bool): (Stores, Answer)
  {
    if chat !in s.rooms.chats then (s, Failed)
    else if !s.IsOwner(chat, user) && !withoutSendPermission then (s, Denied)
    else
      var isOwner := s.IsOwner(chat, user);
      var before := s.rooms.Entry(chat, user);
      var wasMuted := before.Some? && before.value.isMuted;
      (s.(rooms := s.rooms.WithEntry(chat, Member(user, None, true, wasMuted, isOwner, isOwner, false))), OtherOk)
  }

  function LeaveRequest(s: Stores, chat: ChatId, user: UserId): Stores
  {
    Affect(s, LeaveEffect(s, chat, user))
  }

  function OpenRequest(s: Stores, chat: ChatId, caller: UserId, isOpen: bool): (Stores, Answer)
  {
    var effect := OpenEffect(s, chat, caller, isOpen);
    (Affect(s, effect), if effect.Nothing? then Denied else OtherOk)
  }

  /** Leaving touches no chat, no message, no payment and no request. */
  lemma {:induction false} LeaveAlone(payments: Payments, w: World, chat: ChatId, user: UserId)
    ensures var v := Next(payments, w, Leave(chat, user));
            && v == w.(stores := LeaveRequest(w.stores, chat, user))
            && v.stores == w.stores.(rooms := w.stores.rooms.(members := v.stores.rooms.members))
  {
  }

  /** Opening or closing changes whether a group is open, at its owner's request, and
      nothing else about any chat. */
  lemma {:induction false} OpenAlone(payments: Payments, w: World, chat: ChatId, caller: UserId, isOpen: bool,
                                     c: ChatId)
    ensures var v := Next(payments, w, SetOpen(chat, caller, isOpen));
            && v == w.(stores := OpenRequest(w.stores, chat, caller, isOpen).0)
            && v.stores == w.stores.(rooms := w.stores.rooms.(chats := v.stores.rooms.chats))
            && (c in v.stores.rooms.chats <==> c in w.stores.rooms.chats)
            && (c in w.stores.rooms.chats ==>
                  var md := w.stores.rooms.chats[c];
                  v.stores.rooms.chats[c] ==
                  if c == chat && md.owner == Some(caller) && md.kind == Group then md.(isOpen := isOpen) else md)
  {
  }

  lemma Overwritten(w: World, h: nat, task: Task, answer: Answer)
    ensures w.tasks[h := task][h := Answered(answer, None)] == w.tasks[h := Answered(answer, None)]
  {
  }

  lemma MuteAlone(payments: Payments, w: World, h: nat, chat: ChatId, caller: UserId, user: UserId)
    requires h !in w.tasks
    ensures Run(payments, w, [MuteCheck(h, chat, caller, user), MuteSet(h)])
            == Done(w, h, MuteRequest(w.stores, chat, caller, user), None)
  {
    var v := Next(payments, w, MuteCheck(h, chat, caller, user));
    assert v.stores == w.stores && v == w.(tasks := w.tasks[h := v.tasks[h]]);
    MuteSetStep(payments, v, h);
    Overwritten(w, h, v.tasks[h], MuteOk(chat, user));
    TwoSteps(payments, w, MuteCheck(h, chat, caller, user), MuteSet(h), v, Next(payments, v, MuteSet(h)));
  }

  lemma MuteSetStep(payments: Payments, w: World, h: nat)
    requires h in w.tasks
    ensures var t, v := w.tasks[h], Next(payments, w, MuteSet(h));
            if t.Muting? && w.stores.rooms.IsActive(t.chat, t.user) then
              var entry := w.stores.rooms.Entry(t.chat, t.user).value;
              var rooms := w.stores.rooms.WithEntry(t.chat, entry.(isMuted := true));
              v == Done(w, h, (w.stores.(rooms := rooms), MuteOk(t.chat, t.user)), None)
            else t.Answered? ==> v == w
  {
  }

  lemma SetSendStep(payments: Payments, w: World, h: nat)
    requires h in w.tasks
    ensures var t, v := w.tasks[h], Next(payments, w, SetSend(h));
            if t.SettingSend? && w.stores.rooms.IsActive(t.chat, t.user) then
              var entry := w.stores.rooms.Entry(t.chat, t.user).value;
              var rooms := w.stores.rooms.WithEntry(t.chat, entry.(hasSendPermission := t.hasSendPermission));
              v == Done(w, h, (w.stores.(rooms := rooms), OtherOk), None)
            else t.Answered? ==> v == w
  {
  }

  lemma PromoteAlone(payments: Payments, w: World, h: nat, chat: ChatId, caller: UserId, user: UserId, enableSend: bool)
    requires h !in w.tasks
    ensures Run(payments, w, [PromoteCheck(h, chat, caller, user, enableSend), SetSend(h)])
            == Done(w, h, PromoteRequest(w.stores, chat, caller, user, enableSend), None)
  {
    var v := Next(payments, w, PromoteCheck(h, chat, caller, user, enableSend));
    assert v.stores == w.stores && v == w.(tasks := w.tasks[h := v.tasks[h]]);
    SetSendStep(payments, v, h);
    Overwritten(w, h, v.tasks[h], OtherOk);
    TwoSteps(payments, w, PromoteCheck(h, chat, caller, user, enableSend), SetSend(h), v,
             Next(payments, v, SetSend(h)));
  }

  lemma DemoteAlone(payments: Payments, w: World, h: nat, chat: ChatId, caller: UserId, user: UserId, disableSend: bool)
    requires h !in w.tasks
    ensures Run(payments, w, [DemoteCheck(h, chat, caller, user, disableSend), SetSend(h)])
            == Done(w, h, DemoteRequest(w.stores, chat, caller, user, disableSend), None)
  {
    var v := Next(payments, w, DemoteCheck(h, chat, caller, user, disableSend));
    assert v.stores == w.stores && v == w.(tasks := w.tasks[h := v.tasks[h]]);
    SetSendStep(payments, v, h);
    Overwritten(w, h, v.tasks[h], OtherOk);
    TwoSteps(payments, w, DemoteCheck(h, chat, caller, user, disableSend), SetSend(h), v,
             Next(payments, v, SetSend(h)));
  }

  lemma JoinAddStep(payments: Payments, w: World, h: nat)
    requires h in w.tasks
    ensures var t, v := w.tasks[h], Next(payments, w, JoinAdd(h));
            if t.Joining? && t.chat in w.stores.rooms.chats then
              v == Done(w, h, (w.stores.(rooms := w.stores.rooms.WithEntry(t.chat,
                                 Joined(w.stores.rooms.Entry(t.chat, t.member.userID), t.member))), OtherOk), None)
            else t.Answered? ==> v == w
  {
  }

  lemma JoinAlone(payments: Payments, w: World, h: nat, chat: ChatId, user: UserId, withoutSendPermission: bool)
    requires h !in w.tasks
    ensures Run(payments, w, [JoinCheck(h, chat, user, withoutSendPermission), JoinAdd(h)])
            == Done(w, h, JoinRequest(w.stores, chat, user, withoutSendPermission), None)
  {
    var v := Next(payments, w, JoinCheck(h, chat, user, withoutSendPermission));
    assert v.stores == w.stores && v == w.(tasks := w.tasks[h := v.tasks[h]]);
    JoinAddStep(payments, v, h);
    Overwritten(w, h, v.tasks[h], OtherOk);
    TwoSteps(payments, w, JoinCheck(h, chat, user, withoutSendPermission), JoinAdd(h), v,
             Next(payments, v, JoinAdd(h)));
  }
}
