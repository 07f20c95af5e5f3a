/** Runs from the empty server in which what one might expect fails. */
module FailingRuns {
  import opened Ids
  import opened Messages
  import opened Rooms
  import opened Authorizer
  import opened Server
  import opened PaymentProofs
  import opened MembershipProofs
  import opened Requests
  import opened StartRequests
  import opened NotificationIds
  import opened TipLedger
  import opened TipProofs
  import opened DoubleStore

  // ----- A message that is no tip uses up the payment for a tip -----

  lemma {:induction false} TextMarkKeepsTips(payments: Payments, w: World, h: nat)
    requires h in w.tasks && w.tasks[h].SendStored? && w.tasks[h].content.Text?
    ensures Next(payments, w, SendMark(h)).tips == w.tips
  {
  }

  lemma {:induction false} TipsNeedPayments(payments: Payments, steps: seq<Step>)
    requires Run(payments, INITIAL, steps).tips != []
    ensures Run(payments, INITIAL, steps).stores.fulfilled != {}
  {
    TipsAlwaysBacked(payments, steps);
    assert Run(payments, INITIAL, steps).tips[0] in Run(payments, INITIAL, steps).tips;
  }

  lemma {:induction false} PaidTextSteps(payments: Payments, w: World, chat: ChatId, user: UserId, intent: IntentId,
                                         id: MessageId)
    requires CanSpeak(w.stores, chat, user) && w.stores.fulfilled == {} && w.tips == [] && 2 !in w.tasks
    requires id !in w.stores.Log(chat)
    ensures var check := SendCheck(2, chat, user, Text(""), Some(intent));
            var v := Next(payments, Next(payments, Next(payments, w, check), SendPut(2, id, 0)), SendMark(2));
            && v.tasks == w.tasks[2 := Answered(SendOk, Some(intent))]
            && v.stores.fulfilled == {intent} && v.tips == []
  {
    var check := SendCheck(2, chat, user, Text(""), Some(intent));
    AllowedByRules(w.stores, payments, chat, user, Text(""), Some(intent));
    SendCheckStep(payments, w, check);
    var u := Next(payments, w, check);
    SendPutStep(payments, u, 2, id, 0);
    var x := Next(payments, u, SendPut(2, id, 0));
    SendMarkStep(payments, x, 2);
    TextMarkKeepsTips(payments, x, 2);
    assert x.tasks[2 := Answered(SendOk, Some(intent))] == w.tasks[2 := Answered(SendOk, Some(intent))];
  }

  /** For any two users, a payment of 5 for a tip is used up by a text and answered
      OK, while nobody is notified of any tip. */
  lemma {:induction false} TextUsesUpTipPayment(user: UserId, other: UserId, id: MessageId, x: MessageId,
                                                intent: IntentId)
    returns (payments: Payments, steps: seq<Step>)
    requires |user| == |other| == UUID_LENGTH && id != x
    ensures var w := Run(payments, INITIAL, steps);
            && 2 in w.tasks && w.tasks[2] == Answered(SendOk, Some(intent))
            && UsedTipPayments(payments, w.stores) == {intent} && payments[intent].quantity == 5
            && TotalOfAll(Ledger(w.tips), SEND_TIP) == TotalOfAll(Ledger(w.tips), RECEIVED_TIP) == 0
  {
    var chat := TwoWayChatId(user, other);
    payments := map[intent := PaymentRecord(5, ForTip(chat, id, user))];
    var ready := ReadyToTip(payments, user, other, id);
    if Run(payments, INITIAL, ready).tips != [] {
      TipsNeedPayments(payments, ready);
    }
    var check := SendCheck(2, chat, user, Text(""), Some(intent));
    PaidTextSteps(payments, Run(payments, INITIAL, ready), chat, user, intent, x);
    RunOneMore(payments, INITIAL, ready, check);
    RunOneMore(payments, INITIAL, ready + [check], SendPut(2, x, 0));
    RunOneMore(payments, INITIAL, ready + [check] + [SendPut(2, x, 0)], SendMark(2));
    steps := ready + [check] + [SendPut(2, x, 0)] + [SendMark(2)];
    assert Ledger([]) == map[];
  }

  // ----- A sender is told "denied" although the message is stored -----

  lemma {:induction false} TipPutStep(payments: Payments, w: World, h: nat, id: MessageId)
    requires h in w.tasks && w.tasks[h].SendAllowed? && w.tasks[h].intent.Some? && id !in w.stores.Log(w.tasks[h].chat)
    ensures var t, v := w.tasks[h], Next(payments, w, SendPut(h, id, 0));
            && v.tasks == w.tasks[h := SendStored(t.chat, t.user, t.content, t.intent, t.needsPayment)]
            && v.stores.fulfilled == w.stores.fulfilled && v.stores.Log(t.chat).Keys == w.stores.Log(t.chat).Keys + {id}
            && v.history == w.history + [v.history[|w.history|]]
            && (t.needsPayment ==> IsPaidWith(v.history[|w.history|], t.intent.value))
  {
    SendPutStep(payments, w, h, id, 0);
  }

  lemma {:induction false} BothMark(payments: Payments, w: World, g: nat, h: nat, intent: IntentId)
    requires g in w.tasks && h in w.tasks && g != h && w.tasks[g].SendStored? && w.tasks[h].SendStored?
    requires w.tasks[g].intent == w.tasks[h].intent == Some(intent) && intent !in w.stores.fulfilled
    ensures var v := Next(payments, Next(payments, w, SendMark(g)), SendMark(h));
            && v.tasks == w.tasks[g := Answered(SendOk, Some(intent))][h := Answered(Denied, Some(intent))]
            && v.history == w.history
  {
    SendMarkStep(payments, w, g);
    SendMarkStep(payments, Next(payments, w, SendMark(g)), h);
  }

  lemma {:induction false} BothPut(payments: Payments, w: World, g: nat, h: nat, chat: ChatId, intent: IntentId,
                                   x: MessageId, y: MessageId)
    requires g in w.tasks && h in w.tasks && g != h && w.tasks[g] == w.tasks[h] && w.tasks[g].SendAllowed?
    requires w.tasks[g].chat == chat && w.tasks[g].needsPayment && w.tasks[g].intent == Some(intent)
    requires x != y && x !in w.stores.Log(chat) && y !in w.stores.Log(chat)
    ensures var v := Next(payments, Next(payments, w, SendPut(g, x, 0)), SendPut(h, y, 0));
            && v.stores.fulfilled == w.stores.fulfilled && BacksTwoMessages(v.history, intent)
            && g in v.tasks && h in v.tasks && v.tasks[g].SendStored? && v.tasks[h].SendStored?
            && v.tasks[g].intent == v.tasks[h].intent == Some(intent)
  {
    var u := Next(payments, w, SendPut(g, x, 0));
    TipPutStep(payments, w, g, x);
    TipPutStep(payments, u, h, y);
    var v := Next(payments, u, SendPut(h, y, 0));
    assert v.history[|w.history|] == u.history[|w.history|];
    assert IsPaidWith(v.history[|w.history|], intent) && IsPaidWith(v.history[|w.history| + 1], intent);
  }

  /** For any two users, two requests tip with one payment, are both stored, and the
      second is told "denied". */
  lemma {:induction false} DeniedButStored(user: UserId, other: UserId, id: MessageId, x: MessageId, y: MessageId,
                                           intent: IntentId)
    returns (payments: Payments, steps: seq<Step>)
    requires |user| == |other| == UUID_LENGTH && id != x && id != y && x != y
    ensures var w := Run(payments, INITIAL, steps);
            && BacksTwoMessages(w.history, intent)
            && 3 in w.tasks && w.tasks[3] == Answered(Denied, Some(intent))
  {
    var chat := TwoWayChatId(user, other);
    payments := map[intent := PaymentRecord(5, ForTip(chat, id, user))];
    var ready := ReadyToTip(payments, user, other, id);
    var w := Run(payments, INITIAL, ready);
    var first, second := SendCheck(2, chat, user, Tip(id, 5), Some(intent)),
        SendCheck(3, chat, user, Tip(id, 5), Some(intent));
    TipStep(payments, w, 2, chat, user, id, intent);
    RunOneMore(payments, INITIAL, ready, first);
    var u := Next(payments, w, first);
    TipStep(payments, u, 3, chat, user, id, intent);
    RunOneMore(payments, INITIAL, ready + [first], second);
    var v := Next(payments, u, second);
    BothPut(payments, v, 2, 3, chat, intent, x, y);
    RunOneMore(payments, INITIAL, ready + [first] + [second], SendPut(2, x, 0));
    RunOneMore(payments, INITIAL, ready + [first] + [second] + [SendPut(2, x, 0)], SendPut(3, y, 0));
    var stored := ready + [first] + [second] + [SendPut(2, x, 0)] + [SendPut(3, y, 0)];
    BothMark(payments, Run(payments, INITIAL, stored), 2, 3, intent);
    RunOneMore(payments, INITIAL, stored, SendMark(2));
    RunOneMore(payments, INITIAL, stored + [SendMark(2)], SendMark(3));
    steps := stored + [SendMark(2)] + [SendMark(3)];
  }

  // ----- A group is refused although its chat is created -----

  lemma {:induction false} TwoGroupChecks(payments: Payments, user: UserId, intent: IntentId, c: ChatId, d: ChatId)
      returns (w: World)
    requires payments == map[intent := PaymentRecord(0, ForGroup(user))]
    requires |c| == |d| == UUID_LENGTH && c != d
    ensures w == Next(payments, Next(payments, INITIAL, StartGroup(0, user, [], Some(intent), false, c)),
                      StartGroup(1, user, [], Some(intent), false, d))
    ensures w.stores == INITIAL.stores
    ensures w.tasks == map[0 := StartCreating(c, true, user, [user], Some(intent)),
                           1 := StartCreating(d, true, user, [user], Some(intent))]
  {
    CheckGroup(payments, INITIAL, StartGroup(0, user, [], Some(intent), false, c));
    var u := Next(payments, INITIAL, StartGroup(0, user, [], Some(intent), false, c));
    CheckGroup(payments, u, StartGroup(1, user, [], Some(intent), false, d));
    w := Next(payments, u, StartGroup(1, user, [], Some(intent), false, d));
    assert [] + [user] == [user];
  }

  lemma {:induction false} TwoCreateAndMark(payments: Payments, w: World, user: UserId, intent: IntentId, c: ChatId,
                                            d: ChatId) returns (v: World)
    requires w.stores == INITIAL.stores && c != d
    requires w.tasks == map[0 := StartCreating(c, true, user, [user], Some(intent)),
                            1 := StartCreating(d, true, user, [user], Some(intent))]
    ensures v == Next(payments, Next(payments, Next(payments, Next(payments, w, StartCreate(0)), StartCreate(1)),
                                     StartMark(0)), StartMark(1))
    ensures v.tasks == map[0 := StartAdding(c, true, user, [user], Some(intent)), 1 := Answered(Denied, Some(intent))]
    ensures c in v.stores.rooms.chats && d in v.stores.rooms.chats && v.stores.rooms.chats[d].owner == Some(user)
  {
    CreateStep(payments, w, 0);
    var a := Next(payments, w, StartCreate(0));
    CreateStep(payments, a, 1);
    var b := Next(payments, a, StartCreate(1));
    MarkStep(payments, b, 0);
    var e := Next(payments, b, StartMark(0));
    MarkStep(payments, e, 1);
    v := Next(payments, e, StartMark(1));
  }

  /** For any user, two requests for a group with one payment both create their chat,
      and the second is refused. */
  lemma {:induction false} RefusedButCreated(user: UserId, intent: IntentId, c: ChatId, d: ChatId)
    returns (payments: Payments, steps: seq<Step>)
    requires |c| == |d| == UUID_LENGTH && c != d
    ensures var w := Run(payments, INITIAL, steps);
            && 1 in w.tasks && w.tasks[1] == Answered(Denied, Some(intent))
            && c in w.stores.rooms.chats && d in w.stores.rooms.chats && w.stores.IsOwner(d, user)
  {
    payments := map[intent := PaymentRecord(0, ForGroup(user))];
    var check, again := StartGroup(0, user, [], Some(intent), false, c),
        StartGroup(1, user, [], Some(intent), false, d);
    var w := TwoGroupChecks(payments, user, intent, c, d);
    var v := TwoCreateAndMark(payments, w, user, intent, c, d);
    RunOneMore(payments, INITIAL, [], check);
    RunOneMore(payments, INITIAL, [] + [check], again);
    var checked := [] + [check] + [again];
    RunOneMore(payments, INITIAL, checked, StartCreate(0));
    RunOneMore(payments, INITIAL, checked + [StartCreate(0)], StartCreate(1));
    var created := checked + [StartCreate(0)] + [StartCreate(1)];
    RunOneMore(payments, INITIAL, created, StartMark(0));
    RunOneMore(payments, INITIAL, created + [StartMark(0)], StartMark(1));
    steps := created + [StartMark(0)] + [StartMark(1)];
  }

  // ----- A message is stored after its sender was muted -----

  /** The owner's group is there and the member speaks in it. */
  predicate SpeaksInGroup(s: Stores, chat: ChatId, owner: UserId, member: UserId)
  {
    && chat in s.rooms.chats && s.rooms.chats[chat].owner == Some(owner) && s.rooms.chats[chat].isOpen
    && s.rooms.Entry(chat, member) == Some(Member(member, Some(owner), true, false, false, true, false))
  }

  lemma {:induction false} GroupWithMember(payments: Payments, owner: UserId, member: UserId, intent: IntentId,
                                           chat: ChatId)
    returns (steps: seq<Step>)
    requires payments == map[intent := PaymentRecord(0, ForGroup(owner))]
    requires |chat| == UUID_LENGTH && owner != member
    ensures var w := Run(payments, INITIAL, steps);
            && SpeaksInGroup(w.stores, chat, owner, member) && w.tasks.Keys == {0} && w.stores.logs == map[]
  {
    var check := StartGroup(0, owner, [member], Some(intent), false, chat);
    CheckGroup(payments, INITIAL, check);
    var a := Next(payments, INITIAL, check);
    CreateStep(payments, a, 0);
    var b := Next(payments, a, StartCreate(0));
    MarkStep(payments, b, 0);
    var c := Next(payments, b, StartMark(0));
    AddStep(payments, c, 0);
    assert [member] + [owner] == [member, owner];
    RunOneMore(payments, INITIAL, [], check);
    RunOneMore(payments, INITIAL, [] + [check], StartCreate(0));
    RunOneMore(payments, INITIAL, [] + [check] + [StartCreate(0)], StartMark(0));
    RunOneMore(payments, INITIAL, [] + [check] + [StartCreate(0)] + [StartMark(0)], StartAdd(0));
    steps := [] + [check] + [StartCreate(0)] + [StartMark(0)] + [StartAdd(0)];
  }

  lemma {:induction false} CheckedThenMuted(payments: Payments, w: World, owner: UserId, member: UserId, chat: ChatId)
      returns (v: World)
    requires SpeaksInGroup(w.stores, chat, owner, member) && w.tasks.Keys == {0} && owner != member
    ensures v == Next(payments, Next(payments, Next(payments, Next(payments, w, Register(member)),
                        SendCheck(1, chat, member, Text(""), None)), MuteCheck(2, chat, owner, member)), MuteSet(2))
    ensures 1 in v.tasks && v.tasks[1] == SendAllowed(chat, member, Text(""), None, false)
    ensures 2 in v.tasks && v.tasks[2] == Answered(MuteOk(chat, member), None)
    ensures IsMuted(v.stores, chat, member) && v.stores.logs == w.stores.logs
  {
    var a := Next(payments, w, Register(member));
    AllowedByRules(a.stores, payments, chat, member, Text(""), None);
    var check := SendCheck(1, chat, member, Text(""), None);
    SendCheckStep(payments, a, check);
    var b := Next(payments, a, check);
    var c := Next(payments, b, MuteCheck(2, chat, owner, member));
    assert c == b.(tasks := b.tasks[2 := Muting(chat, member)]);
    MuteSetStep(payments, c, 2);
    v := Next(payments, c, MuteSet(2));
  }

  /** For any owner and member, a message of the member is stored after MuteUser was
      answered OK, because it had passed its checks before. */
  lemma {:induction false} StoredAfterMute(owner: UserId, member: UserId, intent: IntentId, chat: ChatId, id: MessageId)
    returns (payments: Payments, muted: seq<Step>)
    requires |chat| == UUID_LENGTH && owner != member
    ensures var w := Run(payments, INITIAL, muted);
            && 2 in w.tasks && w.tasks[2] == Answered(MuteOk(chat, member), None) && IsMuted(w.stores, chat, member)
            && !NothingNewBy(Next(payments, w, SendPut(1, id, 0)), w, chat, member)
  {
    payments := map[intent := PaymentRecord(0, ForGroup(owner))];
    var group := GroupWithMember(payments, owner, member, intent, chat);
    var v := CheckedThenMuted(payments, Run(payments, INITIAL, group), owner, member, chat);
    var check, mute := SendCheck(1, chat, member, Text(""), None), MuteCheck(2, chat, owner, member);
    RunOneMore(payments, INITIAL, group, Register(member));
    RunOneMore(payments, INITIAL, group + [Register(member)], check);
    RunOneMore(payments, INITIAL, group + [Register(member)] + [check], mute);
    RunOneMore(payments, INITIAL, group + [Register(member)] + [check] + [mute], MuteSet(2));
    muted := group + [Register(member)] + [check] + [mute] + [MuteSet(2)];
    SendPutStep(payments, v, 1, id, 0);
    assert IsBy(Next(payments, v, SendPut(1, id, 0)).history[|v.history|], chat, member);
  }
}
