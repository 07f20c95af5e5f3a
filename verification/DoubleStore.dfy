/** A run in which one payment backs two stored messages. */
module DoubleStore {
  import opened Ids
  import opened Messages
  import opened Rooms
  import opened Authorizer
  import opened Server
  import opened PaymentProofs
  import opened Requests
  import opened StartRequests

  /** The user is in good standing in an open two-way chat and may speak there. */
  predicate CanSpeak(s: Stores, chat: ChatId, user: UserId)
  {
    && IsInGoodStanding(s, chat, user) && s.rooms.chats[chat].owner.None? && s.rooms.chats[chat].isOpen
    && s.rooms.Entry(chat, user).value.hasSendPermission
  }

  lemma NewChatStep(payments: Payments, w: World, user: UserId, other: UserId) returns (v: World)
    requires w == World(Stores(EMPTY, {user}, map[], {}), map[], [], []) && |user| == |other| == UUID_LENGTH
    ensures v == Next(payments, Next(payments, w, StartTwoWay(0, user, other)), StartCreate(0))
    ensures var chat := TwoWayChatId(user, other);
            && v.stores == w.stores.(rooms := EMPTY.WithChat(Metadata(chat, TwoWay, None, 1, true)))
            && v.tasks == map[0 := StartAdding(chat, false, user, [user, other], None)]
  {
    CheckTwoWay(payments, w, 0, user, other);
    CreateStep(payments, Next(payments, w, StartTwoWay(0, user, other)), 0);
    v := Next(payments, Next(payments, w, StartTwoWay(0, user, other)), StartCreate(0));
  }

  lemma JoinedStep(payments: Payments, w: World, user: UserId, other: UserId)
    requires var chat := TwoWayChatId(user, other);
             && w.stores == Stores(EMPTY.WithChat(Metadata(chat, TwoWay, None, 1, true)), {user}, map[], {})
             && w.tasks == map[0 := StartAdding(chat, false, user, [user, other], None)]
    ensures var v := Next(payments, w, StartAdd(0));
            CanSpeak(v.stores, TwoWayChatId(user, other), user) && v.stores.logs == map[] && v.stores.fulfilled == {}
                && v.tasks.Keys == {0}
  {
    AddStep(payments, w, 0);
  }

  /** A user who can speak has a text stored, and may then tip it. */
  lemma {:induction false} TextSteps(payments: Payments, w: World, chat: ChatId, user: UserId, id: MessageId)
    requires CanSpeak(w.stores, chat, user) && w.stores.logs == map[] && w.tasks.Keys == {0}
    ensures var v := Next(payments, Next(payments, w, SendCheck(1, chat, user, Text(""), None)), SendPut(1, id, 0));
            && CanSpeak(v.stores, chat, user) && v.stores.fulfilled == w.stores.fulfilled && v.tasks.Keys == {0, 1}
            && v.stores.Log(chat).Keys == {id} && v.stores.Log(chat)[id].content.Text?
  {
    var check := SendCheck(1, chat, user, Text(""), None);
    AllowedByRules(w.stores, payments, chat, user, Text(""), None);
    SendCheckStep(payments, w, check);
    SendPutStep(payments, Next(payments, w, check), 1, id, 0);
  }

  lemma {:induction false} TipStep(payments: Payments, w: World, h: nat, chat: ChatId, user: UserId, id: MessageId,
                                   intent: IntentId)
    requires CanSpeak(w.stores, chat, user) && w.stores.fulfilled == {} && h !in w.tasks
    requires id in w.stores.Log(chat) && w.stores.Log(chat)[id].content.Text?
    requires payments == map[intent := PaymentRecord(5, ForTip(chat, id, user))]
    ensures CanSendMessage(w.stores, payments, chat, user, Tip(id, 5), Some(intent)) == Allow
    ensures Next(payments, w, SendCheck(h, chat, user, Tip(id, 5), Some(intent)))
            == w.(tasks := w.tasks[h := SendAllowed(chat, user, Tip(id, 5), Some(intent), true)])
  {
    AllowedByRules(w.stores, payments, chat, user, Tip(id, 5), Some(intent));
    SendCheckStep(payments, w, SendCheck(h, chat, user, Tip(id, 5), Some(intent)));
  }

  lemma ReadyToTip(payments: Payments, user: UserId, other: UserId, id: MessageId) returns (steps: seq<Step>)
    requires |user| == |other| == UUID_LENGTH
    ensures var w, chat := Run(payments, INITIAL, steps), TwoWayChatId(user, other);
            && CanSpeak(w.stores, chat, user) && w.stores.fulfilled == {} && w.tasks.Keys == {0, 1}
            && w.stores.Log(chat).Keys == {id} && w.stores.Log(chat)[id].content.Text?
  {
    var chat := TwoWayChatId(user, other);
    var s1 := [] + [Register(user)];
    RunOneMore(payments, INITIAL, [], Register(user));
    var w1 := Next(payments, INITIAL, Register(user));
    var s2, s3 := s1 + [StartTwoWay(0, user, other)], s1 + [StartTwoWay(0, user, other)] + [StartCreate(0)];
    RunOneMore(payments, INITIAL, s1, StartTwoWay(0, user, other));
    RunOneMore(payments, INITIAL, s2, StartCreate(0));
    var w3 := NewChatStep(payments, w1, user, other);
    var s4 := s3 + [StartAdd(0)];
    RunOneMore(payments, INITIAL, s3, StartAdd(0));
    JoinedStep(payments, w3, user, other);
    var check := SendCheck(1, chat, user, Text(""), None);
    RunOneMore(payments, INITIAL, s4, check);
    RunOneMore(payments, INITIAL, s4 + [check], SendPut(1, id, 0));
    TextSteps(payments, Run(payments, INITIAL, s4), chat, user, id);
    return s4 + [check] + [SendPut(1, id, 0)];
  }

  /** For any two users and any payment for a tip between them, a run stores two
      tips for the one payment: both requests are checked before either is put. */
  lemma {:induction false} OnePaymentBacksTwoMessages(user: UserId, other: UserId, id: MessageId, x: MessageId,
                                                      y: MessageId, intent: IntentId)
    returns (payments: Payments, steps: seq<Step>)
    requires |user| == |other| == UUID_LENGTH && id != x && id != y && x != y
    ensures BacksTwoMessages(Run(payments, INITIAL, steps).history, intent)
  {
    var chat := TwoWayChatId(user, other);
    payments := map[intent := PaymentRecord(5, ForTip(chat, id, user))];
    var ready := ReadyToTip(payments, user, other, id);
    var w := Run(payments, INITIAL, ready);
    var first, second := SendCheck(2, chat, user, Tip(id, 5), Some(intent)),
        SendCheck(3, chat, user, Tip(id, 5), Some(intent));
    TipStep(payments, w, 2, chat, user, id, intent);
    RunOneMore(payments, INITIAL, ready, first);
    var before := ready + [first];
    TipStep(payments, Run(payments, INITIAL, before), 3, chat, user, id, intent);
    OverlapCanStoreTwice(payments, before, 2, second, x, y);
    RunOneMore(payments, INITIAL, before, second);
    RunAppend(payments, INITIAL, before + [second], [SendPut(2, x, 0), SendPut(3, y, 0)]);
    steps := before + [second] + [SendPut(2, x, 0), SendPut(3, y, 0)];
  }
}
