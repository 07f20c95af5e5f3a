/** Every accepted tip is backed by a payment of its own, so the feeds conserve what was paid. */
module TipProofs {
  import opened Ids
  import opened Messages
  import opened Authorizer
  import opened Server
  import opened ReferenceProofs
  import opened NotificationIds
  import opened ActivityStore
  import opened TipLedger

  /** The tip was paid for by its sender, for this message, with this amount. */
  predicate IsBacked(payments: Payments, s: Stores, t: AcceptedTip)
  {
    && t.intent in s.fulfilled && t.intent in payments
    && payments[t.intent] == PaymentRecord(t.quarks, ForTip(t.chat, t.message, t.tipper))
    && t.message in s.Log(t.chat) && s.Log(t.chat)[t.message].sender == Some(t.author)
    && (s.Log(t.chat)[t.message].content.Text? || s.Log(t.chat)[t.message].content.Reply?)
  }

  /** A tip on its way has its payment, and its message has an author. */
  predicate TaskIsBacked(payments: Payments, s: Stores, t: Task)
  {
    (t.SendAllowed? || t.SendStored?) && t.content.Tip? ==>
      && t.intent.Some? && t.intent.value in payments
      && payments[t.intent.value] == PaymentRecord(t.content.quarks, ForTip(t.chat, t.content.reference, t.user))
      && t.content.reference in s.Log(t.chat)
      && s.Log(t.chat)[t.content.reference].sender.Some?
      && (s.Log(t.chat)[t.content.reference].content.Text? || s.Log(t.chat)[t.content.reference].content.Reply?)
  }

  ghost predicate TipsAreBacked(payments: Payments, w: World)
  {
    && (forall t :: t in w.tips ==> IsBacked(payments, w.stores, t))
    && (forall j, k :: 0 <= j < k < |w.tips| ==> w.tips[j].intent != w.tips[k].intent)
    && (forall h :: h in w.tasks ==> TaskIsBacked(payments, w.stores, w.tasks[h]))
  }

  lemma {:induction false} TextHasAnAuthor(w: World, chat: ChatId, id: MessageId)
    requires ReferencesAreValid(w) && id in w.stores.Log(chat)
    requires !w.stores.Log(chat)[id].content.Announcement?
    ensures w.stores.Log(chat)[id].sender.Some?
  {
    assert IsRecorded(w.history, |w.history|, chat, id);
    var k :| 0 <= k < |w.history| && w.history[k].chat == chat && w.history[k].msg.id == id;
    assert IsLogged(w.stores, w.history[k]) && PointsBack(w.stores, w.history, k);
  }

  lemma NewTaskIsBacked(payments: Payments, w: World, step: Step)
    requires ReferencesAreValid(w)
    requires forall h :: h in w.tasks ==> TaskIsBacked(payments, w.stores, w.tasks[h])
    ensures var o := Decide(payments, w, step); o.task.Some? ==> TaskIsBacked(payments, w.stores, o.task.value)
  {
    if !step.SendCheck? && !step.SendPut? && !step.SendMark? {
      OtherStepsSendNothing(payments, w, step);
    } else if step.SendCheck? && step.content.Tip? {
      AllowedByRules(w.stores, payments, step.chat, step.user, step.content, step.intent);
      if CanSendMessage(w.stores, payments, step.chat, step.user, step.content, step.intent) == Allow {
        TextHasAnAuthor(w, step.chat, step.content.reference);
      }
    } else if step.SendPut? && step.h in w.tasks {
      assert TaskIsBacked(payments, w.stores, w.tasks[step.h]);
    }
  }

  lemma TasksStayBacked(payments: Payments, s: Stores, later: Stores, tasks: map<nat, Task>)
    requires Extends(later, s)
    requires forall h :: h in tasks ==> TaskIsBacked(payments, s, tasks[h])
    ensures forall h :: h in tasks ==> TaskIsBacked(payments, later, tasks[h])
  {
    forall h | h in tasks ensures TaskIsBacked(payments, later, tasks[h]) {
      assert TaskIsBacked(payments, s, tasks[h]);
    }
  }

  /** Marking an unused payment of a tip records the tip, and nothing else does. */
  lemma MarkingRecordsTheTip(payments: Payments, w: World, step: Step)
    requires TipsAreBacked(payments, w)
    ensures var v := Next(payments, w, step);
            if step.SendMark? && step.h in w.tasks && w.tasks[step.h].SendStored? && w.tasks[step.h].content.Tip?
               && w.tasks[step.h].intent.value !in w.stores.fulfilled
            then
              var t := w.tasks[step.h];
              && v.tips == w.tips + [AcceptedTip(t.intent.value, t.user, t.chat, t.content.reference,
                                                 w.stores.Log(t.chat)[t.content.reference].sender.value,
                                                     t.content.quarks)]
              && IsBacked(payments, v.stores, v.tips[|w.tips|])
            else v.tips == w.tips
  {
    if step.SendMark? && step.h in w.tasks {
      assert TaskIsBacked(payments, w.stores, w.tasks[step.h]);
    }
  }

  lemma {:induction false} TipsStayBacked(payments: Payments, w: World, step: Step)
    requires ReferencesAreValid(w) && TipsAreBacked(payments, w)
    ensures TipsAreBacked(payments, Next(payments, w, step))
  {
    var v := Next(payments, w, step);
    var o := Decide(payments, w, step);
    StepExtends(payments, w, step);
    NewTaskIsBacked(payments, w, step);
    TasksStayBacked(payments, w.stores, v.stores, if o.task.Some? then w.tasks[o.h := o.task.value] else w.tasks);
    MarkingRecordsTheTip(payments, w, step);
    TipsDiffer(payments, w.stores, v.stores, w.tips, v.tips);
  }

  lemma TipsDiffer(payments: Payments, s: Stores, later: Stores, tips: seq<AcceptedTip>, after: seq<AcceptedTip>)
    requires Extends(later, s)
    requires forall t :: t in tips ==> IsBacked(payments, s, t)
    requires forall j, k :: 0 <= j < k < |tips| ==> tips[j].intent != tips[k].intent
    requires after == tips
             || (|after| == |tips| + 1 && after[..|tips|] == tips
                 && after[|tips|].intent !in s.fulfilled && IsBacked(payments, later, after[|tips|]))
    ensures forall t :: t in after ==> IsBacked(payments, later, t)
    ensures forall j, k :: 0 <= j < k < |after| ==> after[j].intent != after[k].intent
  {
    assert forall k :: 0 <= k < |tips| ==> after[k] == tips[k] && tips[k] in tips;
  }

  lemma {:induction false} TipsAlwaysBacked(payments: Payments, steps: seq<Step>)
    ensures TipsAreBacked(payments, Run(payments, INITIAL, steps))
  {
    if steps != [] {
      var front := steps[..|steps| - 1];
      TipsAlwaysBacked(payments, front);
      ReferencesAlwaysValid(payments, front);
      TipsStayBacked(payments, Run(payments, INITIAL, front), steps[|steps| - 1]);
    }
  }

  /** The sum of the payments behind the tips. */
  function SumOfPayments(payments: Payments, tips: seq<AcceptedTip>): nat
    requires forall t :: t in tips ==> t.intent in payments
  {
    if tips == [] then 0
    else SumOfPayments(payments, tips[..|tips| - 1]) + payments[tips[|tips| - 1].intent].quantity
  }

  lemma {:induction false} TipsSumToPayments(payments: Payments, s: Stores, tips: seq<AcceptedTip>)
    requires forall t :: t in tips ==> IsBacked(payments, s, t)
    ensures forall t :: t in tips ==> t.intent in payments
    ensures SumOfPayments(payments, tips) == SumOfTips(tips)
  {
    if tips != [] {
      TipsSumToPayments(payments, s, tips[..|tips| - 1]);
      assert tips[|tips| - 1] in tips;
    }
  }

  predicate IsTipPayment(payments: Payments, intent: IntentId)
  {
    intent in payments && payments[intent].metadata.ForTip?
  }

  /** The payments made for tips that are marked as used, whatever used them. */
  function UsedTipPayments(payments: Payments, s: Stores): set<IntentId>
  {
    set i | i in s.fulfilled && IsTipPayment(payments, i)
  }

  function IntentsOf(tips: seq<AcceptedTip>): set<IntentId>
  {
    set k | 0 <= k < |tips| :: tips[k].intent
  }

  /** The used tip payments that are behind no tip. */
  function StrayPayments(payments: Payments, w: World): set<IntentId>
  {
    UsedTipPayments(payments, w.stores) - IntentsOf(w.tips)
  }

  ghost function SumOver(payments: Payments, intents: set<IntentId>): nat
    requires intents <= payments.Keys
  {
    if intents == {} then 0
    else
      var i :| i in intents;
      payments[i].quantity + SumOver(payments, intents - {i})
  }

  lemma {:induction false} SumOverWithout(payments: Payments, intents: set<IntentId>, i: IntentId)
    requires intents <= payments.Keys && i in intents
    ensures SumOver(payments, intents) == payments[i].quantity + SumOver(payments, intents - {i})
  {
    var first :| first in intents
      && SumOver(payments, intents) == payments[first].quantity + SumOver(payments, intents - {first});
    if first != i {
      SumOverWithout(payments, intents - {first}, i);
      SumOverWithout(payments, intents - {i}, first);
      assert intents - {first} - {i} == intents - {i} - {first};
    }
  }

  lemma {:induction false} SumOverSplits(payments: Payments, a: set<IntentId>, b: set<IntentId>)
    requires a <= payments.Keys && b <= payments.Keys && a !! b
    ensures SumOver(payments, a + b) == SumOver(payments, a) + SumOver(payments, b)
  {
    if a == {} {
      assert a + b == b;
    } else {
      var i :| i in a;
      SumOverWithout(payments, a, i);
      SumOverWithout(payments, a + b, i);
      assert a + b - {i} == (a - {i}) + b;
      SumOverSplits(payments, a - {i}, b);
    }
  }

  lemma {:induction false} SumIsZeroExactlyWhen(payments: Payments, intents: set<IntentId>)
    requires intents <= payments.Keys
    ensures SumOver(payments, intents) == 0 <==> forall i :: i in intents ==> payments[i].quantity == 0
  {
    if intents != {} {
      var i :| i in intents;
      SumOverWithout(payments, intents, i);
      SumIsZeroExactlyWhen(payments, intents - {i});
      assert forall k :: k in intents <==> k == i || k in intents - {i};
    }
  }

  lemma {:induction false} TipIntentsSum(payments: Payments, s: Stores, tips: seq<AcceptedTip>)
    requires forall t :: t in tips ==> IsBacked(payments, s, t)
    requires forall j, k :: 0 <= j < k < |tips| ==> tips[j].intent != tips[k].intent
    ensures IntentsOf(tips) <= UsedTipPayments(payments, s)
    ensures SumOver(payments, IntentsOf(tips)) == SumOfTips(tips)
  {
    forall k | 0 <= k < |tips| ensures tips[k].intent in UsedTipPayments(payments, s) {
      assert tips[k] in tips && IsBacked(payments, s, tips[k]);
    }
    if tips != [] {
      var front, last := tips[..|tips| - 1], tips[|tips| - 1];
      TipIntentsSum(payments, s, front);
      assert last in tips && IsBacked(payments, s, last);
      IntentsOfOneMore(front, last);
      assert front + [last] == tips;
      assert last.intent !in IntentsOf(front);
      SumOverWithout(payments, IntentsOf(tips), last.intent);
      assert IntentsOf(tips) - {last.intent} == IntentsOf(front);
    }
  }

  lemma IntentsOfOneMore(tips: seq<AcceptedTip>, last: AcceptedTip)
    ensures IntentsOf(tips + [last]) == IntentsOf(tips) + {last.intent}
  {
    var all := tips + [last];
    forall i | i in IntentsOf(tips) ensures i in IntentsOf(all) {
      var k :| 0 <= k < |tips| && tips[k].intent == i;
      assert all[k].intent == i;
    }
    assert all[|tips|].intent == last.intent;
  }

  /** The used tip payments come to the tips and the strays. */
  lemma {:induction false} UsedPaymentsSplit(payments: Payments, w: World)
    requires TipsAreBacked(payments, w)
    ensures SumOver(payments, UsedTipPayments(payments, w.stores))
            == SumOfTips(w.tips) + SumOver(payments, StrayPayments(payments, w))
  {
    TipIntentsSum(payments, w.stores, w.tips);
    var used, tipped := UsedTipPayments(payments, w.stores), IntentsOf(w.tips);
    SumOverSplits(payments, tipped, used - tipped);
    assert tipped + (used - tipped) == used;
  }

  /** A message other than a tip marks an unused payment that was made for a tip. */
  predicate Misspends(payments: Payments, w: World, step: Step, intent: IntentId)
  {
    && step.SendMark? && step.h in w.tasks && w.tasks[step.h].SendStored?
    && w.tasks[step.h].intent == Some(intent) && !w.tasks[step.h].content.Tip?
    && intent !in w.stores.fulfilled && IsTipPayment(payments, intent)
  }

  ghost predicate IsMisspent(payments: Payments, steps: seq<Step>, intent: IntentId)
  {
    exists j :: 0 <= j < |steps| && Misspends(payments, Run(payments, INITIAL, steps[..j]), steps[j], intent)
  }

  /** A request for a group comes with a payment that was made for a group. */
  predicate PaysForGroup(payments: Payments, t: Task)
  {
    (t.StartCreating? || t.StartCreated?) && t.intent.Some? ==>
      t.intent.value in payments && payments[t.intent.value].metadata.ForGroup?
  }

  ghost predicate GroupsArePaidFor(payments: Payments, tasks: map<nat, Task>)
  {
    forall h :: h in tasks ==> PaysForGroup(payments, tasks[h])
  }

  lemma {:induction false} GroupsStayPaidFor(payments: Payments, w: World, step: Step)
    requires GroupsArePaidFor(payments, w.tasks)
    ensures GroupsArePaidFor(payments, Next(payments, w, step).tasks)
  {
    var o := Decide(payments, w, step);
    if o.task.Some? {
      StepMovesOn(payments, w, step);
      NewGroupIsPaidFor(payments, w, step);
    }
  }

  lemma {:induction false} NewGroupIsPaidFor(payments: Payments, w: World, step: Step)
    ensures var o := Decide(payments, w, step);
            o.task.Some? && o.h !in w.tasks ==> PaysForGroup(payments, o.task.value)
  {
  }

  /** What a mark does to the strays: it makes one exactly when it misspends. */
  lemma {:induction false} StraysAfterStep(payments: Payments, w: World, step: Step, i: IntentId)
    requires TipsAreBacked(payments, w) && GroupsArePaidFor(payments, w.tasks)
    ensures i in StrayPayments(payments, Next(payments, w, step)) <==>
            i in StrayPayments(payments, w) || Misspends(payments, w, step, i)
  {
    var o, v := Decide(payments, w, step), Next(payments, w, step);
    if o.effect.Fulfils? {
      MarkComesFrom(payments, w, step);
      if o.effect.tip.Some? {
        IntentsOfOneMore(w.tips, o.effect.tip.value);
      }
      if i in IntentsOf(w.tips) {
        var k :| 0 <= k < |w.tips| && w.tips[k].intent == i;
        assert w.tips[k] in w.tips && IsBacked(payments, w.stores, w.tips[k]);
      }
    } else {
      assert v.stores.fulfilled == w.stores.fulfilled && v.tips == w.tips;
    }
  }

  /** A mark is that of a backed tip, of another message, or of a group. */
  lemma {:induction false} MarkComesFrom(payments: Payments, w: World, step: Step)
    requires TipsAreBacked(payments, w) && GroupsArePaidFor(payments, w.tasks)
    ensures var o := Decide(payments, w, step);
            o.effect.Fulfils? ==>
              var i := o.effect.intent;
              && i !in w.stores.fulfilled
              && (o.effect.tip.Some? ==> o.effect.tip.value.intent == i && !Misspends(payments, w, step, i))
              && (o.effect.tip.None? ==> (IsTipPayment(payments, i) <==> Misspends(payments, w, step, i)))
              && (forall k :: Misspends(payments, w, step, k) ==> k == i)
    ensures Decide(payments, w, step).effect.Fulfils? || forall k :: !Misspends(payments, w, step, k)
  {
    if step.SendMark? && step.h in w.tasks {
      assert TaskIsBacked(payments, w.stores, w.tasks[step.h]);
    } else if step.StartMark? && step.h in w.tasks {
      assert PaysForGroup(payments, w.tasks[step.h]);
    }
  }

  lemma {:induction false} GroupsAlwaysPaidFor(payments: Payments, steps: seq<Step>)
    ensures GroupsArePaidFor(payments, Run(payments, INITIAL, steps).tasks)
  {
    if steps != [] {
      GroupsAlwaysPaidFor(payments, steps[..|steps| - 1]);
      GroupsStayPaidFor(payments, Run(payments, INITIAL, steps[..|steps| - 1]), steps[|steps| - 1]);
    }
  }

  /** Over every run the strays are the payments that were misspent. */
  lemma {:induction false} StraysAreMisspent(payments: Payments, steps: seq<Step>, i: IntentId)
    ensures i in StrayPayments(payments, Run(payments, INITIAL, steps)) <==> IsMisspent(payments, steps, i)
  {
    var P := (s: seq<Step>) => i in StrayPayments(payments, Run(payments, INITIAL, s)) <==> IsMisspent(payments, s, i);
    assert P([]) by {
      assert Run(payments, INITIAL, []) == INITIAL;
    }
    forall front, last | P(front) ensures P(front + [last]) {
      StraysOneMore(payments, front, last, i);
    }
    StepByStep(P, steps);
  }

  lemma {:induction false} StraysOneMore(payments: Payments, front: seq<Step>, last: Step, i: IntentId)
    requires i in StrayPayments(payments, Run(payments, INITIAL, front)) <==> IsMisspent(payments, front, i)
    ensures i in StrayPayments(payments, Run(payments, INITIAL, front + [last])) <==>
            IsMisspent(payments, front + [last], i)
  {
    var w := Run(payments, INITIAL, front);
    TipsAlwaysBacked(payments, front);
    GroupsAlwaysPaidFor(payments, front);
    RunOneMore(payments, INITIAL, front, last);
    StraysAfterStep(payments, w, last, i);
    MisspentOneMore(payments, front, last, i);
  }

  lemma {:induction false} MisspentOneMore(payments: Payments, front: seq<Step>, last: Step, i: IntentId)
    ensures IsMisspent(payments, front + [last], i) <==>
            IsMisspent(payments, front, i) || Misspends(payments, Run(payments, INITIAL, front), last, i)
  {
    var steps := front + [last];
    assert steps[..|front|] == front;
    assert forall j :: 0 <= j < |front| ==> steps[..j] == front[..j] && steps[j] == front[j];
    if IsMisspent(payments, front, i) {
      var j :| 0 <= j < |front| && Misspends(payments, Run(payments, INITIAL, front[..j]), front[j], i);
      assert Misspends(payments, Run(payments, INITIAL, steps[..j]), steps[j], i);
    } else if Misspends(payments, Run(payments, INITIAL, front), last, i) {
      assert Misspends(payments, Run(payments, INITIAL, steps[..|front|]), steps[|front|], i);
    }
  }

  /** Over every run, with sums that fit into 64 bits: the totals sent in all feeds,
      the totals received in all feeds, and the payments behind the accepted tips are
      one and the same sum, each payment marked as used and counted once. All used
      payments that were made for tips come to this sum and the misspent ones, so the
      totals are the sum of all used tip payments if and only if every misspent one
      is of nothing. */
  lemma {:induction false} FeedsConservePayments(payments: Payments, steps: seq<Step>)
    requires SumOfTips(Run(payments, INITIAL, steps).tips) < TWO_TO_64
    ensures var w := Run(payments, INITIAL, steps);
            && (forall t :: t in w.tips ==> t.intent in payments && t.intent in w.stores.fulfilled)
            && (forall j, k :: 0 <= j < k < |w.tips| ==> w.tips[j].intent != w.tips[k].intent)
            && TotalOfAll(Ledger(w.tips), SEND_TIP) == SumOfPayments(payments, w.tips)
            && TotalOfAll(Ledger(w.tips), RECEIVED_TIP) == SumOfPayments(payments, w.tips)
    ensures var w := Run(payments, INITIAL, steps);
            var used, total := SumOver(payments, UsedTipPayments(payments, w.stores)),
                TotalOfAll(Ledger(w.tips), SEND_TIP);
            && used == total + SumOver(payments, StrayPayments(payments, w))
            && (forall i :: i in StrayPayments(payments, w) <==> IsMisspent(payments, steps, i))
            && (used == total <==> forall i :: IsMisspent(payments, steps, i) ==> payments[i].quantity == 0)
  {
    var w := Run(payments, INITIAL, steps);
    TipsAlwaysBacked(payments, steps);
    TipsSumToPayments(payments, w.stores, w.tips);
    TipsAreConserved(w.tips);
    UsedPaymentsSplit(payments, w);
    SumIsZeroExactlyWhen(payments, StrayPayments(payments, w));
    forall i ensures i in StrayPayments(payments, w) <==> IsMisspent(payments, steps, i) {
      StraysAreMisspent(payments, steps, i);
    }
  }

  /** User ids and generated message ids are UUIDs. */
  predicate UsesUuids(step: Step)
  {
    && (step.SendCheck? ==> |step.user| == UUID_LENGTH)
    && (step.SendPut? ==> |step.id| == UUID_LENGTH)
    && (step.Announce? ==> |step.id| == UUID_LENGTH)
  }

  predicate AllUseUuids(steps: seq<Step>)
  {
    forall i :: 0 <= i < |steps| ==> UsesUuids(steps[i])
  }

  predicate MessageHasUuids(id: MessageId, msg: Message)
  {
    |id| == UUID_LENGTH && (msg.sender.Some? ==> |msg.sender.value| == UUID_LENGTH)
  }

  ghost predicate LogsHaveUuids(s: Stores)
  {
    forall chat, id :: id in s.Log(chat) ==> MessageHasUuids(id, s.Log(chat)[id])
  }

  predicate SenderHasUuid(t: Task)
  {
    t.SendAllowed? || t.SendStored? ==> |t.user| == UUID_LENGTH
  }

  ghost predicate SendersHaveUuids(tasks: map<nat, Task>)
  {
    forall h :: h in tasks ==> SenderHasUuid(tasks[h])
  }

  ghost predicate TippersHaveUuids(tips: seq<AcceptedTip>)
  {
    forall t :: t in tips ==> |t.tipper| == UUID_LENGTH
  }

  lemma {:induction false} NewOnesHaveUuids(payments: Payments, w: World, step: Step)
    requires SendersHaveUuids(w.tasks) && UsesUuids(step)
    ensures var o := Decide(payments, w, step);
            && (o.task.Some? ==> SenderHasUuid(o.task.value))
            && (o.effect.Puts? ==> MessageHasUuids(o.effect.stored.msg.id, o.effect.stored.msg))
            && (o.effect.Fulfils? && o.effect.tip.Some? ==> |o.effect.tip.value.tipper| == UUID_LENGTH)
  {
    if step.SendCheck? || step.SendPut? || step.SendMark? {
      assert step.h in w.tasks ==> SenderHasUuid(w.tasks[step.h]);
    } else {
      OtherStepsSendNothing(payments, w, step);
    }
  }

  lemma {:induction false} LogsKeepUuids(s: Stores, effect: Effect)
    requires LogsHaveUuids(s)
    requires effect.Puts? ==> MessageHasUuids(effect.stored.msg.id, effect.stored.msg)
    ensures LogsHaveUuids(Affect(s, effect))
  {
    var t := Affect(s, effect);
    forall chat, id | id in t.Log(chat) ensures MessageHasUuids(id, t.Log(chat)[id]) {
      assert id in s.Log(chat) ==> MessageHasUuids(id, s.Log(chat)[id]);
    }
  }

  lemma {:induction false} RunHasUuids(payments: Payments, steps: seq<Step>)
    requires AllUseUuids(steps)
    ensures var w := Run(payments, INITIAL, steps);
            LogsHaveUuids(w.stores) && SendersHaveUuids(w.tasks) && TippersHaveUuids(w.tips)
  {
    if steps != [] {
      var front, last := steps[..|steps| - 1], steps[|steps| - 1];
      var w := Run(payments, INITIAL, front);
      RunHasUuids(payments, front);
      NewOnesHaveUuids(payments, w, last);
      LogsKeepUuids(w.stores, Decide(payments, w, last).effect);
    }
  }

  /** Over every run with UUIDs for ids and payments that fit into 64 bits, each
      user's entry for each message is the sum, in 64 bits, of the accepted tips of
      the run that this user sent to it, or received on it. */
  lemma {:induction false} EntriesAreSumsOverRuns(payments: Payments, steps: seq<Step>, kind: nat, user: UserId,
                                                  chat: ChatId, message: MessageId)
    requires AllUseUuids(steps) && (forall i :: i in payments ==> payments[i].quantity < TWO_TO_64)
    requires |user| == |message| == UUID_LENGTH && (kind == SEND_TIP || kind == RECEIVED_TIP)
    ensures var tips := Run(payments, INITIAL, steps).tips;
            EntryOf(FeedOf(Ledger(tips), user), Preimage(kind, user, [chat, message]))
            == SumOn(tips, kind, user, chat, message) % TWO_TO_64
  {
    var w := Run(payments, INITIAL, steps);
    TipsAlwaysBacked(payments, steps);
    RunHasUuids(payments, steps);
    forall i | 0 <= i < |w.tips| ensures HasUuids(w.tips[i]) {
      TipHasUuids(payments, w, w.tips[i]);
    }
    EntriesAreSums(w.tips, kind, user, chat, message);
  }

  lemma {:induction false} TipHasUuids(payments: Payments, w: World, t: AcceptedTip)
    requires IsBacked(payments, w.stores, t) && LogsHaveUuids(w.stores) && |t.tipper| == UUID_LENGTH
    requires payments[t.intent].quantity < TWO_TO_64
    ensures HasUuids(t)
  {
    assert MessageHasUuids(t.message, w.stores.Log(t.chat)[t.message]);
  }
}
