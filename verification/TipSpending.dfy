/** Which request, and when, breaks the balance between tips and used tip payments. */
module TipSpending {
  import opened Ids
  import opened Authorizer
  import opened Server
  import opened ReferenceProofs
  import opened TipLedger
  import opened TipProofs

  /** The step is a check that succeeds, for a message other than a tip that comes
      with an unused payment made for a tip. */
  predicate StartsToMisspend(payments: Payments, w: World, step: Step)
  {
    && step.SendCheck? && step.h !in w.tasks && step.intent.Some?
    && CanBeMisspent(payments, step.content.Tip?, step.intent.value)
    && step.intent.value !in w.stores.fulfilled
    && CanSendMessage(w.stores, payments, step.chat, step.user, step.content, step.intent) == Allow
  }

  predicate CanBeMisspent(payments: Payments, isTip: bool, intent: IntentId)
  {
    !isTip && IsTipPayment(payments, intent) && payments[intent].quantity > 0
  }

  predicate NeverMisspends(payments: Payments, w: World, steps: seq<Step>)
  {
    steps != [] ==>
      && NeverMisspends(payments, w, steps[..|steps| - 1])
      && !StartsToMisspend(payments, Run(payments, w, steps[..|steps| - 1]), steps[|steps| - 1])
  }

  /** All used payments that were made for tips come to the accepted tips. */
  ghost predicate Conserves(payments: Payments, w: World)
  {
    SumOver(payments, UsedTipPayments(payments, w.stores)) == SumOfTips(w.tips)
  }

  /** No continuation without further misspending upsets the balance. */
  ghost predicate StaysConserved(payments: Payments, w: World)
  {
    forall after :: NeverMisspends(payments, w, after) ==> Conserves(payments, Run(payments, w, after))
  }

  /** What a request would misspend is used already. */
  predicate IsTooLate(payments: Payments, s: Stores, t: Task)
  {
    (t.SendAllowed? || t.SendStored?) && t.intent.Some? && CanBeMisspent(payments, t.content.Tip?, t.intent.value) ==>
      t.intent.value in s.fulfilled
  }

  ghost predicate NobodyMisspends(payments: Payments, w: World)
  {
    && ReferencesAreValid(w) && TipsAreBacked(payments, w) && GroupsArePaidFor(payments, w.tasks)
    && (forall h :: h in w.tasks ==> IsTooLate(payments, w.stores, w.tasks[h]))
    && (forall i :: i in StrayPayments(payments, w) ==> payments[i].quantity == 0)
  }

  lemma {:induction false} BalancedExactlyWithoutStrays(payments: Payments, w: World)
    requires TipsAreBacked(payments, w)
    ensures Conserves(payments, w) <==> forall i :: i in StrayPayments(payments, w) ==> payments[i].quantity == 0
  {
    UsedPaymentsSplit(payments, w);
    SumIsZeroExactlyWhen(payments, StrayPayments(payments, w));
  }

  lemma {:induction false} NewTaskIsTooLate(payments: Payments, w: World, step: Step)
    requires forall h :: h in w.tasks ==> IsTooLate(payments, w.stores, w.tasks[h])
    requires !StartsToMisspend(payments, w, step)
    ensures var o := Decide(payments, w, step);
            o.task.Some? ==> IsTooLate(payments, Affect(w.stores, o.effect), o.task.value)
  {
    var o := Decide(payments, w, step);
    AllowedComesFrom(payments, w, step);
    StepMovesOn(payments, w, step);
    if step.SendPut? && step.h in w.tasks {
      assert IsTooLate(payments, w.stores, w.tasks[step.h]);
    } else if !step.SendCheck? && !step.SendMark? && !step.SendPut? {
      OtherStepsSendNothing(payments, w, step);
    }
  }

  lemma {:induction false} NobodyStartsToMisspend(payments: Payments, w: World, step: Step)
    requires NobodyMisspends(payments, w) && !StartsToMisspend(payments, w, step)
    ensures NobodyMisspends(payments, Next(payments, w, step))
  {
    var v := Next(payments, w, step);
    ReferencesStayValid(payments, w, step);
    TipsStayBacked(payments, w, step);
    GroupsStayPaidFor(payments, w, step);
    NewTaskIsTooLate(payments, w, step);
    StepExtends(payments, w, step);
    TasksStayTooLate(payments, w.stores, v.stores, w.tasks, Decide(payments, w, step));
    forall i | i in StrayPayments(payments, v) ensures payments[i].quantity == 0 {
      StraysAfterStep(payments, w, step, i);
      if Misspends(payments, w, step, i) {
        assert IsTooLate(payments, w.stores, w.tasks[step.h]);
      }
    }
  }

  lemma {:induction false} TasksStayTooLate(payments: Payments, s: Stores, later: Stores, tasks: map<nat, Task>,
                                            o: Outcome)
    requires s.fulfilled <= later.fulfilled
    requires forall h :: h in tasks ==> IsTooLate(payments, s, tasks[h])
    requires o.task.Some? ==> IsTooLate(payments, later, o.task.value)
    ensures var after := if o.task.Some? then tasks[o.h := o.task.value] else tasks;
            forall h :: h in after ==> IsTooLate(payments, later, after[h])
  {
    forall h | h in tasks ensures IsTooLate(payments, later, tasks[h]) {
      assert IsTooLate(payments, s, tasks[h]);
    }
  }

  lemma {:induction false} NobodyMisspendsInRun(payments: Payments, w: World, steps: seq<Step>)
    requires NobodyMisspends(payments, w) && NeverMisspends(payments, w, steps)
    ensures NobodyMisspends(payments, Run(payments, w, steps))
  {
    if steps != [] {
      NobodyMisspendsInRun(payments, w, steps[..|steps| - 1]);
      NobodyStartsToMisspend(payments, Run(payments, w, steps[..|steps| - 1]), steps[|steps| - 1]);
    }
  }

  lemma {:induction false} NobodyMisspendsAtFirst(payments: Payments)
    ensures NobodyMisspends(payments, INITIAL)
  {
    ReferencesAlwaysValid(payments, []);
    assert Run(payments, INITIAL, []) == INITIAL;
  }

  lemma {:induction false} StaysConservedWithout(payments: Payments, w: World)
    requires NobodyMisspends(payments, w)
    ensures StaysConserved(payments, w)
  {
    forall after | NeverMisspends(payments, w, after) ensures Conserves(payments, Run(payments, w, after)) {
      NobodyMisspendsInRun(payments, w, after);
      BalancedExactlyWithoutStrays(payments, Run(payments, w, after));
    }
  }

  /** A request that passed its check with an unused tip payment, but no tip, puts and marks. */
  lemma {:induction false} PutAndMarkMisspends(payments: Payments, w: World, h: nat, id: MessageId)
    requires ReferencesAreValid(w) && TipsAreBacked(payments, w) && GroupsArePaidFor(payments, w.tasks)
    requires h in w.tasks && w.tasks[h].SendAllowed? && w.tasks[h].intent.Some?
    requires CanBeMisspent(payments, w.tasks[h].content.Tip?, w.tasks[h].intent.value)
    requires w.tasks[h].intent.value !in w.stores.fulfilled && id !in w.stores.Log(w.tasks[h].chat)
    ensures !Conserves(payments, Next(payments, Next(payments, w, SendPut(h, id, 0)), SendMark(h)))
  {
    var i := w.tasks[h].intent.value;
    var u := Next(payments, w, SendPut(h, id, 0));
    TipsStayBacked(payments, w, SendPut(h, id, 0));
    ReferencesStayValid(payments, w, SendPut(h, id, 0));
    GroupsStayPaidFor(payments, w, SendPut(h, id, 0));
    assert Misspends(payments, u, SendMark(h), i);
    StraysAfterStep(payments, u, SendMark(h), i);
    TipsStayBacked(payments, u, SendMark(h));
    BalancedExactlyWithoutStrays(payments, Next(payments, u, SendMark(h)));
  }

  lemma {:induction false} MisspendingUpsets(payments: Payments, w: World, step: Step)
    requires NobodyMisspends(payments, w) && StartsToMisspend(payments, w, step)
    ensures !StaysConserved(payments, Next(payments, w, step))
  {
    var v := Next(payments, w, step);
    SendCheckStep(payments, w, step);
    ReferencesStayValid(payments, w, step);
    TipsStayBacked(payments, w, step);
    GroupsStayPaidFor(payments, w, step);
    var id := FreshId(v.stores.Log(step.chat).Keys);
    PutAndMarkMisspends(payments, v, step.h, id);
    RunOfTwo(payments, v, SendPut(step.h, id, 0), SendMark(step.h));
    PutAndMarkCheckNothing(payments, v, SendPut(step.h, id, 0), SendMark(step.h));
  }

  lemma {:induction false} PutAndMarkCheckNothing(payments: Payments, w: World, a: Step, b: Step)
    requires a.SendPut? && b.SendMark?
    ensures NeverMisspends(payments, w, [a, b])
  {
    assert [a, b][..1] == [a] && [a][..0] == [];
    assert NeverMisspends(payments, w, []);
    assert NeverMisspends(payments, w, [a]);
  }

  /** After any run without misspending, whatever step comes next, the used payments
      that were made for tips come to the accepted tips in every continuation without
      misspending if and only if the step is not a successful check of a message other
      than a tip with an unused payment, of more than nothing, that was made for one. */
  lemma {:induction false} ConservedExactlyWithoutMisspending(payments: Payments, before: seq<Step>, step: Step)
    requires NeverMisspends(payments, INITIAL, before)
    ensures var w := Run(payments, INITIAL, before);
            StaysConserved(payments, Next(payments, w, step)) <==> !StartsToMisspend(payments, w, step)
  {
    var w := Run(payments, INITIAL, before);
    NobodyMisspendsAtFirst(payments);
    NobodyMisspendsInRun(payments, INITIAL, before);
    if StartsToMisspend(payments, w, step) {
      MisspendingUpsets(payments, w, step);
    } else {
      NobodyStartsToMisspend(payments, w, step);
      StaysConservedWithout(payments, Next(payments, w, step));
    }
  }
}
