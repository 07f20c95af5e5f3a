/** A payment intent is used at most once, however requests interleave. */
module PaymentProofs {
  import opened Ids
  import opened Authorizer
  import opened Server

  /** The intent a task has marked as used. */
  function Marked(t: Task): Option<IntentId>
  {
    match t
    case StartAdding(_, _, _, _, intent) => intent
    case Answered(answer, intent) => if answer.SendOk? || answer.StartOk? then intent else None
    case _ => None
  }

  /** Whoever went past marking an intent marked it, and did so alone. */
  ghost predicate MarksAreUnique(w: World)
  {
    && (forall h :: h in w.tasks && Marked(w.tasks[h]).Some? ==> Marked(w.tasks[h]).value in w.stores.fulfilled)
    && (forall g, h :: g in w.tasks && h in w.tasks && g != h && Marked(w.tasks[g]).Some? ==>
                         Marked(w.tasks[g]) != Marked(w.tasks[h]))
  }

  /** A task comes to hold a mark only by making it. */
  lemma MarkIsMade(payments: Payments, w: World, step: Step)
    ensures var o := Decide(payments, w, step);
            o.task.Some? && Marked(o.task.value).Some? ==>
              || (o.h in w.tasks && Marked(w.tasks[o.h]) == Marked(o.task.value))
              || (o.effect.Fulfils? && o.effect.intent == Marked(o.task.value).value
                  && o.effect.intent !in w.stores.fulfilled)
  {
  }

  lemma {:induction false} MarksStayUnique(payments: Payments, w: World, step: Step)
    requires MarksAreUnique(w)
    ensures MarksAreUnique(Next(payments, w, step))
  {
    MarkIsMade(payments, w, step);
    assert w.stores.fulfilled <= Next(payments, w, step).stores.fulfilled;
  }

  lemma {:induction false} MarksAlwaysUnique(payments: Payments, steps: seq<Step>)
    ensures MarksAreUnique(Run(payments, INITIAL, steps))
  {
    if steps != [] {
      MarksAlwaysUnique(payments, steps[..|steps| - 1]);
      MarksStayUnique(payments, Run(payments, INITIAL, steps[..|steps| - 1]), steps[|steps| - 1]);
    }
  }

  predicate IsOk(t: Task)
  {
    t.Answered? && (t.answer.SendOk? || t.answer.StartOk?)
  }

  /** In every interleaving of SendMessage and StartChat requests, no two
      requests that carry the same payment intent are answered OK, and the
      intent of one that is answered OK is marked as used. */
  lemma AtMostOneOkPerIntent(payments: Payments, steps: seq<Step>, g: nat, h: nat)
    ensures var w := Run(payments, INITIAL, steps);
            g in w.tasks && IsOk(w.tasks[g]) && w.tasks[g].intent.Some? ==>
              && w.tasks[g].intent.value in w.stores.fulfilled
              && (h in w.tasks && g != h && IsOk(w.tasks[h]) ==> w.tasks[g].intent != w.tasks[h].intent)
  {
    MarksAlwaysUnique(payments, steps);
  }

  /** A message that had to be paid for is on its way, with this payment. */
  predicate Pays(t: Task, intent: IntentId)
  {
    (t.SendAllowed? || t.SendStored?) && t.needsPayment && t.intent == Some(intent)
  }

  /** The step is a check that succeeds, for a message that has to be paid for. */
  predicate StartsToPay(payments: Payments, w: World, step: Step)
  {
    && step.SendCheck? && step.intent.Some? && step.h !in w.tasks
    && NeedsPayment(w.stores, step.chat, step.user, step.content)
    && CanSendMessage(w.stores, payments, step.chat, step.user, step.content, step.intent) == Allow
  }

  /** No request starts to pay with an intent while another one pays with it. */
  predicate DoesNotOverlap(payments: Payments, w: World, step: Step)
  {
    StartsToPay(payments, w, step) ==> forall h :: h in w.tasks ==> !Pays(w.tasks[h], step.intent.value)
  }

  predicate NeverOverlaps(payments: Payments, w: World, steps: seq<Step>)
  {
    steps != [] ==>
      && NeverOverlaps(payments, w, steps[..|steps| - 1])
      && DoesNotOverlap(payments, Run(payments, w, steps[..|steps| - 1]), steps[|steps| - 1])
  }

  predicate IsPaidWith(stored: Stored, intent: IntentId)
  {
    stored.needsPayment && stored.intent == Some(intent)
  }

  /** Whatever had to be paid for came with a payment. */
  ghost predicate PaysWithSomething(history: seq<Stored>, tasks: map<nat, Task>)
  {
    && (forall k :: 0 <= k < |history| && history[k].needsPayment ==> history[k].intent.Some?)
    && (forall h :: h in tasks && tasks[h].SendAllowed? && tasks[h].needsPayment ==> tasks[h].intent.Some?)
  }

  /** No payment backs two stored messages. */
  ghost predicate BacksOneMessage(history: seq<Stored>)
  {
    forall j, k, i :: 0 <= j < k < |history| && IsPaidWith(history[j], i) ==> !IsPaidWith(history[k], i)
  }

  /** No payment is on its way twice. */
  ghost predicate PaysForOneTask(tasks: map<nat, Task>)
  {
    forall g, h, i :: g in tasks && h in tasks && g != h && Pays(tasks[g], i) ==> !Pays(tasks[h], i)
  }

  /** A payment that backs a message is marked as used or about to be. */
  ghost predicate IsSpent(history: seq<Stored>, tasks: map<nat, Task>, fulfilled: set<IntentId>)
  {
    forall k, i :: 0 <= k < |history| && IsPaidWith(history[k], i) ==>
                     (i in fulfilled || IsBeingPaid(tasks, i)) && IsPastPut(tasks, i)
  }

  ghost predicate IsPastPut(tasks: map<nat, Task>, intent: IntentId)
  {
    forall h :: h in tasks && Pays(tasks[h], intent) ==> tasks[h].SendStored?
  }

  ghost predicate IsBeingPaid(tasks: map<nat, Task>, intent: IntentId)
  {
    exists h :: h in tasks && Pays(tasks[h], intent)
  }

  /** What holds of payments as long as requests with the same intent do not overlap. */
  ghost predicate PaysOnce(history: seq<Stored>, tasks: map<nat, Task>, fulfilled: set<IntentId>)
  {
    && PaysWithSomething(history, tasks) && BacksOneMessage(history)
    && PaysForOneTask(tasks) && IsSpent(history, tasks, fulfilled)
  }

  ghost predicate WorldPaysOnce(w: World)
  {
    PaysOnce(w.history, w.tasks, w.stores.fulfilled)
  }

  /** A paying request that is past its put has a message in the history. */
  ghost predicate StoredTasksHaveMessages(w: World)
  {
    forall h, i :: h in w.tasks && Pays(w.tasks[h], i) && w.tasks[h].SendStored? ==> IsStoredWith(w.history, i)
  }

  ghost predicate IsStoredWith(history: seq<Stored>, intent: IntentId)
  {
    exists k :: 0 <= k < |history| && IsPaidWith(history[k], intent)
  }

  predicate IsSending(t: Task)
  {
    t.SendAllowed? || t.SendStored?
  }

  /** Nothing changes for messages and requests that pay. */
  lemma {:induction false} SamePayments(history: seq<Stored>, tasks: map<nat, Task>, fulfilled: set<IntentId>,
                                        later: seq<Stored>, after: map<nat, Task>, marked: set<IntentId>)
    requires PaysOnce(history, tasks, fulfilled) && fulfilled <= marked && history <= later
    requires forall k :: |history| <= k < |later| ==> !later[k].needsPayment
    requires forall h :: h in tasks && IsSending(tasks[h]) ==> h in after && after[h] == tasks[h]
    requires forall h :: h in after && IsSending(after[h]) ==> h in tasks && after[h] == tasks[h]
    ensures PaysOnce(later, after, marked)
  {
    forall k, i | 0 <= k < |later| && IsPaidWith(later[k], i)
      ensures k < |history| && later[k] == history[k] && (i in marked || IsBeingPaid(after, i))
      ensures IsPastPut(after, i)
    {
      assert IsPaidWith(history[k], i) && IsPastPut(tasks, i);
      if i !in fulfilled {
        var h :| h in tasks && Pays(tasks[h], i);
        assert Pays(after[h], i);
      }
    }
  }

  lemma {:induction false} OneMorePayer(history: seq<Stored>, tasks: map<nat, Task>, fulfilled: set<IntentId>, h: nat,
                                        t: Task)
    requires PaysOnce(history, tasks, fulfilled) && h !in tasks && t.SendAllowed?
    requires t.needsPayment ==>
               && t.intent.Some? && t.intent.value !in fulfilled
               && forall g :: g in tasks ==> !Pays(tasks[g], t.intent.value)
    ensures PaysOnce(history, tasks[h := t], fulfilled)
  {
    var after := tasks[h := t];
    forall k, i | 0 <= k < |history| && IsPaidWith(history[k], i)
      ensures (i in fulfilled || IsBeingPaid(after, i)) && !Pays(t, i) && IsPastPut(after, i)
    {
      assert IsPastPut(tasks, i);
      if i !in fulfilled {
        var g :| g in tasks && Pays(tasks[g], i);
        assert Pays(after[g], i);
      }
    }
  }

  lemma {:induction false} OneMoreMessage(history: seq<Stored>, tasks: map<nat, Task>, fulfilled: set<IntentId>,
                                          h: nat, t: Task, stored: Stored)
    requires PaysOnce(history, tasks, fulfilled) && h in tasks && tasks[h].SendAllowed?
    requires stored.needsPayment == tasks[h].needsPayment && stored.intent == tasks[h].intent
    requires if stored.intent.Some? then t.SendStored? && t.needsPayment == stored.needsPayment
             && t.intent == stored.intent
             else t.Answered?
    ensures PaysOnce(history + [stored], tasks[h := t], fulfilled)
  {
    var later, after := history + [stored], tasks[h := t];
    assert forall i :: IsPaidWith(stored, i) <==> Pays(tasks[h], i);
    assert forall i :: Pays(t, i) ==> IsPaidWith(stored, i) && t.SendStored?;
    forall k, i | 0 <= k < |history| && IsPaidWith(history[k], i) ensures !IsPaidWith(stored, i) {
      assert IsPastPut(tasks, i);
    }
    assert forall g, i :: g in after && Pays(after[g], i) ==> g in tasks && Pays(tasks[g], i);
    forall k, i | 0 <= k < |later| && IsPaidWith(later[k], i)
      ensures i in fulfilled || IsBeingPaid(after, i)
      ensures IsPastPut(after, i)
    {
      if k == |history| {
        assert Pays(after[h], i);
      } else {
        assert IsPaidWith(history[k], i) && IsPastPut(tasks, i);
        if i !in fulfilled {
          var g :| g in tasks && Pays(tasks[g], i);
          assert Pays(after[g], i);
        }
      }
    }
  }

  lemma {:induction false} OneMoreMark(history: seq<Stored>, tasks: map<nat, Task>, fulfilled: set<IntentId>, h: nat,
                                       t: Task)
    requires PaysOnce(history, tasks, fulfilled) && h in tasks && tasks[h].SendStored? && tasks[h].intent.Some?
             && t.Answered?
    ensures PaysOnce(history, tasks[h := t], fulfilled + {tasks[h].intent.value})
  {
    var after, marked := tasks[h := t], fulfilled + {tasks[h].intent.value};
    forall k, i | 0 <= k < |history| && IsPaidWith(history[k], i)
        ensures (i in marked || IsBeingPaid(after, i)) && IsPastPut(after, i) {
      assert IsPastPut(tasks, i);
      if i !in marked {
        var g :| g in tasks && Pays(tasks[g], i);
        assert Pays(after[g], i);
      }
    }
  }

  lemma {:induction false} OtherStepKeepsPaysOnce(payments: Payments, w: World, step: Step)
    requires WorldPaysOnce(w)
    requires !step.SendCheck? && !step.SendPut? && !step.SendMark?
    ensures WorldPaysOnce(Next(payments, w, step))
  {
    OtherStepsSendNothing(payments, w, step);
    var v := Next(payments, w, step);
    SamePayments(w.history, w.tasks, w.stores.fulfilled, v.history, v.tasks, v.stores.fulfilled);
  }

  lemma {:induction false} CheckKeepsPaysOnce(payments: Payments, w: World, step: Step)
    requires WorldPaysOnce(w) && step.SendCheck? && DoesNotOverlap(payments, w, step)
    ensures WorldPaysOnce(Next(payments, w, step))
  {
    var v := Next(payments, w, step);
    SendCheckStep(payments, w, step);
    if step.h !in w.tasks && v.tasks[step.h].SendAllowed? {
      AllowedByRules(w.stores, payments, step.chat, step.user, step.content, step.intent);
      OneMorePayer(w.history, w.tasks, w.stores.fulfilled, step.h, v.tasks[step.h]);
    } else {
      SamePayments(w.history, w.tasks, w.stores.fulfilled, v.history, v.tasks, v.stores.fulfilled);
    }
  }

  lemma {:induction false} PutKeepsPaysOnce(payments: Payments, w: World, step: Step)
    requires WorldPaysOnce(w) && step.SendPut?
    ensures WorldPaysOnce(Next(payments, w, step))
  {
    var o := DecideSend(payments, w, step);
    if o.effect.Puts? {
      OneMoreMessage(w.history, w.tasks, w.stores.fulfilled, step.h, o.task.value, o.effect.stored);
    }
  }

  lemma {:induction false} MarkKeepsPaysOnce(payments: Payments, w: World, step: Step)
    requires WorldPaysOnce(w) && step.SendMark?
    ensures WorldPaysOnce(Next(payments, w, step))
  {
    var o := DecideSend(payments, w, step);
    if o.task.Some? {
      OneMoreMark(w.history, w.tasks, w.stores.fulfilled, step.h, o.task.value);
      assert o.effect.Nothing? ==> w.stores.fulfilled + {w.tasks[step.h].intent.value} == w.stores.fulfilled;
    }
  }

  lemma {:induction false} StepKeepsPaysOnce(payments: Payments, w: World, step: Step)
    requires WorldPaysOnce(w) && DoesNotOverlap(payments, w, step)
    ensures WorldPaysOnce(Next(payments, w, step))
  {
    match step
    case SendCheck(_, _, _, _, _) => CheckKeepsPaysOnce(payments, w, step);
    case SendPut(_, _, _) => PutKeepsPaysOnce(payments, w, step);
    case SendMark(_) => MarkKeepsPaysOnce(payments, w, step);
    case _ => OtherStepKeepsPaysOnce(payments, w, step);
  }

  lemma {:induction false} RunKeepsPaysOnce(payments: Payments, w: World, steps: seq<Step>)
    requires WorldPaysOnce(w) && NeverOverlaps(payments, w, steps)
    ensures WorldPaysOnce(Run(payments, w, steps))
  {
    if steps != [] {
      var front := steps[..|steps| - 1];
      RunKeepsPaysOnce(payments, w, front);
      StepKeepsPaysOnce(payments, Run(payments, w, front), steps[|steps| - 1]);
    }
  }

  /** Each intent backs at most one stored message that needed payment, and every
      such message is backed by one. */
  ghost predicate EachPaidOnce(history: seq<Stored>)
  {
    && (forall k :: 0 <= k < |history| && history[k].needsPayment ==> history[k].intent.Some?)
    && (forall j, k :: 0 <= j < k < |history| && history[j].needsPayment && history[k].needsPayment ==>
          history[j].intent != history[k].intent)
  }

  lemma {:induction false} IntentsDiffer(w: World)
    requires WorldPaysOnce(w)
    ensures EachPaidOnce(w.history)
  {
    forall j, k | 0 <= j < k < |w.history| && w.history[j].needsPayment && w.history[k].needsPayment
      ensures w.history[j].intent != w.history[k].intent
    {
      assert IsPaidWith(w.history[j], w.history[j].intent.value);
    }
  }

  /** In every run in which no request starts to pay with an intent while another
      one pays with it, each intent backs at most one stored message that needed
      payment. */
  lemma {:induction false} OneMessagePerIntent(payments: Payments, steps: seq<Step>)
    requires NeverOverlaps(payments, INITIAL, steps)
    ensures EachPaidOnce(Run(payments, INITIAL, steps).history)
  {
    RunKeepsPaysOnce(payments, INITIAL, steps);
    IntentsDiffer(Run(payments, INITIAL, steps));
  }

  /** A put that is allowed appends one message, with its request's payment. */
  lemma PutAppends(payments: Payments, w: World, h: nat, id: MessageId, ts: int)
    requires h in w.tasks && w.tasks[h].SendAllowed? && id !in w.stores.Log(w.tasks[h].chat)
    ensures var v := Next(payments, w, SendPut(h, id, ts));
            && |v.history| == |w.history| + 1 && v.history[..|w.history|] == w.history
            && (forall i :: IsPaidWith(v.history[|w.history|], i) <==> Pays(w.tasks[h], i))
            && (forall g :: g in w.tasks && g != h ==> g in v.tasks && v.tasks[g] == w.tasks[g])
            && (forall chat, x :: x in v.stores.Log(chat) ==> x in w.stores.Log(chat) || x == id)
  {
  }

  lemma KeepsStoredMessages(payments: Payments, w: World, step: Step)
    requires StoredTasksHaveMessages(w)
    ensures StoredTasksHaveMessages(Next(payments, w, step))
  {
    var v := Next(payments, w, step);
    if step.SendPut? && v != w {
      PutAppends(payments, w, step.h, step.id, step.ts);
    } else if !step.SendPut? && !step.SendCheck? && !step.SendMark? {
      OtherStepsSendNothing(payments, w, step);
    }
    assert forall k :: 0 <= k < |w.history| ==> v.history[k] == w.history[k];
    forall h, i | h in v.tasks && Pays(v.tasks[h], i) && v.tasks[h].SendStored? ensures IsStoredWith(v.history, i) {
      if step.SendPut? && h == step.h && v != w {
        assert IsPaidWith(v.history[|w.history|], i);
      } else {
        assert h in w.tasks && w.tasks[h] == v.tasks[h];
        assert IsStoredWith(w.history, i);
      }
    }
  }

  lemma {:induction false} AlwaysHasStoredMessages(payments: Payments, steps: seq<Step>)
    ensures StoredTasksHaveMessages(Run(payments, INITIAL, steps))
  {
    if steps != [] {
      AlwaysHasStoredMessages(payments, steps[..|steps| - 1]);
      KeepsStoredMessages(payments, Run(payments, INITIAL, steps[..|steps| - 1]), steps[|steps| - 1]);
    }
  }

  /** From every reachable state, a check that starts to pay with an intent while
      another request pays with it can be followed by two messages stored for that
      one payment, since putting a message comes before marking its payment. */
  lemma {:induction false} OverlapCanStoreTwice(payments: Payments, before: seq<Step>, g: nat, step: Step,
                                                x: MessageId, y: MessageId)
    requires var w := Run(payments, INITIAL, before);
             && StartsToPay(payments, w, step)
             && g in w.tasks && Pays(w.tasks[g], step.intent.value)
             && x != y && x !in w.stores.Log(w.tasks[g].chat) && y !in w.stores.Log(step.chat)
    ensures var v := Next(payments, Run(payments, INITIAL, before), step);
            BacksTwoMessages(Run(payments, v, [SendPut(g, x, 0), SendPut(step.h, y, 0)]).history, step.intent.value)
  {
    AlwaysHasStoredMessages(payments, before);
    var w := Run(payments, INITIAL, before);
    var intent := step.intent.value;
    SendCheckStep(payments, w, step);
    var u := Next(payments, w, step);
    var v := FirstIsStored(payments, w, u, g, intent, x, step.h);
    PutAppends(payments, v, step.h, y, 0);
    var z := Next(payments, v, SendPut(step.h, y, 0));
    var first :| 0 <= first < |v.history| && IsPaidWith(v.history[first], intent);
    assert z.history[first] == v.history[first];
    assert IsPaidWith(z.history[first], intent) && IsPaidWith(z.history[|v.history|], intent);
    RunOfTwo(payments, u, SendPut(g, x, 0), SendPut(step.h, y, 0));
  }

  ghost predicate BacksTwoMessages(history: seq<Stored>, intent: IntentId)
  {
    exists j, k :: 0 <= j < k < |history| && IsPaidWith(history[j], intent) && IsPaidWith(history[k], intent)
  }

  /** The request that pays already has its message stored, or puts it now. */
  lemma {:induction false} FirstIsStored(payments: Payments, w: World, u: World, g: nat, intent: IntentId,
                                         x: MessageId, h: nat) returns (v: World)
    requires StoredTasksHaveMessages(w)
    requires g in w.tasks && Pays(w.tasks[g], intent) && x !in w.stores.Log(w.tasks[g].chat)
    requires h !in w.tasks && h in u.tasks && u == w.(tasks := w.tasks[h := u.tasks[h]])
    ensures v == Next(payments, u, SendPut(g, x, 0)) && IsStoredWith(v.history, intent)
    ensures h in v.tasks && v.tasks[h] == u.tasks[h]
    ensures forall chat, y :: y in v.stores.Log(chat) ==> y in w.stores.Log(chat) || y == x
  {
    v := Next(payments, u, SendPut(g, x, 0));
    if w.tasks[g].SendAllowed? {
      PutAppends(payments, u, g, x, 0);
      assert IsPaidWith(v.history[|w.history|], intent);
    } else {
      assert IsStoredWith(w.history, intent);
      assert v == u;
    }
  }

  lemma {:induction false} PutsDoNotOverlap(payments: Payments, w: World, a: Step, b: Step)
    requires a.SendPut? && b.SendPut?
    ensures NeverOverlaps(payments, w, [a, b])
  {
    assert [a, b][..1] == [a] && [a][..0] == [];
    assert NeverOverlaps(payments, w, []);
    assert NeverOverlaps(payments, w, [a]);
  }

  lemma {:induction false} WithoutOverlapStaysPaidOnce(payments: Payments, before: seq<Step>, step: Step)
    requires NeverOverlaps(payments, INITIAL, before) && DoesNotOverlap(payments, Run(payments, INITIAL, before), step)
    ensures StaysPaidOnce(payments, Next(payments, Run(payments, INITIAL, before), step))
  {
    var w := Run(payments, INITIAL, before);
    RunKeepsPaysOnce(payments, INITIAL, before);
    StepKeepsPaysOnce(payments, w, step);
    PaysOnceStaysPaidOnce(payments, Next(payments, w, step));
  }

  lemma {:induction false} PaysOnceStaysPaidOnce(payments: Payments, w: World)
    requires WorldPaysOnce(w)
    ensures StaysPaidOnce(payments, w)
  {
    forall after | NeverOverlaps(payments, w, after) ensures EachPaidOnce(Run(payments, w, after).history) {
      RunKeepsPaysOnce(payments, w, after);
      IntentsDiffer(Run(payments, w, after));
    }
  }

  lemma {:induction false} OverlapDoesNotStayPaidOnce(payments: Payments, before: seq<Step>, step: Step)
    requires !DoesNotOverlap(payments, Run(payments, INITIAL, before), step)
    ensures !StaysPaidOnce(payments, Next(payments, Run(payments, INITIAL, before), step))
  {
    var w := Run(payments, INITIAL, before);
    var g :| g in w.tasks && Pays(w.tasks[g], step.intent.value);
    var x := FreshId(w.stores.Log(w.tasks[g].chat).Keys);
    var y := FreshId(w.stores.Log(step.chat).Keys + {x});
    OverlapCanStoreTwice(payments, before, g, step, x, y);
    PutsDoNotOverlap(payments, Next(payments, w, step), SendPut(g, x, 0), SendPut(step.h, y, 0));
    TwoAreNotOne(Run(payments, Next(payments, w, step), [SendPut(g, x, 0), SendPut(step.h, y, 0)]).history,
                 step.intent.value);
  }

  lemma {:induction false} TwoAreNotOne(history: seq<Stored>, intent: IntentId)
    requires BacksTwoMessages(history, intent)
    ensures !EachPaidOnce(history)
  {
  }

  /** After any run without overlaps, whatever step comes next, each payment backs
      at most one message in every continuation without overlaps if and only if
      the step does not overlap: no request starts to pay while another pays with
      the same intent. */
  lemma {:induction false} PaidOnceExactlyWithoutOverlap(payments: Payments, before: seq<Step>, step: Step)
    requires NeverOverlaps(payments, INITIAL, before)
    ensures var w := Run(payments, INITIAL, before);
            StaysPaidOnce(payments, Next(payments, w, step)) <==> DoesNotOverlap(payments, w, step)
  {
    if DoesNotOverlap(payments, Run(payments, INITIAL, before), step) {
      WithoutOverlapStaysPaidOnce(payments, before, step);
    } else {
      OverlapDoesNotStayPaidOnce(payments, before, step);
    }
  }

  ghost predicate StaysPaidOnce(payments: Payments, w: World)
  {
    forall after :: NeverOverlaps(payments, w, after) ==> EachPaidOnce(Run(payments, w, after).history)
  }
}
