/** One payment founds one group, unless requests that pay with it overlap. */
module GroupProofs {
  import opened Ids
  import opened Rooms
  import opened Authorizer
  import opened Server
  import opened MembershipProofs
  import opened Requests
  import opened StartRequests

  /** A request for a group that has not come to marking its payment. */
  predicate IsFounder(t: Task)
  {
    (t.StartCreating? || t.StartCreated?) && t.intent.Some?
  }

  predicate FoundsWith(t: Task, intent: IntentId)
  {
    IsFounder(t) && t.intent.value == intent
  }

  /** The payment behind the chat that the step creates, if it creates one for a payment. */
  function FoundedBy(payments: Payments, w: World, step: Step): seq<IntentId>
  {
    var o := Decide(payments, w, step);
    if o.effect.CreatesChat? && o.h in w.tasks && IsFounder(w.tasks[o.h]) then [w.tasks[o.h].intent.value] else []
  }

  /** The payments behind all groups created in the run, in order. */
  function Founded(payments: Payments, steps: seq<Step>): seq<IntentId>
  {
    if steps == [] then []
    else
      var front, last := steps[..|steps| - 1], steps[|steps| - 1];
      Founded(payments, front) + FoundedBy(payments, Run(payments, INITIAL, front), last)
  }

  /** The step is a check for a group that succeeds. */
  predicate StartsToFound(payments: Payments, w: World, step: Step)
  {
    && step.StartGroup? && step.h !in w.tasks && IsNewChatId(w, step.newChat)
    && RefusalOf(w.stores, payments, step.creator, step.intent, step.flagged) == None
  }

  /** No request starts to found a group with a payment while another one founds with it. */
  predicate FoundsApart(payments: Payments, w: World, step: Step)
  {
    StartsToFound(payments, w, step) ==> forall h :: h in w.tasks ==> !FoundsWith(w.tasks[h], step.intent.value)
  }

  predicate AlwaysFoundsApart(payments: Payments, w: World, steps: seq<Step>)
  {
    steps != [] ==>
      && AlwaysFoundsApart(payments, w, steps[..|steps| - 1])
      && FoundsApart(payments, Run(payments, w, steps[..|steps| - 1]), steps[|steps| - 1])
  }

  ghost predicate IsBeingFounded(tasks: map<nat, Task>, intent: IntentId)
  {
    exists h :: h in tasks && FoundsWith(tasks[h], intent)
  }

  ghost predicate HasCreated(tasks: map<nat, Task>, intent: IntentId)
  {
    forall h :: h in tasks && FoundsWith(tasks[h], intent) ==> tasks[h].StartCreated?
  }

  ghost predicate FoundersDiffer(tasks: map<nat, Task>)
  {
    forall g, h, i :: g in tasks && h in tasks && g != h && FoundsWith(tasks[g], i) ==> !FoundsWith(tasks[h], i)
  }

  /** What holds of groups and their payments as long as founders do not overlap. */
  ghost predicate FoundsOnce(founded: seq<IntentId>, tasks: map<nat, Task>, fulfilled: set<IntentId>)
  {
    && NoDuplicates(founded)
    && FoundersDiffer(tasks)
    && forall i :: i in founded ==> (i in fulfilled || IsBeingFounded(tasks, i)) && HasCreated(tasks, i)
  }

  ghost predicate RunFoundsOnce(payments: Payments, steps: seq<Step>)
  {
    var w := Run(payments, INITIAL, steps);
    FoundsOnce(Founded(payments, steps), w.tasks, w.stores.fulfilled)
  }

  // ----- What each kind of step does to founders -----

  lemma {:induction false} SameFounders(founded: seq<IntentId>, tasks: map<nat, Task>, fulfilled: set<IntentId>,
                                        after: map<nat, Task>, marked: set<IntentId>)
    requires FoundsOnce(founded, tasks, fulfilled) && fulfilled <= marked
    requires forall h :: h in tasks && IsFounder(tasks[h]) ==> h in after && after[h] == tasks[h]
    requires forall h :: h in after && IsFounder(after[h]) ==> h in tasks && after[h] == tasks[h]
    ensures FoundsOnce(founded, after, marked)
  {
    forall i | i in founded ensures (i in marked || IsBeingFounded(after, i)) && HasCreated(after, i) {
      assert HasCreated(tasks, i);
      if i !in fulfilled {
        var h :| h in tasks && FoundsWith(tasks[h], i);
        assert FoundsWith(after[h], i);
      }
    }
  }

  lemma {:induction false} OneMoreFounder(founded: seq<IntentId>, tasks: map<nat, Task>, fulfilled: set<IntentId>,
                                          h: nat, t: Task)
    requires FoundsOnce(founded, tasks, fulfilled) && h !in tasks && t.StartCreating? && t.intent.Some?
    requires t.intent.value !in fulfilled && !IsBeingFounded(tasks, t.intent.value)
    ensures FoundsOnce(founded, tasks[h := t], fulfilled)
  {
    var after := tasks[h := t];
    forall i | i in founded ensures (i in fulfilled || IsBeingFounded(after, i)) && HasCreated(after, i) {
      assert HasCreated(tasks, i);
      if i !in fulfilled {
        var g :| g in tasks && FoundsWith(tasks[g], i);
        assert FoundsWith(after[g], i);
      }
    }
  }

  lemma {:induction false} FounderCreates(founded: seq<IntentId>, tasks: map<nat, Task>, fulfilled: set<IntentId>,
                                          h: nat, t: Task, more: seq<IntentId>)
    requires FoundsOnce(founded, tasks, fulfilled) && h in tasks && tasks[h].StartCreating? && tasks[h].intent.Some?
    requires t.StartCreated? && t.intent == tasks[h].intent && (more == [] || more == [t.intent.value])
    ensures FoundsOnce(founded + more, tasks[h := t], fulfilled)
  {
    var after, intent := tasks[h := t], t.intent.value;
    assert forall g, i :: g in after && FoundsWith(after[g], i) ==> g in tasks && FoundsWith(tasks[g], i);
    assert FoundsWith(tasks[h], intent);
    assert intent in founded ==> HasCreated(tasks, intent);
    forall i | i in founded + more ensures (i in fulfilled || IsBeingFounded(after, i)) && HasCreated(after, i) {
      if i == intent {
        assert FoundsWith(after[h], i);
      } else {
        assert i in founded && HasCreated(tasks, i);
        if i !in fulfilled {
          var g :| g in tasks && FoundsWith(tasks[g], i);
          assert FoundsWith(after[g], i);
        }
      }
    }
  }

  lemma {:induction false} FounderMarks(founded: seq<IntentId>, tasks: map<nat, Task>, fulfilled: set<IntentId>,
                                        h: nat, t: Task)
    requires FoundsOnce(founded, tasks, fulfilled) && h in tasks && IsFounder(tasks[h]) && !IsFounder(t)
    ensures FoundsOnce(founded, tasks[h := t], fulfilled + {tasks[h].intent.value})
  {
    var after, marked := tasks[h := t], fulfilled + {tasks[h].intent.value};
    forall i | i in founded ensures (i in marked || IsBeingFounded(after, i)) && HasCreated(after, i) {
      assert HasCreated(tasks, i);
      if i !in marked {
        var g :| g in tasks && FoundsWith(tasks[g], i);
        assert FoundsWith(after[g], i);
      }
    }
  }

  lemma {:induction false} OtherStepsFoundNothing(payments: Payments, w: World, step: Step)
    requires !step.StartGroup? && !step.StartCreate? && !step.StartMark?
    ensures var o := Decide(payments, w, step);
            && (o.task.Some? ==> !IsFounder(o.task.value))
            && (o.task.Some? && o.h in w.tasks ==> !IsFounder(w.tasks[o.h]))
            && FoundedBy(payments, w, step) == []
  {
  }

  lemma {:induction false} StepFoundsOnce(payments: Payments, steps: seq<Step>, step: Step)
    requires RunFoundsOnce(payments, steps) && FoundsApart(payments, Run(payments, INITIAL, steps), step)
    ensures RunFoundsOnce(payments, steps + [step])
  {
    var w := Run(payments, INITIAL, steps);
    var v, founded := Next(payments, w, step), Founded(payments, steps);
    RunOneMore(payments, INITIAL, steps, step);
    assert (steps + [step])[..|steps|] == steps;
    StepKeepsFoundsOnce(payments, w, step, founded);
  }

  lemma {:induction false} StepKeepsFoundsOnce(payments: Payments, w: World, step: Step, founded: seq<IntentId>)
    requires FoundsOnce(founded, w.tasks, w.stores.fulfilled) && FoundsApart(payments, w, step)
    ensures var v := Next(payments, w, step);
            FoundsOnce(founded + FoundedBy(payments, w, step), v.tasks, v.stores.fulfilled)
  {
    var v := Next(payments, w, step);
    if step.StartGroup? {
      CheckFoundsOnce(payments, w, step, founded);
    } else if step.StartCreate? && step.h in w.tasks && w.tasks[step.h].StartCreating? {
      CreateFoundsOnce(payments, w, step.h, founded);
    } else if step.StartMark? && step.h in w.tasks && IsFounder(w.tasks[step.h]) && w.tasks[step.h].StartCreated? {
      MarkFoundsOnce(payments, w, step.h, founded);
    } else {
      if !step.StartCreate? && !step.StartMark? {
        OtherStepsFoundNothing(payments, w, step);
      }
      assert founded + [] == founded;
      SameFounders(founded, w.tasks, w.stores.fulfilled, v.tasks, v.stores.fulfilled);
    }
  }

  lemma {:induction false} MarkFoundsOnce(payments: Payments, w: World, h: nat, founded: seq<IntentId>)
    requires FoundsOnce(founded, w.tasks, w.stores.fulfilled)
    requires h in w.tasks && IsFounder(w.tasks[h]) && w.tasks[h].StartCreated?
    ensures var v := Next(payments, w, StartMark(h));
            FoundsOnce(founded + FoundedBy(payments, w, StartMark(h)), v.tasks, v.stores.fulfilled)
  {
    MarkStep(payments, w, h);
    assert founded + [] == founded;
    FounderMarks(founded, w.tasks, w.stores.fulfilled, h, Next(payments, w, StartMark(h)).tasks[h]);
  }

  lemma {:induction false} CheckFoundsOnce(payments: Payments, w: World, step: Step, founded: seq<IntentId>)
    requires FoundsOnce(founded, w.tasks, w.stores.fulfilled) && FoundsApart(payments, w, step) && step.StartGroup?
    ensures var v := Next(payments, w, step);
            FoundsOnce(founded + FoundedBy(payments, w, step), v.tasks, v.stores.fulfilled)
  {
    var v := Next(payments, w, step);
    assert founded + [] == founded;
    if step.h in w.tasks || !IsNewChatId(w, step.newChat) {
      assert v == w;
    } else {
      CheckGroup(payments, w, step);
      if StartsToFound(payments, w, step) {
        OneMoreFounder(founded, w.tasks, w.stores.fulfilled, step.h, v.tasks[step.h]);
      } else {
        SameFounders(founded, w.tasks, w.stores.fulfilled, v.tasks, v.stores.fulfilled);
      }
    }
  }

  lemma {:induction false} CreateFoundsOnce(payments: Payments, w: World, h: nat, founded: seq<IntentId>)
    requires FoundsOnce(founded, w.tasks, w.stores.fulfilled) && h in w.tasks && w.tasks[h].StartCreating?
    ensures var v := Next(payments, w, StartCreate(h));
            FoundsOnce(founded + FoundedBy(payments, w, StartCreate(h)), v.tasks, v.stores.fulfilled)
  {
    var v, more := Next(payments, w, StartCreate(h)), FoundedBy(payments, w, StartCreate(h));
    CreateStep(payments, w, h);
    if IsFounder(w.tasks[h]) {
      FounderCreates(founded, w.tasks, w.stores.fulfilled, h, v.tasks[h], more);
    } else {
      assert founded + [] == founded;
      SameFounders(founded, w.tasks, w.stores.fulfilled, v.tasks, v.stores.fulfilled);
    }
  }

  // ----- Over runs -----

  lemma {:induction false} RunKeepsFoundsOnce(payments: Payments, base: seq<Step>, after: seq<Step>)
    requires RunFoundsOnce(payments, base) && AlwaysFoundsApart(payments, Run(payments, INITIAL, base), after)
    ensures RunFoundsOnce(payments, base + after)
  {
    var w := Run(payments, INITIAL, base);
    var P := (s: seq<Step>) => AlwaysFoundsApart(payments, w, s) ==> RunFoundsOnce(payments, base + s);
    assert base + [] == base;
    forall front, last | P(front) ensures P(front + [last]) {
      if AlwaysFoundsApart(payments, w, front + [last]) {
        FoundsOnceOneMore(payments, base, front, last);
      }
    }
    StepByStep(P, after);
  }

  lemma {:induction false} ApartOneMore(payments: Payments, w: World, front: seq<Step>, last: Step)
    requires AlwaysFoundsApart(payments, w, front + [last])
    ensures AlwaysFoundsApart(payments, w, front) && FoundsApart(payments, Run(payments, w, front), last)
  {
    assert (front + [last])[..|front|] == front;
  }

  lemma {:induction false} FoundsOnceOneMore(payments: Payments, base: seq<Step>, front: seq<Step>, last: Step)
    requires AlwaysFoundsApart(payments, Run(payments, INITIAL, base), front + [last])
    requires AlwaysFoundsApart(payments, Run(payments, INITIAL, base), front) ==> RunFoundsOnce(payments, base + front)
    ensures RunFoundsOnce(payments, base + (front + [last]))
  {
    ApartOneMore(payments, Run(payments, INITIAL, base), front, last);
    RunAppend(payments, INITIAL, base, front);
    StepFoundsOnce(payments, base + front, last);
    assert base + (front + [last]) == base + front + [last];
  }

  lemma {:induction false} FoundsOnceAtFirst(payments: Payments)
    ensures RunFoundsOnce(payments, [])
  {
  }

  /** In every run in which founders do not overlap, no payment is behind two groups. */
  lemma {:induction false} OneGroupPerPayment(payments: Payments, steps: seq<Step>)
    requires AlwaysFoundsApart(payments, INITIAL, steps)
    ensures NoDuplicates(Founded(payments, steps))
  {
    FoundsOnceAtFirst(payments);
    RunKeepsFoundsOnce(payments, [], steps);
    assert [] + steps == steps;
  }

  /** Only groups come with a payment, and what was created is among the founded. */
  ghost predicate FoundersAreKnown(payments: Payments, steps: seq<Step>)
  {
    var w := Run(payments, INITIAL, steps);
    forall h :: h in w.tasks && IsFounder(w.tasks[h]) ==>
                  w.tasks[h].isGroup && (w.tasks[h].StartCreated? ==>
                                         w.tasks[h].intent.value in Founded(payments, steps))
  }

  /** A founder that comes to create does create its chat. */
  lemma {:induction false} CreateFounds(payments: Payments, steps: seq<Step>, h: nat)
    requires FoundersAreKnown(payments, steps)
    requires var w := Run(payments, INITIAL, steps);
             h in w.tasks && w.tasks[h].StartCreating? && w.tasks[h].intent.Some?
    ensures var w := Run(payments, INITIAL, steps); FoundedBy(payments, w, StartCreate(h)) == [w.tasks[h].intent.value]
  {
    var w := Run(payments, INITIAL, steps);
    MembershipAlwaysSound(payments, steps);
    assert TaskFits(w.stores.rooms, w.tasks[h]);
  }

  lemma {:induction false} FoundersStayKnown(payments: Payments, steps: seq<Step>, step: Step)
    requires FoundersAreKnown(payments, steps)
    ensures FoundersAreKnown(payments, steps + [step])
  {
    var w := Run(payments, INITIAL, steps);
    RunOneMore(payments, INITIAL, steps, step);
    assert (steps + [step])[..|steps|] == steps;
    if step.StartCreate? && step.h in w.tasks && w.tasks[step.h].StartCreating? && w.tasks[step.h].intent.Some? {
      CreateFounds(payments, steps, step.h);
    }
    NewFounderIsGroup(payments, w, step);
  }

  lemma {:induction false} NewFounderIsGroup(payments: Payments, w: World, step: Step)
    requires forall h :: h in w.tasks && IsFounder(w.tasks[h]) ==> w.tasks[h].isGroup
    ensures var o := Decide(payments, w, step);
            o.task.Some? && IsFounder(o.task.value) ==>
              && o.task.value.isGroup
              && (o.task.value.StartCreated? ==>
                  step.StartCreate? && step.h == o.h && o.h in w.tasks && w.tasks[o.h].StartCreating?
                                                 && w.tasks[o.h].intent == o.task.value.intent)
  {
    if !step.StartGroup? && !step.StartCreate? && !step.StartMark? {
      OtherStepsFoundNothing(payments, w, step);
    }
  }

  lemma {:induction false} FoundersAlwaysKnown(payments: Payments, steps: seq<Step>)
    ensures FoundersAreKnown(payments, steps)
  {
    if steps != [] {
      FoundersAlwaysKnown(payments, steps[..|steps| - 1]);
      FoundersStayKnown(payments, steps[..|steps| - 1], steps[|steps| - 1]);
      assert steps == steps[..|steps| - 1] + [steps[|steps| - 1]];
    }
  }

  /** In every continuation without overlaps each payment founds at most one group. */
  ghost predicate StaysFoundedOnce(payments: Payments, steps: seq<Step>)
  {
    forall after :: AlwaysFoundsApart(payments, Run(payments, INITIAL, steps), after) ==>
                      NoDuplicates(Founded(payments, steps + after))
  }

  lemma {:induction false} FoundedOneMore(payments: Payments, steps: seq<Step>, step: Step)
    ensures Founded(payments, steps + [step])
            == Founded(payments, steps) + FoundedBy(payments, Run(payments, INITIAL, steps), step)
  {
    assert (steps + [step])[..|steps|] == steps;
  }

  lemma {:induction false} CreatesDoNotCheck(payments: Payments, w: World, a: Step, b: Step)
    requires a.StartCreate? && b.StartCreate?
    ensures AlwaysFoundsApart(payments, w, [a, b])
  {
    assert [a, b][..1] == [a] && [a][..0] == [];
    assert AlwaysFoundsApart(payments, w, []);
    assert AlwaysFoundsApart(payments, w, [a]);
  }

  /** After the first founder has created its chat, whether it had before or does now. */
  lemma {:induction false} FirstFounds(payments: Payments, steps: seq<Step>, g: nat)
    requires var w := Run(payments, INITIAL, steps); g in w.tasks && IsFounder(w.tasks[g])
    ensures var w := Run(payments, INITIAL, steps);
            w.tasks[g].intent.value in Founded(payments, steps + [StartCreate(g)])
  {
    FoundersAlwaysKnown(payments, steps);
    FoundedOneMore(payments, steps, StartCreate(g));
    if Run(payments, INITIAL, steps).tasks[g].StartCreating? {
      CreateFounds(payments, steps, g);
    }
  }

  lemma {:induction false} OverlapFoundsTwice(payments: Payments, before: seq<Step>, step: Step)
    requires !FoundsApart(payments, Run(payments, INITIAL, before), step)
    ensures !StaysFoundedOnce(payments, before + [step])
  {
    var w := Run(payments, INITIAL, before);
    var g :| g in w.tasks && FoundsWith(w.tasks[g], step.intent.value);
    var steps := before + [step];
    RunOneMore(payments, INITIAL, before, step);
    CheckGroup(payments, w, step);
    FirstFounds(payments, steps, g);
    SecondFounds(payments, steps, g, step.h);
    CreatesDoNotCheck(payments, Run(payments, INITIAL, steps), StartCreate(g), StartCreate(step.h));
    assert steps + [StartCreate(g), StartCreate(step.h)] == steps + [StartCreate(g)] + [StartCreate(step.h)];
  }

  lemma {:induction false} SecondFounds(payments: Payments, steps: seq<Step>, g: nat, h: nat)
    requires var w := Run(payments, INITIAL, steps);
             g != h && h in w.tasks && w.tasks[h].StartCreating? && w.tasks[h].intent.Some?
    requires Run(payments, INITIAL, steps).tasks[h].intent.value in Founded(payments, steps + [StartCreate(g)])
    ensures !NoDuplicates(Founded(payments, steps + [StartCreate(g)] + [StartCreate(h)]))
  {
    var created := steps + [StartCreate(g)];
    RunOneMore(payments, INITIAL, steps, StartCreate(g));
    FoundersAlwaysKnown(payments, created);
    assert Run(payments, INITIAL, created).tasks[h] == Run(payments, INITIAL, steps).tasks[h];
    CreateFounds(payments, created, h);
    FoundedOneMore(payments, created, StartCreate(h));
    TwiceIsDuplicate(Founded(payments, created), Run(payments, INITIAL, steps).tasks[h].intent.value);
  }

  lemma TwiceIsDuplicate(founded: seq<IntentId>, intent: IntentId)
    requires intent in founded
    ensures !NoDuplicates(founded + [intent])
  {
    var all := founded + [intent];
    var k :| 0 <= k < |founded| && founded[k] == intent;
    assert all[k] == all[|founded|];
  }

  /** After any run without overlapping founders, whatever step comes next, each payment
      founds at most one group in every continuation without overlaps if and only if
      no check for a group succeeds, at that step, while another request founds with
      the same payment. */
  lemma {:induction false} FoundedOnceExactlyWithoutOverlap(payments: Payments, before: seq<Step>, step: Step)
    requires AlwaysFoundsApart(payments, INITIAL, before)
    ensures StaysFoundedOnce(payments, before + [step]) <==> FoundsApart(payments, Run(payments, INITIAL, before), step)
  {
    if FoundsApart(payments, Run(payments, INITIAL, before), step) {
      FoundsOnceAtFirst(payments);
      RunKeepsFoundsOnce(payments, [], before);
      assert [] + before == before;
      StepFoundsOnce(payments, before, step);
      forall after | AlwaysFoundsApart(payments, Run(payments, INITIAL, before + [step]), after)
        ensures NoDuplicates(Founded(payments, before + [step] + after))
      {
        RunKeepsFoundsOnce(payments, before + [step], after);
      }
    } else {
      OverlapFoundsTwice(payments, before, step);
    }
  }

  /** The owner of a chat, also of a group that was refused, can enter it at any time,
      with all permissions. */
  lemma {:induction false} OwnerCanEnter(payments: Payments, w: World, h: nat, chat: ChatId, owner: UserId)
    requires w.stores.IsOwner(chat, owner) && h !in w.tasks
    ensures var v := Run(payments, w, [JoinCheck(h, chat, owner, false), JoinAdd(h)]);
            && v.stores.rooms.IsActive(chat, owner)
            && v.stores.rooms.Entry(chat, owner).value.hasModPermission
            && v.stores.rooms.Entry(chat, owner).value.hasSendPermission
  {
    JoinAlone(payments, w, h, chat, owner, false);
  }
}
