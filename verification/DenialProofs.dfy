/** When a request is refused although it has already written something: its
    payment is marked only after the message is put or the chat created. */
module DenialProofs {
  import opened Ids
  import opened Authorizer
  import opened Server
  import opened ReferenceProofs
  import opened MembershipProofs

  /** A request that has passed its checks and not come to marking its payment. */
  predicate IsBeforeMark(t: Task)
  {
    t.SendAllowed? || t.SendStored? || t.StartCreating? || t.StartCreated?
  }

  /** A request other than `h` marks the intent. */
  predicate MarksForAnother(payments: Payments, w: World, step: Step, intent: IntentId, h: nat)
  {
    var o := Decide(payments, w, step);
    o.effect.Fulfils? && o.effect.intent == intent && o.h != h
  }

  /** Another request marks the intent during the run. */
  ghost predicate IsMarkedMeanwhile(payments: Payments, w: World, steps: seq<Step>, intent: IntentId, h: nat)
  {
    exists j :: 0 <= j < |steps| && MarksForAnother(payments, Run(payments, w, steps[..j]), steps[j], intent, h)
  }

  /** A request never comes back to a point before its mark, and an answer is final. */
  lemma {:induction false} RequestsMoveOn(payments: Payments, w: World, step: Step, h: nat)
    requires h in w.tasks
    ensures h in Next(payments, w, step).tasks
    ensures !IsBeforeMark(w.tasks[h]) ==> !IsBeforeMark(Next(payments, w, step).tasks[h])
    ensures w.tasks[h].Answered? ==> Next(payments, w, step).tasks[h] == w.tasks[h]
  {
    TaskAfterStep(payments, w, step, h);
  }

  lemma {:induction false} RunsMoveOn(payments: Payments, w: World, steps: seq<Step>, h: nat)
    requires h in w.tasks
    ensures h in Run(payments, w, steps).tasks
    ensures w.tasks[h].Answered? ==> Run(payments, w, steps).tasks[h] == w.tasks[h]
  {
    if steps != [] {
      var front := steps[..|steps| - 1];
      RunsMoveOn(payments, w, front, h);
      RequestsMoveOn(payments, Run(payments, w, front), steps[|steps| - 1], h);
    }
  }

  /** Only marking writes the intent store, and it takes its own request past the mark. */
  lemma {:induction false} MarksMoveOn(payments: Payments, w: World, step: Step)
    ensures var o := Decide(payments, w, step);
            o.effect.Fulfils? ==> o.task.Some? && !IsBeforeMark(o.task.value)
  {
  }

  lemma {:induction false} StepMarks(payments: Payments, w: World, step: Step, intent: IntentId, h: nat)
    requires h in w.tasks && h in Next(payments, w, step).tasks && IsBeforeMark(Next(payments, w, step).tasks[h])
    ensures intent in Next(payments, w, step).stores.fulfilled <==>
            intent in w.stores.fulfilled || MarksForAnother(payments, w, step, intent, h)
  {
    MarksMoveOn(payments, w, step);
    MarkedBy(w.stores, Decide(payments, w, step).effect, intent);
  }

  lemma {:induction false} MarkedBy(s: Stores, effect: Effect, intent: IntentId)
    ensures intent in Affect(s, effect).fulfilled <==>
            intent in s.fulfilled || (effect.Fulfils? && effect.intent == intent)
  {
  }

  /** While a request has not come to its mark, its intent is used exactly if it
      was used before or another request marked it meanwhile. */
  lemma {:induction false} UsedMeanwhile(payments: Payments, w: World, steps: seq<Step>, intent: IntentId, h: nat)
    requires h in w.tasks && h in Run(payments, w, steps).tasks && IsBeforeMark(Run(payments, w, steps).tasks[h])
    ensures intent in Run(payments, w, steps).stores.fulfilled <==>
            intent in w.stores.fulfilled || IsMarkedMeanwhile(payments, w, steps, intent, h)
  {
    if steps != [] {
      var front, last := steps[..|steps| - 1], steps[|steps| - 1];
      var v := Run(payments, w, front);
      RunsMoveOn(payments, w, front, h);
      RequestsMoveOn(payments, v, last, h);
      UsedMeanwhile(payments, w, front, intent, h);
      StepMarks(payments, v, last, intent, h);
      MeanwhileOneMore(payments, w, front, last, intent, h);
      assert steps == front + [last];
    }
  }

  lemma {:induction false} MeanwhileOneMore(payments: Payments, w: World, front: seq<Step>, last: Step,
                                            intent: IntentId, h: nat)
    ensures IsMarkedMeanwhile(payments, w, front + [last], intent, h) <==>
            || IsMarkedMeanwhile(payments, w, front, intent, h)
            || MarksForAnother(payments, Run(payments, w, front), last, intent, h)
  {
    var steps := front + [last];
    assert steps[..|front|] == front;
    assert forall j :: 0 <= j < |front| ==> steps[..j] == front[..j] && steps[j] == front[j];
    if IsMarkedMeanwhile(payments, w, front, intent, h) {
      var j :| 0 <= j < |front| && MarksForAnother(payments, Run(payments, w, front[..j]), front[j], intent, h);
      assert MarksForAnother(payments, Run(payments, w, steps[..j]), steps[j], intent, h);
    } else if MarksForAnother(payments, Run(payments, w, front), last, intent, h) {
      assert MarksForAnother(payments, Run(payments, w, steps[..|front|]), steps[|front|], intent, h);
    }
  }

  // ----- SendMessage -----

  /** The message of this request, as the check let it through. */
  predicate IsMessageOf(stored: Stored, t: Task)
    requires t.SendAllowed?
  {
    && stored.chat == t.chat && stored.msg.sender == Some(t.user) && stored.msg.content == t.content
    && stored.intent == t.intent && stored.needsPayment == t.needsPayment
  }

  ghost predicate HasMessageOf(history: seq<Stored>, t: Task)
    requires t.SendAllowed?
  {
    exists k :: 0 <= k < |history| && IsMessageOf(history[k], t)
  }

  /** A request that passed its check as `t` is still there, or has its message
      stored, or is answered. */
  ghost predicate CameFrom(w: World, h: nat, t: Task)
    requires t.SendAllowed?
  {
    && h in w.tasks
    && (|| w.tasks[h] == t
        || (w.tasks[h] == SendStored(t.chat, t.user, t.content, t.intent, t.needsPayment) && HasMessageOf(w.history, t))
        || w.tasks[h].Answered?)
  }

  lemma {:induction false} MessageStays(history: seq<Stored>, later: seq<Stored>, t: Task)
    requires t.SendAllowed? && HasMessageOf(history, t) && history <= later
    ensures HasMessageOf(later, t)
  {
    var k :| 0 <= k < |history| && IsMessageOf(history[k], t);
    assert IsMessageOf(later[k], t);
  }

  /** What one step does to a request that passed its check. */
  lemma {:induction false} AllowedGoesOn(payments: Payments, w: World, step: Step, h: nat)
    requires h in w.tasks && w.tasks[h].SendAllowed?
    ensures var t, v := w.tasks[h], Next(payments, w, step);
            h in v.tasks && (v.tasks[h] != t && !v.tasks[h].Answered? ==>
              && v.tasks[h] == SendStored(t.chat, t.user, t.content, t.intent, t.needsPayment)
              && |v.history| == |w.history| + 1 && IsMessageOf(v.history[|w.history|], t))
  {
    TaskAfterStep(payments, w, step, h);
    var o := Decide(payments, w, step);
    if o.task.Some? && o.h == h && w.tasks[h].intent.Some? {
      StoredByPut(payments, w, step);
    }
  }

  /** Only a put takes a request past storing its message. */
  lemma {:induction false} StoredByPut(payments: Payments, w: World, step: Step)
    requires var o := Decide(payments, w, step);
             o.task.Some? && o.h in w.tasks && w.tasks[o.h].SendAllowed? && w.tasks[o.h].intent.Some?
    ensures var o := Decide(payments, w, step);
            o.effect.Puts? && IsMessageOf(o.effect.stored, w.tasks[o.h])
  {
    if !step.SendCheck? && !step.SendPut? && !step.SendMark? {
      OtherStepsSendNothing(payments, w, step);
    }
  }

  lemma {:induction false} StoredGoesOn(payments: Payments, w: World, step: Step, h: nat)
    requires h in w.tasks && w.tasks[h].SendStored?
    ensures var v := Next(payments, w, step); h in v.tasks && (v.tasks[h] == w.tasks[h] || v.tasks[h].Answered?)
  {
    TaskAfterStep(payments, w, step, h);
  }

  lemma {:induction false} HistoryGrowsBy(payments: Payments, w: World, step: Step)
    ensures w.history <= Next(payments, w, step).history
  {
  }

  lemma {:induction false} StillCameFrom(payments: Payments, w: World, step: Step, h: nat, t: Task)
    requires t.SendAllowed? && CameFrom(w, h, t)
    ensures CameFrom(Next(payments, w, step), h, t)
  {
    HistoryGrowsBy(payments, w, step);
    if w.tasks[h] == t {
      AllowedGoesOn(payments, w, step, h);
    } else if w.tasks[h].SendStored? {
      StoredGoesOn(payments, w, step, h);
      MessageStays(w.history, Next(payments, w, step).history, t);
    } else {
      RequestsMoveOn(payments, w, step, h);
    }
  }

  lemma {:induction false} RunCameFrom(payments: Payments, w: World, steps: seq<Step>, h: nat, t: Task)
    requires t.SendAllowed? && CameFrom(w, h, t)
    ensures CameFrom(Run(payments, w, steps), h, t)
  {
    if steps != [] {
      var front := steps[..|steps| - 1];
      RunCameFrom(payments, w, front, h, t);
      StillCameFrom(payments, Run(payments, w, front), steps[|steps| - 1], h, t);
    }
  }

  lemma {:induction false} MarkAnswers(payments: Payments, w: World, h: nat)
    requires h in w.tasks && w.tasks[h].SendStored? && w.tasks[h].intent.Some?
    ensures h in Next(payments, w, SendMark(h)).tasks
    ensures var intent := w.tasks[h].intent;
            Next(payments, w, SendMark(h)).tasks[h]
                == Answered(if intent.value in w.stores.fulfilled then Denied else SendOk, intent)
  {
  }

  /** The check of a request, then other steps until its message is stored. */
  function UntilStored(payments: Payments, before: seq<Step>, check: Step, middle: seq<Step>): World
  {
    Run(payments, Next(payments, Run(payments, INITIAL, before), check), middle)
  }

  /** In every run in which a request is checked, has its message put and comes to
      mark its payment, with any steps of others before, between and after: its
      message stays stored, and it is answered "denied" if and only if the payment
      was used at the check, and not needed, or another request marked it between
      the check and the mark. Otherwise it is answered OK. */
  lemma {:induction false} DeniedThoughStoredExactlyWhen(payments: Payments, before: seq<Step>, check: Step,
                                                         middle: seq<Step>, after: seq<Step>)
    requires check.SendCheck? && check.intent.Some? && check.h !in Run(payments, INITIAL, before).tasks
    requires var s := UntilStored(payments, before, check, middle); check.h in s.tasks && s.tasks[check.h].SendStored?
    ensures var w, s := Run(payments, INITIAL, before), UntilStored(payments, before, check, middle);
            var end := Run(payments, Next(payments, s, SendMark(check.h)), after);
            var needsPayment := NeedsPayment(w.stores, check.chat, check.user, check.content);
            && HasMessageOf(end.history, SendAllowed(check.chat, check.user, check.content, check.intent, needsPayment))
            && check.h in end.tasks
            && end.tasks[check.h] == Answered(if IsUsedByThen(payments, w, check, middle) then Denied else SendOk,
                                              check.intent)
  {
    var w, s := Run(payments, INITIAL, before), UntilStored(payments, before, check, middle);
    var u := Next(payments, w, check);
    var h, t := check.h, SendAllowed(check.chat, check.user, check.content, check.intent,
                                     NeedsPayment(w.stores, check.chat, check.user, check.content));
    SendCheckStep(payments, w, check);
    CheckPassed(payments, w, check, middle);
    AllowedByRules(w.stores, payments, check.chat, check.user, check.content, check.intent);
    RunCameFrom(payments, u, middle, h, t);
    UsedMeanwhile(payments, u, middle, check.intent.value, h);
    MarkAnswers(payments, s, h);
    var v := Next(payments, s, SendMark(h));
    RunsMoveOn(payments, v, after, h);
    MessageOutlives(payments, s, SendMark(h), after, t);
  }

  ghost predicate IsUsedByThen(payments: Payments, w: World, check: Step, middle: seq<Step>)
    requires check.SendCheck? && check.intent.Some?
  {
    || (check.intent.value in w.stores.fulfilled && !NeedsPayment(w.stores, check.chat, check.user, check.content))
    || IsMarkedMeanwhile(payments, Next(payments, w, check), middle, check.intent.value, check.h)
  }

  /** Only a request that passed its check gets a message stored. */
  lemma {:induction false} CheckPassed(payments: Payments, w: World, check: Step, middle: seq<Step>)
    requires check.SendCheck? && check.h !in w.tasks
    requires var s := Run(payments, Next(payments, w, check), middle);
             check.h in s.tasks && s.tasks[check.h].SendStored?
    ensures CanSendMessage(w.stores, payments, check.chat, check.user, check.content, check.intent) == Allow
  {
    SendCheckStep(payments, w, check);
    RunsMoveOn(payments, Next(payments, w, check), middle, check.h);
  }

  lemma {:induction false} HistoryGrows(payments: Payments, w: World, steps: seq<Step>)
    ensures w.history <= Run(payments, w, steps).history
  {
    if steps != [] {
      HistoryGrows(payments, w, steps[..|steps| - 1]);
      HistoryGrowsBy(payments, Run(payments, w, steps[..|steps| - 1]), steps[|steps| - 1]);
    }
  }

  lemma {:induction false} MessageOutlives(payments: Payments, w: World, step: Step, after: seq<Step>, t: Task)
    requires t.SendAllowed? && HasMessageOf(w.history, t)
    ensures HasMessageOf(Run(payments, Next(payments, w, step), after).history, t)
  {
    var v := Next(payments, w, step);
    HistoryGrows(payments, v, after);
    HistoryGrowsBy(payments, w, step);
    MessageStays(w.history, Run(payments, v, after).history, t);
  }

  // ----- StartChat -----

  lemma {:induction false} StartMarkAnswers(payments: Payments, w: World, h: nat)
    requires h in w.tasks && w.tasks[h].StartCreated? && w.tasks[h].intent.Some?
    ensures h in Next(payments, w, StartMark(h)).tasks
    ensures var t, v := w.tasks[h], Next(payments, w, StartMark(h));
            v.tasks[h] == if t.intent.value in w.stores.fulfilled then Answered(Denied, t.intent)
                          else StartAdding(t.chat, t.isGroup, t.creator, t.users, t.intent)
  {
  }

  /** The request goes on with this group and payment until it marks or is answered. */
  predicate CreatesWith(t: Task, chat: ChatId, creator: UserId, intent: IntentId)
  {
    (t.StartCreating? || t.StartCreated?) && t.chat == chat && t.isGroup && t.creator == creator
        && t.intent == Some(intent)
  }

  lemma {:induction false} StillCreatesWith(payments: Payments, w: World, steps: seq<Step>, h: nat,
                                            chat: ChatId, creator: UserId, intent: IntentId)
    requires h in w.tasks && CreatesWith(w.tasks[h], chat, creator, intent)
    ensures h in Run(payments, w, steps).tasks
    ensures IsBeforeMark(Run(payments, w, steps).tasks[h]) ==>
            CreatesWith(Run(payments, w, steps).tasks[h], chat, creator, intent)
  {
    if steps != [] {
      var front := steps[..|steps| - 1];
      StillCreatesWith(payments, w, front, h, chat, creator, intent);
      TaskAfterStep(payments, Run(payments, w, front), steps[|steps| - 1], h);
    }
  }

  /** A group is only let through with an intent that is not used. */
  lemma {:induction false} GroupCheckPassed(payments: Payments, w: World, check: Step)
    requires check.StartGroup? && check.h !in w.tasks
    requires check.h in Next(payments, w, check).tasks && IsBeforeMark(Next(payments, w, check).tasks[check.h])
    ensures check.intent.Some? && check.intent.value !in w.stores.fulfilled
    ensures CreatesWith(Next(payments, w, check).tasks[check.h], check.newChat, check.creator, check.intent.value)
    ensures Next(payments, w, check).stores == w.stores
  {
  }

  /** The step adds or changes a member for the request. */
  predicate AddsFor(payments: Payments, w: World, step: Step, h: nat)
  {
    var o := Decide(payments, w, step);
    o.task.Some? && o.h == h && o.effect.SetsEntry?
  }

  ghost predicate AddsNobody(payments: Payments, w: World, steps: seq<Step>, h: nat)
  {
    forall j :: 0 <= j < |steps| ==> !AddsFor(payments, Run(payments, w, steps[..j]), steps[j], h)
  }

  lemma {:induction false} EntriesComeLater(payments: Payments, w: World, step: Step, h: nat)
    requires h in w.tasks && (IsBeforeMark(w.tasks[h]) || w.tasks[h].Answered?)
    ensures !AddsFor(payments, w, step, h)
  {
  }

  lemma {:induction false} AddsNobodyMore(payments: Payments, w: World, front: seq<Step>, last: Step, h: nat)
    requires AddsNobody(payments, w, front, h) && !AddsFor(payments, Run(payments, w, front), last, h)
    ensures AddsNobody(payments, w, front + [last], h)
  {
    var steps := front + [last];
    forall j | 0 <= j < |steps| ensures !AddsFor(payments, Run(payments, w, steps[..j]), steps[j], h) {
      if j < |front| {
        assert steps[..j] == front[..j];
      } else {
        assert steps[..j] == front;
      }
    }
  }

  lemma {:induction false} AddsNobodyBeforeMark(payments: Payments, w: World, steps: seq<Step>, h: nat)
    requires h in w.tasks && h in Run(payments, w, steps).tasks
    requires IsBeforeMark(Run(payments, w, steps).tasks[h]) || w.tasks[h].Answered?
    ensures AddsNobody(payments, w, steps, h)
  {
    if steps != [] {
      var front, last := steps[..|steps| - 1], steps[|steps| - 1];
      RunsMoveOn(payments, w, front, h);
      RequestsMoveOn(payments, Run(payments, w, front), last, h);
      AddsNobodyBeforeMark(payments, w, front, h);
      EntriesComeLater(payments, Run(payments, w, front), last, h);
      AddsNobodyMore(payments, w, front, last, h);
      assert steps == front + [last];
    }
  }

  /** In every run in which a StartChat request for a group is checked, has its chat
      created and comes to mark its payment, with any steps of others before,
      between and after: the chat stays, and its creator owns it; the request has
      added nobody before its mark, and it is answered "denied" there if and only if
      another request marked the payment between the check and the mark. If it is,
      the answer is final and the request never adds anyone. */
  lemma {:induction false} RefusedThoughCreatedExactlyWhen(payments: Payments, before: seq<Step>, check: Step,
                                                           middle: seq<Step>, after: seq<Step>)
    requires check.StartGroup? && check.h !in Run(payments, INITIAL, before).tasks
    requires IsNewChatId(Run(payments, INITIAL, before), check.newChat)
    requires var s := UntilStored(payments, before, check, middle); check.h in s.tasks && s.tasks[check.h].StartCreated?
    ensures var w, s := Run(payments, INITIAL, before), UntilStored(payments, before, check, middle);
            var v := Next(payments, s, StartMark(check.h));
            && check.intent.Some? && check.h in v.tasks
            && Run(payments, v, after).stores.IsOwner(check.newChat, check.creator)
            && (v.tasks[check.h] == Answered(Denied, check.intent) <==>
                IsMarkedMeanwhile(payments, Next(payments, w, check), middle, check.intent.value, check.h))
            && (v.tasks[check.h].Answered? || v.tasks[check.h].StartAdding?)
            && AddsNobody(payments, Next(payments, w, check), middle + [StartMark(check.h)], check.h)
            && (v.tasks[check.h].Answered? ==>
                  && check.h in Run(payments, v, after).tasks
                  && Run(payments, v, after).tasks[check.h] == Answered(Denied, check.intent)
                  && AddsNobody(payments, v, after, check.h))
  {
    var w, s := Run(payments, INITIAL, before), UntilStored(payments, before, check, middle);
    var u, h := Next(payments, w, check), check.h;
    GroupCheckIsThere(payments, w, check, middle);
    GroupCheckPassed(payments, w, check);
    StillCreatesWith(payments, u, middle, h, check.newChat, check.creator, check.intent.value);
    UsedMeanwhile(payments, u, middle, check.intent.value, h);
    StartMarkAnswers(payments, s, h);
    CreatedChatIsOwned(payments, before, check, middle);
    RunExtends(payments, s, [StartMark(h)] + after);
    FirstStep(payments, s, StartMark(h), after);
    AddsNobodyBeforeMark(payments, u, middle, h);
    EntriesComeLater(payments, s, StartMark(h), h);
    AddsNobodyMore(payments, u, middle, StartMark(h), h);
    AfterAnswer(payments, Next(payments, s, StartMark(h)), after, h);
  }

  lemma {:induction false} AfterAnswer(payments: Payments, w: World, after: seq<Step>, h: nat)
    requires h in w.tasks
    ensures w.tasks[h].Answered? ==>
              && h in Run(payments, w, after).tasks && Run(payments, w, after).tasks[h] == w.tasks[h]
              && AddsNobody(payments, w, after, h)
  {
    RunsMoveOn(payments, w, after, h);
    if w.tasks[h].Answered? {
      AddsNobodyBeforeMark(payments, w, after, h);
    }
  }

  lemma {:induction false} GroupCheckIsThere(payments: Payments, w: World, check: Step, middle: seq<Step>)
    requires check.StartGroup? && check.h !in w.tasks && IsNewChatId(w, check.newChat)
    requires var s := Run(payments, Next(payments, w, check), middle);
             check.h in s.tasks && s.tasks[check.h].StartCreated?
    ensures check.h in Next(payments, w, check).tasks && IsBeforeMark(Next(payments, w, check).tasks[check.h])
  {
    GroupCheckTakesEffect(payments, w, check);
    RunsMoveOn(payments, Next(payments, w, check), middle, check.h);
  }

  lemma {:induction false} GroupCheckTakesEffect(payments: Payments, w: World, check: Step)
    requires check.StartGroup? && check.h !in w.tasks && IsNewChatId(w, check.newChat)
    ensures var v := Next(payments, w, check);
            check.h in v.tasks && (v.tasks[check.h].Answered? || v.tasks[check.h].StartCreating?)
  {
  }

  lemma {:induction false} CreatedChatIsOwned(payments: Payments, before: seq<Step>, check: Step, middle: seq<Step>)
    requires var s := UntilStored(payments, before, check, middle);
             check.StartGroup? && check.h in s.tasks && s.tasks[check.h].StartCreated? && s.tasks[check.h].isGroup
    ensures var s := UntilStored(payments, before, check, middle);
            s.stores.IsOwner(s.tasks[check.h].chat, s.tasks[check.h].creator)
  {
    RunOneMore(payments, INITIAL, before, check);
    RunAppend(payments, INITIAL, before + [check], middle);
    MembershipAlwaysSound(payments, (before + [check]) + middle);
    var s := UntilStored(payments, before, check, middle);
    assert TaskFits(s.stores.rooms, s.tasks[check.h]);
  }

  lemma {:induction false} FirstStep(payments: Payments, w: World, first: Step, rest: seq<Step>)
    ensures Run(payments, w, [first] + rest) == Run(payments, Next(payments, w, first), rest)
  {
    RunAppend(payments, w, [first], rest);
    assert [] + [first] == [first];
    RunOneMore(payments, w, [], first);
  }
}
