/** What the last steps of a request come to over every run, whatever came between
    them and the request's check. */
module RunOutcomes {
  import opened Ids
  import opened Messages
  import opened Rooms
  import opened Authorizer
  import opened Server
  import opened MembershipProofs
  import opened Outcomes
  import opened Requests
  import opened ReferenceProofs

  // ----- Whose payment a group was checked with, and who joins as what -----

  /** A payment that this user made for a group. */
  predicate IsGroupPayment(payments: Payments, intent: Option<IntentId>, user: UserId)
  {
    intent.Some? && intent.value in payments && payments[intent.value].metadata == ForGroup(user)
  }

  /** A request for a group past its check carries its creator's own payment; a member
      about to join has the permissions of the owner or none. */
  predicate IsWarranted(payments: Payments, rooms: View, t: Task)
  {
    match t
    case StartCreating(_, isGroup, creator, _, intent) =>
      if isGroup then IsGroupPayment(payments, intent, creator) else intent.None?
    case StartCreated(_, isGroup, creator, _, intent) => isGroup && IsGroupPayment(payments, intent, creator)
    case StartAdding(_, isGroup, creator, _, intent) =>
      if isGroup then IsGroupPayment(payments, intent, creator) else intent.None?
    case Joining(chat, m) =>
      && chat in rooms.chats
      && var isOwner := rooms.chats[chat].owner == Some(m.userID);
         m == Member(m.userID, None, true, false, isOwner, isOwner, false)
    case _ => true
  }

  ghost predicate AllWarranted(payments: Payments, w: World)
  {
    forall h :: h in w.tasks ==> IsWarranted(payments, w.stores.rooms, w.tasks[h])
  }

  /** Every group was founded with a payment of its owner's. */
  ghost predicate GroupsArePaid(payments: Payments, rooms: View)
  {
    forall chat :: chat in rooms.chats && rooms.chats[chat].kind == Group ==>
                     && rooms.chats[chat].owner.Some?
                     && exists intent :: IsGroupPayment(payments, intent, rooms.chats[chat].owner.value)
  }

  lemma {:induction false} NewTaskIsWarranted(payments: Payments, w: World, step: Step)
    requires AllWarranted(payments, w)
    ensures var o := Decide(payments, w, step);
            o.task.Some? ==> IsWarranted(payments, w.stores.rooms, o.task.value)
  {
  }

  lemma {:induction false} StaysWarranted(payments: Payments, s: Stores, later: Stores, t: Task)
    requires Extends(later, s) && IsWarranted(payments, s.rooms, t)
    ensures IsWarranted(payments, later.rooms, t)
  {
  }

  lemma {:induction false} StepsStayWarranted(payments: Payments, w: World, step: Step)
    requires AllWarranted(payments, w)
    ensures AllWarranted(payments, Next(payments, w, step))
  {
    var v, o := Next(payments, w, step), Decide(payments, w, step);
    StepExtends(payments, w, step);
    NewTaskIsWarranted(payments, w, step);
    forall h | h in v.tasks ensures IsWarranted(payments, v.stores.rooms, v.tasks[h]) {
      StaysWarranted(payments, w.stores, v.stores, v.tasks[h]);
    }
  }

  /** A chat appears only from a request that was about to create it. */
  lemma {:induction false} CreatesWarranted(payments: Payments, w: World, step: Step)
    requires AllWarranted(payments, w)
    ensures var o := Decide(payments, w, step);
            o.effect.CreatesChat? ==>
              if o.effect.md.kind == Group
              then o.effect.md.owner.Some?
                   && exists intent :: IsGroupPayment(payments, intent, o.effect.md.owner.value)
              else o.effect.md.owner.None?
  {
    if step.StartCreate? && step.h in w.tasks && w.tasks[step.h].StartCreating? {
      assert IsWarranted(payments, w.stores.rooms, w.tasks[step.h]);
    }
  }

  lemma {:induction false} GroupsStayPaid(payments: Payments, s: Stores, effect: Effect)
    requires GroupsArePaid(payments, s.rooms)
    requires effect.CreatesChat? && effect.md.kind == Group ==>
               effect.md.owner.Some? && exists intent :: IsGroupPayment(payments, intent, effect.md.owner.value)
    ensures GroupsArePaid(payments, Affect(s, effect).rooms)
  {
  }

  /** In every reachable state, whatever the interleaving, each request for a group past
      its check has a payment that its creator made for a group, and so has every group
      for its owner. */
  lemma {:induction false} GroupsAlwaysPaid(payments: Payments, steps: seq<Step>)
    ensures AllWarranted(payments, Run(payments, INITIAL, steps))
    ensures GroupsArePaid(payments, Run(payments, INITIAL, steps).stores.rooms)
  {
    if steps != [] {
      var front, last := steps[..|steps| - 1], steps[|steps| - 1];
      var w := Run(payments, INITIAL, front);
      GroupsAlwaysPaid(payments, front);
      StepsStayWarranted(payments, w, last);
      CreatesWarranted(payments, w, last);
      GroupsStayPaid(payments, w.stores, Decide(payments, w, last).effect);
    }
  }

  /** Whatever came since its check, a request to join makes the user an active member
      who may send and moderate exactly if they own the chat, and leaves a mute alone. */
  lemma {:induction false} JoinEndsRight(payments: Payments, before: seq<Step>, h: nat)
    ensures var w := Run(payments, INITIAL, before);
            h in w.tasks && w.tasks[h].Joining? ==>
              var v, chat, user := Next(payments, w, JoinAdd(h)), w.tasks[h].chat, w.tasks[h].member.userID;
              && v.tasks == w.tasks[h := Answered(OtherOk, None)]
              && IsJoin(w.stores, v.stores, OtherOk, chat, user, true)
  {
    var w := Run(payments, INITIAL, before);
    if h in w.tasks && w.tasks[h].Joining? {
      GroupsAlwaysPaid(payments, before);
      assert IsWarranted(payments, w.stores.rooms, w.tasks[h]);
      JoinAddStep(payments, w, h);
    }
  }

  // ----- Moderation that was checked earlier -----

  /** A request sets a member's permission only if the caller might promote or demote
      them when it was checked, and only to what it asked for. */
  lemma {:induction false} SettingComesFrom(payments: Payments, w: World, step: Step)
    ensures var v := Next(payments, w, step);
            forall h :: h in v.tasks && h !in w.tasks && v.tasks[h].SettingSend? ==>
              && var t := v.tasks[h];
                 && step.h == h && (step.PromoteCheck? || step.DemoteCheck?) && t.chat == step.chat
                 && t.user == step.user && v.stores == w.stores
                 && MayModerate(w.stores, t.chat, step.caller, t.user)
                 && w.stores.rooms.chats[t.chat].kind == Group
                 && if step.PromoteCheck?
                    then t.hasSendPermission && step.enableSend && t.user in w.stores.registered
                    else !t.hasSendPermission && step.disableSend
  {
  }

  /** Whatever came since the check: a member who is still there gets the permission
      asked for, and one who has left meanwhile stays without it. */
  lemma {:induction false} SettingEndsRight(payments: Payments, before: seq<Step>, h: nat)
    ensures var w := Run(payments, INITIAL, before);
            h in w.tasks && w.tasks[h].SettingSend? ==>
              var v, t, rooms := Next(payments, w, SetSend(h)), w.tasks[h], w.stores.rooms;
              && OnlyEntryDiffers(w.stores, v.stores, t.chat, t.user)
              && v.tasks == w.tasks[h := Answered(if rooms.Entry(t.chat, t.user).Some? then OtherOk else Failed, None)]
              && v.stores.rooms.Entry(t.chat, t.user) ==
                 if rooms.Entry(t.chat, t.user).Some? && !rooms.Entry(t.chat, t.user).value.isSoftDeleted
                 then Some(rooms.Entry(t.chat, t.user).value.(hasSendPermission := t.hasSendPermission))
                 else rooms.Entry(t.chat, t.user)
  {
    var w := Run(payments, INITIAL, before);
    if h in w.tasks && w.tasks[h].SettingSend? {
      ReachableIsFiled(payments, before);
      if w.stores.rooms.IsActive(w.tasks[h].chat, w.tasks[h].user) {
        SetSendStep(payments, w, h);
      } else {
        SetsNothingLate(payments, w, h);
      }
    }
  }

  lemma {:induction false} SetsNothingLate(payments: Payments, w: World, h: nat)
    requires h in w.tasks && (w.tasks[h].SettingSend? || w.tasks[h].Muting?)
    requires !w.stores.rooms.IsActive(w.tasks[h].chat, w.tasks[h].user)
    ensures var t := w.tasks[h];
            && (t.SettingSend? ==>
                  Next(payments, w, SetSend(h)) == w.(tasks := w.tasks[h :=
                    Answered(if w.stores.rooms.Entry(t.chat, t.user).Some? then OtherOk else Failed, None)]))
            && (t.Muting? ==> Next(payments, w, MuteSet(h)) == w.(tasks := w.tasks[h := Answered(Failed, None)]))
  {
  }

  /** A request mutes a member only if the caller might when it was checked. */
  lemma {:induction false} MutingComesFrom(payments: Payments, w: World, step: Step)
    ensures var v := Next(payments, w, step);
            forall h :: h in v.tasks && h !in w.tasks && v.tasks[h].Muting? ==>
              && var t := v.tasks[h];
                 && step.MuteCheck? && step.h == h && t.chat == step.chat && t.user == step.user
                 && v.stores == w.stores && MayModerate(w.stores, t.chat, step.caller, t.user)
  {
  }

  /** Whatever came since the check: a member who is still there is muted, and for one
      who has left meanwhile the request fails. */
  lemma {:induction false} MutingEndsRight(payments: Payments, before: seq<Step>, h: nat)
    ensures var w := Run(payments, INITIAL, before);
            h in w.tasks && w.tasks[h].Muting? ==>
              var v, t, rooms := Next(payments, w, MuteSet(h)), w.tasks[h], w.stores.rooms;
              var isThere := rooms.Entry(t.chat, t.user).Some? && !rooms.Entry(t.chat, t.user).value.isSoftDeleted;
              && OnlyEntryDiffers(w.stores, v.stores, t.chat, t.user)
              && v.tasks == w.tasks[h := Answered(if isThere then MuteOk(t.chat, t.user) else Failed, None)]
              && v.stores.rooms.Entry(t.chat, t.user) ==
                 if isThere then Some(rooms.Entry(t.chat, t.user).value.(isMuted := true))
                 else rooms.Entry(t.chat, t.user)
  {
    var w := Run(payments, INITIAL, before);
    if h in w.tasks && w.tasks[h].Muting? {
      ReachableIsFiled(payments, before);
      if w.stores.rooms.IsActive(w.tasks[h].chat, w.tasks[h].user) {
        MuteSetStep(payments, w, h);
      } else {
        SetsNothingLate(payments, w, h);
      }
    }
  }

  // ----- Which messages are off stage -----

  /** A user's message is off stage exactly if it is text or a reply that came with a
      payment; announcements never are. */
  predicate IsStagedRight(stored: Stored)
  {
    stored.msg.offStage <==>
    stored.msg.sender.Some? && stored.intent.Some? && (stored.msg.content.Text? || stored.msg.content.Reply?)
  }

  ghost predicate AllStagedRight(history: seq<Stored>)
  {
    forall k :: 0 <= k < |history| ==> IsStagedRight(history[k])
  }

  lemma {:induction false} PutIsStagedRight(payments: Payments, w: World, step: Step)
    ensures var o := Decide(payments, w, step); o.effect.Puts? ==> IsStagedRight(o.effect.stored)
  {
    if !step.SendCheck? && !step.SendPut? && !step.SendMark? && !step.Announce? {
      OtherStepsSendNothing(payments, w, step);
    }
  }

  lemma {:induction false} HistoryAlwaysStagedRight(payments: Payments, steps: seq<Step>)
    ensures AllStagedRight(Run(payments, INITIAL, steps).history)
  {
    if steps != [] {
      HistoryAlwaysStagedRight(payments, steps[..|steps| - 1]);
      PutIsStagedRight(payments, Run(payments, INITIAL, steps[..|steps| - 1]), steps[|steps| - 1]);
    }
  }

  /** In every reachable state a message of any log was stored by a request or by the
      server, and is off stage if and only if a user sent it with a payment as text or as
      a reply. */
  lemma {:induction false} OffStageExactlyWhen(payments: Payments, steps: seq<Step>, chat: ChatId, id: MessageId)
      returns (k: nat)
    ensures var w := Run(payments, INITIAL, steps);
            id in w.stores.Log(chat) ==>
              var msg := w.stores.Log(chat)[id];
              && k < |w.history| && w.history[k].chat == chat && w.history[k].msg == msg && msg.id == id
              && (msg.offStage <==>
                    msg.sender.Some? && w.history[k].intent.Some? && (msg.content.Text? || msg.content.Reply?))
  {
    var w := Run(payments, INITIAL, steps);
    k := 0;
    if id in w.stores.Log(chat) {
      HistoryAlwaysStagedRight(payments, steps);
      ReferencesAlwaysValid(payments, steps);
      assert IsRecorded(w.history, |w.history|, chat, id);
      k :| 0 <= k < |w.history| && w.history[k].chat == chat && w.history[k].msg.id == id;
      assert IsLogged(w.stores, w.history[k]) && IsStagedRight(w.history[k]);
    }
  }
}
