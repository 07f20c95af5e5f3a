/** Moderation rights and mutes over every run of the RPCs. */
module MembershipProofs {
  import opened Ids
  import opened Rooms
  import opened Authorizer
  import opened Server

  /** The entry's permissions fit a chat with this owner. */
  predicate Fits(owner: Option<UserId>, m: Member)
  {
    && (!m.isSoftDeleted ==> (m.hasModPermission <==> owner == Some(m.userID)))
    && (m.isSoftDeleted ==> !m.hasModPermission && !m.hasSendPermission)
    && (owner == Some(m.userID) ==> !m.isMuted && (!m.isSoftDeleted ==> m.hasSendPermission))
  }

  ghost predicate EntriesFit(rooms: View)
  {
    forall chat, user :: rooms.Entry(chat, user).Some? ==>
                           && chat in rooms.chats
                           && rooms.Entry(chat, user).value.userID == user
                           && Fits(rooms.chats[chat].owner, rooms.Entry(chat, user).value)
  }

  /** Group chats have generated ids and an owner, two-way chats hashed ids and none. */
  ghost predicate KindsFit(rooms: View)
  {
    forall chat :: chat in rooms.chats ==>
                     && (rooms.chats[chat].kind == Group <==> |chat| == UUID_LENGTH)
                     && (rooms.chats[chat].kind == Group <==> rooms.chats[chat].owner.Some?)
  }

  /** What a request that passed its checks is about to do is still right. */
  predicate TaskFits(rooms: View, t: Task)
  {
    match t
    case StartCreating(chat, isGroup, creator, _, _) =>
      if isGroup then |chat| == UUID_LENGTH && chat !in rooms.chats else |chat| != UUID_LENGTH
    case StartCreated(chat, isGroup, creator, _, _) =>
      chat in rooms.chats && rooms.chats[chat].owner == if isGroup then Some(creator) else None
    case StartAdding(chat, isGroup, creator, _, _) =>
      chat in rooms.chats && rooms.chats[chat].owner == if isGroup then Some(creator) else None
    case Joining(chat, member) =>
      chat in rooms.chats && !member.isSoftDeleted && Fits(rooms.chats[chat].owner, member)
    case SettingSend(chat, user, _) => chat in rooms.chats && rooms.chats[chat].owner != Some(user)
    case Muting(chat, user) => chat in rooms.chats && rooms.chats[chat].owner != Some(user)
    case Answered(MuteOk(chat, user), _) => rooms.Entry(chat, user).Some? && rooms.Entry(chat, user).value.isMuted
    case _ => true
  }

  /** No two requests are about to create a group chat with the same id. */
  ghost predicate NewChatsDiffer(w: World)
  {
    forall g, h :: g in w.tasks && h in w.tasks && g != h && CreatesGroup(w.tasks[g]) && CreatesGroup(w.tasks[h]) ==>
                     w.tasks[g].chat != w.tasks[h].chat
  }

  predicate CreatesGroup(t: Task)
  {
    t.StartCreating? && t.isGroup
  }

  ghost predicate MembershipIsSound(w: World)
  {
    && EntriesFit(w.stores.rooms)
    && KindsFit(w.stores.rooms)
    && NewChatsDiffer(w)
    && forall h :: h in w.tasks ==> TaskFits(w.stores.rooms, w.tasks[h])
  }

  /** What a step may do to the chats and their members. */
  ghost predicate EffectFits(rooms: View, effect: Effect)
  {
    match effect
    case SetsEntry(chat, member) =>
      && chat in rooms.chats && Fits(rooms.chats[chat].owner, member)
      && (rooms.Entry(chat, member.userID).Some? && rooms.Entry(chat, member.userID).value.isMuted ==> member.isMuted)
    case CreatesChat(md) =>
      && md.chatID !in rooms.chats
      && (md.kind == Group <==> |md.chatID| == UUID_LENGTH)
      && (md.kind == Group <==> md.owner.Some?)
    case _ => true
  }

  lemma StartEffectFits(payments: Payments, w: World, step: Step)
    requires MembershipIsSound(w)
    ensures EffectFits(w.stores.rooms, DecideStart(payments, w, step).effect)
  {
    if step.StartAdd? && step.h in w.tasks {
      assert TaskFits(w.stores.rooms, w.tasks[step.h]);
    } else if step.StartCreate? && step.h in w.tasks {
      assert TaskFits(w.stores.rooms, w.tasks[step.h]);
    }
  }

  lemma MembershipEffectFits(w: World, step: Step)
    requires MembershipIsSound(w)
    ensures EffectFits(w.stores.rooms, DecideMembership(w, step).effect)
  {
    match step
    case JoinAdd(h) => assert h in w.tasks ==> TaskFits(w.stores.rooms, w.tasks[h]);
    case SetSend(h) => assert h in w.tasks ==> TaskFits(w.stores.rooms, w.tasks[h]);
    case MuteSet(h) => assert h in w.tasks ==> TaskFits(w.stores.rooms, w.tasks[h]);
    case _ =>
  }

  lemma StepEffectFits(payments: Payments, w: World, step: Step)
    requires MembershipIsSound(w)
    ensures EffectFits(w.stores.rooms, Decide(payments, w, step).effect)
  {
    StartEffectFits(payments, w, step);
    MembershipEffectFits(w, step);
  }

  lemma EntriesKeepFitting(s: Stores, effect: Effect)
    requires EntriesFit(s.rooms) && KindsFit(s.rooms) && EffectFits(s.rooms, effect)
    ensures EntriesFit(Affect(s, effect).rooms) && KindsFit(Affect(s, effect).rooms)
  {
    var rooms, after := s.rooms, Affect(s, effect).rooms;
    if effect.SetsEntry? {
      forall chat, user ensures after.Entry(chat, user) ==
          if chat == effect.chat && user == effect.member.userID then Some(effect.member) else rooms.Entry(chat, user)
      {
      }
    } else {
      assert forall chat, user :: after.Entry(chat, user) == rooms.Entry(chat, user);
    }
  }

  /** A mute, once set, stays: leaving keeps the entry and joining merges it in. */
  lemma MuteStays(s: Stores, effect: Effect, chat: ChatId, user: UserId)
    requires EffectFits(s.rooms, effect)
    requires s.rooms.Entry(chat, user).Some? && s.rooms.Entry(chat, user).value.isMuted
    ensures var entry := Affect(s, effect).rooms.Entry(chat, user); entry.Some? && entry.value.isMuted
  {
  }

  /** A task that no step touches stays right. */
  lemma TaskKeepsFitting(s: Stores, effect: Effect, t: Task)
    requires EntriesFit(s.rooms) && EffectFits(s.rooms, effect) && TaskFits(s.rooms, t)
    requires effect.CreatesChat? && CreatesGroup(t) ==> t.chat != effect.md.chatID
    ensures TaskFits(Affect(s, effect).rooms, t)
  {
    if t.Answered? && t.answer.MuteOk? {
      MuteStays(s, effect, t.answer.chat, t.answer.user);
    }
  }

  lemma NewStartTaskFits(payments: Payments, w: World, step: Step)
    requires MembershipIsSound(w)
    ensures var o := DecideStart(payments, w, step);
            o.task.Some? ==> TaskFits(Affect(w.stores, o.effect).rooms, o.task.value)
  {
    var o := DecideStart(payments, w, step);
    if o.task.Some? {
      assert o.h in w.tasks ==> TaskFits(w.stores.rooms, w.tasks[o.h]);
      if step.StartTwoWay? {
        TwoWayChatIdNamesThePair(step.creator, step.other, step.creator, step.other);
      }
    }
  }

  lemma NewMembershipTaskFits(w: World, step: Step)
    requires MembershipIsSound(w)
    ensures var o := DecideMembership(w, step);
            o.task.Some? ==> TaskFits(Affect(w.stores, o.effect).rooms, o.task.value)
  {
    var o := DecideMembership(w, step);
    if o.task.Some? {
      assert o.h in w.tasks ==> TaskFits(w.stores.rooms, w.tasks[o.h]);
    }
  }

  lemma {:induction false} NewTaskFits(payments: Payments, w: World, step: Step)
    requires MembershipIsSound(w)
    ensures var o := Decide(payments, w, step);
            o.task.Some? ==> TaskFits(Affect(w.stores, o.effect).rooms, o.task.value)
  {
    NewStartTaskFits(payments, w, step);
    NewMembershipTaskFits(w, step);
  }

  lemma NewChatsKeepDiffering(payments: Payments, w: World, step: Step)
    requires NewChatsDiffer(w)
    ensures NewChatsDiffer(Next(payments, w, step))
  {
    var o := Decide(payments, w, step);
    if o.task.Some? && CreatesGroup(o.task.value) {
      assert step.StartGroup? && IsNewChatId(w, step.newChat);
    }
  }

  lemma CreatedChatIsNoOthers(payments: Payments, w: World, step: Step)
    requires MembershipIsSound(w)
    ensures var o := Decide(payments, w, step);
            o.effect.CreatesChat? ==>
              && o.task.Some?
              && forall g :: g in w.tasks && g != o.h && CreatesGroup(w.tasks[g]) ==>
                 w.tasks[g].chat != o.effect.md.chatID
  {
    if step.StartCreate? && step.h in w.tasks {
      forall g | g in w.tasks && g != step.h && CreatesGroup(w.tasks[g]) && w.tasks[step.h].StartCreating?
        ensures w.tasks[g].chat != w.tasks[step.h].chat
      {
        assert TaskFits(w.stores.rooms, w.tasks[g]) && TaskFits(w.stores.rooms, w.tasks[step.h]);
      }
    }
  }

  lemma TasksKeepFitting(s: Stores, tasks: map<nat, Task>, o: Outcome)
    requires EntriesFit(s.rooms) && EffectFits(s.rooms, o.effect)
    requires forall h :: h in tasks ==> TaskFits(s.rooms, tasks[h])
    requires o.task.Some? ==> TaskFits(Affect(s, o.effect).rooms, o.task.value)
    requires o.effect.CreatesChat? ==>
               o.task.Some? && forall g :: g in tasks && g != o.h && CreatesGroup(tasks[g]) ==>
                   tasks[g].chat != o.effect.md.chatID
    ensures var after := if o.task.Some? then tasks[o.h := o.task.value] else tasks;
            forall h :: h in after ==> TaskFits(Affect(s, o.effect).rooms, after[h])
  {
    forall h | h in tasks && !(o.task.Some? && h == o.h) ensures TaskFits(Affect(s, o.effect).rooms, tasks[h]) {
      TaskKeepsFitting(s, o.effect, tasks[h]);
    }
  }

  lemma {:induction false} MembershipStaysSound(payments: Payments, w: World, step: Step)
    requires MembershipIsSound(w)
    ensures MembershipIsSound(Next(payments, w, step))
  {
    var o := Decide(payments, w, step);
    StepEffectFits(payments, w, step);
    EntriesKeepFitting(w.stores, o.effect);
    NewTaskFits(payments, w, step);
    NewChatsKeepDiffering(payments, w, step);
    CreatedChatIsNoOthers(payments, w, step);
    TasksKeepFitting(w.stores, w.tasks, o);
  }

  lemma {:induction false} MembershipAlwaysSound(payments: Payments, steps: seq<Step>)
    ensures MembershipIsSound(Run(payments, INITIAL, steps))
  {
    if steps != [] {
      MembershipAlwaysSound(payments, steps[..|steps| - 1]);
      MembershipStaysSound(payments, Run(payments, INITIAL, steps[..|steps| - 1]), steps[|steps| - 1]);
    }
  }

  /** In every reachable state, an active member may moderate exactly when they
      own the chat, an active owner may send, an owner is never muted, and only
      group chats have an owner. */
  lemma {:induction false} OnlyOwnersModerate(payments: Payments, steps: seq<Step>, chat: ChatId, user: UserId)
    ensures var s := Run(payments, INITIAL, steps).stores;
            && (s.rooms.IsActive(chat, user) ==>
                  var m := s.rooms.Entry(chat, user).value;
                  && (m.hasModPermission <==> s.IsOwner(chat, user))
                  && (s.IsOwner(chat, user) ==> m.hasSendPermission && !m.isMuted))
            && (s.rooms.Entry(chat, user).Some? && s.rooms.Entry(chat, user).value.isSoftDeleted ==>
                  !s.rooms.Entry(chat, user).value.hasModPermission)
            && (chat in s.rooms.chats ==> (s.rooms.chats[chat].kind == Group <==> s.rooms.chats[chat].owner.Some?))
  {
    MembershipAlwaysSound(payments, steps);
  }

  /** After any run, leaving ends one membership and its permissions but not its
      mute, and touches no other entry. */
  lemma {:induction false} LeavingEndsOneMembership(payments: Payments, before: seq<Step>, chat: ChatId, user: UserId,
                                                    c: ChatId, u: UserId)
    ensures var w := Run(payments, INITIAL, before);
            var entry, left := w.stores.rooms.Entry(c, u),
                Next(payments, w, Leave(chat, user)).stores.rooms.Entry(c, u);
            if c == chat && u == user && entry.Some? then
              && left.Some? && left.value.isSoftDeleted && left.value.isMuted == entry.value.isMuted
              && !left.value.hasModPermission && !left.value.hasSendPermission
            else left == entry
  {
    MembershipAlwaysSound(payments, before);
    LeavingEndsOne(Run(payments, INITIAL, before).stores, chat, user, c, u);
  }

  lemma {:induction false} LeavingEndsOne(s: Stores, chat: ChatId, user: UserId, c: ChatId, u: UserId)
    requires EntriesFit(s.rooms)
    ensures var entry, left := s.rooms.Entry(c, u), Affect(s, LeaveEffect(s, chat, user)).rooms.Entry(c, u);
            if c == chat && u == user && entry.Some? then left == Some(Departed(entry.value)) else left == entry
  {
    assert s.rooms.Entry(chat, user).Some? ==> s.rooms.Entry(chat, user).value.userID == user;
  }

  predicate IsMuted(s: Stores, chat: ChatId, user: UserId)
  {
    s.rooms.Entry(chat, user).Some? && s.rooms.Entry(chat, user).value.isMuted
  }

  /** A message of the user has passed its checks in this chat and is not stored yet. */
  ghost predicate IsAboutToSend(w: World, chat: ChatId, user: UserId)
  {
    exists h :: h in w.tasks && w.tasks[h].SendAllowed? && w.tasks[h].chat == chat && w.tasks[h].user == user
  }

  predicate IsBy(stored: Stored, chat: ChatId, user: UserId)
  {
    stored.chat == chat && stored.msg.sender == Some(user)
  }

  /** The later world holds no message of the user in the chat that the earlier one does not. */
  ghost predicate NothingNewBy(later: World, earlier: World, chat: ChatId, user: UserId)
  {
    && earlier.history <= later.history
    && forall k :: |earlier.history| <= k < |later.history| ==> !IsBy(later.history[k], chat, user)
  }

  /** A message passes its checks only if its sender is not muted. */
  lemma MutedMessageIsDenied(payments: Payments, w: World, step: Step, chat: ChatId, user: UserId)
    requires IsMuted(w.stores, chat, user)
    ensures var o := Decide(payments, w, step);
            o.task.Some? && o.task.value.SendAllowed? ==> !(o.task.value.chat == chat && o.task.value.user == user)
  {
    if step.SendCheck? {
      AllowedByRules(w.stores, payments, step.chat, step.user, step.content, step.intent);
    }
  }

  /** A user's message is stored only by a request that passed its checks. */
  lemma StoredMessageWasAllowed(payments: Payments, w: World, step: Step, chat: ChatId, user: UserId)
    ensures var o := Decide(payments, w, step);
            o.effect.Puts? && IsBy(o.effect.stored, chat, user) ==> IsAboutToSend(w, chat, user)
  {
  }

  lemma {:induction false} MutedStepIsSilent(payments: Payments, w: World, step: Step, chat: ChatId, user: UserId)
    requires MembershipIsSound(w) && IsMuted(w.stores, chat, user) && !IsAboutToSend(w, chat, user)
    ensures var v := Next(payments, w, step);
            IsMuted(v.stores, chat, user) && !IsAboutToSend(v, chat, user) && NothingNewBy(v, w, chat, user)
  {
    var o := Decide(payments, w, step);
    StepEffectFits(payments, w, step);
    MuteStays(w.stores, o.effect, chat, user);
    MutedMessageIsDenied(payments, w, step, chat, user);
    StoredMessageWasAllowed(payments, w, step, chat, user);
  }

  lemma {:induction false} MutedRunIsSilent(payments: Payments, w: World, steps: seq<Step>, chat: ChatId, user: UserId)
    requires MembershipIsSound(w) && IsMuted(w.stores, chat, user) && !IsAboutToSend(w, chat, user)
    ensures var v := Run(payments, w, steps);
            && MembershipIsSound(v) && IsMuted(v.stores, chat, user) && !IsAboutToSend(v, chat, user)
            && NothingNewBy(v, w, chat, user)
  {
    if steps != [] {
      var front, last := steps[..|steps| - 1], steps[|steps| - 1];
      MutedRunIsSilent(payments, w, front, chat, user);
      var v := Run(payments, w, front);
      MutedStepIsSilent(payments, v, last, chat, user);
      MembershipStaysSound(payments, v, last);
    }
  }

  /** When MuteUser has answered OK, the member is muted, for good. */
  lemma SuccessfulMuteMutes(payments: Payments, steps: seq<Step>, h: nat)
    requires h in Run(payments, INITIAL, steps).tasks
    requires Run(payments, INITIAL, steps).tasks[h].Answered? && Run(payments, INITIAL, steps).tasks[h].answer.MuteOk?
    ensures var w := Run(payments, INITIAL, steps);
            IsMuted(w.stores, w.tasks[h].answer.chat, w.tasks[h].answer.user)
  {
    MembershipAlwaysSound(payments, steps);
  }

  lemma PassedCheckCanStore(payments: Payments, w: World, chat: ChatId, user: UserId, id: MessageId)
      returns (steps: seq<Step>)
    requires IsAboutToSend(w, chat, user) && id !in w.stores.Log(chat)
    ensures !NothingNewBy(Run(payments, w, steps), w, chat, user)
  {
    var h :| h in w.tasks && w.tasks[h].SendAllowed? && w.tasks[h].chat == chat && w.tasks[h].user == user;
    steps := [SendPut(h, id, 0)];
    assert steps[..0] == [];
    assert Run(payments, w, steps) == Next(payments, Run(payments, w, steps[..0]), steps[0]);
    assert IsBy(Next(payments, w, steps[0]).history[|w.history|], chat, user);
  }

  /** From a reachable state in which a member is muted, no later step of any run
      stores a message of theirs in the chat, whatever they leave, join or are
      promoted to, exactly when none of their messages was past its checks at
      that moment. */
  lemma {:induction false} MuteSilencesExactlyWhen(payments: Payments, before: seq<Step>, chat: ChatId, user: UserId)
    requires IsMuted(Run(payments, INITIAL, before).stores, chat, user)
    ensures var w := Run(payments, INITIAL, before);
            (forall steps :: NothingNewBy(Run(payments, w, steps), w, chat, user)) <==> !IsAboutToSend(w, chat, user)
  {
    var w := Run(payments, INITIAL, before);
    MembershipAlwaysSound(payments, before);
    if IsAboutToSend(w, chat, user) {
      var id := FreshId(w.stores.Log(chat).Keys);
      var steps := PassedCheckCanStore(payments, w, chat, user, id);
    } else {
      forall steps ensures NothingNewBy(Run(payments, w, steps), w, chat, user) {
        MutedRunIsSilent(payments, w, steps, chat, user);
      }
    }
  }
}
