/** What each request comes to, told from the entries, chats, logs and payments before
    and after it, and that the requests come to just that. */
module Outcomes {
  import opened Ids
  import opened Messages
  import opened Rooms
  import opened Authorizer
  import opened Server
  import opened Requests
  import opened StartRequests
  import MembershipProofs

  /** Every entry is filed under the user it is about. */
  ghost predicate IsFiled(rooms: View)
  {
    forall chat, user :: rooms.Entry(chat, user).Some? ==> rooms.Entry(chat, user).value.userID == user
  }

  /** Two states agree on everything but one user's entry in one chat. */
  ghost predicate OnlyEntryDiffers(s: Stores, after: Stores, chat: ChatId, user: UserId)
  {
    && after.registered == s.registered && after.logs == s.logs && after.fulfilled == s.fulfilled
    && OnlyEntryChanges(s.rooms, after.rooms, chat, user)
  }

  /** The caller owns the chat, and the user is another member who has not left. */
  predicate MayModerate(s: Stores, chat: ChatId, caller: UserId, user: UserId)
  {
    && chat in s.rooms.chats && s.rooms.chats[chat].owner == Some(caller) && caller != user
    && s.rooms.Entry(chat, user).Some? && !s.rooms.Entry(chat, user).value.isSoftDeleted
  }

  // ----- Moderation -----

  /** The owner of a group gives a registered member the permission to send, if the
      request says so, and changes nothing else. */
  ghost predicate IsPromotion(s: Stores, after: Stores, answer: Answer, chat: ChatId, caller: UserId, user: UserId,
                              enableSend: bool)
  {
    var mayPromote := MayModerate(s, chat, caller, user) && s.rooms.chats[chat].kind == Group;
    && answer == (if !mayPromote then Denied else if user !in s.registered then Answer.NotRegistered else OtherOk)
    && OnlyEntryDiffers(s, after, chat, user)
    && after.rooms.Entry(chat, user) ==
       if mayPromote && user in s.registered && enableSend
       then Some(s.rooms.Entry(chat, user).value.(hasSendPermission := true)) else s.rooms.Entry(chat, user)
  }

  lemma {:induction false} PromoteMeans(s: Stores, chat: ChatId, caller: UserId, user: UserId, enableSend: bool)
    requires IsFiled(s.rooms)
    ensures var (after, answer) := PromoteRequest(s, chat, caller, user, enableSend);
            IsPromotion(s, after, answer, chat, caller, user, enableSend)
  {
  }

  /** The owner of a group takes a member's permission to send, if the request says
      so, and changes nothing else. */
  ghost predicate IsDemotion(s: Stores, after: Stores, answer: Answer, chat: ChatId, caller: UserId, user: UserId,
                             disableSend: bool)
  {
    var mayDemote := MayModerate(s, chat, caller, user) && s.rooms.chats[chat].kind == Group;
    && answer == (if mayDemote then OtherOk else Denied)
    && OnlyEntryDiffers(s, after, chat, user)
    && after.rooms.Entry(chat, user) ==
       if mayDemote && disableSend
       then Some(s.rooms.Entry(chat, user).value.(hasSendPermission := false)) else s.rooms.Entry(chat, user)
  }

  lemma {:induction false} DemoteMeans(s: Stores, chat: ChatId, caller: UserId, user: UserId, disableSend: bool)
    requires IsFiled(s.rooms)
    ensures var (after, answer) := DemoteRequest(s, chat, caller, user, disableSend);
            IsDemotion(s, after, answer, chat, caller, user, disableSend)
  {
  }

  /** The owner of a chat mutes another member, and changes nothing else. */
  ghost predicate IsMute(s: Stores, after: Stores, answer: Answer, chat: ChatId, caller: UserId, user: UserId)
  {
    && answer == (if MayModerate(s, chat, caller, user) then MuteOk(chat, user) else Denied)
    && OnlyEntryDiffers(s, after, chat, user)
    && after.rooms.Entry(chat, user) ==
       if MayModerate(s, chat, caller, user)
       then Some(s.rooms.Entry(chat, user).value.(isMuted := true)) else s.rooms.Entry(chat, user)
  }

  lemma {:induction false} MuteMeans(s: Stores, chat: ChatId, caller: UserId, user: UserId)
    requires IsFiled(s.rooms)
    ensures var (after, answer) := MuteRequest(s, chat, caller, user);
            IsMute(s, after, answer, chat, caller, user)
  {
  }

  // ----- Joining, leaving, opening -----

  /** A member who has joined may send and moderate exactly if they own the chat; a
      mute from an earlier membership stays. */
  ghost predicate IsJoin(s: Stores, after: Stores, answer: Answer, chat: ChatId, user: UserId,
                         withoutSendPermission: bool)
  {
    var isOwner := chat in s.rooms.chats && s.rooms.chats[chat].owner == Some(user);
    && answer == (if chat !in s.rooms.chats then Failed
                  else if isOwner || withoutSendPermission then OtherOk else Denied)
    && OnlyEntryDiffers(s, after, chat, user)
    && after.rooms.Entry(chat, user) ==
       if answer == OtherOk then Some(Member(user, None, true, WasMuted(s.rooms, chat, user), isOwner, isOwner, false))
       else s.rooms.Entry(chat, user)
  }

  lemma {:induction false} JoinMeans(s: Stores, chat: ChatId, user: UserId, withoutSendPermission: bool)
    ensures var (after, answer) := JoinRequest(s, chat, user, withoutSendPermission);
            IsJoin(s, after, answer, chat, user, withoutSendPermission)
  {
  }

  /** Who leaves keeps an entry that says so, with the mute and nothing else. */
  ghost predicate IsLeave(s: Stores, after: Stores, chat: ChatId, user: UserId)
  {
    && OnlyEntryDiffers(s, after, chat, user)
    && after.rooms.Entry(chat, user) ==
       if s.rooms.Entry(chat, user).Some?
       then Some(Member(user, None, true, WasMuted(s.rooms, chat, user), false, false, true)) else None
  }

  lemma {:induction false} LeaveMeans(s: Stores, chat: ChatId, user: UserId)
    requires IsFiled(s.rooms)
    ensures IsLeave(s, LeaveRequest(s, chat, user), chat, user)
  {
  }

  /** The owner of a group sets whether it is open, and changes nothing else. */
  ghost predicate IsOpening(s: Stores, after: Stores, answer: Answer, chat: ChatId, caller: UserId, isOpen: bool)
  {
    var mayOpen := chat in s.rooms.chats && s.rooms.chats[chat].kind == Group
                   && s.rooms.chats[chat].owner == Some(caller);
    && answer == (if mayOpen then OtherOk else Denied)
    && after == s.(rooms := s.rooms.(chats :=
                 if mayOpen then s.rooms.chats[chat := s.rooms.chats[chat].(isOpen := isOpen)] else s.rooms.chats))
  }

  lemma {:induction false} OpenMeans(s: Stores, chat: ChatId, caller: UserId, isOpen: bool)
    ensures var (after, answer) := OpenRequest(s, chat, caller, isOpen);
            IsOpening(s, after, answer, chat, caller, isOpen)
  {
  }

  // ----- Sending -----

  /** A message that may be sent is stored as it was sent, off stage if it is text or a
      reply that came with a payment; the payment is used up; nothing else changes. */
  ghost predicate IsSend(s: Stores, after: Stores, answer: Answer, payments: Payments, chat: ChatId, user: UserId,
                         content: Content, intent: Option<IntentId>, id: MessageId, ts: int)
  {
    var offStage := intent.Some? && (content.Text? || content.Reply?);
    && after.rooms == s.rooms && after.registered == s.registered
    && if !MaySend(s, payments, chat, user, content, intent) then answer == Denied && after == s
       else
         && answer == (if intent.Some? && intent.value in s.fulfilled then Denied else SendOk)
         && after.fulfilled == s.fulfilled + (if intent.Some? then {intent.value} else {})
         && after.Log(chat) == s.Log(chat)[id := Message(id, Some(user), content, offStage, ts)]
         && forall c :: c != chat ==> after.Log(c) == s.Log(c)
  }

  lemma {:induction false} SendMeans(s: Stores, payments: Payments, chat: ChatId, user: UserId, content: Content,
                                     intent: Option<IntentId>, id: MessageId, ts: int)
    ensures var (after, answer) := SendRequest(s, payments, chat, user, content, intent, id, ts);
            IsSend(s, after, answer, payments, chat, user, content, intent, id, ts)
  {
    AllowedExactlyWhen(s, payments, chat, user, content, intent);
  }

  // ----- Starting a chat -----

  /** However many users are added, in whatever order and how often: each has one entry. */
  lemma {:induction false} MembersAdded(rooms: View, chat: ChatId, isGroup: bool, creator: UserId, users: seq<UserId>,
                                        c: ChatId, u: UserId)
    ensures WithMembers(rooms, chat, isGroup, creator, users).Entry(c, u) ==
            if c == chat && u in users
            then Some(Member(u, Some(creator), true, WasMuted(rooms, chat, u), isGroup && u == creator, true, false))
            else rooms.Entry(c, u)
    ensures var after := WithMembers(rooms, chat, isGroup, creator, users);
            after.chats == rooms.chats && after.nextRoom == rooms.nextRoom
  {
    if users != [] {
      var front, last := users[..|users| - 1], users[|users| - 1];
      assert users == front + [last];
      MembersAdded(rooms, chat, isGroup, creator, front, c, u);
      var before := WithMembers(rooms, chat, isGroup, creator, front);
      WithEntryAt(before, chat, Joined(before.Entry(chat, last), NewMember(isGroup, creator, last)), c, u);
    }
  }

  /** Everyone named is a member of the chat who may send; of a group its creator, and
      nobody else, moderates; all other entries are as before. */
  ghost predicate AddsMembers(rooms: View, after: View, chat: ChatId, isGroup: bool, creator: UserId,
                              users: seq<UserId>)
  {
    forall c, u :: after.Entry(c, u) ==
      if c == chat && u in users
      then Some(Member(u, Some(creator), true, WasMuted(rooms, chat, u), isGroup && u == creator, true, false))
      else rooms.Entry(c, u)
  }

  lemma {:induction false} AddsAllMembers(rooms: View, chat: ChatId, isGroup: bool, creator: UserId,
                                          users: seq<UserId>)
    ensures var after := WithMembers(rooms, chat, isGroup, creator, users);
            && AddsMembers(rooms, after, chat, isGroup, creator, users)
            && after.chats == rooms.chats && after.nextRoom == rooms.nextRoom
  {
    MembersAdded(rooms, chat, isGroup, creator, users, chat, creator);
    forall c, u {
      MembersAdded(rooms, chat, isGroup, creator, users, c, u);
    }
  }

  /** Creating a chat, using up its payment and adding the members: with a used payment
      the chat exists, and nobody is in it who was not before. */
  ghost predicate IsCreation(s: Stores, after: Stores, answer: Answer, chat: ChatId, isGroup: bool, creator: UserId,
                             users: seq<UserId>, intent: Option<IntentId>)
  {
    && chat in after.rooms.chats
    && answer == (if intent.Some? && intent.value in s.fulfilled then Denied else StartOk)
    && after.fulfilled == s.fulfilled + (if intent.Some? then {intent.value} else {})
    && AddsMembers(s.rooms, after.rooms, chat, isGroup, creator, if answer == StartOk then users else [])
  }

  lemma {:induction false} CreateMeans(s: Stores, chat: ChatId, isGroup: bool, creator: UserId, users: seq<UserId>,
                                       intent: Option<IntentId>)
    ensures var (after, answer) := CreatedWith(s, chat, isGroup, creator, users, intent);
            IsCreation(s, after, answer, chat, isGroup, creator, users, intent)
  {
    AddsAllMembers(CreatedIn(s, chat, isGroup, creator).rooms, chat, isGroup, creator, users);
    if intent.Some? && intent.value in s.fulfilled {
      assert s.fulfilled + {intent.value} == s.fulfilled;
    }
  }

  /** A group is started for an unused payment that its creator made for a group, and
      otherwise nothing happens. */
  ghost predicate IsGroupStart(s: Stores, after: Stores, answer: Answer, payments: Payments, creator: UserId,
                               users: seq<UserId>, intent: Option<IntentId>, flagged: bool, chat: ChatId)
  {
    var isUnused := intent.Some? && intent.value in payments && intent.value !in s.fulfilled;
    var isPaid := isUnused && payments[intent.value].metadata == ForGroup(creator);
    var isForElse := isUnused && !payments[intent.value].metadata.ForGroup?
                     && !payments[intent.value].metadata.Missing?;
    && answer == (if isPaid && !flagged then StartOk else if isForElse then Failed else Denied)
    && if answer != StartOk then after == s
       else
         && after.registered == s.registered && after.logs == s.logs
         && after.fulfilled == s.fulfilled + {intent.value}
         && after.rooms.chats == s.rooms.chats[chat := Metadata(chat, Group, Some(creator), s.rooms.nextRoom, true)]
         && after.rooms.nextRoom == s.rooms.nextRoom + 1
         && AddsMembers(s.rooms, after.rooms, chat, true, creator, users + [creator])
  }

  lemma {:induction false} StartGroupMeans(s: Stores, payments: Payments, creator: UserId, users: seq<UserId>,
                                           intent: Option<IntentId>, flagged: bool, chat: ChatId)
    requires chat !in s.rooms.chats
    ensures var (after, answer) := StartRequest(s, payments, creator, GroupChat(users, intent, flagged), chat);
            IsGroupStart(s, after, answer, payments, creator, users, intent, flagged, chat)
  {
    var created := CreatedIn(s, chat, true, creator).rooms;
    AddsAllMembers(created, chat, true, creator, users + [creator]);
  }

  /** Two users get the one chat that is theirs; it has no owner, and nobody moderates. */
  ghost predicate IsTwoWayStart(s: Stores, after: Stores, answer: Answer, creator: UserId, other: UserId)
  {
    var chat := TwoWayChatId(creator, other);
    && answer == StartOk
    && after.registered == s.registered && after.logs == s.logs && after.fulfilled == s.fulfilled
    && after.rooms.chats == (if chat in s.rooms.chats then s.rooms.chats
                             else s.rooms.chats[chat := Metadata(chat, TwoWay, None, s.rooms.nextRoom, true)])
    && after.rooms.nextRoom == s.rooms.nextRoom + (if chat in s.rooms.chats then 0 else 1)
    && AddsMembers(s.rooms, after.rooms, chat, false, creator, [creator, other])
  }

  lemma {:induction false} StartTwoWayMeans(s: Stores, payments: Payments, creator: UserId, other: UserId,
                                            newChat: ChatId)
    ensures var (after, answer) := StartRequest(s, payments, creator, TwoWayChat(other), newChat);
            IsTwoWayStart(s, after, answer, creator, other)
  {
    var chat := TwoWayChatId(creator, other);
    var created := CreatedIn(s, chat, false, creator).rooms;
    AddsAllMembers(created, chat, false, creator, [creator, other]);
  }

  // ----- The steps of each request, undisturbed -----

  lemma {:induction false} ReachableIsFiled(payments: Payments, steps: seq<Step>)
    ensures IsFiled(Run(payments, INITIAL, steps).stores.rooms)
  {
    MembershipProofs.MembershipAlwaysSound(payments, steps);
  }

  /** The request has been answered, and no other request was touched. */
  predicate IsAnswered(w: World, v: World, h: nat)
  {
    && h in v.tasks && v.tasks[h].Answered?
    && v.tasks == w.tasks[h := v.tasks[h]]
  }

  lemma {:induction false} PromoteOutcome(payments: Payments, before: seq<Step>, h: nat, chat: ChatId,
                                          caller: UserId, user: UserId, enableSend: bool)
    ensures var w := Run(payments, INITIAL, before);
            var v := Run(payments, w, [PromoteCheck(h, chat, caller, user, enableSend), SetSend(h)]);
            h !in w.tasks ==>
              IsAnswered(w, v, h) && IsPromotion(w.stores, v.stores, v.tasks[h].answer, chat, caller, user, enableSend)
  {
    var w := Run(payments, INITIAL, before);
    ReachableIsFiled(payments, before);
    if h !in w.tasks {
      PromoteAlone(payments, w, h, chat, caller, user, enableSend);
      PromoteMeans(w.stores, chat, caller, user, enableSend);
    }
  }

  lemma {:induction false} DemoteOutcome(payments: Payments, before: seq<Step>, h: nat, chat: ChatId,
                                         caller: UserId, user: UserId, disableSend: bool)
    ensures var w := Run(payments, INITIAL, before);
            var v := Run(payments, w, [DemoteCheck(h, chat, caller, user, disableSend), SetSend(h)]);
            h !in w.tasks ==>
              IsAnswered(w, v, h) && IsDemotion(w.stores, v.stores, v.tasks[h].answer, chat, caller, user, disableSend)
  {
    var w := Run(payments, INITIAL, before);
    ReachableIsFiled(payments, before);
    if h !in w.tasks {
      DemoteAlone(payments, w, h, chat, caller, user, disableSend);
      DemoteMeans(w.stores, chat, caller, user, disableSend);
    }
  }

  lemma {:induction false} MuteOutcome(payments: Payments, before: seq<Step>, h: nat, chat: ChatId, caller: UserId,
                                       user: UserId)
    ensures var w := Run(payments, INITIAL, before);
            var v := Run(payments, w, [MuteCheck(h, chat, caller, user), MuteSet(h)]);
            h !in w.tasks ==>
              IsAnswered(w, v, h) && IsMute(w.stores, v.stores, v.tasks[h].answer, chat, caller, user)
  {
    var w := Run(payments, INITIAL, before);
    ReachableIsFiled(payments, before);
    if h !in w.tasks {
      MuteAlone(payments, w, h, chat, caller, user);
      MuteMeans(w.stores, chat, caller, user);
    }
  }

  lemma {:induction false} JoinOutcome(payments: Payments, w: World, h: nat, chat: ChatId, user: UserId,
                                       withoutSendPermission: bool)
    requires h !in w.tasks
    ensures var v := Run(payments, w, [JoinCheck(h, chat, user, withoutSendPermission), JoinAdd(h)]);
            IsAnswered(w, v, h) && IsJoin(w.stores, v.stores, v.tasks[h].answer, chat, user, withoutSendPermission)
  {
    JoinAlone(payments, w, h, chat, user, withoutSendPermission);
    JoinMeans(w.stores, chat, user, withoutSendPermission);
  }

  lemma {:induction false} LeaveOutcome(payments: Payments, before: seq<Step>, chat: ChatId, user: UserId)
    ensures var w := Run(payments, INITIAL, before);
            var v := Next(payments, w, Leave(chat, user));
            v.tasks == w.tasks && IsLeave(w.stores, v.stores, chat, user)
  {
    var w := Run(payments, INITIAL, before);
    ReachableIsFiled(payments, before);
    LeaveAlone(payments, w, chat, user);
    LeaveMeans(w.stores, chat, user);
  }

  lemma {:induction false} SendOutcome(payments: Payments, w: World, h: nat, chat: ChatId, user: UserId,
                                       content: Content, intent: Option<IntentId>, id: MessageId, ts: int)
    requires h !in w.tasks && id !in w.stores.Log(chat)
    ensures var v := Run(payments, w, [SendCheck(h, chat, user, content, intent), SendPut(h, id, ts), SendMark(h)]);
            && IsAnswered(w, v, h)
            && IsSend(w.stores, v.stores, v.tasks[h].answer, payments, chat, user, content, intent, id, ts)
  {
    SendAlone(payments, w, h, chat, user, content, intent, id, ts);
    SendMeans(w.stores, payments, chat, user, content, intent, id, ts);
  }

  lemma {:induction false} StartGroupOutcome(payments: Payments, w: World, h: nat, creator: UserId,
                                             users: seq<UserId>, intent: Option<IntentId>, flagged: bool, chat: ChatId)
    requires h !in w.tasks && IsNewChatId(w, chat) && |creator| == UUID_LENGTH
    ensures var v := Run(payments, w, StartSteps(h, creator, GroupChat(users, intent, flagged), chat));
            && IsAnswered(w, v, h)
            && IsGroupStart(w.stores, v.stores, v.tasks[h].answer, payments, creator, users, intent, flagged, chat)
  {
    StartAlone(payments, w, h, creator, GroupChat(users, intent, flagged), chat);
    StartGroupMeans(w.stores, payments, creator, users, intent, flagged, chat);
  }

  lemma {:induction false} StartTwoWayOutcome(payments: Payments, w: World, h: nat, creator: UserId, other: UserId,
                                              newChat: ChatId)
    requires h !in w.tasks && IsNewChatId(w, newChat) && |creator| == |other| == UUID_LENGTH
    ensures var v := Run(payments, w, StartSteps(h, creator, TwoWayChat(other), newChat));
            IsAnswered(w, v, h) && IsTwoWayStart(w.stores, v.stores, v.tasks[h].answer, creator, other)
  {
    StartAlone(payments, w, h, creator, TwoWayChat(other), newChat);
    StartTwoWayMeans(w.stores, payments, creator, other, newChat);
  }
}
