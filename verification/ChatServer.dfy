/** The handlers of the chat service that change chats and members, store call by store call. */
module ChatServer {
  import opened Ids
  import opened Rooms
  import opened Authorizer
  import opened Backend
  import opened Server
  import opened Requests
  import opened StartRequests
  import opened Outcomes
  import ChatStore

  datatype Identifier = ById(chat: ChatId) | ByRoom(room: nat)

  class ChatServer {
    const b: Backend

    constructor (b: Backend)
      ensures this.b == b
    {
      this.b := b;
    }

    lemma {:induction false} EntriesAreFiled()
      requires b.Valid()
      ensures IsFiled(b.Abs().rooms)
    {
      forall chat, user | b.Abs().rooms.Entry(chat, user).Some?
        ensures b.Abs().rooms.Entry(chat, user).value.userID == user
      {
        ByUserLooksUp(b.chats.members[chat]);
      }
    }

    /** The checks that the moderation RPCs share: the member that the caller may act on. */
    method GetModerated(chat: ChatId, owner: UserId, user: UserId, groupOnly: bool) returns (member: Option<Member>)
      requires b.Valid()
      ensures member.Some? <==> MayModerate(b.Abs(), chat, owner, user)
                                && (groupOnly ==> b.Abs().rooms.chats[chat].kind == Group)
      ensures member.Some? ==> member == b.Abs().rooms.Entry(chat, user)
    {
      if owner == user {
        return None;
      }
      var owns := OwnsChat(chat, owner, groupOnly);
      if !owns {
        return None;
      }
      member := b.chats.GetMember(chat, user);
    }

    method OwnsChat(chat: ChatId, caller: UserId, groupOnly: bool) returns (owns: bool)
      requires b.Valid()
      ensures owns <==> b.Abs().IsOwner(chat, caller) && (groupOnly ==> b.Abs().rooms.chats[chat].kind == Group)
    {
      var md := b.chats.GetChatMetadata(chat);
      if md.None? {
        return false;
      }
      if groupOnly && md.value.kind != Group {
        return false;
      }
      return md.value.owner == Some(caller);
    }

    method MuteUser(chat: ChatId, owner: UserId, user: UserId) returns (answer: Answer)
      requires b.Valid()
      modifies b.chats
      ensures b.Valid()
      ensures (b.Abs(), answer) == MuteRequest(old(b.Abs()), chat, owner, user)
      ensures IsMute(old(b.Abs()), b.Abs(), answer, chat, owner, user)
    {
      EntriesAreFiled();
      MuteMeans(b.Abs(), chat, owner, user);
      var member := GetModerated(chat, owner, user, false);
      if member.None? {
        return Denied;
      }
      if member.value.isMuted {
        return MuteOk(chat, user);
      }
      var r := b.chats.SetMuteState(chat, user, true);
      assert b.Abs().logs == old(b.Abs()).logs;
      return MuteOk(chat, user);
    }

    method SetSendPermission(chat: ChatId, user: UserId, permission: bool)
      requires b.Valid() && b.Abs().rooms.IsActive(chat, user)
      modifies b.chats
      ensures b.Valid()
      ensures b.Abs() == old(b.Abs()).(rooms := old(b.Abs()).rooms.WithEntry(chat,
                           old(b.Abs()).rooms.Entry(chat, user).value.(hasSendPermission := permission)))
    {
      var r := b.chats.SetSendPermission(chat, user, permission);
      assert b.Abs().logs == old(b.Abs()).logs;
    }

    method PromoteUser(chat: ChatId, owner: UserId, user: UserId, enableSend: bool) returns (answer: Answer)
      requires b.Valid()
      modifies b.chats
      ensures b.Valid()
      ensures (b.Abs(), answer) == PromoteRequest(old(b.Abs()), chat, owner, user, enableSend)
      ensures IsPromotion(old(b.Abs()), b.Abs(), answer, chat, owner, user, enableSend)
    {
      EntriesAreFiled();
      PromoteMeans(b.Abs(), chat, owner, user, enableSend);
      var member := GetModerated(chat, owner, user, true);
      if member.None? {
        return Denied;
      }
      var isRegistered := b.accounts.IsRegistered(user);
      if !isRegistered {
        return Answer.NotRegistered;
      }
      if enableSend {
        if member.value.hasSendPermission {
          return OtherOk;
        }
        SetSendPermission(chat, user, true);
      }
      return OtherOk;
    }

    method DemoteUser(chat: ChatId, owner: UserId, user: UserId, disableSend: bool) returns (answer: Answer)
      requires b.Valid()
      modifies b.chats
      ensures b.Valid()
      ensures (b.Abs(), answer) == DemoteRequest(old(b.Abs()), chat, owner, user, disableSend)
      ensures IsDemotion(old(b.Abs()), b.Abs(), answer, chat, owner, user, disableSend)
    {
      EntriesAreFiled();
      DemoteMeans(b.Abs(), chat, owner, user, disableSend);
      var member := GetModerated(chat, owner, user, true);
      if member.None? {
        return Denied;
      }
      if disableSend {
        if !member.value.hasSendPermission {
          return OtherOk;
        }
        SetSendPermission(chat, user, false);
      }
      return OtherOk;
    }

    /** A chat may be named by its room number; an unknown number changes nothing. */
    method JoinChat(identifier: Identifier, user: UserId, withoutSendPermission: bool)
        returns (answer: Answer, chat: Option<ChatId>)
      requires b.Valid()
      modifies b.chats
      ensures b.Valid()
      ensures identifier.ById? ==> chat == Some(identifier.chat)
      ensures identifier.ByRoom? ==> forall c :: c in old(b.Abs()).rooms.chats ==>
                                       (chat == Some(c) <==> old(b.Abs()).rooms.chats[c].roomNumber == identifier.room)
      ensures chat.None? ==> answer == Denied && b.Abs() == old(b.Abs())
      ensures chat.Some? ==> (b.Abs(), answer) == JoinRequest(old(b.Abs()), chat.value, user, withoutSendPermission)
      ensures chat.Some? ==> IsJoin(old(b.Abs()), b.Abs(), answer, chat.value, user, withoutSendPermission)
    {
      match identifier {
        case ById(c) => chat := Some(c);
        case ByRoom(room) =>
          chat := b.chats.GetChatID(room);
          b.chats.RoomNamesOneChat(room);
          assert forall c :: c in b.Abs().rooms.chats ==>
                 (chat == Some(c) <==> b.Abs().rooms.chats[c].roomNumber == room);
      }
      if chat.None? {
        return Denied, chat;
      }
      JoinMeans(b.Abs(), chat.value, user, withoutSendPermission);
      var md := b.chats.GetChatMetadata(chat.value);
      if md.None? {
        return Failed, chat;
      }
      var isOwner := md.value.owner == Some(user);
      if !isOwner && !withoutSendPermission {
        return Denied, chat;
      }
      var newMember := Member(user, None, true, false, false, false, false);
      if isOwner {
        newMember := newMember.(hasSendPermission := true, hasModPermission := true);
      }
      AddMember(chat.value, newMember);
      return OtherOk, chat;
    }

    method AddMember(chat: ChatId, member: Member)
      requires b.Valid() && chat in b.Abs().rooms.chats && !member.isSoftDeleted
      modifies b.chats
      ensures b.Valid()
      ensures b.Abs() == old(b.Abs()).(rooms :=
                old(b.Abs()).rooms.WithEntry(chat, Joined(old(b.Abs()).rooms.Entry(chat, member.userID), member)))
    {
      var r := b.chats.AddMember(chat, member);
      assert b.Abs().logs == old(b.Abs()).logs;
    }

    method LeaveChat(chat: ChatId, user: UserId)
      requires b.Valid()
      modifies b.chats
      ensures b.Valid()
      ensures b.Abs() == LeaveRequest(old(b.Abs()), chat, user)
      ensures IsLeave(old(b.Abs()), b.Abs(), chat, user)
    {
      EntriesAreFiled();
      LeaveMeans(b.Abs(), chat, user);
      b.chats.RemoveMember(chat, user);
      assert b.Abs().logs == old(b.Abs()).logs;
    }

    /** Opening and closing a group, which only its owner can do. */
    method SetOpenStatus(chat: ChatId, owner: UserId, isOpen: bool) returns (answer: Answer)
      requires b.Valid()
      modifies b.chats
      ensures b.Valid()
      ensures (b.Abs(), answer) == OpenRequest(old(b.Abs()), chat, owner, isOpen)
      ensures IsOpening(old(b.Abs()), b.Abs(), answer, chat, owner, isOpen)
    {
      OpenMeans(b.Abs(), chat, owner, isOpen);
      var owns := OwnsChat(chat, owner, true);
      if !owns {
        return Denied;
      }
      var md := b.chats.GetChatMetadata(chat);
      if md.value.isOpen != isOpen {
        var r := b.chats.SetOpenStatus(chat, isOpen);
      }
      assert b.Abs().logs == old(b.Abs()).logs;
      assert b.Abs().rooms.chats == old(b.Abs()).rooms.chats[chat := md.value.(isOpen := isOpen)];
      return OtherOk;
    }

    /** Whether the payment for a new group is unused and was made by its creator. */
    method CheckGroupPayment(creator: UserId, intent: Option<IntentId>, flagged: bool, payments: Payments)
        returns (answer: Option<Answer>)
      requires b.Valid()
      ensures answer == RefusalOf(b.Abs(), payments, creator, intent, flagged)
      ensures answer.None? <==>
                && intent.Some? && intent.value in payments && intent.value !in b.Abs().fulfilled
                && payments[intent.value].metadata == ForGroup(creator) && !flagged
      ensures answer.None? || answer == Some(Denied) || answer == Some(Failed)
    {
      if intent.None? {
        return Some(Denied);
      }
      var isFulfilled := b.intents.IsFulfilled(intent.value);
      if isFulfilled {
        return Some(Denied);
      }
      if intent.value !in payments || payments[intent.value].metadata.Missing? {
        return Some(Denied);
      }
      if !payments[intent.value].metadata.ForGroup? {
        return Some(Failed);
      }
      if payments[intent.value].metadata.user != creator {
        return Some(Denied);
      }
      return if flagged then Some(Denied) else None;
    }

    method CreateChat(chat: ChatId, isGroup: bool, creator: UserId)
      requires b.Valid()
      modifies b.chats
      ensures b.Valid()
      ensures b.Abs() == CreatedIn(old(b.Abs()), chat, isGroup, creator)
    {
      var draft := ChatStore.Draft(Some(chat), if isGroup then Group else TwoWay,
                                   if isGroup then Some(creator) else None, 0, Some(true));
      var r := b.chats.CreateChat(draft);
      assert b.Abs().logs == old(b.Abs()).logs;
    }

    /** Adds the members one by one; the creator of a group moderates it. */
    method AddMembers(chat: ChatId, isGroup: bool, creator: UserId, users: seq<UserId>)
      requires b.Valid() && chat in b.Abs().rooms.chats
      modifies b.chats
      ensures b.Valid()
      ensures b.Abs() == old(b.Abs()).(rooms := WithMembers(old(b.Abs()).rooms, chat, isGroup, creator, users))
      ensures AddsMembers(old(b.Abs()).rooms, b.Abs().rooms, chat, isGroup, creator, users)
    {
      AddsAllMembers(b.Abs().rooms, chat, isGroup, creator, users);
      for i := 0 to |users|
        invariant b.Valid() && chat in b.Abs().rooms.chats
        invariant b.Abs() == old(b.Abs()).(rooms := WithMembers(old(b.Abs()).rooms, chat, isGroup, creator, users[..i]))
      {
        var member := Member(users[i], Some(creator), false, false, false, true, false);
        if isGroup && users[i] == creator {
          member := member.(hasModPermission := true);
        }
        assert users[..i + 1][..i] == users[..i];
        AddMember(chat, member);
      }
      assert users[..|users|] == users;
    }

    /** What follows the checks: create the chat, use up the payment, add the members. */
    method CreateAndAdd(chat: ChatId, isGroup: bool, creator: UserId, users: seq<UserId>, intent: Option<IntentId>)
        returns (answer: Answer)
      requires b.Valid()
      modifies b.chats, b.intents
      ensures b.Valid()
      ensures (b.Abs(), answer) == CreatedWith(old(b.Abs()), chat, isGroup, creator, users, intent)
      ensures IsCreation(old(b.Abs()), b.Abs(), answer, chat, isGroup, creator, users, intent)
    {
      CreateMeans(b.Abs(), chat, isGroup, creator, users, intent);
      CreateChat(chat, isGroup, creator);
      if intent.Some? {
        var marked := b.MarkFulfilled(intent.value);
        if !marked {
          return Denied;
        }
      }
      AddMembers(chat, isGroup, creator, users);
      assert b.Abs().fulfilled == old(b.Abs()).fulfilled + if intent.Some? then {intent.value} else {};
      return StartOk;
    }

    method StartChat(creator: UserId, parameters: Parameters, newChat: ChatId, payments: Payments)
        returns (answer: Answer)
      requires b.Valid()
      modifies b.chats, b.intents
      ensures b.Valid()
      ensures (b.Abs(), answer) == StartRequest(old(b.Abs()), payments, creator, parameters, newChat)
      ensures parameters.TwoWayChat? ==> IsTwoWayStart(old(b.Abs()), b.Abs(), answer, creator, parameters.other)
      ensures parameters.GroupChat? && newChat !in old(b.Abs()).rooms.chats ==>
                IsGroupStart(old(b.Abs()), b.Abs(), answer, payments, creator, parameters.users, parameters.intent,
                             parameters.flagged, newChat)
    {
      if parameters.TwoWayChat? {
        StartTwoWayMeans(b.Abs(), payments, creator, parameters.other, newChat);
      } else if newChat !in b.Abs().rooms.chats {
        StartGroupMeans(b.Abs(), payments, creator, parameters.users, parameters.intent, parameters.flagged, newChat);
      }
      match parameters {
        case TwoWayChat(other) =>
          answer := CreateAndAdd(TwoWayChatId(creator, other), false, creator, [creator, other], None);
        case GroupChat(users, intent, flagged) =>
          var refused := CheckGroupPayment(creator, intent, flagged, payments);
          if refused.Some? {
            return refused.value;
          }
          answer := CreateAndAdd(newChat, true, creator, users + [creator], intent);
      }
    }
  }
}
