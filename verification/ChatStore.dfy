/** The in-memory chat store: metadata, sorted member lists, room numbers, and
    the two reverse indexes that must agree with them. */
module ChatStore {
  import opened Ids
  import opened Rooms

  datatype Status = Ok | ChatNotFound | MemberNotFound | Rejected

  /** Metadata as a caller hands it over, where the store has not filled in anything yet. */
  datatype Draft = Draft(chatID: Option<ChatId>, kind: ChatType, owner: Option<UserId>, roomNumber: nat,
                         openStatus: Option<bool>)

  datatype CreateResult = Created(md: Metadata) | Exists(md: Metadata) | Invalid

  function ChatsOf(chatsByMember: map<UserId, seq<ChatId>>, user: UserId): seq<ChatId>
  {
    if user in chatsByMember then chatsByMember[user] else []
  }

  function ListOf(members: map<ChatId, seq<Member>>, chat: ChatId): seq<Member>
  {
    if chat in members then members[chat] else []
  }

  /** The user has an entry in the chat's list that is not marked as deleted. */
  predicate Listed(members: map<ChatId, seq<Member>>, chat: ChatId, user: UserId)
  {
    var byUser := ByUser(ListOf(members, chat));
    user in byUser && !byUser[user].isSoftDeleted
  }

  /** A user's chat index holds each chat the user is in, once, and no other. */
  ghost predicate IndexMatches(members: map<ChatId, seq<Member>>, chatsByMember: map<UserId, seq<ChatId>>)
  {
    && (forall user :: NoDuplicates(ChatsOf(chatsByMember, user)))
    && (forall chat, user :: chat in ChatsOf(chatsByMember, user) <==> Listed(members, chat, user))
  }

  /** Room numbers 1 to nextRoom - 1 and chats correspond one to one. */
  ghost predicate RoomNumbersMatch(chats: map<ChatId, Metadata>, nextRoom: nat, ids: map<nat, ChatId>)
  {
    && nextRoom >= 1
    && (forall room :: room in ids <==> 1 <= room < nextRoom)
    && (forall chat :: chat in chats ==>
          && chats[chat].chatID == chat
          && chats[chat].roomNumber in ids && ids[chats[chat].roomNumber] == chat)
    && (forall room :: room in ids ==> ids[room] in chats && chats[ids[room]].roomNumber == room)
  }

  ghost predicate ListsOrdered(members: map<ChatId, seq<Member>>)
  {
    forall chat :: chat in members ==> Ordered(members[chat])
  }

  class InMemoryStore {
    var chats: map<ChatId, Metadata>
    var members: map<ChatId, seq<Member>>
    var nextRoom: nat

    var ids: map<nat, ChatId>
    var chatsByMember: map<UserId, seq<ChatId>>

    ghost predicate Valid()
      reads this
    {
      && ListsOrdered(members)
      && IndexMatches(members, chatsByMember)
      && RoomNumbersMatch(chats, nextRoom, ids)
    }

    ghost function Abs(): View
      reads this
    {
      View(chats, ByChat(members), nextRoom)
    }

    constructor ()
      ensures Valid() && Abs() == EMPTY
    {
      chats := map[];
      members := map[];
      nextRoom := 1;
      ids := map[];
      chatsByMember := map[];
    }

    method GetChatID(room: nat) returns (chat: Option<ChatId>)
      requires Valid()
      ensures chat.Some? ==> chat.value in Abs().chats && Abs().chats[chat.value].roomNumber == room
      ensures chat.None? ==> forall c :: c in Abs().chats ==> Abs().chats[c].roomNumber != room
    {
      if room !in ids {
        return None;
      }
      return Some(ids[room]);
    }

    /** No two chats have the same room number. */
    lemma RoomNamesOneChat(room: nat)
      requires Valid()
      ensures forall c, d ::
                c in Abs().chats && d in Abs().chats
                && Abs().chats[c].roomNumber == room == Abs().chats[d].roomNumber ==>
                  c == d
    {
    }

    method GetChatMetadata(chat: ChatId) returns (md: Option<Metadata>)
      requires Valid()
      ensures md.None? <==> chat !in Abs().chats
      ensures md.Some? ==> md.value == Abs().chats[chat] && md.value.chatID == chat
    {
      if chat !in chats {
        return None;
      }
      return Some(chats[chat]);
    }

    method GetChatsForUser(user: UserId) returns (result: seq<ChatId>)
      requires Valid()
      ensures NoDuplicates(result)
      ensures forall chat :: chat in result <==> Abs().IsActive(chat, user)
    {
      var list := ChatsOf(chatsByMember, user);
      result := [];
      for i := 0 to |list|
        invariant result == list[..i]
      {
        result := result + [list[i]];
      }
      assert list[..|list|] == list;
      assert forall chat :: Listed(members, chat, user) <==> Abs().IsActive(chat, user);
    }

    method GetMembers(chat: ChatId) returns (result: seq<Member>)
      requires Valid()
      ensures Ordered(result)
      ensures forall m :: m in result <==> Abs().IsActive(chat, m.userID) && Abs().Entry(chat, m.userID) == Some(m)
    {
      var list := ListOf(members, chat);
      result := [];
      for i := 0 to |list|
        invariant Ordered(result)
        invariant forall m :: m in result ==> m in list[..i]
        invariant forall m :: m in list[..i] ==> (m in result <==> !m.isSoftDeleted)
      {
        assert list[..i + 1] == list[..i] + [list[i]];
        assert forall j :: 0 <= j < |result| ==> result[j] in list[..i];
        if list[i].isSoftDeleted {
          continue;
        }
        result := result + [list[i]];
      }
      assert list[..|list|] == list;
      ByUserLooksUp(list);
    }

    method GetMember(chat: ChatId, user: UserId) returns (member: Option<Member>)
      requires Valid()
      ensures member == if Abs().IsActive(chat, user) then Abs().Entry(chat, user) else None
    {
      var list := ListOf(members, chat);
      ByUserLooksUp(list);
      for i := 0 to |list|
        invariant forall j :: 0 <= j < i ==> !(list[j].userID == user && !list[j].isSoftDeleted)
      {
        if list[i].userID == user && !list[i].isSoftDeleted {
          assert list[i] in list;
          return Some(list[i]);
        }
      }
      return None;
    }

    method IsMember(chat: ChatId, user: UserId) returns (isMember: bool)
      requires Valid()
      ensures isMember == Abs().IsActive(chat, user)
    {
      var list := ListOf(members, chat);
      ByUserLooksUp(list);
      for i := 0 to |list|
        invariant forall j :: 0 <= j < i ==> !(list[j].userID == user && !list[j].isSoftDeleted)
      {
        if list[i].userID == user && !list[i].isSoftDeleted {
          assert list[i] in list;
          return true;
        }
      }
      return false;
    }

    method CreateChat(draft: Draft) returns (r: CreateResult)
      requires Valid()
      modifies this
      ensures Valid()
      ensures draft.chatID.None? || draft.roomNumber != 0 <==> r == Invalid
      ensures r.Exists? <==> r != Invalid && draft.chatID.value in old(chats)
      ensures r.Exists? ==> r.md == old(chats)[draft.chatID.value]
      ensures r.Created? ==>
                && r.md == Metadata(draft.chatID.value, draft.kind, draft.owner, old(nextRoom),
                                    draft.openStatus.None? || draft.openStatus.value)
                && Abs() == old(Abs()).WithChat(r.md)
                && chats == old(chats)[draft.chatID.value := r.md] && nextRoom == old(nextRoom) + 1
                && members == old(members)
      ensures !r.Created? ==> unchanged(this)
    {
      if draft.chatID.None? {
        return Invalid;
      }
      if draft.roomNumber != 0 {
        return Invalid;
      }
      var isOpen := if draft.openStatus.None? then true else draft.openStatus.value;
      var chat := draft.chatID.value;
      if chat in chats {
        return Exists(chats[chat]);
      }
      var md := Metadata(chat, draft.kind, draft.owner, nextRoom, isOpen);
      nextRoom := nextRoom + 1;
      chats := chats[chat := md];
      ids := ids[md.roomNumber := chat];
      return Created(md);
    }

    /** The position of the user's entry, deleted or not. */
    method FindEntry(chat: ChatId, user: UserId) returns (position: Option<nat>)
      requires Valid()
      ensures var list := ListOf(members, chat);
              && (position.Some? ==> position.value < |list| && list[position.value].userID == user
                                     && Abs().Entry(chat, user) == Some(list[position.value]))
              && (position.None? ==> user !in UsersIn(list) && Abs().Entry(chat, user) == None)
    {
      var list := ListOf(members, chat);
      ByUserKeys(list);
      for i := 0 to |list|
        invariant forall j :: 0 <= j < i ==> list[j].userID != user
      {
        if list[i].userID == user {
          ByUserEntry(list, i);
          return Some(i);
        }
      }
      return None;
    }

    method AddMember(chat: ChatId, member: Member) returns (r: Status)
      requires Valid()
      modifies this
      ensures Valid()
      ensures r == if member.isSoftDeleted then Rejected else if chat !in old(chats) then ChatNotFound else Ok
      ensures r != Ok ==> unchanged(this)
      ensures r == Ok ==> Abs() == old(Abs()).WithEntry(chat, Joined(old(Abs()).Entry(chat, member.userID), member))
      ensures r == Ok ==> IsJoinedBy(old(Abs()), Abs(), chat, member)
    {
      if member.isSoftDeleted {
        return Rejected;
      }
      if chat !in chats {
        return ChatNotFound;
      }
      JoinedMeans(Abs(), chat, member);
      Enter(chat, member);
      return Ok;
    }

    /** Revives the user's entry, or sorts in a new one. */
    method Enter(chat: ChatId, member: Member)
      requires Valid() && !member.isSoftDeleted
      modifies this`members, this`chatsByMember
      ensures Valid()
      ensures Abs() == old(Abs()).WithEntry(chat, Joined(old(Abs()).Entry(chat, member.userID), member))
    {
      var list := ListOf(members, chat);
      var position := FindEntry(chat, member.userID);
      var entry := member.(isPushEnabled := true);
      var index := ChatsOf(chatsByMember, member.userID);
      if position.Some? {
        entry := list[position.value].(
          isSoftDeleted := false,
          addedBy := member.addedBy,
          isPushEnabled := true,
          isMuted := list[position.value].isMuted || member.isMuted,
          hasModPermission := member.hasModPermission,
          hasSendPermission := member.hasSendPermission);
        ReplaceAt(list, position.value, entry);
        list := list[position.value := entry];
        if chat !in index {
          index := index + [chat];
        }
      } else {
        EnlistExtendsByUser(list, entry);
        list := Enlist(list, entry);
        assert !Listed(members, chat, member.userID);
        index := index + [chat];
      }
      WriteBack(chat, list, entry, index);
    }

    /** The user's chats but for this one. */
    method ChatsWithout(chat: ChatId, user: UserId) returns (userChats: seq<ChatId>)
      requires Valid()
      ensures NoDuplicates(userChats)
      ensures forall c :: c in userChats <==> c != chat && c in ChatsOf(chatsByMember, user)
    {
      userChats := ChatsOf(chatsByMember, user);
      var i := 0;
      while i < |userChats| && userChats[i] != chat
        invariant i <= |userChats|
        invariant forall j :: 0 <= j < i ==> userChats[j] != chat
      {
        i := i + 1;
      }
      if i < |userChats| {
        DeleteAt(userChats, i);
        userChats := userChats[..i] + userChats[i + 1..];
      }
    }

    method RemoveMember(chat: ChatId, user: UserId)
      requires Valid()
      modifies this
      ensures Valid()
      ensures old(Abs()).Entry(chat, user).None? ==> Abs() == old(Abs())
      ensures old(Abs()).Entry(chat, user).Some? ==>
                Abs() == old(Abs()).WithEntry(chat, Departed(old(Abs()).Entry(chat, user).value))
      ensures HasDeparted(old(Abs()), Abs(), chat, user)
    {
      var position := FindEntry(chat, user);
      var userChats := ChatsWithout(chat, user);
      if position.None? {
        assert !Listed(members, chat, user);
        return;
      }
      var list := members[chat];
      var m := Departed(list[position.value]);
      ReplaceAt(list, position.value, m);
      DepartedMeans(Abs(), chat, user);
      WriteBack(chat, list[position.value := m], m, userChats);
    }

    method SetMuteState(chat: ChatId, user: UserId, isMuted: bool) returns (r: Status)
      requires Valid()
      modifies this
      ensures Valid()
      ensures r == if old(Abs()).IsActive(chat, user) then Ok else MemberNotFound
      ensures r != Ok ==> unchanged(this)
      ensures r == Ok ==> Abs() == old(Abs()).WithEntry(chat, old(Abs()).Entry(chat, user).value.(isMuted := isMuted))
    {
      var position := FindEntry(chat, user);
      if position.None? {
        return MemberNotFound;
      }
      var m := ListOf(members, chat)[position.value];
      if m.isSoftDeleted {
        return MemberNotFound;
      }
      Overwrite(chat, position.value, m.(isMuted := isMuted));
      return Ok;
    }

    /** Setting the permission of a member who has left is not an error and does nothing. */
    method SetSendPermission(chat: ChatId, user: UserId, hasSendPermission: bool) returns (r: Status)
      requires Valid()
      modifies this
      ensures Valid()
      ensures r == if old(Abs()).Entry(chat, user).Some? then Ok else MemberNotFound
      ensures !old(Abs()).IsActive(chat, user) ==> unchanged(this)
      ensures old(Abs()).IsActive(chat, user) ==>
                var entry := old(Abs()).Entry(chat, user).value;
                Abs() == old(Abs()).WithEntry(chat, entry.(hasSendPermission := hasSendPermission))
    {
      var position := FindEntry(chat, user);
      if position.None? {
        return MemberNotFound;
      }
      var m := ListOf(members, chat)[position.value];
      if m.isSoftDeleted {
        return Ok;
      }
      Overwrite(chat, position.value, m.(hasSendPermission := hasSendPermission));
      return Ok;
    }

    method SetOpenStatus(chat: ChatId, isOpen: bool) returns (r: Status)
      requires Valid()
      modifies this
      ensures Valid()
      ensures r == if chat in old(chats) then Ok else ChatNotFound
      ensures r != Ok ==> unchanged(this)
      ensures r == Ok ==> Abs() == old(Abs()).(chats := old(chats)[chat := old(chats)[chat].(isOpen := isOpen)])
    {
      if chat !in chats {
        return ChatNotFound;
      }
      chats := chats[chat := chats[chat].(isOpen := isOpen)];
      return Ok;
    }

    /** The in-place assignment to one list element, by a change that does not delete or revive. */
    method Overwrite(chat: ChatId, position: nat, member: Member)
      requires Valid()
      requires chat in members && position < |members[chat]|
      requires member.userID == members[chat][position].userID
      requires member.isSoftDeleted == members[chat][position].isSoftDeleted
      modifies this`members, this`chatsByMember
      ensures Valid()
      ensures Abs() == old(Abs()).WithEntry(chat, member)
    {
      var list := members[chat];
      ByUserEntry(list, position);
      ReplaceAt(list, position, member);
      WriteBack(chat, list[position := member], member, ChatsOf(chatsByMember, member.userID));
    }

    /** Stores a chat's changed member list and the changed member's index. */
    method WriteBack(chat: ChatId, list: seq<Member>, entry: Member, index: seq<ChatId>)
      requires Valid()
      requires Ordered(list) && ByUser(list) == ByUser(ListOf(members, chat))[entry.userID := entry]
      requires NoDuplicates(index)
      requires forall c :: c in index <==>
                           if c == chat then !entry.isSoftDeleted else c in ChatsOf(chatsByMember, entry.userID)
      modifies this`members, this`chatsByMember
      ensures Valid()
      ensures Abs() == old(Abs()).WithEntry(chat, entry)
    {
      UpdateMatches(members, chatsByMember, chat, list, entry, index);
      members := members[chat := list];
      chatsByMember := chatsByMember[entry.userID := index];
      ListWritten(old(members), chat, list, entry);
    }
  }

  function ByChat(members: map<ChatId, seq<Member>>): map<ChatId, map<UserId, Member>>
  {
    map chat | chat in members :: ByUser(members[chat])
  }

  lemma ListWritten(members: map<ChatId, seq<Member>>, chat: ChatId, list: seq<Member>, entry: Member)
    requires ByUser(list) == ByUser(ListOf(members, chat))[entry.userID := entry]
    ensures ByChat(members[chat := list]) ==
            ByChat(members)[chat := (if chat in members then ByUser(members[chat]) else map[])[entry.userID := entry]]
  {
  }

  /** Changing one user's entry in one chat and the user's index alongside keeps
      lists and indexes in agreement. */
  lemma UpdateMatches(members: map<ChatId, seq<Member>>, chatsByMember: map<UserId, seq<ChatId>>, chat: ChatId,
                      list: seq<Member>, entry: Member, index: seq<ChatId>)
    requires ListsOrdered(members) && IndexMatches(members, chatsByMember)
    requires Ordered(list) && ByUser(list) == ByUser(ListOf(members, chat))[entry.userID := entry]
    requires NoDuplicates(index)
    requires forall c :: c in index <==> if c == chat then !entry.isSoftDeleted
             else c in ChatsOf(chatsByMember, entry.userID)
    ensures ListsOrdered(members[chat := list])
    ensures IndexMatches(members[chat := list], chatsByMember[entry.userID := index])
  {
    var after, indexAfter := members[chat := list], chatsByMember[entry.userID := index];
    forall c, u ensures c in ChatsOf(indexAfter, u) <==> Listed(after, c, u) {
      assert c in ChatsOf(chatsByMember, u) <==> Listed(members, c, u);
    }
    forall u ensures NoDuplicates(ChatsOf(indexAfter, u)) {
      assert ChatsOf(indexAfter, u) == if u == entry.userID then index else ChatsOf(chatsByMember, u);
    }
  }

  /** There are as many chats as room numbers given out. */
  lemma RoomNumbersCountChats(chats: map<ChatId, Metadata>, nextRoom: nat, ids: map<nat, ChatId>)
    requires RoomNumbersMatch(chats, nextRoom, ids)
    ensures |chats| == nextRoom - 1
  {
    CountChats(chats.Keys, chats, 1, nextRoom, ids);
    assert |chats| == |chats.Keys|;
  }

  lemma {:induction false} CountChats(rest: set<ChatId>, chats: map<ChatId, Metadata>, low: nat, nextRoom: nat,
                                      ids: map<nat, ChatId>)
    requires RoomNumbersMatch(chats, nextRoom, ids)
    requires 1 <= low <= nextRoom
    requires forall chat :: chat in rest <==> chat in chats && low <= chats[chat].roomNumber
    ensures |rest| == nextRoom - low
    decreases nextRoom - low
  {
    if low < nextRoom {
      var chat := ids[low];
      CountChats(rest - {chat}, chats, low + 1, nextRoom, ids);
    } else {
      assert forall chat :: chat in chats ==> chats[chat].roomNumber in ids;
      assert rest == {};
    }
  }
}
