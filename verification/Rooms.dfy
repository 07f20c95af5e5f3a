/** Chats and their members as plain values, and the member lists the chat store keeps. */
module Rooms {
  import opened Ids

  datatype ChatType = TwoWay | Group

  datatype Metadata = Metadata(chatID: ChatId, kind: ChatType, owner: Option<UserId>, roomNumber: nat, isOpen: bool)

  datatype Member = Member(
    userID: UserId,
    addedBy: Option<UserId>,
    isPushEnabled: bool,
    isMuted: bool,
    hasModPermission: bool,
    hasSendPermission: bool,
    isSoftDeleted: bool)

  /** The chat store without the order of its lists and without its indexes. */
  datatype View = View(chats: map<ChatId, Metadata>, members: map<ChatId, map<UserId, Member>>, nextRoom: nat)
  {
    /** A member's entry, whether they are still in the chat or have left. */
    function Entry(chat: ChatId, user: UserId): Option<Member>
    {
      if chat in members && user in members[chat] then Some(members[chat][user]) else None
    }

    predicate IsActive(chat: ChatId, user: UserId)
    {
      Entry(chat, user).Some? && !Entry(chat, user).value.isSoftDeleted
    }

    function WithEntry(chat: ChatId, member: Member): View
    {
      this.(members := members[chat := (if chat in members then members[chat] else map[])[member.userID := member]])
    }

    function WithChat(md: Metadata): View
    {
      this.(chats := chats[md.chatID := md.(roomNumber := nextRoom)], nextRoom := nextRoom + 1)
    }
  }

  /** Nothing but one user's entry in one chat is different. */
  ghost predicate OnlyEntryChanges(before: View, after: View, chat: ChatId, user: UserId)
  {
    && after.chats == before.chats && after.nextRoom == before.nextRoom
    && forall c, u :: c != chat || u != user ==> after.Entry(c, u) == before.Entry(c, u)
  }

  /** The user has been muted in this chat, in an earlier membership or this one. */
  predicate WasMuted(rooms: View, chat: ChatId, user: UserId)
  {
    rooms.Entry(chat, user).Some? && rooms.Entry(chat, user).value.isMuted
  }

  const EMPTY := View(map[], map[], 1)

  /** The entry after joining: permissions are those of the new membership, but
      a mute outlives leaving and joining again. */
  function Joined(before: Option<Member>, member: Member): Member
  {
    member.(isPushEnabled := true,
            isMuted := member.isMuted || (before.Some? && before.value.isMuted),
            isSoftDeleted := false)
  }

  function Departed(member: Member): Member
  {
    member.(isSoftDeleted := true, addedBy := None, isPushEnabled := true,
            hasModPermission := false, hasSendPermission := false)
  }

  lemma {:induction false} WithEntryAt(rooms: View, chat: ChatId, member: Member, c: ChatId, u: UserId)
    ensures rooms.WithEntry(chat, member).Entry(c, u)
            == if c == chat && u == member.userID then Some(member) else rooms.Entry(c, u)
  {
  }

  /** The member is in the chat with the permissions handed over, muted if they were or
      come muted, and nothing else has changed. */
  ghost predicate IsJoinedBy(before: View, after: View, chat: ChatId, member: Member)
  {
    && OnlyEntryChanges(before, after, chat, member.userID)
    && after.Entry(chat, member.userID) ==
       Some(Member(member.userID, member.addedBy, true, member.isMuted || WasMuted(before, chat, member.userID),
                   member.hasModPermission, member.hasSendPermission, false))
  }

  lemma {:induction false} JoinedMeans(rooms: View, chat: ChatId, member: Member)
    ensures IsJoinedBy(rooms, rooms.WithEntry(chat, Joined(rooms.Entry(chat, member.userID), member)), chat, member)
  {
    forall c, u {
      WithEntryAt(rooms, chat, Joined(rooms.Entry(chat, member.userID), member), c, u);
    }
  }

  /** An entry that says the user left, with the mute and nothing else, is all that
      remains of a membership. */
  ghost predicate HasDeparted(before: View, after: View, chat: ChatId, user: UserId)
  {
    && OnlyEntryChanges(before, after, chat, user)
    && after.Entry(chat, user) ==
       if before.Entry(chat, user).None? then None
       else Some(Member(user, None, true, WasMuted(before, chat, user), false, false, true))
  }

  lemma {:induction false} DepartedMeans(rooms: View, chat: ChatId, user: UserId)
    requires rooms.Entry(chat, user).Some? && rooms.Entry(chat, user).value.userID == user
    ensures HasDeparted(rooms, rooms.WithEntry(chat, Departed(rooms.Entry(chat, user).value)), chat, user)
  {
    forall c, u {
      WithEntryAt(rooms, chat, Departed(rooms.Entry(chat, user).value), c, u);
    }
  }

  /** Members in strictly ascending order of user id. */
  predicate Ordered(list: seq<Member>)
  {
    forall i, j :: 0 <= i < j < |list| ==> Less(list[i].userID, list[j].userID)
  }

  function ByUser(list: seq<Member>): map<UserId, Member>
  {
    if list == [] then map[]
    else
      var last := list[|list| - 1];
      ByUser(list[..|list| - 1])[last.userID := last]
  }

  function UsersIn(list: seq<Member>): set<UserId>
  {
    set i | 0 <= i < |list| :: list[i].userID
  }

  lemma {:induction false} ByUserKeys(list: seq<Member>)
    ensures ByUser(list).Keys == UsersIn(list)
  {
    if list != [] {
      var front, last := list[..|list| - 1], list[|list| - 1];
      ByUserKeys(front);
      assert UsersIn(list) == UsersIn(front) + {last.userID} by {
        forall u | u in UsersIn(front) ensures u in UsersIn(list) {
          var i :| 0 <= i < |front| && front[i].userID == u;
          assert list[i].userID == u;
        }
        forall u | u in UsersIn(list) && u != last.userID ensures u in UsersIn(front) {
          var i :| 0 <= i < |list| && list[i].userID == u;
          assert front[i].userID == u;
        }
      }
    }
  }

  lemma {:induction false} ByUserEntry(list: seq<Member>, i: nat)
    requires Ordered(list) && i < |list|
    ensures list[i].userID in ByUser(list) && ByUser(list)[list[i].userID] == list[i]
  {
    var front, last := list[..|list| - 1], list[|list| - 1];
    if i < |front| {
      ByUserEntry(front, i);
      LessIsTotal(list[i].userID, last.userID);
    }
  }

  /** Overwriting one entry of a list overwrites that user's entry and no other. */
  lemma {:induction false} ReplaceAt(list: seq<Member>, i: nat, member: Member)
    requires Ordered(list) && i < |list| && member.userID == list[i].userID
    ensures Ordered(list[i := member])
    ensures ByUser(list[i := member]) == ByUser(list)[member.userID := member]
  {
    var front, last := list[..|list| - 1], list[|list| - 1];
    if i < |front| {
      ReplaceAt(front, i, member);
      assert list[i := member][..|list| - 1] == front[i := member];
      LessIsTotal(member.userID, last.userID);
    } else {
      assert list[i := member][..|list| - 1] == front;
    }
  }

  function Place(list: seq<Member>, user: UserId): (k: nat)
    requires Ordered(list)
    ensures k <= |list|
    ensures forall i :: 0 <= i < k ==> Less(list[i].userID, user)
    ensures forall i :: k <= i < |list| ==> !Less(list[i].userID, user)
  {
    if list == [] then 0
    else if Less(list[|list| - 1].userID, user) then
      (forall i | 0 <= i < |list| - 1 ensures Less(list[i].userID, user) {
         LessIsTransitive(list[i].userID, list[|list| - 1].userID, user);
       }
       |list|)
    else Place(list[..|list| - 1], user)
  }

  /** Appending a new member and sorting by user id. */
  function Enlist(list: seq<Member>, member: Member): (after: seq<Member>)
    requires Ordered(list) && member.userID !in UsersIn(list)
    ensures Ordered(after)
    ensures forall m :: m in after <==> m in list || m == member
  {
    var k := Place(list, member.userID);
    forall i | k <= i < |list| ensures Less(member.userID, list[i].userID) {
      LessIsTotal(member.userID, list[i].userID);
      assert list[i].userID in UsersIn(list);
    }
    assert list == list[..k] + list[k..];
    list[..k] + [member] + list[k..]
  }

  lemma {:induction false} ByUserLooksUp(list: seq<Member>)
    requires Ordered(list)
    ensures ByUser(list).Keys == UsersIn(list)
    ensures forall m :: m in list ==> m.userID in ByUser(list) && ByUser(list)[m.userID] == m
    ensures forall u :: u in ByUser(list) ==> ByUser(list)[u] in list && ByUser(list)[u].userID == u
  {
    ByUserKeys(list);
    forall m | m in list ensures m.userID in ByUser(list) && ByUser(list)[m.userID] == m {
      var i :| 0 <= i < |list| && list[i] == m;
      ByUserEntry(list, i);
    }
    forall u | u in ByUser(list) ensures ByUser(list)[u] in list && ByUser(list)[u].userID == u {
      var i :| 0 <= i < |list| && list[i].userID == u;
      ByUserEntry(list, i);
    }
  }

  lemma EnlistExtendsByUser(list: seq<Member>, member: Member)
    requires Ordered(list) && member.userID !in UsersIn(list)
    ensures ByUser(Enlist(list, member)) == ByUser(list)[member.userID := member]
  {
    ExtendsByUser(list, member, Enlist(list, member));
  }

  lemma ExtendsByUser(list: seq<Member>, member: Member, after: seq<Member>)
    requires Ordered(list) && member.userID !in UsersIn(list)
    requires Ordered(after) && forall m :: m in after <==> m in list || m == member
    ensures ByUser(after) == ByUser(list)[member.userID := member]
  {
    ByUserLooksUp(list);
    ByUserLooksUp(after);
    assert member in after;
    forall u ensures u in ByUser(after) <==> u in ByUser(list)[member.userID := member] {
    }
    forall u | u in ByUser(after) ensures ByUser(after)[u] == ByUser(list)[member.userID := member][u] {
    }
  }

  predicate NoDuplicates<T(==)>(list: seq<T>)
  {
    forall i, j :: 0 <= i < j < |list| ==> list[i] != list[j]
  }

  lemma DeleteAt<T>(list: seq<T>, i: nat)
    requires NoDuplicates(list) && i < |list|
    ensures NoDuplicates(list[..i] + list[i + 1..])
    ensures forall x :: x in list[..i] + list[i + 1..] <==> x in list && x != list[i]
  {
    var after := list[..i] + list[i + 1..];
    forall x | x in list && x != list[i] ensures x in after {
      var j :| 0 <= j < |list| && list[j] == x;
      if j < i {
        assert after[j] == x;
      } else {
        assert after[j - 1] == x;
      }
    }
  }
}
