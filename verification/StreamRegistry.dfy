/** The two tables of live streams. Every change to a table is made under its
    mutex and is one step here; a stream may be closed at any moment, by a
    notification that timed out. */
module StreamRegistry {
  import opened Ids

  /** A stream object, by identity. */
  type Handle = nat

  datatype Key = Key(chat: ChatId, user: UserId)

  /** `keys` knows every stream ever made; `running` are those whose handler has
      not cleaned up yet. */
  datatype Registry = Registry(
    streams: map<ChatId, seq<Handle>>,
    keys: map<Handle, Key>,
    closed: set<Handle>,
    running: set<Handle>)
  {
    function List(chat: ChatId): seq<Handle>
    {
      if chat in streams then streams[chat] else []
    }

    predicate IsRegistered(h: Handle)
    {
      h in keys && h in List(keys[h].chat)
    }
  }

  const NO_STREAMS := Registry(map[], map[], {}, {})

  function OfOthers(list: seq<Handle>, keys: map<Handle, Key>, user: UserId): seq<Handle>
  {
    if list == [] then []
    else
      var last := list[|list| - 1];
      OfOthers(list[..|list| - 1], keys, user) + if last in keys && keys[last].user == user then [] else [last]
  }

  /** A user's new stream takes the place of their old one, which is closed. */
  function Register(r: Registry, h: Handle, chat: ChatId, user: UserId): Registry
  {
    if h in r.keys then r
    else Registry(
      r.streams[chat := OfOthers(r.List(chat), r.keys, user) + [h]],
      r.keys[h := Key(chat, user)],
      r.closed + (set g | g in r.List(chat) && g in r.keys && r.keys[g].user == user),
      r.running + {h})
  }

  function CloseStream(r: Registry, h: Handle): Registry
  {
    if h in r.keys then r.(closed := r.closed + {h}) else r
  }

  function Without(list: seq<Handle>, h: Handle): seq<Handle>
  {
    if list == [] then []
    else if list[|list| - 1] == h then Without(list[..|list| - 1], h)
    else Without(list[..|list| - 1], h) + [list[|list| - 1]]
  }

  function CleanUp(r: Registry, h: Handle): Registry
  {
    if h !in r.running || h !in r.keys then r
    else
      var chat := r.keys[h].chat;
      r.(streams := r.streams[chat := Without(r.List(chat), h)], running := r.running - {h})
  }

  datatype Step =
    | Registers(h: Handle, chat: ChatId, user: UserId)
    | TimesOut(h: Handle)
    | CleansUp(h: Handle)

  function Next(r: Registry, step: Step): Registry
  {
    match step
    case Registers(h, chat, user) => Register(r, h, chat, user)
    case TimesOut(h) => CloseStream(r, h)
    case CleansUp(h) => CleanUp(r, h)
  }

  function Run(steps: seq<Step>): Registry
  {
    if steps == [] then NO_STREAMS else Next(Run(steps[..|steps| - 1]), steps[|steps| - 1])
  }

  /** The list of a chat holds running streams of that chat, one per user. */
  ghost predicate ListIsSound(chat: ChatId, list: seq<Handle>, keys: map<Handle, Key>, running: set<Handle>)
  {
    && (forall h :: h in list ==> h in keys && h in running && keys[h].chat == chat)
    && (forall i, j :: 0 <= i < j < |list| ==> keys[list[i]].user != keys[list[j]].user)
  }

  ghost predicate IsSound(r: Registry)
  {
    && r.running <= r.keys.Keys
    && (forall chat :: ListIsSound(chat, r.List(chat), r.keys, r.running))
    && (forall h :: h in r.running && h !in r.closed ==> r.IsRegistered(h))
  }

  /** The new stream is listed in place of the streams its user had in the chat, which are
      closed; no other stream is touched. */
  ghost predicate TakesPlace(r: Registry, t: Registry, h: Handle, chat: ChatId, user: UserId)
  {
    && t.keys == r.keys[h := Key(chat, user)] && t.running == r.running + {h}
    && (forall c :: c != chat ==> t.List(c) == r.List(c))
    && (forall g :: g in t.List(chat) <==> g == h || (g in r.List(chat) && g in r.keys && r.keys[g].user != user))
    && (forall g :: g in t.closed <==>
          g in r.closed || (g in r.List(chat) && g in r.keys && r.keys[g].user == user))
  }

  lemma {:induction false} RegisterMeans(r: Registry, h: Handle, chat: ChatId, user: UserId)
    requires IsSound(r) && h !in r.keys
    ensures TakesPlace(r, Register(r, h, chat, user), h, chat, user)
  {
    OfOthersFacts(r.List(chat), r.keys, user, chat, r.running);
  }

  /** The last stream of a sound list belongs to a user with no other stream in it. */
  lemma SoundFront(chat: ChatId, list: seq<Handle>, keys: map<Handle, Key>, running: set<Handle>)
    requires ListIsSound(chat, list, keys, running) && list != []
    ensures ListIsSound(chat, list[..|list| - 1], keys, running)
    ensures forall h :: h in list <==> h in list[..|list| - 1] || h == list[|list| - 1]
    ensures forall h :: h in list[..|list| - 1] ==> keys[h].user != keys[list[|list| - 1]].user
  {
    var front, last := list[..|list| - 1], list[|list| - 1];
    assert list == front + [last];
    forall h | h in front ensures keys[h].user != keys[last].user {
      var i :| 0 <= i < |front| && front[i] == h;
      assert list[i] == h;
    }
  }

  lemma SoundWith(chat: ChatId, list: seq<Handle>, keys: map<Handle, Key>, running: set<Handle>, last: Handle)
    requires ListIsSound(chat, list, keys, running)
    requires last in keys && last in running && keys[last].chat == chat
    requires forall h :: h in list ==> keys[h].user != keys[last].user
    ensures ListIsSound(chat, list + [last], keys, running)
  {
    assert forall i :: 0 <= i < |list| ==> list[i] in list;
  }

  lemma {:induction false} OfOthersFacts(list: seq<Handle>, keys: map<Handle, Key>, user: UserId, chat: ChatId,
                                         running: set<Handle>)
    requires ListIsSound(chat, list, keys, running)
    ensures var others := OfOthers(list, keys, user);
            && ListIsSound(chat, others, keys, running)
            && forall h :: h in others <==> h in list && keys[h].user != user
  {
    if list != [] {
      var front, last := list[..|list| - 1], list[|list| - 1];
      SoundFront(chat, list, keys, running);
      OfOthersFacts(front, keys, user, chat, running);
      if keys[last].user != user {
        SoundWith(chat, OfOthers(front, keys, user), keys, running, last);
      }
    }
  }

  lemma {:induction false} WithoutFacts(list: seq<Handle>, keys: map<Handle, Key>, h: Handle, chat: ChatId,
                                        running: set<Handle>)
    requires ListIsSound(chat, list, keys, running)
    ensures var rest := Without(list, h);
            && ListIsSound(chat, rest, keys, running - {h})
            && forall g :: g in rest <==> g in list && g != h
  {
    if list != [] {
      var front, last := list[..|list| - 1], list[|list| - 1];
      SoundFront(chat, list, keys, running);
      WithoutFacts(front, keys, h, chat, running);
      if last != h {
        SoundWith(chat, Without(front, h), keys, running - {h}, last);
      }
    }
  }

  lemma RegisterStaysSound(r: Registry, h: Handle, chat: ChatId, user: UserId)
    requires IsSound(r)
    ensures IsSound(Register(r, h, chat, user))
  {
    if h !in r.keys {
      var t := Register(r, h, chat, user);
      assert ListIsSound(chat, r.List(chat), r.keys, r.running);
      OfOthersFacts(r.List(chat), r.keys, user, chat, r.running);
      forall c ensures ListIsSound(c, t.List(c), t.keys, t.running) {
        assert ListIsSound(c, r.List(c), r.keys, r.running);
        if c == chat {
          var others := OfOthers(r.List(chat), r.keys, user);
          assert t.List(c) == others + [h];
          assert forall i :: 0 <= i < |others| ==> others[i] in others;
        }
      }
      forall g | g in t.running && g !in t.closed ensures t.IsRegistered(g) {
        if g != h {
          assert r.IsRegistered(g);
        }
      }
    }
  }

  lemma {:induction false} CleanUpStaysSound(r: Registry, h: Handle)
    requires IsSound(r)
    ensures IsSound(CleanUp(r, h))
    ensures forall g :: CleanUp(r, h).IsRegistered(g) <==> r.IsRegistered(g) && !(g == h && h in r.running)
  {
    if h in r.running {
      var t, chat := CleanUp(r, h), r.keys[h].chat;
      assert ListIsSound(chat, r.List(chat), r.keys, r.running);
      WithoutFacts(r.List(chat), r.keys, h, chat, r.running);
      forall c ensures ListIsSound(c, t.List(c), t.keys, t.running) {
        assert ListIsSound(c, r.List(c), r.keys, r.running);
      }
      forall g ensures t.IsRegistered(g) <==> r.IsRegistered(g) && g != h {
        if g in r.keys {
          assert ListIsSound(r.keys[g].chat, r.List(r.keys[g].chat), r.keys, r.running);
        }
      }
    }
  }

  lemma CloseStaysSound(r: Registry, h: Handle)
    requires IsSound(r)
    ensures IsSound(CloseStream(r, h))
  {
    var t := CloseStream(r, h);
    assert forall chat :: t.List(chat) == r.List(chat);
    forall chat ensures ListIsSound(chat, t.List(chat), t.keys, t.running) {
      assert ListIsSound(chat, r.List(chat), r.keys, r.running);
    }
    assert forall g :: r.IsRegistered(g) <==> t.IsRegistered(g);
  }

  lemma {:induction false} AlwaysSound(steps: seq<Step>)
    ensures IsSound(Run(steps))
  {
    if steps != [] {
      var front, last := steps[..|steps| - 1], steps[|steps| - 1];
      AlwaysSound(front);
      match last
      case Registers(h, chat, user) => RegisterStaysSound(Run(front), h, chat, user);
      case TimesOut(h) => CloseStaysSound(Run(front), h);
      case CleansUp(h) => CleanUpStaysSound(Run(front), h);
    }
  }

  /** In every interleaving of registering, replacing, timing out and cleaning
      up: no two registered streams of a chat belong to one user; only streams
      with a running handler are registered, so none is left behind; a running
      stream that is not registered, having been displaced, is closed; and
      every open stream of a running handler is registered. */
  lemma RegistryIsExact(steps: seq<Step>)
    ensures var r := Run(steps);
            && (forall g, h :: r.IsRegistered(g) && r.IsRegistered(h) && r.keys[g] == r.keys[h] ==> g == h)
            && (forall h :: r.IsRegistered(h) ==> h in r.running)
            && (forall h :: h in r.running ==> r.IsRegistered(h) || h in r.closed)
  {
    AlwaysSound(steps);
    OnePerUser(Run(steps));
  }

  lemma {:induction false} OnePerUser(r: Registry)
    requires IsSound(r)
    ensures forall g, h :: r.IsRegistered(g) && r.IsRegistered(h) && r.keys[g] == r.keys[h] ==> g == h
    ensures forall h :: r.IsRegistered(h) ==> h in r.running
  {
    forall h | r.IsRegistered(h) ensures h in r.running {
      assert ListIsSound(r.keys[h].chat, r.List(r.keys[h].chat), r.keys, r.running);
    }
    forall g, h | r.IsRegistered(g) && r.IsRegistered(h) && r.keys[g] == r.keys[h] ensures g == h {
      var list := r.List(r.keys[g].chat);
      assert ListIsSound(r.keys[g].chat, list, r.keys, r.running);
      var i :| 0 <= i < |list| && list[i] == g;
      var j :| 0 <= j < |list| && list[j] == h;
    }
  }

  /** Cleaning up removes the handler's own stream and no other handler's. */
  lemma CleanUpRemovesOnlyItsOwn(steps: seq<Step>, h: Handle, g: Handle)
    requires g != h
    ensures CleanUp(Run(steps), h).IsRegistered(g) <==> Run(steps).IsRegistered(g)
    ensures h in Run(steps).running ==> !CleanUp(Run(steps), h).IsRegistered(h)
    ensures CleanUp(Run(steps), h).closed == Run(steps).closed
  {
    AlwaysSound(steps);
    CleanUpStaysSound(Run(steps), h);
  }

  lemma RegisterReplaces(r: Registry, h: Handle, chat: ChatId, user: UserId, i: nat)
    requires IsSound(r) && h !in r.keys && i < |r.List(chat)| && r.keys[r.List(chat)[i]].user == user
    ensures var list := r.List(chat);
            Register(r, h, chat, user) ==
            Registry(r.streams[chat := list[..i] + list[i + 1..] + [h]], r.keys[h := Key(chat, user)],
                     r.closed + {list[i]}, r.running + {h})
  {
    var list := r.List(chat);
    assert ListIsSound(chat, list, r.keys, r.running);
    assert forall j :: 0 <= j < |list| ==> list[j] in list;
    OfOthersSkips(list, r.keys, user, i);
    assert (set g | g in list && g in r.keys && r.keys[g].user == user) == {list[i]};
  }

  lemma RegisterAppends(r: Registry, h: Handle, chat: ChatId, user: UserId)
    requires IsSound(r) && h !in r.keys && forall j :: 0 <= j < |r.List(chat)| ==> r.keys[r.List(chat)[j]].user != user
    ensures Register(r, h, chat, user) ==
            Registry(r.streams[chat := r.List(chat) + [h]], r.keys[h := Key(chat, user)], r.closed, r.running + {h})
  {
    var list := r.List(chat);
    assert ListIsSound(chat, list, r.keys, r.running);
    assert forall j :: 0 <= j < |list| ==> list[j] in list;
    OfOthersKeeps(list, r.keys, user);
    assert r.closed + (set g | g in list && g in r.keys && r.keys[g].user == user) == r.closed;
  }

  /** A chat without streams may be in the table or not. */
  lemma SameListsAreSound(r: Registry, s: Registry)
    requires IsSound(r) && s.keys == r.keys && s.closed == r.closed && s.running == r.running
    requires forall chat :: s.List(chat) == r.List(chat)
    ensures IsSound(s)
  {
    forall chat ensures ListIsSound(chat, s.List(chat), s.keys, s.running) {
      assert ListIsSound(chat, r.List(chat), r.keys, r.running);
    }
    forall h | h in s.running && h !in s.closed ensures s.IsRegistered(h) {
      assert r.IsRegistered(h);
    }
  }

  /** The messaging server's table: a list of streams per chat. */
  class MessageStreams {
    var streams: map<ChatId, seq<Handle>>
    var keys: map<Handle, Key>
    var closed: set<Handle>
    ghost var running: set<Handle>

    ghost function Abs(): Registry
      reads this
    {
      Registry(streams, keys, closed, running)
    }

    ghost predicate Valid()
      reads this
    {
      IsSound(Abs())
    }

    constructor ()
      ensures Valid() && Abs() == NO_STREAMS
    {
      streams := map[];
      keys := map[];
      closed := {};
      running := {};
      new;
      AlwaysSound([]);
    }

    /** Looks for the user's old stream, drops and closes it, and appends the new one. */
    method Add(ss: Handle, chat: ChatId, user: UserId)
      requires Valid() && ss !in keys
      modifies this
      ensures Valid()
      ensures Abs() == Register(old(Abs()), ss, chat, user)
      ensures TakesPlace(old(Abs()), Abs(), ss, chat, user)
    {
      RegisterMeans(Abs(), ss, chat, user);
      RegisterStaysSound(Abs(), ss, chat, user);
      var chatStreams := if chat in streams then streams[chat] else [];
      assert ListIsSound(chat, Abs().List(chat), keys, running);
      var i := 0;
      while i < |chatStreams| && keys[chatStreams[i]].user != user
        invariant i <= |chatStreams|
        invariant forall j :: 0 <= j < i ==> keys[chatStreams[j]].user != user
      {
        i := i + 1;
      }
      if i < |chatStreams| {
        RegisterReplaces(Abs(), ss, chat, user, i);
        var existing := chatStreams[i];
        chatStreams := chatStreams[..i] + chatStreams[i + 1..];
        closed := closed + {existing};
      } else {
        RegisterAppends(Abs(), ss, chat, user);
      }
      keys := keys[ss := Key(chat, user)];
      chatStreams := chatStreams + [ss];
      streams := streams[chat := chatStreams];
      running := running + {ss};
    }

    method Close(ss: Handle)
      requires Valid() && ss in keys
      modifies this`closed
      ensures Valid()
      ensures Abs() == CloseStream(old(Abs()), ss)
    {
      CloseStaysSound(Abs(), ss);
      closed := closed + {ss};
    }

    /** The deferred cleanup: removes this very stream, if it is still listed. */
    method Remove(ss: Handle, chat: ChatId)
      requires Valid() && ss in running && keys[ss].chat == chat
      modifies this
      ensures Valid()
      ensures Abs().List(chat) == CleanUp(old(Abs()), ss).List(chat)
      ensures forall c :: c != chat ==> Abs().List(c) == old(Abs()).List(c)
      ensures keys == old(keys) && closed == old(closed) && running == old(running) - {ss}
    {
      CleanUpStaysSound(Abs(), ss);
      ghost var after := CleanUp(Abs(), ss);
      var current := if chat in streams then streams[chat] else [];
      assert ListIsSound(chat, Abs().List(chat), keys, running);
      var i := 0;
      while i < |current| && current[i] != ss
        invariant i <= |current|
        invariant forall j :: 0 <= j < i ==> current[j] != ss
      {
        i := i + 1;
      }
      if i < |current| {
        WithoutSkips(current, i);
        streams := streams[chat := current[..i] + current[i + 1..]];
      } else {
        WithoutKeeps(current, ss);
      }
      running := running - {ss};
      assert forall c :: Abs().List(c) == after.List(c);
      SameListsAreSound(after, Abs());
    }
  }

  lemma {:induction false} OfOthersKeeps(list: seq<Handle>, keys: map<Handle, Key>, user: UserId)
    requires forall i :: 0 <= i < |list| ==> list[i] in keys && keys[list[i]].user != user
    ensures OfOthers(list, keys, user) == list
  {
    if list != [] {
      OfOthersKeeps(list[..|list| - 1], keys, user);
    }
  }

  lemma {:induction false} OfOthersSkips(list: seq<Handle>, keys: map<Handle, Key>, user: UserId, i: nat)
    requires i < |list|
    requires forall j :: 0 <= j < |list| ==> list[j] in keys && (keys[list[j]].user == user <==> j == i)
    ensures OfOthers(list, keys, user) == list[..i] + list[i + 1..]
  {
    var front, last := list[..|list| - 1], list[|list| - 1];
    if i == |list| - 1 {
      OfOthersKeeps(front, keys, user);
    } else {
      OfOthersSkips(front, keys, user, i);
      assert list[i + 1..] == front[i + 1..] + [last];
    }
  }

  lemma {:induction false} WithoutKeeps(list: seq<Handle>, h: Handle)
    requires h !in list
    ensures Without(list, h) == list
  {
    if list != [] {
      WithoutKeeps(list[..|list| - 1], h);
    }
  }

  lemma {:induction false} WithoutSkips(list: seq<Handle>, i: nat)
    requires i < |list|
    requires forall j :: 0 <= j < |list| && j != i ==> list[j] != list[i]
    ensures Without(list, list[i]) == list[..i] + list[i + 1..]
  {
    var front, last := list[..|list| - 1], list[|list| - 1];
    if i == |list| - 1 {
      WithoutKeeps(front, last);
    } else {
      WithoutSkips(front, i);
      assert list[i + 1..] == front[i + 1..] + [last];
    }
  }

  /** One stream per user, in terms of the registry: each user is a chat of their own. */
  function TableOf(streams: map<UserId, Handle>, users: map<Handle, UserId>, closed: set<Handle>,
                   running: set<Handle>): Registry
  {
    Registry(map user | user in streams :: [streams[user]], map h | h in users :: Key(users[h], users[h]), closed,
             running)
  }

  lemma RegisteredInTable(streams: map<UserId, Handle>, users: map<Handle, UserId>, closed: set<Handle>,
                          running: set<Handle>, ss: Handle, user: UserId)
    requires IsSound(TableOf(streams, users, closed, running)) && ss !in users
    ensures Register(TableOf(streams, users, closed, running), ss, user, user) ==
            TableOf(streams[user := ss], users[ss := user],
                    if user in streams then closed + {streams[user]} else closed, running + {ss})
  {
    var r := TableOf(streams, users, closed, running);
    var after := TableOf(streams[user := ss], users[ss := user],
                         if user in streams then closed + {streams[user]} else closed, running + {ss});
    OnlyOneIsReplaced(r, user);
    assert [] + [ss] == [ss];
    assert r.streams[user := [ss]] == after.streams;
    assert r.keys[ss := Key(user, user)] == after.keys;
    assert (set g | g in r.List(user)) == if user in streams then {streams[user]} else {};
  }

  /** The chat server's table: one stream per user, whatever the chats. In terms of
      the registry, each user is a chat of their own. */
  class ChatStreams {
    var streams: map<UserId, Handle>
    var users: map<Handle, UserId>
    var closed: set<Handle>
    ghost var running: set<Handle>

    ghost function Abs(): Registry
      reads this
    {
      TableOf(streams, users, closed, running)
    }

    ghost predicate Valid()
      reads this
    {
      IsSound(Abs())
    }

    constructor ()
      ensures Valid() && Abs() == NO_STREAMS
    {
      streams := map[];
      users := map[];
      closed := {};
      running := {};
      new;
      assert Abs() == NO_STREAMS;
      AlwaysSound([]);
    }

    method Add(ss: Handle, user: UserId)
      requires Valid() && ss !in users
      modifies this
      ensures Valid()
      ensures Abs() == Register(old(Abs()), ss, user, user)
      ensures streams == old(streams)[user := ss] && users == old(users)[ss := user]
      ensures closed == old(closed) + if user in old(streams) then {old(streams)[user]} else {}
    {
      RegisterStaysSound(Abs(), ss, user, user);
      RegisteredInTable(streams, users, closed, running, ss, user);
      if user in streams {
        var existing := streams[user];
        streams := streams - {user};
        closed := closed + {existing};
      }
      streams := streams[user := ss];
      users := users[ss := user];
      running := running + {ss};
      assert streams == old(streams)[user := ss];
    }

    method Close(ss: Handle)
      requires Valid() && ss in users
      modifies this`closed
      ensures Valid()
      ensures Abs() == CloseStream(old(Abs()), ss)
    {
      CloseStaysSound(Abs(), ss);
      closed := closed + {ss};
    }

    method Remove(ss: Handle, user: UserId)
      requires Valid() && ss in running && ss in users && users[ss] == user
      modifies this
      ensures Valid()
      ensures forall u :: Abs().List(u) == CleanUp(old(Abs()), ss).List(u)
      ensures users == old(users) && closed == old(closed) && running == old(running) - {ss}
    {
      CleanUpStaysSound(Abs(), ss);
      ghost var before, after := Abs(), CleanUp(Abs(), ss);
      WithoutOne(before.List(user), ss);
      if user in streams && streams[user] == ss {
        streams := streams - {user};
      }
      running := running - {ss};
      assert forall u :: Abs().List(u) == after.List(u);
      SameListsAreSound(after, Abs());
    }
  }

  /** A user's own list holds at most their one stream, which a new one replaces. */
  lemma OnlyOneIsReplaced(r: Registry, user: UserId)
    requires IsSound(r) && |r.List(user)| <= 1
    requires forall h :: h in r.keys ==> r.keys[h].chat == r.keys[h].user
    ensures OfOthers(r.List(user), r.keys, user) == []
    ensures (set g | g in r.List(user) && g in r.keys && r.keys[g].user == user) == set g | g in r.List(user)
  {
    var list := r.List(user);
    assert ListIsSound(user, list, r.keys, r.running);
    if list != [] {
      assert list[0] in list && list[..0] == [];
    }
  }

  lemma WithoutOne(list: seq<Handle>, h: Handle)
    requires |list| <= 1
    ensures Without(list, h) == if list == [h] then [] else list
  {
    if |list| == 1 {
      assert list[..0] == [] && list == [list[0]];
    }
  }
}
