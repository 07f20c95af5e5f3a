/** Accounts as plain values: keys, registration and airdrop timestamps. */
module AccountBook {
  import opened Ids

  type PubKey = seq<Byte>

  datatype Book = Book(
    users: map<UserId, seq<PubKey>>,
    keys: map<PubKey, UserId>,
    nextAirdrop: map<UserId, int>,
    eligibleUntil: map<UserId, int>,
    registered: set<UserId>)

  const NO_ACCOUNTS := Book(map[], map[], map[], map[], {})

  function KeysOf(users: map<UserId, seq<PubKey>>, user: UserId): seq<PubKey>
  {
    if user in users then users[user] else []
  }

  function Occurrences(list: seq<PubKey>, key: PubKey): nat
  {
    multiset(list)[key]
  }

  /** A key belongs to a user exactly when it occurs, once, in the user's list. */
  ghost predicate KeysMatch(users: map<UserId, seq<PubKey>>, keys: map<PubKey, UserId>)
  {
    forall user, key :: Occurrences(KeysOf(users, user), key) == if key in keys && keys[key] == user then 1 else 0
  }

  ghost predicate Consistent(a: Book)
  {
    && KeysMatch(a.users, a.keys)
    && a.nextAirdrop.Keys == a.users.Keys
    && a.eligibleUntil.Keys == a.users.Keys
    && a.registered <= a.users.Keys
  }

  /** A key that is bound stays with its user; a new key is added to the user's
      list, and the user's airdrop timestamps start again. */
  function BindKey(a: Book, user: UserId, key: PubKey, now: int): Book
  {
    if key in a.keys then a
    else a.(users := a.users[user := KeysOf(a.users, user) + [key]],
            keys := a.keys[key := user],
            nextAirdrop := a.nextAirdrop[user := now],
            eligibleUntil := a.eligibleUntil[user := now])
  }

  function Without(list: seq<PubKey>, key: PubKey): seq<PubKey>
  {
    if list == [] then []
    else if list[0] == key then Without(list[1..], key)
    else [list[0]] + Without(list[1..], key)
  }

  function DropKey(a: Book, user: UserId, key: PubKey): Book
  {
    if key !in a.keys || a.keys[key] != user then a
    else a.(users := a.users[user := Without(KeysOf(a.users, user), key)], keys := a.keys - {key})
  }

  /** Unknown users are skipped. */
  function SetNextAirdrop(a: Book, ts: int, users: set<UserId>): Book
  {
    a.(nextAirdrop := map user | user in a.nextAirdrop :: if user in users then ts else a.nextAirdrop[user])
  }

  /** Registered, due, and still eligible. */
  predicate IsDue(a: Book, user: UserId, at: int)
  {
    && user in a.registered
    && user in a.nextAirdrop && a.nextAirdrop[user] < at
    && user in a.eligibleUntil && at < a.eligibleUntil[user]
  }

  lemma BindKeepsConsistent(a: Book, user: UserId, key: PubKey, now: int)
    requires Consistent(a)
    ensures Consistent(BindKey(a, user, key, now))
  {
    var b := BindKey(a, user, key, now);
    if key !in a.keys {
      forall u, k ensures Occurrences(KeysOf(b.users, u), k) == if k in b.keys && b.keys[k] == u then 1 else 0 {
        assert Occurrences(KeysOf(a.users, u), k) == if k in a.keys && a.keys[k] == u then 1 else 0;
        assert KeysOf(b.users, u) == if u == user then KeysOf(a.users, u) + [key] else KeysOf(a.users, u);
      }
    }
  }

  lemma {:induction false} WithoutAll(list: seq<PubKey>, key: PubKey)
    ensures multiset(Without(list, key)) == multiset(list)[key := 0]
  {
    if list != [] {
      assert list == [list[0]] + list[1..];
      WithoutAll(list[1..], key);
    }
  }

  lemma DropMatches(users: map<UserId, seq<PubKey>>, keys: map<PubKey, UserId>, user: UserId, key: PubKey,
                    rest: seq<PubKey>)
    requires KeysMatch(users, keys) && key in keys && keys[key] == user
    requires multiset(rest) == multiset(KeysOf(users, user))[key := 0]
    ensures KeysMatch(users[user := rest], keys - {key})
  {
    var after, left := users[user := rest], keys - {key};
    forall u, k ensures Occurrences(KeysOf(after, u), k) == if k in left && left[k] == u then 1 else 0 {
      assert Occurrences(KeysOf(users, u), k) == if k in keys && keys[k] == u then 1 else 0;
    }
  }

  lemma RemoveKeepsConsistent(a: Book, user: UserId, key: PubKey)
    requires Consistent(a)
    ensures Consistent(DropKey(a, user, key))
  {
    if key in a.keys && a.keys[key] == user {
      WithoutAll(KeysOf(a.users, user), key);
      DropMatches(a.users, a.keys, user, key, Without(KeysOf(a.users, user), key));
      assert Occurrences(KeysOf(a.users, user), key) == 1;
      assert user in a.users;
    }
  }

  /** A key that was bound and then removed leaves the user's list as it was. */
  lemma BindThenRemove(a: Book, user: UserId, key: PubKey, now: int, u: UserId)
    requires Consistent(a) && key !in a.keys
    ensures var b := DropKey(BindKey(a, user, key, now), user, key);
            b.keys == a.keys && KeysOf(b.users, u) == KeysOf(a.users, u)
  {
    var list := KeysOf(a.users, user);
    assert Occurrences(list, key) == 0;
    WithoutAppended(list, key);
    DropAfterBind(a, user, key, now, u, Without(list + [key], key));
  }

  lemma DropAfterBind(a: Book, user: UserId, key: PubKey, now: int, u: UserId, rest: seq<PubKey>)
    requires key !in a.keys && rest == Without(KeysOf(a.users, user) + [key], key)
    ensures var b := DropKey(BindKey(a, user, key, now), user, key);
            b.keys == a.keys && KeysOf(b.users, u) == if u == user then rest else KeysOf(a.users, u)
  {
    assert a.keys[key := user] - {key} == a.keys;
  }

  lemma {:induction false} WithoutAppended(list: seq<PubKey>, key: PubKey)
    requires Occurrences(list, key) == 0
    ensures Without(list + [key], key) == list
  {
    if list != [] {
      assert list == [list[0]] + list[1..];
      assert (list + [key])[1..] == list[1..] + [key];
      WithoutAppended(list[1..], key);
    }
  }
}
