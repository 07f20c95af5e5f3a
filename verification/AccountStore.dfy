/** The in-memory account store. */
module AccountStore {
  import opened Ids
  import opened AccountBook

  datatype Result<+T> = Ok(value: T) | NotFound

  class Memory {
    var users: map<UserId, seq<PubKey>>
    var keys: map<PubKey, UserId>
    var nextAirdrop: map<UserId, int>
    var airdropEligibility: map<UserId, int>
    var registeredUsers: set<UserId>

    ghost function Abs(): Book
      reads this
    {
      Book(users, keys, nextAirdrop, airdropEligibility, registeredUsers)
    }

    ghost predicate Valid()
      reads this
    {
      Consistent(Abs())
    }

    constructor ()
      ensures Valid() && Abs() == NO_ACCOUNTS
    {
      users := map[];
      keys := map[];
      nextAirdrop := map[];
      airdropEligibility := map[];
      registeredUsers := {};
    }

    method Bind(user: UserId, key: PubKey, now: int) returns (bound: UserId)
      requires Valid()
      modifies this
      ensures Valid()
      ensures Abs() == BindKey(old(Abs()), user, key, now)
      ensures key in keys && bound == keys[key]
      ensures key in old(keys) ==> unchanged(this)
      ensures key !in old(keys) ==>
                && users == old(users)[user := KeysOf(old(users), user) + [key]]
                && keys == old(keys)[key := user]
                && nextAirdrop == old(nextAirdrop)[user := now]
                && airdropEligibility == old(airdropEligibility)[user := now]
                && registeredUsers == old(registeredUsers)
    {
      BindKeepsConsistent(Abs(), user, key, now);
      if key in keys {
        return keys[key];
      }
      var list := if user in users then users[user] else [];
      list := list + [key];
      users := users[user := list];
      keys := keys[key := user];
      nextAirdrop := nextAirdrop[user := now];
      airdropEligibility := airdropEligibility[user := now];
      return user;
    }

    method GetUserId(key: PubKey) returns (r: Result<UserId>)
      requires Valid()
      ensures r.Ok? ==> Occurrences(KeysOf(users, r.value), key) == 1
      ensures r == if key in keys then Ok(keys[key]) else NotFound
    {
      if key !in keys {
        return NotFound;
      }
      assert Occurrences(KeysOf(users, keys[key]), key) == 1;
      return Ok(keys[key]);
    }

    method GetPubKeys(user: UserId) returns (result: seq<PubKey>)
      requires Valid()
      ensures result == KeysOf(users, user)
      ensures forall key :: key in result <==> key in keys && keys[key] == user
    {
      var list := if user in users then users[user] else [];
      result := [];
      for i := 0 to |list|
        invariant result == list[..i]
      {
        result := result + [list[i]];
      }
      assert list[..|list|] == list;
      forall key ensures key in result <==> key in keys && keys[key] == user {
        assert Occurrences(KeysOf(users, user), key) == if key in keys && keys[key] == user then 1 else 0;
        assert key in result <==> key in multiset(result);
      }
    }

    method RemoveKey(user: UserId, key: PubKey)
      requires Valid()
      modifies this
      ensures Valid()
      ensures Abs() == DropKey(old(Abs()), user, key)
      ensures keys == if key in old(keys) && old(keys)[key] == user then old(keys) - {key} else old(keys)
      ensures forall u :: u != user ==> KeysOf(users, u) == KeysOf(old(users), u)
      ensures nextAirdrop == old(nextAirdrop) && airdropEligibility == old(airdropEligibility)
              && registeredUsers == old(registeredUsers)
    {
      RemoveKeepsConsistent(Abs(), user, key);
      if key !in keys || keys[key] != user {
        return;
      }
      keys := keys - {key};
      var list := if user in users then users[user] else [];
      list := Without(list, key);
      users := users[user := list];
    }

    /** Scanning the user's list decides the same as looking the key up. */
    method IsAuthorized(user: UserId, key: PubKey) returns (authorized: bool)
      requires Valid()
      ensures authorized <==> key in keys && keys[key] == user
    {
      assert Occurrences(KeysOf(users, user), key) == if key in keys && keys[key] == user then 1 else 0;
      if user !in users {
        return false;
      }
      var list := users[user];
      for i := 0 to |list|
        invariant key !in list[..i]
      {
        if list[i] == key {
          assert key in multiset(list);
          return true;
        }
        assert list[..i + 1] == list[..i] + [list[i]];
      }
      assert list[..|list|] == list;
      assert key !in multiset(list);
      return false;
    }

    method IsStaff(user: UserId) returns (isStaff: bool)
      ensures !isStaff
    {
      return false;
    }

    method IsRegistered(user: UserId) returns (isRegistered: bool)
      ensures isRegistered == (user in registeredUsers)
    {
      return user in registeredUsers;
    }

    method SetRegistrationFlag(user: UserId, isRegistered: bool) returns (r: Result<()>)
      requires Valid()
      modifies this`registeredUsers
      ensures Valid()
      ensures r == if user in users then Ok(()) else NotFound
      ensures registeredUsers ==
              if user !in users then old(registeredUsers)
              else if isRegistered then old(registeredUsers) + {user}
              else old(registeredUsers) - {user}
    {
      if user !in users {
        return NotFound;
      }
      if isRegistered {
        registeredUsers := registeredUsers + {user};
      } else {
        registeredUsers := registeredUsers - {user};
      }
      return Ok(());
    }

    method BatchSetNextAirdropTimestamp(ts: int, userIDs: seq<UserId>)
      requires Valid()
      modifies this`nextAirdrop
      ensures Valid()
      ensures Abs() == SetNextAirdrop(old(Abs()), ts, set user | user in userIDs)
      ensures nextAirdrop.Keys == old(nextAirdrop).Keys
      ensures forall user :: user in nextAirdrop ==>
                nextAirdrop[user] == if user in userIDs then ts else old(nextAirdrop)[user]
    {
      for i := 0 to |userIDs|
        invariant Valid()
        invariant Abs() == SetNextAirdrop(old(Abs()), ts, set user | user in userIDs[..i])
      {
        assert userIDs[..i + 1] == userIDs[..i] + [userIDs[i]];
        if userIDs[i] !in users {
          continue;
        }
        nextAirdrop := nextAirdrop[userIDs[i] := ts];
      }
      assert userIDs[..|userIDs|] == userIDs;
    }

    method ExtendAirdropEligibility(user: UserId, until: int) returns (r: Result<()>)
      requires Valid()
      modifies this`airdropEligibility
      ensures Valid()
      ensures r == if user in users then Ok(()) else NotFound
      ensures airdropEligibility == if user in users then old(airdropEligibility)[user := until]
              else old(airdropEligibility)
    {
      if user !in users {
        return NotFound;
      }
      airdropEligibility := airdropEligibility[user := until];
      return Ok(());
    }

    /** Each due user once, in no particular order; having none is an error. */
    method GetUsersToAirdrop(at: int) returns (r: Result<seq<UserId>>)
      requires Valid()
      ensures r.NotFound? <==> forall user :: user in registeredUsers ==>
                nextAirdrop[user] >= at || airdropEligibility[user] <= at
      ensures r.Ok? ==>
                && (forall i, j :: 0 <= i < j < |r.value| ==> r.value[i] != r.value[j])
                && (forall user :: user in r.value <==>
                      user in registeredUsers && nextAirdrop[user] < at < airdropEligibility[user])
    {
      var res: seq<UserId> := [];
      var rest := registeredUsers;
      while rest != {}
        invariant rest <= registeredUsers
        invariant forall i, j :: 0 <= i < j < |res| ==> res[i] != res[j]
        invariant forall user :: user in res <==> user in registeredUsers - rest && IsDue(Abs(), user, at)
        decreases |rest|
      {
        var user :| user in rest;
        rest := rest - {user};
        if nextAirdrop[user] < at && airdropEligibility[user] > at {
          assert user !in res;
          res := res + [user];
        }
      }
      if |res| == 0 {
        return NotFound;
      }
      assert res[0] in res;
      return Ok(res);
    }
  }
}
