/** The cache in front of the account store, which never forgets. */
module AccountCache {
  import opened Ids
  import opened AccountBook
  import opened AccountStore

  class Cache {
    const db: Memory
    var pubkeyToUserCache: map<PubKey, UserId>
    var registeredUserCache: set<UserId>
    var staffFlagCache: map<UserId, bool>

    constructor (db: Memory)
      requires db.Valid()
      ensures this.db == db && Coherent()
      ensures pubkeyToUserCache == map[] && registeredUserCache == {} && staffFlagCache == map[]
    {
      this.db := db;
      pubkeyToUserCache := map[];
      registeredUserCache := {};
      staffFlagCache := map[];
    }

    /** Everything cached is what the store would answer. */
    ghost predicate Coherent()
      reads this, db
    {
      && db.Valid()
      && (forall key :: key in pubkeyToUserCache ==> key in db.keys && db.keys[key] == pubkeyToUserCache[key])
      && registeredUserCache <= db.registeredUsers
      && (forall user :: user in staffFlagCache ==> !staffFlagCache[user])
    }

    method Bind(user: UserId, key: PubKey, now: int) returns (bound: UserId)
      requires Coherent()
      modifies db
      ensures Coherent()
      ensures db.Abs() == BindKey(old(db.Abs()), user, key, now)
      ensures key in db.keys && bound == db.keys[key]
    {
      bound := db.Bind(user, key, now);
    }

    method GetUserId(key: PubKey) returns (r: Result<UserId>)
      requires Coherent()
      modifies this
      ensures Coherent()
      ensures r == if key in db.keys then Ok(db.keys[key]) else NotFound
      ensures pubkeyToUserCache ==
              if key in db.keys then old(pubkeyToUserCache)[key := db.keys[key]] else old(pubkeyToUserCache)
      ensures registeredUserCache == old(registeredUserCache) && staffFlagCache == old(staffFlagCache)
    {
      if key in pubkeyToUserCache {
        return Ok(pubkeyToUserCache[key]);
      }
      r := db.GetUserId(key);
      if r.Ok? {
        pubkeyToUserCache := pubkeyToUserCache[key := r.value];
      }
    }

    /** Disabled, because entries are cached for ever. */
    method RemoveKey(user: UserId, key: PubKey) returns (removed: bool)
      ensures !removed
    {
      return false;
    }

    /** Agrees with the store's own answer, except that an unbound key is an
        error here and a plain "no" there. */
    method IsAuthorized(user: UserId, key: PubKey) returns (r: Result<bool>)
      requires Coherent()
      modifies this
      ensures Coherent()
      ensures r.NotFound? <==> key !in db.keys
      ensures r.Ok? ==> (r.value <==> key in db.keys && db.keys[key] == user)
      ensures pubkeyToUserCache ==
              if key in db.keys then old(pubkeyToUserCache)[key := db.keys[key]] else old(pubkeyToUserCache)
    {
      var linked := GetUserId(key);
      if linked.NotFound? {
        return NotFound;
      }
      return Ok(linked.value == user);
    }

    method IsStaff(user: UserId) returns (isStaff: bool)
      requires Coherent()
      modifies this
      ensures Coherent()
      ensures !isStaff
      ensures staffFlagCache == old(staffFlagCache)[user := false]
      ensures pubkeyToUserCache == old(pubkeyToUserCache) && registeredUserCache == old(registeredUserCache)
    {
      if user in staffFlagCache {
        return staffFlagCache[user];
      }
      isStaff := db.IsStaff(user);
      staffFlagCache := staffFlagCache[user := isStaff];
    }

    /** Only positive answers are cached. */
    method IsRegistered(user: UserId) returns (isRegistered: bool)
      requires Coherent()
      modifies this
      ensures Coherent()
      ensures isRegistered == (user in db.registeredUsers)
      ensures registeredUserCache == old(registeredUserCache) + if isRegistered then {user} else {}
      ensures pubkeyToUserCache == old(pubkeyToUserCache) && staffFlagCache == old(staffFlagCache)
    {
      if user in registeredUserCache {
        return true;
      }
      isRegistered := db.IsRegistered(user);
      if isRegistered {
        registeredUserCache := registeredUserCache + {user};
      }
    }

    /** Turning a flag off goes unnoticed exactly when the user's registration is cached. */
    method SetRegistrationFlag(user: UserId, isRegistered: bool) returns (r: Result<()>)
      requires Coherent()
      modifies db`registeredUsers
      ensures r == if user in db.users then Ok(()) else NotFound
      ensures db.registeredUsers ==
              if user !in db.users then old(db.registeredUsers)
              else if isRegistered then old(db.registeredUsers) + {user}
              else old(db.registeredUsers) - {user}
      ensures Coherent() <==> isRegistered || user !in registeredUserCache
    {
      r := db.SetRegistrationFlag(user, isRegistered);
    }
  }
}
