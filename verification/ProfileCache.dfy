/** The cache in front of the profile store: filled by reads, "not found" included;
    cleared of the writing user by writes; entries expire at any time. */
module ProfileCache {
  import opened Ids
  import opened ProfileStore

  /** None caches that the user has no profile. */
  datatype State = State(db: Profiles, cache: map<UserId, Option<UserProfile>>)

  datatype Step =
    | Read(user: UserId)
    | Update(write: Write)
    | Expire(user: UserId)

  function Entry(r: Result<UserProfile>): Option<UserProfile>
  {
    if r.Ok? then Some(r.value) else None
  }

  function Answer(c: State, user: UserId): Result<UserProfile>
  {
    if user !in c.cache then LookUp(c.db, user)
    else if c.cache[user].None? then NotFound
    else Ok(c.cache[user].value)
  }

  function Next(c: State, step: Step): State
  {
    match step
    case Read(user) => if user in c.cache then c else c.(cache := c.cache[user := Entry(LookUp(c.db, user))])
    case Update(w) =>
      if Written(c.db, w).Ok? then State(Written(c.db, w).value, c.cache - {w.user}) else c
    case Expire(user) => c.(cache := c.cache - {user})
  }

  function Run(steps: seq<Step>): State
  {
    if steps == [] then State(NO_PROFILES, map[]) else Next(Run(steps[..|steps| - 1]), steps[|steps| - 1])
  }

  /** The step takes an X account from the user while their profile is cached. */
  predicate Displaces(c: State, step: Step, user: UserId)
  {
    && step.Update? && step.write.LinkXAccount?
    && step.write.user != user && step.write.user !in c.db.links
    && IsLinked(c.db.links, user, step.write.x.id)
    && user in c.cache && c.cache[user].Some?
  }

  /** The step drops whatever is cached for the user. */
  predicate Clears(c: State, step: Step, user: UserId)
  {
    match step
    case Read(_) => false
    case Update(w) => w.user == user && Written(c.db, w).Ok?
    case Expire(u) => u == user
  }

  /** An X account was taken from the user while their profile was cached, and
      nothing has dropped the entry since. */
  predicate WasDisplaced(steps: seq<Step>, user: UserId)
  {
    steps != [] &&
    var c, step := Run(steps[..|steps| - 1]), steps[|steps| - 1];
    Displaces(c, step, user) || (WasDisplaced(steps[..|steps| - 1], user) && !Clears(c, step, user))
  }

  /** What one cached entry shows: the right profile, or, once displaced, the
      right profile but for an X account the user no longer has. */
  ghost predicate EntryShows(c: State, user: UserId, displaced: bool)
  {
    user in c.cache ==>
      if displaced then
        && c.cache[user].Some? && |c.cache[user].value.socialProfiles| == 1
        && user !in c.db.links && user in c.db.names && c.cache[user].value.displayName == c.db.names[user]
      else c.cache[user] == Entry(LookUp(c.db, user))
  }

  lemma StepShows(c: State, step: Step, user: UserId, displaced: bool)
    requires EntryShows(c, user, displaced) && (displaced ==> user in c.cache)
    ensures var after := Displaces(c, step, user) || (displaced && !Clears(c, step, user));
            EntryShows(Next(c, step), user, after) && (after ==> user in Next(c, step).cache)
  {
  }

  lemma {:induction false} RunShows(steps: seq<Step>, user: UserId)
    ensures EntryShows(Run(steps), user, WasDisplaced(steps, user))
    ensures WasDisplaced(steps, user) ==> user in Run(steps).cache
  {
    if steps != [] {
      RunShows(steps[..|steps| - 1], user);
      StepShows(Run(steps[..|steps| - 1]), steps[|steps| - 1], user, WasDisplaced(steps[..|steps| - 1], user));
    }
  }

  /** Over every run, display names and "not found" are always the store's. */
  lemma {:induction false} NamesAreNeverStale(steps: seq<Step>, user: UserId)
    ensures var c := Run(steps);
            && (Answer(c, user).NotFound? <==> user !in c.db.names)
            && (user in c.db.names ==> Answer(c, user).Ok? && Answer(c, user).value.displayName == c.db.names[user])
  {
    RunShows(steps, user);
  }

  /** Over every run, a whole answer differs from the store's exactly when the
      user's X account was taken while their profile was cached, until they write
      or the entry expires. */
  lemma StaleExactlyWhenDisplaced(steps: seq<Step>, user: UserId)
    ensures Answer(Run(steps), user) != LookUp(Run(steps).db, user) <==> WasDisplaced(steps, user)
  {
    RunShows(steps, user);
  }

  /** A link that is refreshed, or made by a user whose X account nobody else has,
      moves no account between users. */
  predicate MovesNothing(steps: seq<Step>)
  {
    forall i :: 0 <= i < |steps| ==> !MovesAccount(Run(steps[..i]), steps[i])
  }

  predicate MovesAccount(c: State, step: Step)
  {
    && step.Update? && step.write.LinkXAccount? && step.write.user !in c.db.links
    && exists u :: u in c.db.links && c.db.links[u].id == step.write.x.id
  }

  /** While no account moves between users, every answer is the store's. */
  lemma {:induction false} FreshUntilAnAccountMoves(steps: seq<Step>, user: UserId)
    requires MovesNothing(steps)
    ensures Answer(Run(steps), user) == LookUp(Run(steps).db, user)
  {
    NotDisplaced(steps, user);
    StaleExactlyWhenDisplaced(steps, user);
  }

  lemma {:induction false} NotDisplaced(steps: seq<Step>, user: UserId)
    requires MovesNothing(steps)
    ensures !WasDisplaced(steps, user)
  {
    if steps != [] {
      var front := steps[..|steps| - 1];
      forall i | 0 <= i < |front| ensures !MovesAccount(Run(front[..i]), front[i]) {
        assert front[..i] == steps[..i];
      }
      NotDisplaced(front, user);
      assert !MovesAccount(Run(front), steps[|steps| - 1]);
    }
  }

  /** Staleness happens: the first user's profile is read, the second user links
      the first user's X account, and the first user is still shown with it. */
  lemma StaleAnswerExists(u: UserId, v: UserId, name: string, x: XProfile)
    requires u != v
    ensures var steps := [Update(SetDisplayName(u, name)), Update(LinkXAccount(u, x)), Read(u),
                          Update(LinkXAccount(v, x))];
            && Answer(Run(steps), u) == Ok(UserProfile(name, [x]))
            && LookUp(Run(steps).db, u) == Ok(UserProfile(name, []))
  {
    var s1 := [Update(SetDisplayName(u, name))];
    var s2 := s1 + [Update(LinkXAccount(u, x))];
    var s3 := s2 + [Read(u)];
    var s4 := s3 + [Update(LinkXAccount(v, x))];
    assert s4[..3] == s3 && s3[..2] == s2 && s2[..1] == s1 && s1[..0] == [];
    assert s4 == [Update(SetDisplayName(u, name)), Update(LinkXAccount(u, x)), Read(u), Update(LinkXAccount(v, x))];
    var named := map[u := name];
    assert Run(s1) == State(Profiles(named, map[]), map[]);
    assert NotLinkedTo(map[], x.id)[u := x] == map[u := x];
    assert Run(s2) == State(Profiles(named, map[u := x]), map[]);
    assert Run(s3) == State(Profiles(named, map[u := x]), map[u := Some(UserProfile(name, [x]))]);
    assert u !in Run(s4).db.links;
  }

  class Cache {
    const db: Memory
    var cache: map<UserId, Option<UserProfile>>

    ghost function Abs(): State
      reads this, db
    {
      State(db.Abs(), cache)
    }

    constructor (db: Memory)
      ensures this.db == db && cache == map[]
    {
      this.db := db;
      cache := map[];
    }

    method GetProfile(user: UserId) returns (r: Result<UserProfile>)
      modifies this
      ensures r == old(Answer(Abs(), user))
      ensures Abs() == Next(old(Abs()), Read(user))
      ensures user in old(cache) ==> cache == old(cache)
      ensures user !in old(cache) && user !in db.profiles ==> cache == old(cache)[user := None]
      ensures user !in old(cache) && user in db.profiles ==>
                cache == old(cache)[user := Some(UserProfile(db.profiles[user],
                  if user in db.xProfilesByUser then [db.xProfilesByUser[user]] else []))]
    {
      if user !in cache {
        var fromDB := db.GetProfile(user);
        if fromDB == NotFound {
          cache := cache[user := None];
          return NotFound;
        }
        cache := cache[user := Some(fromDB.value)];
        return fromDB;
      }
      if cache[user].None? {
        return NotFound;
      }
      return Ok(cache[user].value);
    }

    method SetDisplayName(user: UserId, displayName: string) returns (r: Result<()>)
      requires db.Valid()
      modifies this, db
      ensures db.Valid() && r.Ok?
      ensures Abs() == Next(old(Abs()), Update(Write.SetDisplayName(user, displayName)))
      ensures cache == old(cache) - {user}
    {
      r := db.SetDisplayName(user, displayName);
      if r.Ok? {
        cache := cache - {user};
      }
    }

    method LinkXAccount(user: UserId, x: XProfile) returns (r: Result<()>)
      requires db.Valid()
      modifies this, db
      ensures db.Valid()
      ensures Abs() == Next(old(Abs()), Update(Write.LinkXAccount(user, x)))
      ensures cache == if r.Ok? then old(cache) - {user} else old(cache)
      ensures r.Ok? <==> Written(old(db.Abs()), Write.LinkXAccount(user, x)).Ok?
    {
      r := db.LinkXAccount(user, x);
      if r.Ok? {
        cache := cache - {user};
      }
    }

    method UnlinkXAccount(user: UserId, xUserID: string) returns (r: Result<()>)
      requires db.Valid()
      modifies this, db
      ensures db.Valid()
      ensures Abs() == Next(old(Abs()), Update(Write.UnlinkXAccount(user, xUserID)))
      ensures cache == if r.Ok? then old(cache) - {user} else old(cache)
      ensures r.Ok? <==> Written(old(db.Abs()), Write.UnlinkXAccount(user, xUserID)).Ok?
    {
      r := db.UnlinkXAccount(user, xUserID);
      if r.Ok? {
        cache := cache - {user};
      }
    }
  }
}
