/** The weekly airdrop: which boundary comes next, who is paid, and that nobody
    is paid twice in one week. Times are nanoseconds since 1970. */
module Airdrop {
  import opened Ids
  import opened AccountBook

  const FREQUENCY: int := 7 * 24 * 3600 * 1_000_000_000
  const INAUGURAL_TS: int := 1_741_363_200 * 1_000_000_000

  /** The first airdrop time after `now`. */
  function NextBoundary(now: int): (ts: int)
    ensures ts > now
  {
    if now < INAUGURAL_TS then INAUGURAL_TS
    else INAUGURAL_TS + ((now - INAUGURAL_TS) / FREQUENCY + 1) * FREQUENCY
  }

  method GetNextAirdropTime(now: int) returns (ts: int)
    ensures ts == NextBoundary(now)
  {
    ts := INAUGURAL_TS;
    ghost var k := 0;
    while !(now < ts)
      invariant k >= 0 && ts == INAUGURAL_TS + k * FREQUENCY
      invariant k > 0 ==> ts - FREQUENCY <= now
      decreases now - ts
    {
      ts := ts + FREQUENCY;
      k := k + 1;
    }
    if k > 0 {
      QuotientIs(now - INAUGURAL_TS, k - 1);
    }
  }

  lemma QuotientIs(n: int, k: int)
    requires k * FREQUENCY <= n < (k + 1) * FREQUENCY
    ensures n / FREQUENCY == k
  {
  }

  /** It is a boundary, inaugural time plus whole weeks, and no boundary lies
      between `now` and it. */
  lemma NextBoundaryIsLeast(now: int, k: int)
    requires k >= 0 && now < 1_741_363_200_000_000_000 + k * 604_800_000_000_000
    ensures now < NextBoundary(now) <= 1_741_363_200_000_000_000 + k * 604_800_000_000_000
    ensures exists j :: j >= 0 && NextBoundary(now) == 1_741_363_200_000_000_000 + j * 604_800_000_000_000
  {
    if now < INAUGURAL_TS {
      assert NextBoundary(now) == INAUGURAL_TS + 0 * FREQUENCY;
    } else {
      var j := (now - INAUGURAL_TS) / FREQUENCY + 1;
      assert NextBoundary(now) == INAUGURAL_TS + j * FREQUENCY && j >= 0;
    }
  }

  lemma BoundariesAreMonotone(early: int, late: int)
    requires early <= late
    ensures NextBoundary(early) <= NextBoundary(late)
    ensures NextBoundary(early) <= late ==> NextBoundary(early) < NextBoundary(late)
  {
  }

  /** One payment of the weekly bonus to a user. */
  datatype Credit = Credit(user: UserId, at: int)

  /** Owners picked for an airdrop that has not been reported back yet. */
  datatype Batch = Batch(owners: set<PubKey>, at: int)

  datatype State = State(book: Book, now: int, batch: Option<Batch>, credits: seq<Credit>)

  datatype Action =
    | Bind(user: UserId, key: PubKey)
    | RemoveKey(user: UserId, key: PubKey)
    | Purchase(user: UserId)
    | ExtendEligibility(user: UserId, until: int)
    | GetOwners
    | OnSuccess(owners: seq<PubKey>)
    | GiveUp

  datatype Event = Event(action: Action, at: int)

  function Start(now: int): State
  {
    State(NO_ACCOUNTS, now, None, [])
  }

  /** Staff are paid before the launch; everybody with exactly one key after it. */
  predicate IsPicked(book: Book, staff: set<UserId>, user: UserId, now: int)
  {
    && IsDue(book, user, now)
    && (user in staff || now >= INAUGURAL_TS)
    && |KeysOf(book.users, user)| == 1
  }

  function PickedOwners(book: Book, staff: set<UserId>, now: int): set<PubKey>
  {
    set user | user in book.registered && IsPicked(book, staff, user, now) :: KeysOf(book.users, user)[0]
  }

  /** The users behind the paid owners, in the same order. */
  function PaidUsers(book: Book, owners: seq<PubKey>): (users: seq<UserId>)
    requires forall k :: k in owners ==> k in book.keys
    ensures |users| == |owners|
    ensures forall i :: 0 <= i < |owners| ==> users[i] == book.keys[owners[i]]
  {
    if owners == [] then [] else PaidUsers(book, owners[..|owners| - 1]) + [book.keys[owners[|owners| - 1]]]
  }

  function CreditsFor(users: seq<UserId>, at: int): (credits: seq<Credit>)
    ensures |credits| == |users|
    ensures forall i :: 0 <= i < |users| ==> credits[i] == Credit(users[i], at)
  {
    if users == [] then [] else CreditsFor(users[..|users| - 1], at) + [Credit(users[|users| - 1], at)]
  }

  predicate Distinct<T(==)>(list: seq<T>)
  {
    forall i, j :: 0 <= i < j < |list| ==> list[i] != list[j]
  }

  /** The clock does not go back, a batch is reported at most once and only
      after it was picked, and only one batch is out at a time. */
  predicate CanHappen(s: State, e: Event)
  {
    && e.at >= s.now
    && (e.action.GetOwners? ==> s.batch.None?)
    && (e.action.OnSuccess? ==>
          && s.batch.Some?
          && Distinct(e.action.owners)
          && forall k :: k in e.action.owners ==> k in s.batch.value.owners && k in s.book.keys)
  }

  function Next(s: State, staff: set<UserId>, e: Event): State
  {
    if !CanHappen(s, e) then s
    else
      var s := s.(now := e.at);
      match e.action
      case Bind(user, key) => s.(book := BindKey(s.book, user, key, e.at))
      case RemoveKey(user, key) => s.(book := DropKey(s.book, user, key))
      case Purchase(user) =>
        if user !in s.book.users then s
        else s.(book := SetNextAirdrop(s.book, NextBoundary(e.at), {user}).(registered := s.book.registered + {user}))
      case ExtendEligibility(user, until) =>
        if user !in s.book.users then s
        else s.(book := s.book.(eligibleUntil := s.book.eligibleUntil[user := until]))
      case GetOwners => s.(batch := Some(Batch(PickedOwners(s.book, staff, e.at), e.at)))
      case OnSuccess(owners) =>
        var users := PaidUsers(s.book, owners);
        s.(book := SetNextAirdrop(s.book, NextBoundary(e.at), set user | user in users),
           batch := None,
           credits := s.credits + CreditsFor(users, e.at))
      case GiveUp => s.(batch := None)
  }

  function Run(s: State, staff: set<UserId>, events: seq<Event>): State
  {
    if events == [] then s else Next(Run(s, staff, events[..|events| - 1]), staff, events[|events| - 1])
  }

  /** Nobody is credited twice between two boundaries. */
  predicate OncePerWeek(credits: seq<Credit>)
  {
    forall i, j :: 0 <= i < j < |credits| && credits[i].user == credits[j].user ==>
                     NextBoundary(credits[i].at) != NextBoundary(credits[j].at)
  }

  /** The user of this credit cannot be picked again before the boundary that
      follows it, if they have this many keys at this time. A user without keys
      could bind one at once, which makes them due at the next instant; a user who
      is not registered becomes due no sooner than that boundary by registering. */
  predicate IsSafe(book: Book, staff: set<UserId>, c: Credit, keys: int, now: int)
    requires c.user in book.nextAirdrop
  {
    || now >= NextBoundary(c.at)
    || (c.user !in staff && c.at < INAUGURAL_TS)
    || keys > 1
    || (keys == 1 && (c.user !in book.registered || book.nextAirdrop[c.user] + 1 >= NextBoundary(c.at)))
    || (keys == 0 && now + 1 >= NextBoundary(c.at))
  }

  ghost predicate CreditIsSound(book: Book, staff: set<UserId>, now: int, c: Credit)
  {
    && c.at <= now
    && c.user in book.nextAirdrop
    && IsSafe(book, staff, c, |KeysOf(book.users, c.user)|, now)
  }

  ghost predicate CreditsAreSound(s: State, staff: set<UserId>)
  {
    forall c :: c in s.credits ==> CreditIsSound(s.book, staff, s.now, c)
  }

  /** The picked owners still stand for different users, none paid this week. */
  ghost predicate IsClean(s: State, b: Batch)
  {
    && b.at <= s.now
    && b.owners <= s.book.keys.Keys
    && (forall k, l :: k in b.owners && l in b.owners && k != l ==> s.book.keys[k] != s.book.keys[l])
    && (forall k, c :: k in b.owners && c in s.credits && c.user == s.book.keys[k] ==> NextBoundary(c.at) <= b.at)
  }

  predicate AllCreditsPast(credits: seq<Credit>, now: int)
  {
    forall c :: c in credits ==> NextBoundary(c.at) <= now
  }

  /** There is a single picked owner, whoever it stands for, and nobody was paid this week. */
  ghost predicate IsLoose(s: State, b: Batch)
  {
    && (forall k, l :: k in b.owners && l in b.owners ==> k == l)
    && AllCreditsPast(s.credits, s.now)
  }

  ghost predicate BatchIsSound(s: State)
  {
    s.batch.Some? ==> IsClean(s, s.batch.value) || IsLoose(s, s.batch.value)
  }

  ghost predicate IsSound(s: State, staff: set<UserId>)
  {
    Consistent(s.book) && CreditsAreSound(s, staff) && BatchIsSound(s) && OncePerWeek(s.credits)
  }

  lemma KeysBelong(book: Book, user: UserId)
    requires Consistent(book) && KeysOf(book.users, user) != []
    ensures KeysOf(book.users, user)[0] in book.keys && book.keys[KeysOf(book.users, user)[0]] == user
  {
    var k := KeysOf(book.users, user)[0];
    assert k in multiset(KeysOf(book.users, user));
    assert Occurrences(KeysOf(book.users, user), k) == if k in book.keys && book.keys[k] == user then 1 else 0;
  }

  /** The user behind a bound key has a key. */
  lemma OwnerHasKeys(book: Book, key: PubKey)
    requires Consistent(book) && key in book.keys
    ensures book.keys[key] in book.users && KeysOf(book.users, book.keys[key]) != []
  {
    assert Occurrences(KeysOf(book.users, book.keys[key]), key) == 1;
    assert key in multiset(KeysOf(book.users, book.keys[key]));
  }

  lemma CreditStaysSound(book: Book, after: Book, staff: set<UserId>, now: int, later: int, c: Credit)
    requires CreditIsSound(book, staff, now, c) && now <= later
    requires c.user in after.nextAirdrop && KeysOf(after.users, c.user) == KeysOf(book.users, c.user)
    requires after.nextAirdrop[c.user] == book.nextAirdrop[c.user] || after.nextAirdrop[c.user] >= NextBoundary(later)
    requires c.user in after.registered ==>
               c.user in book.registered || after.nextAirdrop[c.user] >= NextBoundary(later)
    ensures CreditIsSound(after, staff, later, c)
  {
    BoundariesAreMonotone(c.at, later);
  }

  lemma {:induction false} BindStaysSound(s: State, staff: set<UserId>, e: Event)
    requires IsSound(s, staff) && CanHappen(s, e) && e.action.Bind?
    ensures IsSound(Next(s, staff, e), staff)
  {
    var t := Next(s, staff, e);
    BindKeepsConsistent(s.book, e.action.user, e.action.key, e.at);
    forall c | c in s.credits ensures CreditIsSound(t.book, staff, t.now, c) {
      assert CreditIsSound(s.book, staff, s.now, c);
    }
  }

  lemma {:induction false} PurchaseStaysSound(s: State, staff: set<UserId>, e: Event)
    requires IsSound(s, staff) && CanHappen(s, e)
             && (e.action.Purchase? || e.action.ExtendEligibility? || e.action.GiveUp?)
    ensures IsSound(Next(s, staff, e), staff)
  {
    var t := Next(s, staff, e);
    forall c | c in s.credits ensures CreditIsSound(t.book, staff, t.now, c) {
      assert CreditIsSound(s.book, staff, s.now, c);
      CreditStaysSound(s.book, t.book, staff, s.now, t.now, c);
    }
  }

  /** A user who is picked has no credit in the current week. */
  lemma {:induction false} PickedUserIsUnpaid(book: Book, staff: set<UserId>, now: int, later: int, c: Credit)
    requires CreditIsSound(book, staff, now, c) && later >= now
    requires IsPicked(book, staff, c.user, later)
    ensures NextBoundary(c.at) <= later
  {
  }

  lemma PickedOwner(book: Book, staff: set<UserId>, now: int, k: PubKey)
    requires Consistent(book) && k in PickedOwners(book, staff, now)
    ensures k in book.keys && IsPicked(book, staff, book.keys[k], now) && KeysOf(book.users, book.keys[k])[0] == k
  {
    var user :| user in book.registered && IsPicked(book, staff, user, now) && KeysOf(book.users, user)[0] == k;
    KeysBelong(book, user);
  }

  /** An owner is paid exactly if it is the only key of a registered user who is due and
      still eligible, and who is staff or it is after the launch. */
  lemma {:induction false} PickedExactly(book: Book, staff: set<UserId>, now: int, k: PubKey)
    requires Consistent(book)
    ensures k in PickedOwners(book, staff, now) <==>
              && k in book.keys
              && var user := book.keys[k];
                 && user in book.registered
                 && user in book.nextAirdrop && book.nextAirdrop[user] < now
                 && user in book.eligibleUntil && now < book.eligibleUntil[user]
                 && (user in staff || now >= 1_741_363_200 * 1_000_000_000)
                 && KeysOf(book.users, user) == [k]
  {
    if k in PickedOwners(book, staff, now) {
      PickedOwner(book, staff, now, k);
    } else if k in book.keys && KeysOf(book.users, book.keys[k]) == [k] {
      assert KeysOf(book.users, book.keys[k])[0] == k;
    }
  }

  lemma {:induction false} AllPickedExactly(book: Book, staff: set<UserId>, now: int)
    requires Consistent(book)
    ensures forall k :: k in PickedOwners(book, staff, now) <==>
              && k in book.keys
              && var user := book.keys[k];
                 && user in book.registered
                 && user in book.nextAirdrop && book.nextAirdrop[user] < now
                 && user in book.eligibleUntil && now < book.eligibleUntil[user]
                 && (user in staff || now >= 1_741_363_200 * 1_000_000_000)
                 && KeysOf(book.users, user) == [k]
  {
    forall k {
      PickedExactly(book, staff, now, k);
    }
  }

  /** A purchase registers a known user and schedules their first airdrop for the next
      boundary; nobody else is affected. */
  lemma {:induction false} PurchaseSchedules(s: State, staff: set<UserId>, user: UserId, at: int)
    requires Consistent(s.book) && at >= s.now && user in s.book.users
    ensures var book := Next(s, staff, Event(Purchase(user), at)).book;
            && book.registered == s.book.registered + {user}
            && book.nextAirdrop == s.book.nextAirdrop[user := NextBoundary(at)]
            && book.eligibleUntil == s.book.eligibleUntil && book.users == s.book.users && book.keys == s.book.keys
  {
  }

  /** A report credits the user behind each owner once, at its time, and moves them to the
      next boundary; nobody else is affected. */
  lemma {:induction false} ReportPays(s: State, staff: set<UserId>, owners: seq<PubKey>, at: int)
    requires CanHappen(s, Event(OnSuccess(owners), at))
    ensures var t := Next(s, staff, Event(OnSuccess(owners), at));
            && |t.credits| == |s.credits| + |owners| && t.credits[..|s.credits|] == s.credits
            && (forall i :: 0 <= i < |owners| ==> t.credits[|s.credits| + i] == Credit(s.book.keys[owners[i]], at))
            && t.book.nextAirdrop.Keys == s.book.nextAirdrop.Keys
            && (forall user :: user in t.book.nextAirdrop ==>
                  if exists k :: k in owners && s.book.keys[k] == user then t.book.nextAirdrop[user] == NextBoundary(at)
                  else t.book.nextAirdrop[user] == s.book.nextAirdrop[user])
  {
    var users := PaidUsers(s.book, owners);
    forall user ensures user in users <==> exists k :: k in owners && s.book.keys[k] == user {
      if user in users {
        var i :| 0 <= i < |users| && users[i] == user;
        assert owners[i] in owners;
      }
      if k :| k in owners && s.book.keys[k] == user {
        var i :| 0 <= i < |owners| && owners[i] == k;
        assert users[i] == user;
      }
    }
  }

  lemma {:induction false} PickStaysSound(s: State, staff: set<UserId>, e: Event)
    requires IsSound(s, staff) && CanHappen(s, e) && e.action.GetOwners?
    ensures IsSound(Next(s, staff, e), staff)
  {
    var t := Next(s, staff, e);
    forall c | c in s.credits ensures CreditIsSound(t.book, staff, t.now, c) {
      assert CreditIsSound(s.book, staff, s.now, c);
      CreditStaysSound(s.book, t.book, staff, s.now, t.now, c);
    }
    PickIsClean(s, staff, e.at);
  }

  lemma {:induction false} PickIsClean(s: State, staff: set<UserId>, at: int)
    requires Consistent(s.book) && CreditsAreSound(s, staff) && at >= s.now
    ensures IsClean(s.(now := at), Batch(PickedOwners(s.book, staff, at), at))
  {
    var owners := PickedOwners(s.book, staff, at);
    forall k | k in owners ensures k in s.book.keys && IsPicked(s.book, staff, s.book.keys[k], at)
        && KeysOf(s.book.users, s.book.keys[k])[0] == k {
      PickedOwner(s.book, staff, at, k);
    }
    forall k, c | k in owners && c in s.credits && c.user == s.book.keys[k] ensures NextBoundary(c.at) <= at {
      PickedUserIsUnpaid(s.book, staff, s.now, at, c);
    }
  }

  /** A report only pays users who were not paid this week, each once. */
  ghost predicate PaysAfresh(credits: seq<Credit>, users: seq<UserId>, at: int)
  {
    && Distinct(users)
    && forall c :: c in credits && c.user in users ==> NextBoundary(c.at) <= at
  }

  lemma {:induction false} ReportPaysAfresh(s: State, staff: set<UserId>, e: Event)
    requires IsSound(s, staff) && CanHappen(s, e) && e.action.OnSuccess?
    ensures PaysAfresh(s.credits, PaidUsers(s.book, e.action.owners), e.at)
  {
    var owners, users := e.action.owners, PaidUsers(s.book, e.action.owners);
    forall i, j | 0 <= i < j < |users| ensures users[i] != users[j] {
      assert owners[i] in owners && owners[j] in owners;
    }
    forall c | c in s.credits && c.user in users ensures NextBoundary(c.at) <= e.at {
      var i :| 0 <= i < |users| && users[i] == c.user;
      assert owners[i] in owners;
    }
  }

  lemma {:induction false} FreshPaymentsKeepOncePerWeek(credits: seq<Credit>, users: seq<UserId>, at: int)
    requires OncePerWeek(credits) && PaysAfresh(credits, users, at)
    ensures OncePerWeek(credits + CreditsFor(users, at))
  {
    var all, n := credits + CreditsFor(users, at), |credits|;
    forall i, j | 0 <= i < j < |all| && all[i].user == all[j].user
        ensures NextBoundary(all[i].at) != NextBoundary(all[j].at) {
      if j >= n {
        assert all[j] == Credit(users[j - n], at) && users[j - n] in users;
        if i < n {
          assert credits[i] in credits;
        }
      }
    }
  }

  lemma {:induction false} ReportedCreditsAreSound(s: State, staff: set<UserId>, e: Event)
    requires IsSound(s, staff) && CanHappen(s, e) && e.action.OnSuccess?
    ensures CreditsAreSound(Next(s, staff, e), staff)
  {
    var t := Next(s, staff, e);
    var users := PaidUsers(s.book, e.action.owners);
    forall c | c in t.credits ensures CreditIsSound(t.book, staff, t.now, c) {
      if c in s.credits {
        assert CreditIsSound(s.book, staff, s.now, c);
        CreditStaysSound(s.book, t.book, staff, s.now, t.now, c);
      } else {
        var i :| 0 <= i < |users| && c == Credit(users[i], e.at);
        var k := e.action.owners[i];
        assert k in e.action.owners && c.user == s.book.keys[k] && c.user in users;
        OwnerHasKeys(s.book, k);
      }
    }
  }

  lemma {:induction false} SuccessStaysSound(s: State, staff: set<UserId>, e: Event)
    requires IsSound(s, staff) && CanHappen(s, e) && e.action.OnSuccess?
    ensures IsSound(Next(s, staff, e), staff)
  {
    ReportPaysAfresh(s, staff, e);
    FreshPaymentsKeepOncePerWeek(s.credits, PaidUsers(s.book, e.action.owners), e.at);
    ReportedCreditsAreSound(s, staff, e);
  }

  /** What a caller would have to look at before removing a key that is bound to
      the user: the credits of the user, and who is about to be paid. */
  ghost predicate IsHarmless(s: State, staff: set<UserId>, user: UserId, key: PubKey, at: int)
  {
    key in s.book.keys && s.book.keys[key] == user ==>
      && (forall c :: c in s.credits && c.user == user ==>
            c.user in s.book.nextAirdrop && IsSafe(s.book, staff, c, |KeysOf(s.book.users, user)| - 1, at))
      && (s.batch.Some? && key in s.batch.value.owners ==>
            s.batch.value.owners == {key} && AllCreditsPast(s.credits, at))
  }

  lemma {:induction false} DropLeavesOneLess(book: Book, user: UserId, key: PubKey)
    requires Consistent(book) && key in book.keys && book.keys[key] == user
    ensures var after := DropKey(book, user, key);
            && |KeysOf(after.users, user)| == |KeysOf(book.users, user)| - 1
            && (forall u :: u != user ==> KeysOf(after.users, u) == KeysOf(book.users, u))
  {
    var list := KeysOf(book.users, user);
    assert Occurrences(list, key) == 1;
    WithoutAll(list, key);
    assert |multiset(Without(list, key))| == |multiset(list)| - 1;
  }

  lemma {:induction false} RemovalKeepsCredits(s: State, staff: set<UserId>, e: Event)
    requires IsSound(s, staff) && CanHappen(s, e) && e.action.RemoveKey?
    requires IsHarmless(s, staff, e.action.user, e.action.key, e.at)
    ensures CreditsAreSound(Next(s, staff, e), staff)
  {
    var t := Next(s, staff, e);
    var user, key := e.action.user, e.action.key;
    if key in s.book.keys && s.book.keys[key] == user {
      DropLeavesOneLess(s.book, user, key);
    }
    forall c | c in s.credits ensures CreditIsSound(t.book, staff, t.now, c) {
      assert CreditIsSound(s.book, staff, s.now, c);
      if !(key in s.book.keys && s.book.keys[key] == user && c.user == user) {
        CreditStaysSound(s.book, t.book, staff, s.now, t.now, c);
      }
    }
  }

  lemma {:induction false} RemovalStaysSound(s: State, staff: set<UserId>, e: Event)
    requires IsSound(s, staff) && CanHappen(s, e) && e.action.RemoveKey?
    requires IsHarmless(s, staff, e.action.user, e.action.key, e.at)
    ensures IsSound(Next(s, staff, e), staff)
  {
    RemoveKeepsConsistent(s.book, e.action.user, e.action.key);
    RemovalKeepsCredits(s, staff, e);
  }

  predicate RemovesNoKey(events: seq<Event>)
  {
    forall i :: 0 <= i < |events| ==> !events[i].action.RemoveKey?
  }

  /** Each removal of the run is harmless when it is made. */
  ghost predicate RemovesHarmlessly(s: State, staff: set<UserId>, events: seq<Event>)
  {
    events != [] ==>
      var front, last := events[..|events| - 1], events[|events| - 1];
      && RemovesHarmlessly(s, staff, front)
      && (last.action.RemoveKey? ==> IsHarmless(Run(s, staff, front), staff, last.action.user, last.action.key,
                                                last.at))
  }

  lemma {:induction false} StaysSound(s: State, staff: set<UserId>, e: Event)
    requires IsSound(s, staff)
    requires e.action.RemoveKey? ==> IsHarmless(s, staff, e.action.user, e.action.key, e.at)
    ensures IsSound(Next(s, staff, e), staff)
  {
    if CanHappen(s, e) {
      match e.action
      case Bind(_, _) => BindStaysSound(s, staff, e);
      case RemoveKey(_, _) => RemovalStaysSound(s, staff, e);
      case GetOwners => PickStaysSound(s, staff, e);
      case OnSuccess(_) => SuccessStaysSound(s, staff, e);
      case _ => PurchaseStaysSound(s, staff, e);
    }
  }

  lemma {:induction false} RunStaysSound(s: State, staff: set<UserId>, events: seq<Event>)
    requires IsSound(s, staff) && RemovesHarmlessly(s, staff, events)
    ensures IsSound(Run(s, staff, events), staff)
  {
    if events != [] {
      RunStaysSound(s, staff, events[..|events| - 1]);
      StaysSound(Run(s, staff, events[..|events| - 1]), staff, events[|events| - 1]);
    }
  }

  lemma {:induction false} WithoutRemovals(s: State, staff: set<UserId>, events: seq<Event>)
    requires RemovesNoKey(events)
    ensures RemovesHarmlessly(s, staff, events)
  {
    if events != [] {
      WithoutRemovals(s, staff, events[..|events| - 1]);
    }
  }

  /** Over any run of binds, purchases, picks, reports and harmless removals,
      nobody is credited twice between two boundaries. */
  lemma {:induction false} NobodyIsPaidTwiceAWeek(now: int, staff: set<UserId>, events: seq<Event>)
    requires RemovesHarmlessly(Start(now), staff, events)
    ensures OncePerWeek(Run(Start(now), staff, events).credits)
  {
    RunStaysSound(Start(now), staff, events);
  }

  /** Nothing that can follow, if no more keys are removed than is harmless, pays
      anyone twice a week. */
  ghost predicate StaysOncePerWeek(s: State, staff: set<UserId>)
  {
    forall after :: RemovesHarmlessly(s, staff, after) ==> OncePerWeek(Run(s, staff, after).credits)
  }

  /** Something that can follow without removing a key pays someone twice a week. */
  ghost predicate CanPayTwice(s: State, staff: set<UserId>)
  {
    exists after :: RemovesNoKey(after) && !OncePerWeek(Run(s, staff, after).credits)
  }

  lemma {:induction false} PayingTwiceIsHarm(s: State, staff: set<UserId>)
    requires CanPayTwice(s, staff)
    ensures !StaysOncePerWeek(s, staff)
  {
    var after :| RemovesNoKey(after) && !OncePerWeek(Run(s, staff, after).credits);
    WithoutRemovals(s, staff, after);
  }

  // ----- Ways to be paid twice -----

  lemma RunOneMore(s: State, staff: set<UserId>, events: seq<Event>, e: Event)
    ensures Run(s, staff, events + [e]) == Next(Run(s, staff, events), staff, e)
  {
    assert (events + [e])[..|events|] == events;
  }

  /** A first event, then a way to be paid twice from there. */
  lemma {:induction false} RunFromNext(s: State, staff: set<UserId>, first: Event, rest: seq<Event>)
    ensures Run(s, staff, [first] + rest) == Run(Next(s, staff, first), staff, rest)
  {
    if rest == [] {
      assert [first] + rest == [] + [first];
      RunOneMore(s, staff, [], first);
    } else {
      var front, last := rest[..|rest| - 1], rest[|rest| - 1];
      RunFromNext(s, staff, first, front);
      assert [first] + rest == ([first] + front) + [last];
      RunOneMore(s, staff, [first] + front, last);
    }
  }

  lemma {:induction false} OneMoreFirst(s: State, staff: set<UserId>, first: Event)
    requires !first.action.RemoveKey? && CanPayTwice(Next(s, staff, first), staff)
    ensures CanPayTwice(s, staff)
  {
    var rest :| RemovesNoKey(rest) && !OncePerWeek(Run(Next(s, staff, first), staff, rest).credits);
    RunFromNext(s, staff, first, rest);
    assert RemovesNoKey([first] + rest);
  }

  lemma SameWeek(early: int, late: int)
    requires early <= late < NextBoundary(early)
    ensures NextBoundary(late) == NextBoundary(early)
  {
  }

  lemma {:induction false} TwiceAlready(s: State, staff: set<UserId>)
    requires !OncePerWeek(s.credits)
    ensures CanPayTwice(s, staff)
  {
    assert RemovesNoKey([]) && Run(s, staff, []) == s;
  }

  lemma {:induction false} ReportPaysAgain(s: State, staff: set<UserId>, c: Credit, key: PubKey, at: int)
    requires CanHappen(s, Event(OnSuccess([key]), at)) && key in s.book.keys && s.book.keys[key] == c.user
    requires c in s.credits && c.at <= at < NextBoundary(c.at)
    ensures CanPayTwice(s, staff)
  {
    var v := Next(s, staff, Event(OnSuccess([key]), at));
    assert v.credits == s.credits + CreditsFor(PaidUsers(s.book, [key]), at);
    assert v.credits[|s.credits|] == Credit(c.user, at);
    var i :| 0 <= i < |s.credits| && s.credits[i] == c;
    assert v.credits[i] == c;
    SameWeek(c.at, at);
    TwiceAlready(v, staff);
    OneMoreFirst(s, staff, Event(OnSuccess([key]), at));
  }

  /** A registered user with one key who is due too soon is picked and paid again. */
  lemma {:induction false} DueUserIsPaidAgain(s: State, staff: set<UserId>, c: Credit)
    requires Consistent(s.book) && s.batch.None? && c in s.credits && c.at <= s.now
    requires c.user in s.book.registered && |KeysOf(s.book.users, c.user)| == 1
    requires s.now < NextBoundary(c.at) && s.book.nextAirdrop[c.user] + 1 < NextBoundary(c.at)
    requires c.user in staff || c.at >= INAUGURAL_TS
    ensures CanPayTwice(s, staff)
  {
    var at := if s.book.nextAirdrop[c.user] + 1 > s.now then s.book.nextAirdrop[c.user] + 1 else s.now;
    var key := KeysOf(s.book.users, c.user)[0];
    var extend, pick := Event(ExtendEligibility(c.user, at + 1), s.now), Event(GetOwners, at);
    var t := Next(s, staff, extend);
    var u := Next(t, staff, pick);
    KeysBelong(s.book, c.user);
    assert IsPicked(t.book, staff, c.user, at);
    assert key in u.batch.value.owners;
    ReportPaysAgain(u, staff, c, key, at);
    OneMoreFirst(t, staff, pick);
    OneMoreFirst(s, staff, extend);
  }

  /** A user left without a key binds one, is due at once, and is paid again. */
  lemma {:induction false} KeylessUserIsPaidAgain(s: State, staff: set<UserId>, c: Credit, key: PubKey)
    requires Consistent(s.book) && s.batch.None? && c in s.credits && c.at <= s.now
    requires c.user in s.book.users && KeysOf(s.book.users, c.user) == [] && key !in s.book.keys
    requires s.now + 1 < NextBoundary(c.at)
    requires c.user in staff || c.at >= INAUGURAL_TS
    ensures CanPayTwice(s, staff)
  {
    var purchase, bind := Event(Purchase(c.user), s.now), Event(Bind(c.user, key), s.now);
    var t := Next(s, staff, purchase);
    var u := Next(t, staff, bind);
    BindKeepsConsistent(t.book, c.user, key, s.now);
    assert KeysOf(u.book.users, c.user) == [key];
    DueUserIsPaidAgain(u, staff, c);
    OneMoreFirst(t, staff, bind);
    OneMoreFirst(s, staff, purchase);
  }

  lemma {:induction false} UnsafeCreditRepeats(s: State, staff: set<UserId>, c: Credit, key: PubKey)
    requires Consistent(s.book) && c in s.credits && c.at <= s.now
    requires c.user in s.book.nextAirdrop && key !in s.book.keys
    requires !IsSafe(s.book, staff, c, |KeysOf(s.book.users, c.user)|, s.now)
    ensures CanPayTwice(s, staff)
  {
    var giveUp := Event(GiveUp, s.now);
    var t := Next(s, staff, giveUp);
    if KeysOf(s.book.users, c.user) == [] {
      KeylessUserIsPaidAgain(t, staff, c, key);
    } else {
      DueUserIsPaidAgain(t, staff, c);
    }
    OneMoreFirst(s, staff, giveUp);
  }

  /** A picked owner whose key was removed is bound to a user paid this week. */
  lemma {:induction false} ReboundOwnerIsPaidAgain(s: State, staff: set<UserId>, c: Credit, key: PubKey)
    requires c in s.credits && c.at <= s.now < NextBoundary(c.at) && key !in s.book.keys
    requires s.batch.Some? && key in s.batch.value.owners
    ensures CanPayTwice(s, staff)
  {
    var bind := Event(Bind(c.user, key), s.now);
    ReportPaysAgain(Next(s, staff, bind), staff, c, key, s.now);
    OneMoreFirst(s, staff, bind);
  }

  /** A picked owner whose key was removed is bound to the user of another picked owner. */
  lemma {:induction false} ReboundOwnerIsPaidTwice(s: State, staff: set<UserId>, key: PubKey, other: PubKey)
    requires s.batch.Some? && key in s.batch.value.owners && other in s.batch.value.owners && other != key
    requires key !in s.book.keys && other in s.book.keys
    ensures CanPayTwice(s, staff)
  {
    var user := s.book.keys[other];
    var bind, report := Event(Bind(user, key), s.now), Event(OnSuccess([key, other]), s.now);
    var t := Next(s, staff, bind);
    assert CanHappen(t, report);
    var u := Next(t, staff, report);
    assert u.credits == s.credits + CreditsFor(PaidUsers(t.book, [key, other]), s.now);
    assert u.credits[|s.credits|] == u.credits[|s.credits| + 1] == Credit(user, s.now);
    TwiceAlready(u, staff);
    OneMoreFirst(t, staff, report);
    OneMoreFirst(s, staff, bind);
  }

  lemma {:induction false} HarmfulRemovalDoesHarm(s: State, staff: set<UserId>, removal: Event)
    requires IsSound(s, staff) && CanHappen(s, removal) && removal.action.RemoveKey?
    requires !IsHarmless(s, staff, removal.action.user, removal.action.key, removal.at)
    ensures CanPayTwice(Next(s, staff, removal), staff)
  {
    var t := Next(s, staff, removal);
    var user, key := removal.action.user, removal.action.key;
    RemoveKeepsConsistent(s.book, user, key);
    DropLeavesOneLess(s.book, user, key);
    if c :| c in s.credits && c.user == user
            && !(c.user in s.book.nextAirdrop
                 && IsSafe(s.book, staff, c, |KeysOf(s.book.users, user)| - 1, removal.at)) {
      assert CreditIsSound(s.book, staff, s.now, c);
      UnsafeCreditRepeats(t, staff, c, key);
    } else if !AllCreditsPast(s.credits, removal.at) {
      var c :| c in s.credits && NextBoundary(c.at) > removal.at;
      assert CreditIsSound(s.book, staff, s.now, c);
      ReboundOwnerIsPaidAgain(t, staff, c, key);
    } else {
      var other :| other in s.batch.value.owners && other != key;
      ReboundOwnerIsPaidTwice(t, staff, key, other);
    }
  }

  /** After any run whose removals were harmless, removing a key leaves every
      continuation without double payments if and only if the removal is harmless
      in turn: the key is not the user's; or each of the user's credits is safe with
      one key less, and, should the key be about to be paid, it is the only one
      and nobody was paid this week. */
  lemma {:induction false} RemovalIsHarmlessExactlyWhen(now: int, staff: set<UserId>, before: seq<Event>,
                                                        removal: Event)
    requires RemovesHarmlessly(Start(now), staff, before)
    requires removal.action.RemoveKey? && removal.at >= Run(Start(now), staff, before).now
    ensures var s := Run(Start(now), staff, before);
            StaysOncePerWeek(Next(s, staff, removal), staff) <==>
            IsHarmless(s, staff, removal.action.user, removal.action.key, removal.at)
  {
    var s := Run(Start(now), staff, before);
    RunStaysSound(Start(now), staff, before);
    if IsHarmless(s, staff, removal.action.user, removal.action.key, removal.at) {
      RemovalStaysSound(s, staff, removal);
      SoundStaysOncePerWeek(Next(s, staff, removal), staff);
    } else {
      HarmfulRemovalDoesHarm(s, staff, removal);
      PayingTwiceIsHarm(Next(s, staff, removal), staff);
    }
  }

  lemma {:induction false} SoundStaysOncePerWeek(s: State, staff: set<UserId>)
    requires IsSound(s, staff)
    ensures StaysOncePerWeek(s, staff)
  {
    forall after | RemovesHarmlessly(s, staff, after) ensures OncePerWeek(Run(s, staff, after).credits) {
      RunStaysSound(s, staff, after);
    }
  }

  // ----- A run in which it happens -----

  /** A registered user with one key is paid the bonus of the second week. */
  lemma {:induction false} PaidOnce(user: UserId, key: PubKey) returns (events: seq<Event>)
    ensures RemovesNoKey(events)
    ensures var at, s := INAUGURAL_TS + FREQUENCY + 1, Run(Start(INAUGURAL_TS), {}, events);
            && s.now == at && s.batch.None? && s.credits == [Credit(user, at)]
            && key in s.book.keys && s.book.keys[key] == user && KeysOf(s.book.users, user) == [key]
  {
    var start, at := INAUGURAL_TS, INAUGURAL_TS + FREQUENCY + 1;
    var extend := Event(ExtendEligibility(user, at + 1), start);
    var bind, purchase := Event(Bind(user, key), start), Event(Purchase(user), start);
    var pick, report := Event(GetOwners, at), Event(OnSuccess([key]), at);
    var c := Next(Next(Next(Start(start), {}, bind), {}, purchase), {}, extend);
    assert c.credits == [] && KeysOf(c.book.users, user) == [key];
    assert NextBoundary(start) == INAUGURAL_TS + FREQUENCY;
    PickedAndPaid(c, user, key, at);
    RunOfFive(Start(start), {}, bind, purchase, extend, pick, report);
    events := [bind, purchase, extend, pick, report];
  }

  lemma {:induction false} RunOfFive(s: State, staff: set<UserId>, a: Event, b: Event, c: Event, d: Event, e: Event)
    ensures Run(s, staff, [a, b, c, d, e])
            == Next(Next(Next(Next(Next(s, staff, a), staff, b), staff, c), staff, d), staff, e)
  {
    RunFromNext(s, staff, a, [b, c, d, e]);
    RunFromNext(Next(s, staff, a), staff, b, [c, d, e]);
    RunFromNext(Next(Next(s, staff, a), staff, b), staff, c, [d, e]);
    var v := Next(Next(Next(s, staff, a), staff, b), staff, c);
    RunFromNext(v, staff, d, [e]);
    RunFromNext(Next(v, staff, d), staff, e, []);
    assert [a] + [b, c, d, e] == [a, b, c, d, e] && [b] + [c, d, e] == [b, c, d, e];
    assert [c] + [d, e] == [c, d, e] && [d] + [e] == [d, e] && [e] + [] == [e];
  }

  lemma {:induction false} PickedAndPaid(s: State, user: UserId, key: PubKey, at: int)
    requires s.now <= at && s.batch.None? && s.credits == [] && at >= INAUGURAL_TS
    requires IsDue(s.book, user, at) && KeysOf(s.book.users, user) == [key]
    requires key in s.book.keys && s.book.keys[key] == user
    ensures var v := Next(Next(s, {}, Event(GetOwners, at)), {}, Event(OnSuccess([key]), at));
            && v.now == at && v.batch.None? && v.credits == [Credit(user, at)]
            && v.book.keys == s.book.keys && v.book.users == s.book.users
  {
    var u := Next(s, {}, Event(GetOwners, at));
    assert IsPicked(s.book, {}, user, at);
    assert key in u.batch.value.owners;
    assert PaidUsers(u.book, [key]) == [user];
    assert [] + CreditsFor([user], at) == [Credit(user, at)];
  }

  lemma {:induction false} RunAppend(s: State, staff: set<UserId>, events: seq<Event>, more: seq<Event>)
    ensures Run(s, staff, events + more) == Run(Run(s, staff, events), staff, more)
  {
    if more == [] {
      assert events + more == events;
    } else {
      var front, last := more[..|more| - 1], more[|more| - 1];
      RunAppend(s, staff, events, front);
      assert events + more == (events + front) + [last];
      RunOneMore(s, staff, events + front, last);
    }
  }

  /** For any user and key, a run in which the user, whose only key is removed after a
      bonus, gets a second one in the same week. */
  lemma {:induction false} SecondBonusAfterRemoval(user: UserId, key: PubKey)
    returns (before: seq<Event>, removal: Event, after: seq<Event>)
    ensures removal.action == RemoveKey(user, key) && RemovesNoKey(before) && RemovesNoKey(after)
    ensures OncePerWeek(Run(Start(INAUGURAL_TS), {}, before + [removal]).credits)
    ensures !OncePerWeek(Run(Start(INAUGURAL_TS), {}, before + [removal] + after).credits)
  {
    before := PaidOnce(user, key);
    var s := Run(Start(INAUGURAL_TS), {}, before);
    removal := Event(RemoveKey(user, key), s.now);
    WithoutRemovals(Start(INAUGURAL_TS), {}, before);
    RunStaysSound(Start(INAUGURAL_TS), {}, before);
    assert Credit(user, s.now) in s.credits && s.now + 1 < NextBoundary(s.now);
    HarmfulRemovalDoesHarm(s, {}, removal);
    RunOneMore(Start(INAUGURAL_TS), {}, before, removal);
    after :| RemovesNoKey(after) && !OncePerWeek(Run(Next(s, {}, removal), {}, after).credits);
    RunAppend(Start(INAUGURAL_TS), {}, before + [removal], after);
  }
}
