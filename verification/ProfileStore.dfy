/** The in-memory profile store: display names and links to X accounts. */
module ProfileStore {
  import opened Ids

  datatype Result<+T> = Ok(value: T) | NotFound | ExistingSocialLink

  datatype XProfile = XProfile(
    id: string,
    username: string,
    name: string,
    description: string,
    profilePicUrl: string,
    verifiedType: int,
    followerCount: nat)

  datatype UserProfile = UserProfile(displayName: string, socialProfiles: seq<XProfile>)

  datatype Profiles = Profiles(names: map<UserId, string>, links: map<UserId, XProfile>)

  const NO_PROFILES := Profiles(map[], map[])

  /** A link alone does not make a profile. */
  function LookUp(p: Profiles, user: UserId): Result<UserProfile>
  {
    if user !in p.names then NotFound
    else Ok(UserProfile(p.names[user], if user in p.links then [p.links[user]] else []))
  }

  predicate IsLinked(links: map<UserId, XProfile>, user: UserId, xUserID: string)
  {
    user in links && links[user].id == xUserID
  }

  function NotLinkedTo(links: map<UserId, XProfile>, xUserID: string): map<UserId, XProfile>
  {
    map user | user in links && links[user].id != xUserID :: links[user]
  }

  /** A linked user can only refresh the account they have; an unlinked user takes
      the account over from whoever has it. */
  function Link(links: map<UserId, XProfile>, user: UserId, x: XProfile): Result<map<UserId, XProfile>>
  {
    if user in links && links[user].id != x.id then ExistingSocialLink
    else if user in links then Ok(links[user := x])
    else Ok(NotLinkedTo(links, x.id)[user := x])
  }

  /** The user has the account, nobody else does, and all other links are as before. */
  ghost predicate GetsAccount(before: map<UserId, XProfile>, after: map<UserId, XProfile>, user: UserId, x: XProfile)
  {
    && user in after && after[user] == x
    && forall u :: u != user ==>
         if u in before && before[u].id != x.id then u in after && after[u] == before[u] else u !in after
  }

  lemma LinkMeans(links: map<UserId, XProfile>, user: UserId, x: XProfile)
    requires OneUserEach(links)
    ensures Link(links, user, x).Ok? <==> user !in links || links[user].id == x.id
    ensures Link(links, user, x).Ok? ==> GetsAccount(links, Link(links, user, x).value, user, x)
  {
  }

  function Unlink(links: map<UserId, XProfile>, user: UserId, xUserID: string): Result<map<UserId, XProfile>>
  {
    if IsLinked(links, user, xUserID) then Ok(links - {user}) else NotFound
  }

  /** No X account is linked to two users. */
  ghost predicate OneUserEach(links: map<UserId, XProfile>)
  {
    forall u, v :: u in links && v in links && links[u].id == links[v].id ==> u == v
  }

  /** What the reverse look-up may answer: it stops at the first link it meets. */
  ghost predicate MayAnswer(links: map<UserId, XProfile>, xUserID: string, r: Result<UserId>)
  {
    match r {
      case Ok(user) => IsLinked(links, user, xUserID)
      case NotFound => forall user :: user in links ==> links[user].id != xUserID
      case ExistingSocialLink => false
    }
  }

  datatype Write =
    | SetDisplayName(user: UserId, displayName: string)
    | LinkXAccount(user: UserId, x: XProfile)
    | UnlinkXAccount(user: UserId, xUserID: string)

  function Written(p: Profiles, w: Write): Result<Profiles>
  {
    match w
    case SetDisplayName(user, displayName) => Ok(p.(names := p.names[user := displayName]))
    case LinkXAccount(user, x) =>
      (match Link(p.links, user, x)
       case Ok(links) => Ok(p.(links := links))
       case NotFound => NotFound
       case ExistingSocialLink => ExistingSocialLink)
    case UnlinkXAccount(user, xUserID) =>
      (match Unlink(p.links, user, xUserID)
       case Ok(links) => Ok(p.(links := links))
       case NotFound => NotFound
       case ExistingSocialLink => ExistingSocialLink)
  }

  function AfterWrite(p: Profiles, w: Write): Profiles
  {
    if Written(p, w).Ok? then Written(p, w).value else p
  }

  function AfterWrites(writes: seq<Write>): Profiles
  {
    if writes == [] then NO_PROFILES else AfterWrite(AfterWrites(writes[..|writes| - 1]), writes[|writes| - 1])
  }

  /** Over every run no X account has two users, so the reverse look-up has one
      possible answer and inverts the forward one. */
  lemma {:induction false} ReverseLookUpInverts(writes: seq<Write>, xUserID: string, r: Result<UserId>)
    requires MayAnswer(AfterWrites(writes).links, xUserID, r)
    ensures OneUserEach(AfterWrites(writes).links)
    ensures forall user :: IsLinked(AfterWrites(writes).links, user, xUserID) <==> r == Ok(user)
  {
    LinksStayUnique(writes);
  }

  lemma {:induction false} LinksStayUnique(writes: seq<Write>)
    ensures OneUserEach(AfterWrites(writes).links)
  {
    if writes != [] {
      LinksStayUnique(writes[..|writes| - 1]);
      WriteKeepsOneUserEach(AfterWrites(writes[..|writes| - 1]), writes[|writes| - 1]);
    }
  }

  lemma WriteKeepsOneUserEach(p: Profiles, w: Write)
    requires OneUserEach(p.links)
    ensures OneUserEach(AfterWrite(p, w).links)
  {
  }

  /** The reverse look-up has a single answer for every account only if no
      account has two users. */
  lemma AmbiguousOtherwise(links: map<UserId, XProfile>)
    requires forall id, r, s :: MayAnswer(links, id, r) && MayAnswer(links, id, s) ==> r == s
    ensures OneUserEach(links)
  {
    forall u, v | u in links && v in links && links[u].id == links[v].id ensures u == v {
      assert MayAnswer(links, links[u].id, Ok(u)) && MayAnswer(links, links[u].id, Ok(v));
    }
  }

  /** Unlinking undoes a link, except for the user it was taken from. */
  lemma UnlinkUndoesLink(links: map<UserId, XProfile>, user: UserId, x: XProfile)
    requires user !in links
    ensures Link(links, user, x).Ok?
    ensures Unlink(Link(links, user, x).value, user, x.id) == Ok(NotLinkedTo(links, x.id))
    ensures NotLinkedTo(links, x.id) == links <==> MayAnswer(links, x.id, NotFound)
  {
    assert NotLinkedTo(links, x.id)[user := x] - {user} == NotLinkedTo(links, x.id);
    if NotLinkedTo(links, x.id) == links {
      forall u | u in links ensures links[u].id != x.id {
        assert u in NotLinkedTo(links, x.id);
      }
    }
  }

  class Memory {
    var profiles: map<UserId, string>
    var xProfilesByUser: map<UserId, XProfile>

    ghost function Abs(): Profiles
      reads this
    {
      Profiles(profiles, xProfilesByUser)
    }

    ghost predicate Valid()
      reads this
    {
      OneUserEach(xProfilesByUser)
    }

    constructor ()
      ensures Valid() && Abs() == NO_PROFILES
    {
      profiles := map[];
      xProfilesByUser := map[];
    }

    method GetProfile(user: UserId) returns (r: Result<UserProfile>)
      ensures r == LookUp(Abs(), user)
      ensures r == if user !in profiles then NotFound
                   else if user in xProfilesByUser then Ok(UserProfile(profiles[user], [xProfilesByUser[user]]))
                   else Ok(UserProfile(profiles[user], []))
    {
      if user !in profiles {
        return NotFound;
      }
      var profile := UserProfile(profiles[user], []);
      if user in xProfilesByUser {
        profile := profile.(socialProfiles := profile.socialProfiles + [xProfilesByUser[user]]);
        assert profile.socialProfiles == [xProfilesByUser[user]];
      }
      return Ok(profile);
    }

    /** Creates the profile when there is none. */
    method SetDisplayName(user: UserId, displayName: string) returns (r: Result<()>)
      requires Valid()
      modifies this`profiles
      ensures Valid() && r.Ok?
      ensures Abs() == AfterWrite(old(Abs()), Write.SetDisplayName(user, displayName))
      ensures profiles == old(profiles)[user := displayName]
    {
      profiles := profiles[user := displayName];
      return Ok(());
    }

    /** Removes every link to the account. */
    method TakeFromOthers(xUserID: string)
      modifies this`xProfilesByUser
      ensures xProfilesByUser == NotLinkedTo(old(xProfilesByUser), xUserID)
    {
      var rest := xProfilesByUser.Keys;
      while rest != {}
        invariant rest <= xProfilesByUser.Keys
        invariant xProfilesByUser == map u | u in old(xProfilesByUser)
                                             && (u in rest
                                                 || old(xProfilesByUser)[u].id != xUserID) :: old(xProfilesByUser)[u]
        decreases |rest|
      {
        var key :| key in rest;
        rest := rest - {key};
        if xProfilesByUser[key].id == xUserID {
          xProfilesByUser := xProfilesByUser - {key};
        }
      }
      assert xProfilesByUser == NotLinkedTo(old(xProfilesByUser), xUserID);
    }

    method LinkXAccount(user: UserId, x: XProfile) returns (r: Result<()>)
      requires Valid()
      modifies this`xProfilesByUser
      ensures Valid()
      ensures Abs() == AfterWrite(old(Abs()), Write.LinkXAccount(user, x))
      ensures r == if Written(old(Abs()), Write.LinkXAccount(user, x)).Ok? then Ok(()) else ExistingSocialLink
      ensures r.Ok? <==> user !in old(xProfilesByUser) || old(xProfilesByUser)[user].id == x.id
      ensures !r.Ok? ==> xProfilesByUser == old(xProfilesByUser)
      ensures r.Ok? ==> GetsAccount(old(xProfilesByUser), xProfilesByUser, user, x)
    {
      WriteKeepsOneUserEach(Abs(), Write.LinkXAccount(user, x));
      LinkMeans(xProfilesByUser, user, x);
      if user in xProfilesByUser {
        var existing := xProfilesByUser[user];
        if existing.id != x.id {
          return ExistingSocialLink;
        }
        xProfilesByUser := xProfilesByUser[user := existing.(
          username := x.username, name := x.name, description := x.description,
          profilePicUrl := x.profilePicUrl, verifiedType := x.verifiedType, followerCount := x.followerCount)];
        return Ok(());
      }
      TakeFromOthers(x.id);
      xProfilesByUser := xProfilesByUser[user := x];
      return Ok(());
    }

    method UnlinkXAccount(user: UserId, xUserID: string) returns (r: Result<()>)
      requires Valid()
      modifies this`xProfilesByUser
      ensures Valid()
      ensures Abs() == AfterWrite(old(Abs()), Write.UnlinkXAccount(user, xUserID))
      ensures r == if Written(old(Abs()), Write.UnlinkXAccount(user, xUserID)).Ok? then Ok(()) else NotFound
      ensures r.Ok? <==> user in old(xProfilesByUser) && old(xProfilesByUser)[user].id == xUserID
      ensures xProfilesByUser == if r.Ok? then old(xProfilesByUser) - {user} else old(xProfilesByUser)
    {
      if user !in xProfilesByUser {
        return NotFound;
      }
      if xProfilesByUser[user].id != xUserID {
        return NotFound;
      }
      xProfilesByUser := xProfilesByUser - {user};
      return Ok(());
    }

    method GetXProfile(user: UserId) returns (r: Result<XProfile>)
      ensures r.Ok? <==> user in xProfilesByUser
      ensures r == if user in xProfilesByUser then Ok(xProfilesByUser[user]) else NotFound
    {
      if user !in xProfilesByUser {
        return NotFound;
      }
      return Ok(xProfilesByUser[user]);
    }

    /** The user whose forward look-up yields the account, if there is one. */
    method GetUserLinkedToXAccount(xUserID: string) returns (r: Result<UserId>)
      requires Valid()
      ensures MayAnswer(xProfilesByUser, xUserID, r)
      ensures forall user :: IsLinked(xProfilesByUser, user, xUserID) <==> r == Ok(user)
    {
      var rest := xProfilesByUser.Keys;
      while rest != {}
        invariant rest <= xProfilesByUser.Keys
        invariant forall user :: user in xProfilesByUser && user !in rest ==> xProfilesByUser[user].id != xUserID
        decreases |rest|
      {
        var user :| user in rest;
        rest := rest - {user};
        if xProfilesByUser[user].id == xUserID {
          return Ok(user);
        }
      }
      return NotFound;
    }
  }
}
