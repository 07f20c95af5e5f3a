/** The airdrop worker's two calls into this server. */
module AirdropIntegration {
  import opened Ids
  import opened AccountBook
  import opened AccountStore
  import opened Airdrop

  class FlipchatIntegration {
    const accounts: Memory

    constructor (accounts: Memory)
      ensures this.accounts == accounts
    {
      this.accounts := accounts;
    }

    method GetOwnersToAirdropNow(now: int) returns (owners: seq<PubKey>)
      requires accounts.Valid()
      ensures forall k :: k in owners <==> k in PickedOwners(accounts.Abs(), {}, now)
      ensures forall k :: k in owners <==>
                && k in accounts.keys
                && var user := accounts.keys[k];
                   && user in accounts.registeredUsers
                   && accounts.nextAirdrop[user] < now < accounts.airdropEligibility[user]
                   && now >= 1_741_363_200 * 1_000_000_000
                   && KeysOf(accounts.users, user) == [k]
      ensures Distinct(owners)
    {
      var due := accounts.GetUsersToAirdrop(now);
      owners := [];
      if due.NotFound? {
        AllPickedExactly(accounts.Abs(), {}, now);
        return;
      }
      ghost var book := accounts.Abs();
      for i := 0 to |due.value|
        invariant forall k :: k in owners ==> exists j :: 0 <= j < i && IsOwnerOf(book, due.value[j], k, now)
        invariant forall j :: 0 <= j < i && IsPicked(book, {}, due.value[j], now) ==>
                  KeysOf(book.users, due.value[j])[0] in owners
        invariant Distinct(owners)
      {
        var user := due.value[i];
        var isStaff := accounts.IsStaff(user);
        if !isStaff && now < INAUGURAL_TS {
          continue;
        }
        var pubKeys := accounts.GetPubKeys(user);
        if |pubKeys| != 1 {
          continue;
        }
        assert user in due.value && IsOwnerOf(book, user, pubKeys[0], now);
        KeysBelong(book, user);
        forall j | 0 <= j < i && IsOwnerOf(book, due.value[j], pubKeys[0], now) ensures false {
          KeysBelong(book, due.value[j]);
        }
        assert pubKeys[0] !in owners;
        owners := owners + [pubKeys[0]];
      }
      AllPickedExactly(book, {}, now);
    }

    /** Nothing is written unless every owner is known. */
    method OnSuccess(owners: seq<PubKey>, now: int) returns (ok: bool, userIDs: seq<UserId>)
      requires accounts.Valid()
      modifies accounts`nextAirdrop
      ensures accounts.Valid()
      ensures ok <==> forall k :: k in owners ==> k in accounts.keys
      ensures !ok ==> accounts.Abs() == old(accounts.Abs())
      ensures ok ==> userIDs == PaidUsers(accounts.Abs(), owners)
      ensures ok ==> |userIDs| == |owners| && forall i :: 0 <= i < |owners| ==> userIDs[i] == accounts.keys[owners[i]]
      ensures ok ==> forall user :: user in accounts.nextAirdrop ==>
                accounts.nextAirdrop[user] == if user in userIDs then NextBoundary(now)
                                              else old(accounts.nextAirdrop)[user]
      ensures ok ==> accounts.Abs() == SetNextAirdrop(old(accounts.Abs()), NextBoundary(now),
                                                      set user | user in userIDs)
    {
      userIDs := [];
      for i := 0 to |owners|
        invariant accounts.Valid() && accounts.Abs() == old(accounts.Abs())
        invariant forall k :: k in owners[..i] ==> k in accounts.keys
        invariant userIDs == PaidUsers(accounts.Abs(), owners[..i])
      {
        assert owners[..i + 1] == owners[..i] + [owners[i]];
        assert owners[..i + 1][..i] == owners[..i];
        var r := accounts.GetUserId(owners[i]);
        if r.NotFound? {
          assert owners[i] in owners;
          return false, [];
        }
        userIDs := userIDs + [r.value];
      }
      assert owners[..|owners|] == owners;
      var ts := GetNextAirdropTime(now);
      accounts.BatchSetNextAirdropTimestamp(ts, userIDs);
      assert PaidUsers(accounts.Abs(), owners) == PaidUsers(old(accounts.Abs()), owners);
      return true, userIDs;
    }
  }

  predicate IsOwnerOf(book: Book, user: UserId, key: PubKey, now: int)
  {
    && user in book.registered && IsPicked(book, {}, user, now)
    && KeysOf(book.users, user)[0] == key
  }
}
