/** Ids of activity notifications. The hash is taken to be free of collisions
    and is modelled by the bytes fed into it. */
module NotificationIds {
  import opened Ids

  type NotificationId = seq<Byte>

  const UNKNOWN: nat := 0
  const WELCOME_BONUS: nat := 1
  const WEEKLY_BONUS: nat := 2
  const CREATE_GROUP: nat := 3
  const SEND_LISTENER_MESSAGE: nat := 4
  const SEND_TIP: nat := 5
  const RECEIVED_TIP: nat := 6
  const PROMOTED_TO_SPEAKER: nat := 7

  /** The low `k` bytes, least significant first. */
  function LittleEndian(n: nat, k: nat): (bytes: seq<Byte>)
    ensures |bytes| == k
  {
    if k == 0 then [] else [(n % 0x100) as Byte] + LittleEndian(n / 0x100, k - 1)
  }

  function LittleEndian32(n: nat): (bytes: seq<Byte>)
    ensures |bytes| == 4
  {
    LittleEndian(n, 4)
  }

  lemma {:induction false} LittleEndianBytes(n: nat)
    requires n < 0x1_0000_0000
    ensures LittleEndian32(n) == [(n % 0x100) as Byte, (n / 0x100 % 0x100) as Byte, (n / 0x1_0000 % 0x100) as Byte,
                                  (n / 0x100_0000 % 0x100) as Byte]
  {
    var a := n / 0x100;
    var b := a / 0x100;
    var c := b / 0x100;
    assert b == n / 0x1_0000 && c == n / 0x100_0000;
    assert LittleEndian(c, 1) == [(c % 0x100) as Byte] + LittleEndian(c / 0x100, 0);
    assert LittleEndian(b, 2) == [(b % 0x100) as Byte] + LittleEndian(c, 1);
    assert LittleEndian(a, 3) == [(a % 0x100) as Byte] + LittleEndian(b, 2);
  }

  function Joined(seeds: seq<seq<Byte>>): seq<Byte>
  {
    if seeds == [] then [] else Joined(seeds[..|seeds| - 1]) + seeds[|seeds| - 1]
  }

  function Preimage(kind: nat, user: UserId, seeds: seq<seq<Byte>>): NotificationId
  {
    LittleEndian32(kind) + user + Joined(seeds)
  }

  /** Feeds type, user and seeds into the hash one after the other. */
  method GetNotificationID(kind: nat, user: UserId, seeds: seq<seq<Byte>>) returns (id: Option<NotificationId>)
    requires kind < 0x1_0000_0000
    ensures id == if kind == UNKNOWN then None else Some(Preimage(kind, user, seeds))
  {
    if kind == UNKNOWN {
      return None;
    }
    var hashed := LittleEndian32(kind);
    hashed := hashed + user;
    for i := 0 to |seeds|
      invariant hashed == LittleEndian32(kind) + user + Joined(seeds[..i])
    {
      assert seeds[..i + 1][..i] == seeds[..i];
      hashed := hashed + seeds[i];
    }
    assert seeds[..|seeds|] == seeds;
    return Some(hashed);
  }

  lemma {:induction false} LittleEndianIsInjective(m: nat, n: nat, k: nat)
    requires m < Pow256(k) && n < Pow256(k)
    requires LittleEndian(m, k) == LittleEndian(n, k)
    ensures m == n
  {
    if k > 0 {
      var a, b := LittleEndian(m, k), LittleEndian(n, k);
      assert a[0] as int == m % 0x100 && b[0] as int == n % 0x100;
      assert a[1..] == LittleEndian(m / 0x100, k - 1) && b[1..] == LittleEndian(n / 0x100, k - 1);
      LittleEndianIsInjective(m / 0x100, n / 0x100, k - 1);
    }
  }

  lemma LittleEndian32IsInjective(m: nat, n: nat)
    requires m < 0x1_0000_0000 && n < 0x1_0000_0000
    requires LittleEndian32(m) == LittleEndian32(n)
    ensures m == n
  {
    assert Pow256(1) == 0x100 && Pow256(2) == 0x1_0000 && Pow256(3) == 0x100_0000;
    LittleEndianIsInjective(m, n, 4);
  }

  /** Notifications of different types never share an id, whatever the seeds are. */
  lemma TypesNeverShareIds(k: nat, l: nat, u: UserId, v: UserId, s: seq<seq<Byte>>, t: seq<seq<Byte>>)
    requires k < 0x1_0000_0000 && l < 0x1_0000_0000
    requires Preimage(k, u, s) == Preimage(l, v, t)
    ensures k == l
  {
    assert Preimage(k, u, s)[..4] == LittleEndian32(k);
    assert Preimage(l, v, t)[..4] == LittleEndian32(l);
    LittleEndian32IsInjective(k, l);
  }

  lemma JoinedTwo(a: seq<Byte>, b: seq<Byte>)
    ensures Joined([a, b]) == a + b
  {
    assert [a, b][..1] == [a] && [a][..0] == [];
    assert Joined([a]) == a;
  }

  /** Notifications about a message share an id exactly when type, user, chat and
      message agree; chat ids may be of different lengths. */
  lemma MessageIdsAreInjective(k: nat, l: nat, u: UserId, v: UserId, c: ChatId, d: ChatId, m: MessageId, n: MessageId)
    requires k < 0x1_0000_0000 && l < 0x1_0000_0000
    requires |u| == |v| == |m| == |n| == UUID_LENGTH
    ensures Preimage(k, u, [c, m]) == Preimage(l, v, [d, n]) <==> k == l && u == v && c == d && m == n
  {
    JoinedTwo(c, m);
    JoinedTwo(d, n);
    var p, q := Preimage(k, u, [c, m]), Preimage(l, v, [d, n]);
    assert p == LittleEndian32(k) + u + c + m && q == LittleEndian32(l) + v + d + n;
    if p == q {
      TypesNeverShareIds(k, l, u, v, [c, m], [d, n]);
      assert u == p[4..20] && v == q[4..20];
      assert m == p[|p| - 16..] && n == q[|q| - 16..];
      assert c == p[20..|p| - 16] && d == q[20..|q| - 16];
    }
  }
}
