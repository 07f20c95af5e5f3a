/** Byte-string identifiers and the order the stores sort and compare them by. */
module Ids {

  newtype Byte = b: int | 0 <= b < 256

  type UserId = seq<Byte>
  type ChatId = seq<Byte>
  type MessageId = seq<Byte>
  type IntentId = seq<Byte>

  datatype Option<+T> = None | Some(value: T)

  /** The length of user ids, message ids and generated chat ids (a UUID). */
  const UUID_LENGTH: nat := 16

  /** How many numbers fit into `n` bytes. */
  function Pow256(n: nat): (p: nat)
    ensures p > 0
  {
    if n == 0 then 1 else 256 * Pow256(n - 1)
  }

  /** `bytes.Compare(a, b) < 0`: lexicographic, a proper prefix comes first. */
  predicate Less(a: seq<Byte>, b: seq<Byte>)
  {
    && |b| > 0
    && (|a| == 0 || a[0] < b[0] || (a[0] == b[0] && Less(a[1..], b[1..])))
  }

  lemma {:induction false} LessIsTransitive(a: seq<Byte>, b: seq<Byte>, c: seq<Byte>)
    requires Less(a, b) && Less(b, c)
    ensures Less(a, c)
  {
    if |a| > 0 && a[0] == b[0] && b[0] == c[0] {
      LessIsTransitive(a[1..], b[1..], c[1..]);
    }
  }

  /** Exactly one of "before", "equal" and "after" holds. */
  lemma {:induction false} LessIsTotal(a: seq<Byte>, b: seq<Byte>)
    ensures Less(a, b) || a == b || Less(b, a)
    ensures !(Less(a, b) && Less(b, a))
    ensures !Less(a, a)
  {
    if |a| > 0 {
      LessIsTotal(a[1..], a[1..]);
    }
    if |a| > 0 && |b| > 0 && a[0] == b[0] {
      LessIsTotal(a[1..], b[1..]);
      assert a == [a[0]] + a[1..] && b == [b[0]] + b[1..];
    }
  }

  /** There is always an id that is not taken. */
  lemma {:induction false} FreshId(taken: set<seq<Byte>>) returns (id: seq<Byte>)
    ensures id !in taken
  {
    var n := LongerThanAll(taken);
    id := seq(n, _ => 0);
  }

  lemma {:induction false} LongerThanAll(ids: set<seq<Byte>>) returns (n: nat)
    ensures forall id :: id in ids ==> |id| < n
  {
    if ids == {} {
      return 0;
    }
    var first :| first in ids;
    var rest := LongerThanAll(ids - {first});
    n := if |first| < rest then rest else |first| + 1;
  }

  /** The chat id of a two-way chat. The hash is taken to be free of collisions
      and is modelled by its preimage: the two user ids in byte order. */
  function TwoWayChatId(a: UserId, b: UserId): ChatId
  {
    if Less(b, a) then b + a else a + b
  }

  /** A pair of users has one two-way chat, whoever starts it, and no other
      pair shares it. */
  lemma TwoWayChatIdNamesThePair(a: UserId, b: UserId, c: UserId, d: UserId)
    requires |a| == |b| == |c| == |d| == UUID_LENGTH
    ensures TwoWayChatId(a, b) == TwoWayChatId(c, d) <==> (a == c && b == d) || (a == d && b == c)
    ensures |TwoWayChatId(a, b)| != UUID_LENGTH
  {
    LessIsTotal(a, b);
    LessIsTotal(c, d);
    var p, q := TwoWayChatId(a, b), TwoWayChatId(c, d);
    if p == q {
      assert p[..UUID_LENGTH] == q[..UUID_LENGTH] && p[UUID_LENGTH..] == q[UUID_LENGTH..];
    }
  }
}
