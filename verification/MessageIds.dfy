/** Message ids built from a timestamp: the UUID version 7 layout of
    RFC 9562, section 5.7, with its first six bytes overwritten. */
module MessageIds {
  import opened Ids

  const NANOS_PER_MILLI := 1_000_000
  const TIMESTAMP_BYTES: nat := 6
  const TWO_TO_48 := 0x1_0000_0000_0000
  const MIN_INT64 := -0x8000_0000_0000_0000
  const MAX_INT64 := 0x7fff_ffff_ffff_ffff

  /** The low `n` bytes of `m` in two's complement, most significant first. */
  function BigEndian(m: int, n: nat): seq<Byte>
  {
    if n == 0 then [] else [((m / Pow256(n - 1)) % 256) as Byte] + BigEndian(m, n - 1)
  }

  /** The number a big-endian byte string stands for. */
  function Value(s: seq<Byte>): nat
  {
    if s == [] then 0 else s[0] as nat * Pow256(|s| - 1) + Value(s[1..])
  }

  /** Division as Go does it on signed integers. */
  function TruncatedQuotient(a: int, b: int): int
    requires b > 0
  {
    if a < 0 then -((-a) / b) else a / b
  }

  function Millis(nanos: int): int
  {
    TruncatedQuotient(nanos, NANOS_PER_MILLI)
  }

  /** The timestamp read back from an id. */
  function TimestampOf(id: MessageId): nat
    requires |id| >= TIMESTAMP_BYTES
  {
    Value(id[..TIMESTAMP_BYTES])
  }

  /** Overwrites the timestamp bytes of a generated id, one shift per byte. */
  method GenerateMessageIDFromTime(nanos: int, generated: MessageId) returns (id: MessageId)
    requires |generated| == UUID_LENGTH
    ensures id == BigEndian(Millis(nanos), TIMESTAMP_BYTES) + generated[TIMESTAMP_BYTES..]
  {
    var bytes := new Byte[UUID_LENGTH](i requires 0 <= i < |generated| => generated[i]);
    var millis := Millis(nanos);
    bytes[0] := ((millis / 0x100_0000_0000) % 256) as Byte;
    bytes[1] := ((millis / 0x1_0000_0000) % 256) as Byte;
    bytes[2] := ((millis / 0x100_0000) % 256) as Byte;
    bytes[3] := ((millis / 0x1_0000) % 256) as Byte;
    bytes[4] := ((millis / 0x100) % 256) as Byte;
    bytes[5] := (millis % 256) as Byte;
    SixDigits(millis);
    id := bytes[..];
  }

  lemma SixDigits(m: int)
    ensures BigEndian(m, TIMESTAMP_BYTES) ==
            [((m / 0x100_0000_0000) % 256) as Byte, ((m / 0x1_0000_0000) % 256) as Byte,
             ((m / 0x100_0000) % 256) as Byte, ((m / 0x1_0000) % 256) as Byte,
             ((m / 0x100) % 256) as Byte, (m % 256) as Byte]
  {
    assert BigEndian(m, 0) == [];
    assert Pow256(0) == 1 && Pow256(1) == 0x100 && Pow256(2) == 0x1_0000 && Pow256(3) == 0x100_0000;
    assert Pow256(4) == 0x1_0000_0000 && Pow256(5) == 0x100_0000_0000;
    assert m / 1 == m;
    assert BigEndian(m, 1) == [(m % 256) as Byte];
    assert BigEndian(m, 2) == [((m / 0x100) % 256) as Byte, (m % 256) as Byte];
    assert BigEndian(m, 3) == [((m / 0x1_0000) % 256) as Byte] + BigEndian(m, 2);
    assert BigEndian(m, 4) == [((m / 0x100_0000) % 256) as Byte] + BigEndian(m, 3);
    assert BigEndian(m, 5) == [((m / 0x1_0000_0000) % 256) as Byte] + BigEndian(m, 4);
  }

  lemma {:induction false} SplitRemainder(m: int, p: int)
    requires p > 0
    ensures m % (256 * p) == ((m / p) % 256) * p + m % p
  {
    var q, r := m / p, m % p;
    var k, d := q / 256, q % 256;
    assert m == (256 * k + d) * p + r;
    assert m == (256 * p) * k + (d * p + r) by {
      assert (256 * k + d) * p == (256 * p) * k + d * p;
    }
    LeadingDigitDecides(d, 256, p, r, 0);
    RemainderIsUnique(m, 256 * p, k, d * p + r);
  }

  /** A larger leading digit outweighs anything that follows it. */
  lemma {:induction false} LeadingDigitDecides(a: int, b: int, p: int, x: int, y: int)
    requires a < b && 0 <= x < p && 0 <= y
    ensures a * p + x < b * p + y
  {
    assert b * p - a * p == (b - a - 1) * p + p;
    assert (b - a - 1) * p >= 0;
  }

  lemma {:induction false} RemainderIsUnique(m: int, n: int, k: int, r: int)
    requires n > 0 && 0 <= r < n && m == n * k + r
    ensures m % n == r
  {
    var k', r' := m / n, m % n;
    assert k * n + r == k' * n + r';
    if k < k' {
      LeadingDigitDecides(k, k', n, r, r');
    } else if k' < k {
      LeadingDigitDecides(k', k, n, r', r);
    }
  }

  /** Decoding undoes encoding up to the bits that do not fit. */
  lemma {:induction false} ValueOfBigEndian(m: int, n: nat)
    ensures |BigEndian(m, n)| == n
    ensures Value(BigEndian(m, n)) == m % Pow256(n)
  {
    if n > 0 {
      ValueOfBigEndian(m, n - 1);
      SplitRemainder(m, Pow256(n - 1));
      assert BigEndian(m, n)[1..] == BigEndian(m, n - 1);
    }
  }

  lemma {:induction false} ValueIsBounded(s: seq<Byte>)
    ensures Value(s) < Pow256(|s|)
  {
    if s != [] {
      ValueIsBounded(s[1..]);
      LeadingDigitDecides(s[0] as nat, 256, Pow256(|s| - 1), Value(s[1..]), 0);
    }
  }

  /** On strings with prefixes of equal length, smaller prefix value means
      earlier in byte order, whatever follows. */
  lemma {:induction false} ValueOrderIsByteOrder(s: seq<Byte>, t: seq<Byte>, x: seq<Byte>, y: seq<Byte>)
    requires |s| == |t| && Value(s) < Value(t)
    ensures Less(s + x, t + y)
  {
    ValueIsBounded(s[1..]);
    ValueIsBounded(t[1..]);
    var p := Pow256(|s| - 1);
    if s[0] > t[0] {
      LeadingDigitDecides(t[0] as nat, s[0] as nat, p, Value(t[1..]), Value(s[1..]));
    } else if s[0] == t[0] {
      ValueOrderIsByteOrder(s[1..], t[1..], x, y);
      assert (s + x)[1..] == s[1..] + x && (t + y)[1..] == t[1..] + y;
    }
  }

  /** The stored timestamp is the millisecond timestamp modulo 2^48. */
  lemma TimestampBytesHoldMillis(m: int, tail: seq<Byte>)
    ensures |BigEndian(m, TIMESTAMP_BYTES)| == TIMESTAMP_BYTES
    ensures TimestampOf(BigEndian(m, TIMESTAMP_BYTES) + tail) == m % TWO_TO_48
  {
    ValueOfBigEndian(m, TIMESTAMP_BYTES);
    assert Pow256(TIMESTAMP_BYTES) == TWO_TO_48 by {
      assert Pow256(1) == 0x100 && Pow256(2) == 0x1_0000 && Pow256(3) == 0x100_0000;
      assert Pow256(4) == 0x1_0000_0000 && Pow256(5) == 0x100_0000_0000;
    }
    assert (BigEndian(m, TIMESTAMP_BYTES) + tail)[..TIMESTAMP_BYTES] == BigEndian(m, TIMESTAMP_BYTES);
  }

  /** The id of any time an int64 nanosecond count can express reads back as
      its millisecond exactly when that millisecond is not before 1970. */
  lemma TimestampReadsBack(nanos: int, tail: seq<Byte>)
    requires MIN_INT64 <= nanos <= MAX_INT64
    ensures |BigEndian(Millis(nanos), TIMESTAMP_BYTES)| == TIMESTAMP_BYTES
    ensures TimestampOf(BigEndian(Millis(nanos), TIMESTAMP_BYTES) + tail) == Millis(nanos)
            <==> nanos > -NANOS_PER_MILLI
  {
    TimestampBytesHoldMillis(Millis(nanos), tail);
    MillisFit(nanos);
  }

  lemma MillisFit(nanos: int)
    requires MIN_INT64 <= nanos <= MAX_INT64
    ensures -TWO_TO_48 / 2 < Millis(nanos) < TWO_TO_48 / 2
    ensures Millis(nanos) >= 0 <==> nanos > -NANOS_PER_MILLI
  {
  }

  /** Ids of a later millisecond sort later, whatever their random bytes are,
      unless the earlier time is before 1970 and the later one is not: then the
      order is reversed. */
  lemma LaterMillisecondSortsLater(early: int, late: int, x: seq<Byte>, y: seq<Byte>)
    requires MIN_INT64 <= early <= MAX_INT64 && MIN_INT64 <= late <= MAX_INT64
    requires Millis(early) < Millis(late)
    ensures Less(BigEndian(Millis(early), TIMESTAMP_BYTES) + x, BigEndian(Millis(late), TIMESTAMP_BYTES) + y)
            <==> !(early <= -NANOS_PER_MILLI < late)
  {
    MillisFit(early);
    MillisFit(late);
    TimestampOrder(Millis(early), Millis(late), x, y);
  }

  lemma TimestampOrder(m: int, n: int, x: seq<Byte>, y: seq<Byte>)
    requires -TWO_TO_48 / 2 < m < n < TWO_TO_48 / 2
    ensures Less(BigEndian(m, TIMESTAMP_BYTES) + x, BigEndian(n, TIMESTAMP_BYTES) + y) <==> !(m < 0 <= n)
  {
    var s, t := BigEndian(m, TIMESTAMP_BYTES), BigEndian(n, TIMESTAMP_BYTES);
    ValueOfTimestamp(m);
    ValueOfTimestamp(n);
    if m < 0 <= n {
      ValueOrderIsByteOrder(t, s, y, x);
      LessIsTotal(s + x, t + y);
    } else {
      ValueOrderIsByteOrder(s, t, x, y);
    }
  }

  /** Small negative numbers come out above all non-negative ones. */
  lemma ValueOfTimestamp(m: int)
    requires -TWO_TO_48 / 2 < m < TWO_TO_48 / 2
    ensures |BigEndian(m, TIMESTAMP_BYTES)| == TIMESTAMP_BYTES
    ensures Value(BigEndian(m, TIMESTAMP_BYTES)) == if m < 0 then m + TWO_TO_48 else m
  {
    TimestampBytesHoldMillis(m, []);
    assert (BigEndian(m, TIMESTAMP_BYTES) + [])[..TIMESTAMP_BYTES] == BigEndian(m, TIMESTAMP_BYTES);
  }
}
