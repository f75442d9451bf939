/** Bytes, results and the big-endian 32-bit reader shared by the container and archive code. */
module Util {

  /** One byte of a Uint8Array. */
  newtype uint8 = x: int | 0 <= x < 256

  const U32_LIMIT: nat := 0x1_0000_0000

  datatype Option<+T> = None | Some(value: T)

  /** The outcome of an operation that throws in the original: a value or the error it throws. */
  datatype Result<+T, +E> = Ok(value: T) | Err(error: E) {
    predicate IsFailure() { Err? }

    function PropagateFailure<U>(): Result<U, E>
      requires Err?
    {
      Err(error)
    }

    function Extract(): T
      requires Ok?
    {
      value
    }
  }

  /** The unsigned value of four bytes, most significant first. */
  function BigEndian(b0: uint8, b1: uint8, b2: uint8, b3: uint8): (v: nat)
    ensures v < U32_LIMIT
  {
    ((b0 as nat * 256 + b1 as nat) * 256 + b2 as nat) * 256 + b3 as nat
  }

  /** read_be32: the big-endian u32 at `offset`, or None ("buffer read out of bounds")
      when fewer than four bytes remain from `offset` on. */
  function ReadBE32(buf: seq<uint8>, offset: nat): (r: Option<nat>)
    ensures r.Some? <==> offset + 4 <= |buf|
    ensures r.Some? ==> r.value < U32_LIMIT
  {
    if |buf| - offset < 4 then None
    else Some(BigEndian(buf[offset], buf[offset + 1], buf[offset + 2], buf[offset + 3]))
  }

  /** The low n bytes of v, most significant first. */
  function BytesBE(v: nat, n: nat): (r: seq<uint8>)
    ensures |r| == n
  {
    if n == 0 then [] else BytesBE(v / 256, n - 1) + [(v % 256) as uint8]
  }

  /** The low four bytes of v, most significant first: for a u32, the writer's side of
      ReadBE32. */
  function BE32(v: nat): (r: seq<uint8>)
    ensures |r| == 4
  {
    BytesBE(v, 4)
  }

  /** The four bytes of BE32, one by one: the remainders of v, v / 256, v / 256 / 256 and
      v / 256 / 256 / 256. */
  lemma BE32Bytes(v: nat)
    requires v < U32_LIMIT
    ensures var q1 := v / 256; var q2 := q1 / 256; var q3 := q2 / 256;
      q3 < 256 && BE32(v) == [q3 as uint8, (q2 % 256) as uint8, (q1 % 256) as uint8, (v % 256) as uint8]
  {
    var q1 := v / 256;
    var q2 := q1 / 256;
    var q3 := q2 / 256;
    assert q1 < 0x100_0000 && q2 < 0x1_0000 && q3 < 256;
    assert BytesBE(v, 4) == BytesBE(q1, 3) + [(v % 256) as uint8];
    assert BytesBE(q1, 3) == BytesBE(q2, 2) + [(q1 % 256) as uint8];
    assert BytesBE(q2, 2) == BytesBE(q3, 1) + [(q2 % 256) as uint8];
    assert BytesBE(q3, 1) == BytesBE(q3 / 256, 0) + [(q3 % 256) as uint8];
  }

  /** The value of the four BE32 bytes is the number written. */
  lemma BigEndianOfBE32(v: nat)
    requires v < U32_LIMIT
    ensures var w := BE32(v); BigEndian(w[0], w[1], w[2], w[3]) == v
  {
    BE32Bytes(v);
    var q1 := v / 256;
    var q2 := q1 / 256;
    var q3 := q2 / 256;
    assert v == q1 * 256 + v % 256;
    assert q1 == q2 * 256 + q1 % 256;
    assert q2 == q3 * 256 + q2 % 256;
  }

  /** ReadBE32 at k reads back the value whose BE32 bytes start the buffer's suffix at k. */
  lemma ReadBE32At(buf: seq<uint8>, k: nat, v: nat, tail: seq<uint8>)
    requires v < U32_LIMIT && k <= |buf| && buf[k..] == BE32(v) + tail
    ensures ReadBE32(buf, k) == Some(v)
  {
    var w := BE32(v);
    assert buf[k] == buf[k..][0] == w[0] && buf[k + 1] == buf[k..][1] == w[1];
    assert buf[k + 2] == buf[k..][2] == w[2] && buf[k + 3] == buf[k..][3] == w[3];
    BigEndianOfBE32(v);
  }

  /** Reading four bytes written by BE32 gives back the value, wherever they sit in the buffer. */
  lemma ReadBE32OfBE32(prefix: seq<uint8>, v: nat, suffix: seq<uint8>)
    requires v < U32_LIMIT
    ensures ReadBE32(prefix + BE32(v) + suffix, |prefix|) == Some(v)
  {
    var buf := prefix + BE32(v) + suffix;
    assert buf[|prefix|..] == BE32(v) + suffix;
    ReadBE32At(buf, |prefix|, v, suffix);
  }

  /** The bytes of BigEndian are the BE32 encoding of its value. */
  lemma BE32OfBigEndian(b0: uint8, b1: uint8, b2: uint8, b3: uint8)
    ensures BE32(BigEndian(b0, b1, b2, b3)) == [b0, b1, b2, b3]
  {
    var v := BigEndian(b0, b1, b2, b3);
    var q2 := b0 as nat * 256 + b1 as nat;
    var q1 := q2 * 256 + b2 as nat;
    assert v == q1 * 256 + b3 as nat;
    assert v / 256 == q1 && v % 256 == b3 as nat;
    assert q1 / 256 == q2 && q1 % 256 == b2 as nat;
    assert q2 / 256 == b0 as nat && q2 % 256 == b1 as nat;
    BE32Bytes(v);
  }

  /** A suffix that starts with `a` continues, after `a`, with `t`. */
  lemma Peel<T>(s: seq<T>, k: nat, a: seq<T>, t: seq<T>)
    requires k <= |s| && s[k..] == a + t
    ensures k + |a| <= |s| && s[k..k + |a|] == a && s[k + |a|..] == t
  {
    assert s[k..k + |a|] == s[k..][..|a|];
    assert s[k + |a|..] == s[k..][|a|..];
  }

  /** A suffix is the slice up to j followed by the suffix from j. */
  lemma SuffixJoin<T>(s: seq<T>, i: nat, j: nat)
    requires i <= j <= |s|
    ensures s[i..] == s[i..j] + s[j..]
  {
  }

  lemma Associative<T>(a: seq<T>, b: seq<T>, c: seq<T>)
    ensures a + b + c == a + (b + c)
  {
  }

  /** A piece in front of three more, regrouped with the first of them. */
  lemma Regroup<T>(a: seq<T>, b: seq<T>, c: seq<T>, d: seq<T>)
    ensures a + (b + c + d) == a + b + c + d
  {
    Associative(a, b, c);
    Associative(a + b + c, d, []);
  }

  /** The bytes ReadBE32 reads are the BE32 encoding of the value it returns. */
  lemma ReadBE32Bytes(buf: seq<uint8>, k: nat)
    requires k + 4 <= |buf|
    ensures buf[k..k + 4] == BE32(ReadBE32(buf, k).value)
  {
    BE32OfBigEndian(buf[k], buf[k + 1], buf[k + 2], buf[k + 3]);
    assert buf[k..k + 4] == [buf[k], buf[k + 1], buf[k + 2], buf[k + 3]];
  }
}
