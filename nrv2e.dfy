/** ucl_nrv2e_decompress as the original writes it: a bit reader whose state is updated in
    place, nested loops, and an output that grows one byte at a time. */
module Nrv2e {
  import opened Util
  import opened Nrv2eSpec

  /** A method's result and the cursor it leaves, as the reader function that specifies it
      would give them. */
  function Outcome<T>(r: Result<T, DecodeError>, c: Cursor): Result<Read<T>, DecodeError> {
    match r
    case Ok(v) => Ok(Read(v, c))
    case Err(e) => Err(e)
  }

  /** The state the get_bit closure shares with the decoder: src_index, get_bit_index and
      get_bit_byte. */
  class BitReader {
    const src: seq<uint8>
    var srcIndex: nat
    var bitIndex: nat
    var bitByte: Option<uint8>

    function State(): Cursor
      reads this
    {
      Cursor(srcIndex, bitIndex, bitByte)
    }

    ghost predicate Valid()
      reads this
    {
      WellFormed(src, State())
    }

    constructor (src: seq<uint8>)
      ensures this.src == src && State() == Start && Valid()
    {
      this.src := src;
      srcIndex := 0;
      bitIndex := 7;
      bitByte := None;
    }

    /** get_bit (main.js:48-63). */
    method GetBit() returns (r: Result<nat, DecodeError>)
      requires Valid()
      modifies this
      ensures Valid()
      ensures old(ReadBit(src, State())) == Outcome(r, State())
    {
      if bitByte.None? {
        if srcIndex >= |src| {
          return Err(InputOverrun);
        }
        bitByte := Some(src[srcIndex]);
        srcIndex := srcIndex + 1;
      }
      var bit := BitOf(bitByte.value, bitIndex);
      if bitIndex == 0 {
        bitIndex := 7;
        bitByte := None;
      } else {
        bitIndex := bitIndex - 1;
      }
      return Ok(bit);
    }

    /** `src[src_index++]` (main.js:70 and 86). */
    method GetByte() returns (r: Result<uint8, DecodeError>)
      requires Valid()
      modifies this
      ensures Valid()
      ensures old(ReadByte(src, State())) == Outcome(r, State())
    {
      if srcIndex >= |src| {
        return Err(InputOverrun);
      }
      r := Ok(src[srcIndex]);
      srcIndex := srcIndex + 1;
    }
  }

  /** The offset prefix code (main.js:74-79). */
  method ReadOffsetCode(rd: BitReader) returns (r: Result<nat, DecodeError>)
    requires rd.Valid()
    modifies rd
    ensures rd.Valid()
    ensures old(OffsetLoop(rd.src, rd.State(), 1)) == Outcome(r, rd.State())
  {
    ghost var goal := OffsetLoop(rd.src, rd.State(), 1);
    var mOff: nat := 1;
    while true
      invariant rd.Valid() && mOff >= 1
      invariant OffsetLoop(rd.src, rd.State(), mOff) == goal
      decreases Remaining(rd.src, rd.State())
    {
      var b :- rd.GetBit();
      mOff := mOff * 2 + b;
      assert OffsetStop(rd.src, rd.State(), mOff) == goal;
      var stop :- rd.GetBit();
      if stop == 1 {
        break;
      }
      assert OffsetMore(rd.src, rd.State(), mOff) == goal;
      var b2 :- rd.GetBit();
      mOff := (mOff - 1) * 2 + b2;
    }
    return Ok(mOff);
  }

  /** The match length code (main.js:95-107), entered with m_len holding the short-length flag. */
  method ReadMatchLength(rd: BitReader, flag: nat) returns (r: Result<nat, DecodeError>)
    requires rd.Valid()
    modifies rd
    ensures rd.Valid()
    ensures old(LengthCode(rd.src, rd.State(), flag)) == Outcome(r, rd.State())
  {
    var mLen := flag;
    var b :- rd.GetBit();
    if mLen != 0 {
      mLen := 1 + b;
    } else if b == 1 {
      var b2 :- rd.GetBit();
      mLen := 3 + b2;
    } else {
      mLen := mLen + 1;
      mLen :- ReadLengthLoop(rd, mLen);
      mLen := mLen + 3;
    }
    return Ok(mLen);
  }

  /** The do-while loop of the length code (main.js:103-105). */
  method ReadLengthLoop(rd: BitReader, mLen0: nat) returns (r: Result<nat, DecodeError>)
    requires rd.Valid()
    modifies rd
    ensures rd.Valid()
    ensures old(LengthLoop(rd.src, rd.State(), mLen0)) == Outcome(r, rd.State())
  {
    ghost var goal := LengthLoop(rd.src, rd.State(), mLen0);
    var mLen := mLen0;
    while true
      invariant rd.Valid()
      invariant LengthLoop(rd.src, rd.State(), mLen) == goal
      decreases Remaining(rd.src, rd.State())
    {
      var bit :- rd.GetBit();
      mLen := mLen * 2 + bit;
      var stop :- rd.GetBit();
      if stop == 1 {
        break;
      }
    }
    return Ok(mLen);
  }

  /** The back-reference copy (main.js:113-118): one byte, then m_len more, each read from a
      cursor that trails the end of the output by m_off. */
  method CopyMatch(dst: seq<uint8>, mOff: nat, mLen: nat) returns (out: seq<uint8>)
    requires 1 <= mOff <= |dst|
    ensures out == Copy(dst, mOff, mLen + 1)
  {
    out := dst;
    var posIndex := |out| - mOff;
    out := out + [out[posIndex]];
    posIndex := posIndex + 1;
    for ix := 0 to mLen
      invariant 1 <= mOff <= |out| && posIndex == |out| - mOff
      invariant Copy(out, mOff, mLen - ix) == Copy(dst, mOff, mLen + 1)
    {
      out := out + [out[posIndex]];
      posIndex := posIndex + 1;
    }
  }

  /** One match header (main.js:73-111): the offset code and what follows it.  Also gives
      last_m_off as it is afterwards. */
  method ReadMatch(rd: BitReader, lastMOff: nat) returns (r: Result<Token, DecodeError>, newLast: nat)
    requires rd.Valid() && lastMOff >= 1
    modifies rd
    ensures rd.Valid()
    ensures var s := old(MatchToken(rd.src, rd.State(), lastMOff));
      (s.Err? ==> r == Err(s.error)) &&
      (s.Ok? ==> r == Ok(s.value.token) && newLast == s.value.lastOffset && rd.State() == s.value.next)
  {
    newLast := lastMOff;
    var code :- ReadOffsetCode(rd);
    r, newLast := ReadMatchTail(rd, code, lastMOff);
  }

  /** main.js:81-111: offset code 2 reuses last_m_off and reads the short-length flag; any
      other code folds in the next byte, giving the end marker or a new last_m_off and the
      inverted flag.  Then the length, plus one for offsets above 0x500. */
  method ReadMatchTail(rd: BitReader, code: nat, lastMOff: nat) returns (r: Result<Token, DecodeError>, newLast: nat)
    requires rd.Valid() && code >= 2 && lastMOff >= 1
    modifies rd
    ensures rd.Valid()
    ensures var s := old(AfterOffsetCode(rd.src, rd.State(), code, lastMOff));
      (s.Err? ==> r == Err(s.error)) &&
      (s.Ok? ==> r == Ok(s.value.token) && newLast == s.value.lastOffset && rd.State() == s.value.next)
  {
    ghost var src := rd.src;
    ghost var codeEnd := rd.State();
    newLast := lastMOff;
    var mOff := code;
    var mLen: nat;
    if mOff == 2 {
      mOff := lastMOff;
      mLen :- rd.GetBit();
    } else {
      var low :- rd.GetByte();
      mOff := (mOff - 3) * 256 + low as nat;
      if mOff == END_MARKER {
        return Ok(End), newLast;
      }
      if mOff >= FOLD_LIMIT {
        return Err(OffsetOverflow), newLast;
      }
      mLen := 1 - mOff % 2;
      mOff := mOff / 2 + 1;
      newLast := mOff;
    }
    assert AfterOffsetCode(src, codeEnd, code, lastMOff) == MatchWith(src, rd.State(), mOff, mLen);
    mLen :- ReadMatchLength(rd, mLen);
    if mOff > FAR_OFFSET {
      mLen := mLen + 1;
    }
    return Ok(Match(mOff, mLen)), newLast;
  }

  /** ucl_nrv2e_decompress (main.js:44-122). */
  method Decompress(src: seq<uint8>) returns (r: Result<seq<uint8>, DecodeError>)
    ensures r == Decode(src)
  {
    var rd := new BitReader(src);
    var lastMOff: nat := 1;
    var dst: seq<uint8> := [];
    while true
      invariant rd.Valid() && rd.src == src && lastMOff >= 1
      invariant Run(src, rd.State(), lastMOff, dst) == Decode(src)
      decreases Remaining(src, rd.State())
    {
      ghost var passStart := rd.State();
      ghost var tokenStart := rd.State();
      var bit :- rd.GetBit();
      while bit == 1
        invariant rd.Valid() && rd.src == src && WellFormed(src, tokenStart)
        invariant Run(src, tokenStart, lastMOff, dst) == Decode(src)
        invariant ReadBit(src, tokenStart) == Ok(Read(bit, rd.State()))
        invariant Remaining(src, rd.State()) < Remaining(src, passStart)
        decreases Remaining(src, rd.State())
      {
        var b :- rd.GetByte();
        dst := dst + [b];
        tokenStart := rd.State();
        bit :- rd.GetBit();
      }
      ghost var header := rd.State();
      assert Run(src, tokenStart, lastMOff, dst) == RunMatch(src, header, lastMOff, dst);
      var token, newLast :- ReadMatch(rd, lastMOff);
      assert RunMatch(src, header, lastMOff, dst) == RunStep(src, Step(token, rd.State(), newLast), dst);
      if token.End? {
        break;
      }
      lastMOff := newLast;
      if token.offset > |dst| {
        return Err(LookbehindOverrun);
      }
      dst := CopyMatch(dst, token.offset, token.length);
    }
    return Ok(dst);
  }
}
