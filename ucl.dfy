/** ucl_unpack as the original writes it: a header check, then a loop that advances a source
    index block by block and grows the output by concatenation or byte by byte. */
module Ucl {
  import opened Util
  import opened UclSpec
  import Nrv2eSpec
  import Nrv2e

  /** ucl_unpack (main.js:124-186). */
  method Unpack(src: seq<uint8>) returns (r: Result<seq<uint8>, UnpackError>)
    ensures r == UclSpec.Unpack(src)
  {
    if |src| < HEADER_SIZE {
      return Err(TooShort);
    }
    for ix := 0 to |MAGIC|
      invariant src[..ix] == MAGIC[..ix]
    {
      if src[ix] != MAGIC[ix] {
        return Err(BadMagic);
      }
    }
    assert src[..8] == MAGIC;
    var methodByte := src[12];
    var blockSize := ReadBE32(src, 14).value;
    if methodByte != METHOD_NRV2E {
      return Err(UnsupportedMethod);
    }
    if blockSize < MIN_BLOCK_SIZE || blockSize > MAX_BLOCK_SIZE {
      return Err(InvalidBlockSize);
    }
    r := UnpackBlocks(src, blockSize);
  }

  /** The block loop of ucl_unpack (main.js:150-185), from the end of the header. */
  method UnpackBlocks(src: seq<uint8>, blockSize: nat) returns (r: Result<seq<uint8>, UnpackError>)
    ensures r == Blocks(Nrv2eSpec.Decode, src, HEADER_SIZE, blockSize, [])
  {
    var srcIndex := HEADER_SIZE;
    var dst: seq<uint8> := [];
    while true
      invariant Blocks(Nrv2eSpec.Decode, src, srcIndex, blockSize, dst) == Blocks(Nrv2eSpec.Decode, src, HEADER_SIZE, blockSize, [])
      decreases |src| - srcIndex
    {
      var step, grown := UnpackBlock(src, srcIndex, blockSize, dst);
      if step.Err? {
        return Err(step.error);
      }
      if step.value.None? {
        break;
      }
      Unfold(Nrv2eSpec.Decode, src, srcIndex, blockSize, dst, step.value.value);
      dst := grown;
      srcIndex := step.value.value.next;
    }
    return Ok(dst);
  }

  /** One pass of the block loop (main.js:153-182): the two lengths and their checks, then
      the block's bytes appended to dst, decoded or copied. */
  method UnpackBlock(src: seq<uint8>, index: nat, blockSize: nat, dst: seq<uint8>)
    returns (r: Result<Option<Chunk>, UnpackError>, grown: seq<uint8>)
    ensures r == NextBlock(Nrv2eSpec.Decode, src, index, blockSize)
    ensures r.Ok? && r.value.Some? ==> grown == dst + r.value.value.out
  {
    grown := dst;
    var srcIndex := index;
    var outLen := ReadBE32(src, srcIndex);
    if outLen.None? {
      return Err(ReadOutOfBounds), grown;
    }
    srcIndex := srcIndex + 4;
    if outLen.value == 0 {
      return Ok(None), grown;
    }
    var inLen := ReadBE32(src, srcIndex);
    if inLen.None? {
      return Err(ReadOutOfBounds), grown;
    }
    srcIndex := srcIndex + 4;
    if inLen.value > blockSize || outLen.value > blockSize || inLen.value == 0 || inLen.value > outLen.value {
      return Err(InvalidLengths), grown;
    }
    if |src| - srcIndex < inLen.value {
      return Err(UnexpectedEof), grown;
    }
    var payload := src[srcIndex .. srcIndex + inLen.value];
    if inLen.value < outLen.value {
      var decompressed := Nrv2e.Decompress(payload);
      if decompressed.Err? {
        return Err(DecodeFailed(decompressed.error)), grown;
      }
      if |decompressed.value| != outLen.value {
        return Err(WrongLength), grown;
      }
      grown := grown + decompressed.value;
      r := Ok(Some(Chunk(decompressed.value, srcIndex + inLen.value)));
    } else {
      grown := AppendStored(grown, src, srcIndex, inLen.value);
      r := Ok(Some(Chunk(payload, srcIndex + inLen.value)));
    }
  }

  /** A stored block's bytes pushed one at a time (main.js:176-178). */
  method AppendStored(dst: seq<uint8>, src: seq<uint8>, from: nat, n: nat) returns (out: seq<uint8>)
    requires from + n <= |src|
    ensures out == dst + src[from .. from + n]
  {
    out := dst;
    for ix := 0 to n
      invariant out == dst + src[from .. from + ix]
    {
      out := out + [src[from + ix]];
    }
  }
}
