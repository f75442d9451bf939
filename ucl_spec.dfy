/** The UCL container as a function (ucl_unpack), the container layout it accepts, and the
    proof that it accepts exactly that layout. */
module UclSpec {
  import opened Util
  import Nrv2eSpec

  const MAGIC: seq<uint8> := [0x00, 0xe9, 0x55, 0x43, 0x4c, 0xff, 0x01, 0x1a]
  const METHOD_NRV2E: uint8 := 0x2e
  const HEADER_SIZE: nat := 18
  const MIN_BLOCK_SIZE: nat := 1024
  const MAX_BLOCK_SIZE: nat := 8 * 1024 * 1024

  /** The errors ucl_unpack throws, in the original's order of checks; DecodeFailed carries
      a corrupt block's decoder error, which the original does not detect. */
  datatype UnpackError =
    | TooShort            // "input is too short for header"
    | BadMagic            // "invalid magic"
    | UnsupportedMethod   // "unsupported method"
    | InvalidBlockSize    // "invalid block size"
    | ReadOutOfBounds     // read_be32: "buffer read out of bounds"
    | InvalidLengths      // "invalid lengths"
    | UnexpectedEof       // "unexpected EOF"
    | WrongLength         // "decompressed the incorrect amount"
    | DecodeFailed(cause: Nrv2eSpec.DecodeError)

  /** What a compressed block's payload is handed to: ucl_nrv2e_decompress in ucl_unpack. */
  type Decoder = seq<uint8> -> Result<seq<uint8>, Nrv2eSpec.DecodeError>

  /** ucl_unpack (main.js:124-186). */
  function Unpack(src: seq<uint8>): Result<seq<uint8>, UnpackError> {
    UnpackWith(Nrv2eSpec.Decode, src)
  }

  /** ucl_unpack with the block decoder as a parameter. */
  function UnpackWith(dec: Decoder, src: seq<uint8>): Result<seq<uint8>, UnpackError> {
    if |src| < HEADER_SIZE then Err(TooShort)
    else if src[..8] != MAGIC then Err(BadMagic)
    else
      var blockSize := ReadBE32(src, 14).value;
      if src[12] != METHOD_NRV2E then Err(UnsupportedMethod)
      else if blockSize < MIN_BLOCK_SIZE || blockSize > MAX_BLOCK_SIZE then Err(InvalidBlockSize)
      else Blocks(dec, src, HEADER_SIZE, blockSize, [])
  }

  /** What one pass of the block loop yields: the bytes it appends and where the next pass reads. */
  datatype Chunk = Chunk(out: seq<uint8>, next: nat)

  /** One pass of the block loop (main.js:153-182) at `index`: None at the out_len == 0
      terminator, otherwise the block's bytes and the index after it, or the error it throws. */
  function NextBlock(dec: Decoder, src: seq<uint8>, index: nat, blockSize: nat): (r: Result<Option<Chunk>, UnpackError>)
    ensures r.Ok? && r.value.Some? ==> index < r.value.value.next <= |src|
  {
    match ReadBE32(src, index)
    case None => Err(ReadOutOfBounds)
    case Some(outLen) =>
      if outLen == 0 then Ok(None)
      else
        match ReadBE32(src, index + 4)
        case None => Err(ReadOutOfBounds)
        case Some(inLen) =>
          if inLen > blockSize || outLen > blockSize || inLen == 0 || inLen > outLen then Err(InvalidLengths)
          else if |src| - (index + 8) < inLen then Err(UnexpectedEof)
          else
            var payload := src[index + 8 .. index + 8 + inLen];
            if inLen < outLen then
              match dec(payload)
              case Err(e) => Err(DecodeFailed(e))
              case Ok(out) =>
                if |out| != outLen then Err(WrongLength)
                else Ok(Some(Chunk(out, index + 8 + inLen)))
            else Ok(Some(Chunk(payload, index + 8 + inLen)))
  }

  /** The block loop (main.js:152-183) from `index`, with `acc` unpacked so far. */
  function Blocks(dec: Decoder, src: seq<uint8>, index: nat, blockSize: nat, acc: seq<uint8>): Result<seq<uint8>, UnpackError>
    decreases |src| - index
  {
    match NextBlock(dec, src, index, blockSize)
    case Err(e) => Err(e)
    case Ok(None) => Ok(acc)
    case Ok(Some(chunk)) => Blocks(dec, src, chunk.next, blockSize, acc + chunk.out)
  }

  /** One block of a container: stored bytes, or a compressed payload with what it decodes to. */
  datatype Block = Stored(data: seq<uint8>) | Packed(payload: seq<uint8>, output: seq<uint8>)

  /** The bytes a block contributes to the unpacked result. */
  function Output(b: Block): seq<uint8> {
    match b
    case Stored(data) => data
    case Packed(_, output) => output
  }

  /** The bytes a block occupies in the body after its two lengths. */
  function Payload(b: Block): seq<uint8> {
    match b
    case Stored(data) => data
    case Packed(payload, _) => payload
  }

  /** The lengths of a block the unpacker accepts: 0 < in_len <= out_len <= block size, and
      in_len == out_len exactly for a stored block. */
  predicate Sized(b: Block, blockSize: nat) {
    match b
    case Stored(data) => 0 < |data| <= blockSize
    case Packed(payload, output) => 0 < |payload| < |output| <= blockSize
  }

  /** A compressed block's payload decodes to exactly its output. */
  predicate Decodes(dec: Decoder, b: Block) {
    b.Packed? ==> dec(b.payload) == Ok(b.output)
  }

  /** Every block is within the block size and decodes to its output. */
  predicate ValidBlocks(dec: Decoder, blocks: seq<Block>, blockSize: nat) {
    blocks == [] || (Sized(blocks[0], blockSize) && Decodes(dec, blocks[0]) && ValidBlocks(dec, blocks[1..], blockSize))
  }

  predicate ValidHeader(flags: seq<uint8>, blockSize: nat) {
    |flags| == 4 && MIN_BLOCK_SIZE <= blockSize <= MAX_BLOCK_SIZE
  }

  /** A block as laid out in the body: big-endian out_len, big-endian in_len, payload. */
  function BlockBytes(b: Block): (r: seq<uint8>)
    ensures |r| == 8 + |Payload(b)|
  {
    BE32(|Output(b)|) + BE32(|Payload(b)|) + Payload(b)
  }

  function BodyBytes(blocks: seq<Block>): seq<uint8> {
    if blocks == [] then [] else BlockBytes(blocks[0]) + BodyBytes(blocks[1..])
  }

  function Outputs(blocks: seq<Block>): seq<uint8> {
    if blocks == [] then [] else Output(blocks[0]) + Outputs(blocks[1..])
  }

  /** The fixed header: magic, the flag bytes, the method, a level byte, the big-endian
      block size. */
  function Header(flags: seq<uint8>, level: uint8, blockSize: nat): (r: seq<uint8>)
    ensures |r| == |flags| + 14
  {
    MAGIC + flags + [METHOD_NRV2E, level] + BE32(blockSize)
  }

  /** A whole container: the header, the blocks, and the out_len == 0 terminator. */
  function Container(flags: seq<uint8>, level: uint8, blockSize: nat, blocks: seq<Block>): seq<uint8> {
    Header(flags, level, blockSize) + BodyBytes(blocks) + BE32(0)
  }

  /** The block list [b] + more, taken apart. */
  lemma Cons(dec: Decoder, b: Block, more: seq<Block>, blockSize: nat)
    ensures var blocks := [b] + more;
      blocks != [] && blocks[0] == b && blocks[1..] == more &&
      (ValidBlocks(dec, blocks, blockSize) <==> Sized(b, blockSize) && Decodes(dec, b) && ValidBlocks(dec, more, blockSize)) &&
      BodyBytes(blocks) == BlockBytes(b) + BodyBytes(more) && Outputs(blocks) == Output(b) + Outputs(more)
  {
    assert ([b] + more)[1..] == more;
  }

  /** What the block loop reads at `index` for block b: its out_len, its in_len, and its
      payload right after them. */
  predicate BlockRead(src: seq<uint8>, index: nat, b: Block) {
    ReadBE32(src, index) == Some(|Output(b)|) && ReadBE32(src, index + 4) == Some(|Payload(b)|) &&
    index + |BlockBytes(b)| <= |src| && src[index + 8 .. index + |BlockBytes(b)|] == Payload(b)
  }

  /** Where the bytes from `index` on are a block's followed by `after`, the loop reads that
      block there, and `after` follows it. */
  lemma BlockAt(src: seq<uint8>, index: nat, b: Block, after: seq<uint8>)
    requires Sized(b, MAX_BLOCK_SIZE)
    requires index <= |src| && src[index..] == BlockBytes(b) + after
    ensures BlockRead(src, index, b)
    ensures src[index + |BlockBytes(b)| ..] == after
  {
    var o, i, p := |Output(b)|, |Payload(b)|, Payload(b);
    assert src[index..] == BE32(o) + (BE32(i) + (p + after)) by {
      Associative(BE32(o) + BE32(i), p, after);
      Associative(BE32(o), BE32(i), p + after);
    }
    ReadBE32At(src, index, o, BE32(i) + (p + after));
    Peel(src, index, BE32(o), BE32(i) + (p + after));
    ReadBE32At(src, index + 4, i, p + after);
    Peel(src, index + 4, BE32(i), p + after);
    Peel(src, index + 8, p, after);
  }

  /** The converse of BlockAt: where the loop reads a block, the bytes from `index` on are
      the block's followed by the rest. */
  lemma BlockOfReads(src: seq<uint8>, index: nat, b: Block)
    requires BlockRead(src, index, b)
    ensures src[index..] == BlockBytes(b) + src[index + |BlockBytes(b)|..]
  {
    var next := index + |BlockBytes(b)|;
    ReadBE32Bytes(src, index);
    ReadBE32Bytes(src, index + 4);
    SuffixJoin(src, index, index + 4);
    SuffixJoin(src, index + 4, index + 8);
    SuffixJoin(src, index + 8, next);
    assert src[index..] == BE32(|Output(b)|) + (BE32(|Payload(b)|) + (Payload(b) + src[next..]));
    Regroup(BE32(|Output(b)|), BE32(|Payload(b)|), Payload(b), src[next..]);
  }

  /** A pass over a valid block the loop reads yields the block's output and moves past it. */
  lemma BlockStep(dec: Decoder, src: seq<uint8>, index: nat, blockSize: nat, b: Block)
    requires Sized(b, blockSize) && Decodes(dec, b) && BlockRead(src, index, b)
    ensures NextBlock(dec, src, index, blockSize) == Ok(Some(Chunk(Output(b), index + |BlockBytes(b)|)))
  {
  }

  /** A pass that yields a chunk continues the loop after it with its bytes appended. */
  lemma Unfold(dec: Decoder, src: seq<uint8>, index: nat, blockSize: nat, acc: seq<uint8>, chunk: Chunk)
    requires NextBlock(dec, src, index, blockSize) == Ok(Some(chunk))
    ensures Blocks(dec, src, index, blockSize, acc) == Blocks(dec, src, chunk.next, blockSize, acc + chunk.out)
  {
  }

  /** The terminator ends the block loop with what was unpacked before. */
  lemma TerminatorStep(dec: Decoder, src: seq<uint8>, index: nat, blockSize: nat, rest: seq<uint8>, acc: seq<uint8>)
    requires index <= |src| && src[index..] == BE32(0) + rest
    ensures Blocks(dec, src, index, blockSize, acc) == Ok(acc)
  {
    ReadBE32At(src, index, 0, rest);
  }

  /** The block loop over a body of valid blocks, the terminator and any `rest` yields the
      blocks' outputs, in order, after what was unpacked before. */
  lemma {:induction false} BlocksOfBody(dec: Decoder, src: seq<uint8>, index: nat, blockSize: nat, blocks: seq<Block>,
                                         rest: seq<uint8>, acc: seq<uint8>)
    requires blockSize <= MAX_BLOCK_SIZE && ValidBlocks(dec, blocks, blockSize)
    requires index <= |src| && src[index..] == BodyBytes(blocks) + BE32(0) + rest
    ensures Blocks(dec, src, index, blockSize, acc) == Ok(acc + Outputs(blocks))
    decreases |blocks|
  {
    if blocks == [] {
      assert BodyBytes(blocks) + BE32(0) == BE32(0);
      TerminatorStep(dec, src, index, blockSize, rest, acc);
      assert acc + Outputs(blocks) == acc;
    } else {
      var b, more := blocks[0], blocks[1..];
      assert blocks == [b] + more;
      Cons(dec, b, more, blockSize);
      Regroup(BlockBytes(b), BodyBytes(more), BE32(0), rest);
      BlockAt(src, index, b, BodyBytes(more) + BE32(0) + rest);
      var chunk := Chunk(Output(b), index + |BlockBytes(b)|);
      BlockStep(dec, src, index, blockSize, b);
      Unfold(dec, src, index, blockSize, acc, chunk);
      BlocksOfBody(dec, src, chunk.next, blockSize, more, rest, acc + Output(b));
      Associative(acc, Output(b), Outputs(more));
    }
  }

  /** The fields ucl_unpack reads from a header written by the layout: the magic, the method,
      the block size, and the body after them. */
  lemma HeaderReads(src: seq<uint8>, flags: seq<uint8>, level: uint8, blockSize: nat, body: seq<uint8>)
    requires ValidHeader(flags, blockSize)
    requires src == Header(flags, level, blockSize) + body
    ensures |src| >= HEADER_SIZE && src[..8] == MAGIC && src[12] == METHOD_NRV2E
    ensures ReadBE32(src, 14) == Some(blockSize) && src[HEADER_SIZE..] == body
  {
    assert src[..8] == MAGIC;
    assert src[12] == METHOD_NRV2E;
    assert src[14..] == BE32(blockSize) + body by {
      assert src[..14] == MAGIC + flags + [METHOD_NRV2E, level];
      Peel(src, 0, MAGIC + flags + [METHOD_NRV2E, level], BE32(blockSize) + body);
    }
    ReadBE32At(src, 14, blockSize, body);
  }

  /** A header whose magic, method and block size pass the checks hands the body to the
      block loop. */
  lemma HeaderPasses(dec: Decoder, src: seq<uint8>, blockSize: nat)
    requires |src| >= HEADER_SIZE && src[..8] == MAGIC && src[12] == METHOD_NRV2E
    requires ReadBE32(src, 14) == Some(blockSize) && MIN_BLOCK_SIZE <= blockSize <= MAX_BLOCK_SIZE
    ensures UnpackWith(dec, src) == Blocks(dec, src, HEADER_SIZE, blockSize, [])
  {
  }

  /** A buffer that starts with a valid header and goes on with a body of valid blocks, the
      terminator and any `rest` unpacks to the blocks' outputs. */
  lemma UnpackOfLayout(dec: Decoder, src: seq<uint8>, flags: seq<uint8>, level: uint8, blockSize: nat,
                       blocks: seq<Block>, rest: seq<uint8>)
    requires ValidHeader(flags, blockSize) && ValidBlocks(dec, blocks, blockSize)
    requires src == Header(flags, level, blockSize) + (BodyBytes(blocks) + BE32(0) + rest)
    ensures UnpackWith(dec, src) == Ok(Outputs(blocks))
  {
    HeaderReads(src, flags, level, blockSize, BodyBytes(blocks) + BE32(0) + rest);
    BlocksOfBody(dec, src, HEADER_SIZE, blockSize, blocks, rest, []);
    assert [] + Outputs(blocks) == Outputs(blocks);
    HeaderPasses(dec, src, blockSize);
  }

  /** The container round trip: every container built from valid blocks unpacks to the
      in-order concatenation of the blocks' outputs (stored blocks verbatim, compressed blocks
      as decoded), whatever follows the terminator. */
  lemma UnpackContainer(flags: seq<uint8>, level: uint8, blockSize: nat, blocks: seq<Block>, rest: seq<uint8>)
    requires ValidHeader(flags, blockSize) && ValidBlocks(Nrv2eSpec.Decode, blocks, blockSize)
    ensures Unpack(Container(flags, level, blockSize, blocks) + rest) == Ok(Outputs(blocks))
  {
    var header := Header(flags, level, blockSize);
    assert Container(flags, level, blockSize, blocks) + rest == header + (BodyBytes(blocks) + BE32(0) + rest) by {
      Associative(header, BodyBytes(blocks), BE32(0));
      Associative(header, BodyBytes(blocks) + BE32(0), rest);
    }
    UnpackOfLayout(Nrv2eSpec.Decode, Container(flags, level, blockSize, blocks) + rest, flags, level, blockSize, blocks, rest);
  }

  /** A block the loop accepts: where a pass yields a chunk, the loop reads a valid block
      there whose output is the chunk's bytes. */
  lemma BlockStepSound(dec: Decoder, src: seq<uint8>, index: nat, blockSize: nat) returns (b: Block)
    requires NextBlock(dec, src, index, blockSize).Ok? && NextBlock(dec, src, index, blockSize).value.Some?
    ensures Sized(b, blockSize) && Decodes(dec, b) && BlockRead(src, index, b)
    ensures NextBlock(dec, src, index, blockSize) == Ok(Some(Chunk(Output(b), index + |BlockBytes(b)|)))
  {
    var inLen := ReadBE32(src, index + 4).value;
    var payload := src[index + 8 .. index + 8 + inLen];
    if inLen < ReadBE32(src, index).value {
      b := Packed(payload, dec(payload).value);
    } else {
      b := Stored(payload);
    }
  }

  /** A pass that reads the terminator ends the loop with what was unpacked before, and the
      bytes from there on are an empty body, the terminator and the rest. */
  lemma AtTerminator(dec: Decoder, src: seq<uint8>, index: nat, blockSize: nat, acc: seq<uint8>)
    requires NextBlock(dec, src, index, blockSize) == Ok(None)
    ensures Blocks(dec, src, index, blockSize, acc) == Ok(acc)
    ensures index + 4 <= |src| && src[index..] == BodyBytes([]) + BE32(0) + src[index + 4..]
  {
    assert ReadBE32(src, index) == Some(0);
    ReadBE32Bytes(src, index);
    SuffixJoin(src, index, index + 4);
    assert BodyBytes([]) + BE32(0) == BE32(0);
  }

  /** The converse of BlocksOfBody: a block loop that yields `out` has walked over a body of
      valid blocks and its terminator, and `out` is their outputs after `acc`. */
  lemma {:induction false} BlocksSound(dec: Decoder, src: seq<uint8>, index: nat, blockSize: nat, acc: seq<uint8>,
                                        out: seq<uint8>)
    returns (blocks: seq<Block>, rest: seq<uint8>)
    requires blockSize <= MAX_BLOCK_SIZE && Blocks(dec, src, index, blockSize, acc) == Ok(out)
    ensures ValidBlocks(dec, blocks, blockSize)
    ensures index <= |src| && src[index..] == BodyBytes(blocks) + BE32(0) + rest
    ensures out == acc + Outputs(blocks)
    decreases |src| - index, 1
  {
    if NextBlock(dec, src, index, blockSize).value.None? {
      AtTerminator(dec, src, index, blockSize, acc);
      blocks, rest := [], src[index + 4..];
      assert acc + Outputs(blocks) == acc;
    } else {
      blocks, rest := BlocksSoundCons(dec, src, index, blockSize, acc, out);
    }
  }

  /** BlocksSound where the pass at `index` reads a block rather than the terminator. */
  lemma {:induction false} BlocksSoundCons(dec: Decoder, src: seq<uint8>, index: nat, blockSize: nat, acc: seq<uint8>,
                                            out: seq<uint8>)
    returns (blocks: seq<Block>, rest: seq<uint8>)
    requires blockSize <= MAX_BLOCK_SIZE && Blocks(dec, src, index, blockSize, acc) == Ok(out)
    requires NextBlock(dec, src, index, blockSize).value.Some?
    ensures ValidBlocks(dec, blocks, blockSize)
    ensures index <= |src| && src[index..] == BodyBytes(blocks) + BE32(0) + rest
    ensures out == acc + Outputs(blocks)
    decreases |src| - index, 0
  {
    var b := BlockStepSound(dec, src, index, blockSize);
    var next := index + |BlockBytes(b)|;
    Unfold(dec, src, index, blockSize, acc, Chunk(Output(b), next));
    var more;
    more, rest := BlocksSound(dec, src, next, blockSize, acc + Output(b), out);
    BlockOfReads(src, index, b);
    Cons(dec, b, more, blockSize);
    blocks := [b] + more;
    Regroup(BlockBytes(b), BodyBytes(more), BE32(0), rest);
    Associative(acc, Output(b), Outputs(more));
  }

  /** The converse of UnpackContainer: whatever ucl_unpack accepts is a container built from
      valid blocks, possibly followed by trailing bytes, and the result is the blocks' outputs. */
  lemma UnpackSound(src: seq<uint8>)
    returns (flags: seq<uint8>, level: uint8, blockSize: nat, blocks: seq<Block>, rest: seq<uint8>)
    requires Unpack(src).Ok?
    ensures ValidHeader(flags, blockSize) && ValidBlocks(Nrv2eSpec.Decode, blocks, blockSize)
    ensures src == Container(flags, level, blockSize, blocks) + rest
    ensures Unpack(src).value == Outputs(blocks)
  {
    var dec: Decoder := Nrv2eSpec.Decode;
    flags := src[8..12];
    level := src[13];
    blockSize := ReadBE32(src, 14).value;
    ReadBE32Bytes(src, 14);
    assert Unpack(src) == Blocks(dec, src, HEADER_SIZE, blockSize, []);
    blocks, rest := BlocksSound(dec, src, HEADER_SIZE, blockSize, [], Unpack(src).value);
    assert [] + Outputs(blocks) == Outputs(blocks);
    var header := Header(flags, level, blockSize);
    assert src[..HEADER_SIZE] == header by {
      assert src[..8] == MAGIC;
      assert src[12..14] == [METHOD_NRV2E, level];
      assert src[..HEADER_SIZE] == src[..8] + src[8..12] + src[12..14] + src[14..18];
    }
    assert src == header + (BodyBytes(blocks) + BE32(0) + rest) by {
      assert src == src[..HEADER_SIZE] + src[HEADER_SIZE..];
    }
    Associative(header, BodyBytes(blocks), BE32(0));
    Associative(header, BodyBytes(blocks) + BE32(0), rest);
  }
}
