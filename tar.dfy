/** tar_extract as the original writes it: byte loops for the two header fields and the end
    marker, and a loop that walks the headers. */
module Tar {
  import opened Util
  import opened TarSpec

  /** read_str (main.js:193-201). */
  method ReadStr(tar: seq<uint8>, index: nat, maxLength: nat) returns (s: string)
    requires index + maxLength <= |tar|
    ensures s == TarSpec.ReadStr(tar, index, maxLength)
  {
    s := "";
    var ix := 0;
    while ix < maxLength
      invariant ix <= maxLength
      invariant CString(tar[index .. index + maxLength]) == s + CString(tar[index + ix .. index + maxLength])
    {
      var b := tar[index + ix];
      if b == 0 {
        break;
      }
      assert tar[index + ix .. index + maxLength][1..] == tar[index + ix + 1 .. index + maxLength];
      s := s + [ByteChar(b)];
      ix := ix + 1;
    }
  }

  /** read_octal (main.js:203-215). */
  method ReadOctal(tar: seq<uint8>, index: nat, maxLength: nat) returns (r: Result<nat, TarError>)
    requires index + FieldDigits(maxLength) <= |tar|
    ensures r == TarSpec.ReadOctal(tar, index, maxLength)
  {
    var digits := FieldDigits(maxLength);
    var n: nat := 0;
    for ix := 0 to digits
      invariant OctalFrom(tar[index + ix .. index + digits], n) == TarSpec.ReadOctal(tar, index, maxLength)
    {
      var c := tar[index + ix];
      if c < 0x30 || c > 0x37 {
        return Err(InvalidOctalDigit);
      }
      assert tar[index + ix .. index + digits][1..] == tar[index + ix + 1 .. index + digits];
      n := n * 8 + (c - 0x30) as nat;
    }
    return Ok(n);
  }

  /** The end-of-archive scan (main.js:228-237): whether the two blocks at `header` are all
      zero. */
  method AtEnd(tar: seq<uint8>, header: nat) returns (atEnd: bool)
    requires header + END_OF_ARCHIVE_SIZE <= |tar|
    ensures atEnd <==> AllZero(tar[header .. header + END_OF_ARCHIVE_SIZE])
  {
    atEnd := true;
    for ix := 0 to END_OF_ARCHIVE_SIZE
      invariant forall i :: header <= i < header + ix ==> tar[i] == 0
    {
      if tar[header + ix] != 0 {
        assert tar[header .. header + END_OF_ARCHIVE_SIZE][ix] != 0;
        atEnd := false;
        break;
      }
    }
    if atEnd {
      var block := tar[header .. header + END_OF_ARCHIVE_SIZE];
      assert forall i :: 0 <= i < END_OF_ARCHIVE_SIZE ==> block[i] == tar[header + i];
    }
  }

  /** tar_extract (main.js:192-258). */
  method Extract(tar: seq<uint8>, filename: string) returns (r: Result<seq<uint8>, TarError>)
    ensures r == TarSpec.Extract(tar, filename)
  {
    var header: nat := 0;
    while true
      invariant Lookup(tar, filename, header) == TarSpec.Extract(tar, filename)
      decreases Left(tar, header)
    {
      if |tar| - header < END_OF_ARCHIVE_SIZE {
        break;
      }
      var atEnd := AtEnd(tar, header);
      if atEnd {
        break;
      }
      assert Lookup(tar, filename, header) == LookupAt(tar, filename, header);
      var name := ReadStr(tar, header, NAME_LENGTH);
      var size :- ReadOctal(tar, header + SIZE_OFFSET, SIZE_LENGTH);
      if name == filename {
        if header + BLOCK_SIZE + size >= |tar| {
          return Err(PastEndOfArchive);
        }
        return Ok(tar[header + BLOCK_SIZE .. header + BLOCK_SIZE + size]);
      }
      header := header + BLOCK_SIZE;
      header := header + size;
      if size % BLOCK_SIZE != 0 {
        header := header + (BLOCK_SIZE - size % BLOCK_SIZE);
      }
    }
    return Err(NotFound);
  }
}
