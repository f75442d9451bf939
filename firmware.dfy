/** What the file button handler takes out of the bootloader archive (main.js:353-357): the
    first stage as stored, the second stage unpacked from its UCL container, and the
    version file. */
module Firmware {
  import opened Util
  import TarSpec
  import UclSpec
  import Nrv2eSpec
  import Tar
  import Ucl

  const BOOTLOADER_NAME: string := "bootloader.ucl"
  const VERSION_NAME: string := "bootloader-info.txt"

  /** The name of the first stage for a player whose files carry the extension `ext`. */
  function SplName(ext: string): string {
    "spl." + ext
  }

  /** What tar_extract or ucl_unpack threw. */
  datatype LoadError = ArchiveError(tarError: TarSpec.TarError) | ImageError(unpackError: UclSpec.UnpackError)

  datatype Images = Images(spl: seq<uint8>, bootloader: seq<uint8>, version: seq<uint8>)

  function FromArchive(r: Result<seq<uint8>, TarSpec.TarError>): Result<seq<uint8>, LoadError> {
    match r
    case Ok(v) => Ok(v)
    case Err(e) => Err(ArchiveError(e))
  }

  function FromImage(r: Result<seq<uint8>, UclSpec.UnpackError>): Result<seq<uint8>, LoadError> {
    match r
    case Ok(v) => Ok(v)
    case Err(e) => Err(ImageError(e))
  }

  /** The three extractions in the order the handler makes them; the first that throws ends
      the handler. */
  function Load(tar: seq<uint8>, ext: string): Result<Images, LoadError> {
    var spl :- FromArchive(TarSpec.Extract(tar, SplName(ext)));
    var packed :- FromArchive(TarSpec.Extract(tar, BOOTLOADER_NAME));
    var bootloader :- FromImage(UclSpec.Unpack(packed));
    var version :- FromArchive(TarSpec.Extract(tar, VERSION_NAME));
    Ok(Images(spl, bootloader, version))
  }

  /** The handler's steps (main.js:354-357), with the loops of tar_extract and ucl_unpack. */
  method LoadImages(tar: seq<uint8>, ext: string) returns (r: Result<Images, LoadError>)
    ensures r == Load(tar, ext)
  {
    var spl := Tar.Extract(tar, SplName(ext));
    if spl.Err? {
      return Err(ArchiveError(spl.error));
    }
    var packed := Tar.Extract(tar, BOOTLOADER_NAME);
    if packed.Err? {
      return Err(ArchiveError(packed.error));
    }
    var bootloader := Ucl.Unpack(packed.value);
    if bootloader.Err? {
      return Err(ImageError(bootloader.error));
    }
    var version := Tar.Extract(tar, VERSION_NAME);
    if version.Err? {
      return Err(ArchiveError(version.error));
    }
    return Ok(Images(spl.value, bootloader.value, version.value));
  }

  /** From an archive whose members include the first stage, a UCL container of blocks that
      decode, and the version file, the handler gets the first stage and the version as
      stored and the second stage as the blocks' outputs in order. */
  lemma LoadFromArchive(es: seq<TarSpec.Entry>, rest: seq<uint8>, ext: string,
                        spl: seq<uint8>, version: seq<uint8>, flags: seq<uint8>, level: uint8,
                        blockSize: nat, blocks: seq<UclSpec.Block>, tail: seq<uint8>)
    requires TarSpec.ValidEntries(es)
    requires TarSpec.FirstMatch(es, SplName(ext)) == Ok(spl)
    requires TarSpec.FirstMatch(es, BOOTLOADER_NAME) == Ok(UclSpec.Container(flags, level, blockSize, blocks) + tail)
    requires TarSpec.FirstMatch(es, VERSION_NAME) == Ok(version)
    requires UclSpec.ValidHeader(flags, blockSize) && UclSpec.ValidBlocks(Nrv2eSpec.Decode, blocks, blockSize)
    ensures Load(TarSpec.Archive(es) + rest, ext) == Ok(Images(spl, UclSpec.Outputs(blocks), version))
  {
    TarSpec.ExtractFromArchive(es, rest, SplName(ext));
    TarSpec.ExtractFromArchive(es, rest, BOOTLOADER_NAME);
    TarSpec.ExtractFromArchive(es, rest, VERSION_NAME);
    UclSpec.UnpackContainer(flags, level, blockSize, blocks, tail);
  }

  /** An archive without a version file yields nothing, even when both stages are there. */
  lemma LoadNeedsVersion(es: seq<TarSpec.Entry>, rest: seq<uint8>, ext: string)
    requires TarSpec.ValidEntries(es) && TarSpec.FirstMatch(es, VERSION_NAME) == Err(TarSpec.NotFound)
    ensures Load(TarSpec.Archive(es) + rest, ext).Err?
  {
    TarSpec.ExtractFromArchive(es, rest, VERSION_NAME);
  }
}
