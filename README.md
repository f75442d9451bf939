# Ingenic USB boot loader core, in Dafny

This project models the data path of a browser-side loader for Ingenic-based audio players
(main.js). The loader works in four steps:

1. It takes a bootloader archive (a tar file) and extracts three members from it: the first-stage
   image, a UCL container holding the second stage, and a version file.
2. It unpacks the UCL container block by block.
3. It decodes each compressed block with the NRV2E algorithm.
4. It sends both stages to the device over USB as a fixed sequence of vendor control requests
   and bulk transfers.

The NRV2E decoder, the UCL unpacker and the tar reader each have two files. The first describes
what the code computes as functions. The second is the code as written: loops over a mutable
state, proved equal to those functions. `read_be32`, the file handler's loading step and the
USB commands each have one file.

| file | module | contents |
|---|---|---|
| util.dfy | `Util` | bytes, `Option`/`Result`, `read_be32` and the big-endian writer it inverts |
| nrv2e_spec.dfy | `Nrv2eSpec` | the NRV2E bitstream as functions over a reader cursor; the decoder's rules as lemmas |
| nrv2e.dfy | `Nrv2e` | `ucl_nrv2e_decompress` as written: the `get_bit` state as a class, the nested loops, the overlapping copy |
| ucl_spec.dfy | `UclSpec` | `ucl_unpack` as functions; the container layout; proofs that it accepts exactly that layout |
| ucl.dfy | `Ucl` | `ucl_unpack` as written: the header checks and the block loop |
| tar_spec.dfy | `TarSpec` | `read_str`, `read_octal`, the header walk of `tar_extract`; the archive layout and what the walk finds in it |
| tar.dfy | `Tar` | the byte loops and the header loop of `tar_extract` as written |
| firmware.dfy | `Firmware` | the three extractions the file handler makes, and the unpacking of the second stage |
| ingenic_boot.dfy | `IngenicBoot` | the USB commands of `usb_vendor_req`, `usb_send`, `run_stage1` and `run_stage2`, as a log kept by a device object |

The two directions of the proofs are these:
- Completeness: a container, or an archive, built from valid parts is read back as those parts.
  See `UclSpec.UnpackContainer` and `TarSpec.ExtractFromArchive`.
- Soundness, for ucl_unpack: anything it accepts is such a container followed by any bytes
  (`UclSpec.UnpackSound`).
- Soundness, for tar_extract: the bytes returned are the data behind a 512-aligned header
  carrying the requested name and that size (`TarSpec.LookupFound`). tar_extract also accepts
  buffers that are not built archives: it needs no end marker, and it ignores every header
  byte outside the name and size fields.

What main.js does, and so what the model does:
- `tar_extract` reads only the name and size fields of a header. It checks no header checksum
  and ignores the entry type. A missing member is an error.
- The archive ends at two all-zero blocks, or where less than two blocks remain.
- A member whose data reaches the last byte of the buffer is rejected (`>=` at main.js:243).
- Stage 2 is always loaded and started at 0x80004000.
- The file handler extracts the first stage first, then the container, then the version file.

## Model

| member | source | states |
|---|---|---|
| Util.ReadBE32 | main.js:32-38 | fails exactly when fewer than four bytes are left at the offset; otherwise the value is below 2^32 |
| Util.BigEndianOfBE32 | main.js:37 | the big-endian value of the four bytes written for v is v |
| Util.BE32OfBigEndian | main.js:37 | four bytes are the big-endian encoding of the value read from them |
| Util.ReadBE32At | main.js:32-38 | reading at k, where the buffer continues with the encoding of v, gives v |
| Util.ReadBE32OfBE32 | main.js:32-38 | the round trip: read_be32 returns v from an encoding of v anywhere in a buffer |
| Util.ReadBE32Bytes | main.js:32-38 | the four bytes read are the encoding of the value returned |
| Nrv2eSpec.BitOf | main.js:52 | a bit of the held byte is 0 or 1 |
| Nrv2eSpec.ReadBit | main.js:48-63 | fails (InputOverrun) exactly when no bit is left; otherwise returns bit get_bit_index of the held byte, or of src[src_index] fetched when none is held, moves src_index on by one exactly when it fetches, counts the bit index down from 7 to 0 and back to 7, and consumes exactly one bit |
| Nrv2eSpec.ReadBits | main.js:48-63 | n successive get_bit calls fail exactly when fewer than n bits are left, and otherwise return n bits and consume n |
| Nrv2eSpec.HeldBits | main.js:48-63 | with a byte held at bit i, the next i + 1 bits are bits i down to 0 of that byte, and the reader then holds no byte, at the same src_index |
| Nrv2eSpec.BitsOrder | main.js:52 | the k-th bit returned from bit i down is bit i - k of the byte |
| Nrv2eSpec.BitsHalve | main.js:52 | the bits of a byte are the bits of its half followed by its lowest bit |
| Nrv2eSpec.BitsValueOfBits | main.js:52 | a byte's bits, most significant first, spell the byte |
| Nrv2eSpec.ByteOfBits | main.js:48-63 | from a reader holding no byte, eight get_bit calls return the bits of src[src_index] from bit 7 down to bit 0, which spell that byte, and leave src_index one further on with no byte held |
| Nrv2eSpec.ReadByte | main.js:70 | fails exactly at the end of the input; otherwise returns the byte at src_index, advances it by one and keeps the held bits |
| Nrv2eSpec.OffsetLoop | main.js:74-79 | the offset code is at least twice the starting m_off and consumes at least two bits |
| Nrv2eSpec.OffsetStop | main.js:77 | from the stop bit on, the offset code returned is at least the m_off so far, and at least one bit is consumed |
| Nrv2eSpec.OffsetMore | main.js:78 | from the continuation bit on, the offset code returned is at least the m_off so far, and at least three bits are consumed |
| Nrv2eSpec.LengthLoop | main.js:103-105 | the length loop's value is at least twice its start and consumes at least two bits |
| Nrv2eSpec.LengthCode | main.js:95-107 | m_len is 1 or 2 when the short-length flag is set, and at least 3 otherwise |
| Nrv2eSpec.MatchWith | main.js:95-111 | the match keeps the offset, makes it last_m_off, and has length at least 2 when the offset is above 0x500 |
| Nrv2eSpec.MatchToken | main.js:73-111 | a match header consumes input; a match's offset is at least 1 and becomes last_m_off; the end marker leaves last_m_off alone |
| Nrv2eSpec.AfterOffsetCode | main.js:81-111 | the same, for what follows the offset code |
| Nrv2eSpec.MatchHeaderRules | main.js:81-111 | code 2 reuses last_m_off as the offset, takes the next bit as the short-length flag, and adds one to the length when last_m_off is above 0x500; the stream ends exactly when (code-3)*256 + next byte is 0xffffffff; otherwise offset = folded/2 + 1 becomes last_m_off, the flag is the inverted low bit, and offsets above 0x500 add one to the length |
| Nrv2eSpec.Copy | main.js:113-118 | a copy of n bytes makes the output n bytes longer |
| Nrv2eSpec.CopyOverlap | main.js:113-118 | a copy keeps the output it extends, and each new byte equals the byte m_off positions before it, so overlapping runs repeat |
| Nrv2eSpec.LiteralAppends | main.js:69-71 | a 1 bit of the literal run appends exactly the next source byte |
| Nrv2eSpec.MatchAppends | main.js:113-118 | a match appends exactly m_len + 1 bytes, each the byte m_off before it; one reaching before the output's start is an error |
| Nrv2eSpec.RunExtends | main.js:68-119 | the output only grows: the bytes emitted so far start the result unchanged |
| Nrv2eSpec.RunMatchExtends | main.js:73-119 | the same, from a match header |
| Nrv2eSpec.RunStepExtends | main.js:113-119 | the same, from a decoded match |
| Nrv2eSpec.Run | main.js:68-119 | the outer decoding loop from a reader state, a last_m_off and the output so far; no contract of its own: RunExtends (the output only grows), LiteralAppends and MatchAppends (what one literal or one match appends) state its properties |
| Nrv2eSpec.RunMatch | main.js:73-119 | the loop from a match header on; no contract of its own: RunMatchExtends states that it only extends the output |
| Nrv2eSpec.RunStep | main.js:113-119 | a decoded match or the end marker, then the loop again; no contract of its own: RunStepExtends and MatchAppends state its properties |
| Nrv2eSpec.Decode | main.js:44-122 | ucl_nrv2e_decompress: the loop from index 0, bit 7, last_m_off 1 and an empty output; no contract of its own: Nrv2e.Decompress is proved equal to it, and RunExtends applies to it |
| Nrv2e.BitReader.constructor | main.js:45-47 | the reader starts at index 0, bit 7, with no byte held |
| Nrv2e.BitReader.GetBit | main.js:48-63 | get_bit returns, and leaves the state as, the bit reader function says |
| Nrv2e.BitReader.GetByte | main.js:70 | src[src_index++] returns, and leaves the state as, the byte reader function says |
| Nrv2e.ReadOffsetCode | main.js:74-79 | the offset loop computes the offset code function and leaves the reader after it |
| Nrv2e.ReadMatchLength | main.js:95-107 | the length branches compute the length code function |
| Nrv2e.ReadLengthLoop | main.js:102-106 | the do-while length loop computes the length loop function |
| Nrv2e.ReadMatchTail | main.js:81-111 | the match tail yields the token and last_m_off the header function gives |
| Nrv2e.ReadMatch | main.js:73-111 | a whole match header yields the token and last_m_off the header function gives |
| Nrv2e.CopyMatch | main.js:113-118 | the byte-by-byte copy through pos_index gives the copy function's output |
| Nrv2e.Decompress | main.js:44-122 | ucl_nrv2e_decompress returns what the decoder function gives |
| UclSpec.Unpack | main.js:124-186 | ucl_unpack with the NRV2E decoder; no contract of its own: UnpackContainer and UnpackSound state it in both directions, and Ucl.Unpack is proved equal to it |
| UclSpec.UnpackWith | main.js:124-186 | the header checks in the source's order, then the block loop from index 18; no contract of its own: HeaderReads, UnpackOfLayout and UnpackSound state its properties |
| UclSpec.Blocks | main.js:152-183 | the block loop from an index with the output so far; no contract of its own: Unfold, TerminatorStep, BlocksOfBody and BlocksSound state its properties |
| UclSpec.NextBlock | main.js:153-182 | a block read moves the source index forward and stays within the input |
| UclSpec.BlockAt | main.js:153-182 | the lengths and payload of a block written by the layout are where the loop reads them |
| UclSpec.BlockOfReads | main.js:153-182 | when the lengths and payload read are a block's, the input continues with that block's bytes |
| UclSpec.BlockStep | main.js:153-182 | a valid block in the layout makes one pass append its output and move past it |
| UclSpec.Unfold | main.js:152-183 | the loop after one accepted block is the loop from the next index with that block's output appended |
| UclSpec.TerminatorStep | main.js:153-157 | out_len 0 ends the loop with what has been unpacked |
| UclSpec.BlocksOfBody | main.js:152-185 | valid blocks followed by the terminator unpack to their outputs concatenated in order |
| UclSpec.HeaderReads | main.js:125-139 | a header written by the layout passes the length check, carries the magic and method 0x2e, gives back its block size through read_be32, and is followed by the body from index 18 |
| UclSpec.UnpackOfLayout | main.js:124-186 | a valid header with valid blocks unpacks to the blocks' outputs, for any block decoder |
| UclSpec.UnpackContainer | main.js:124-186 | any container of valid blocks (stored blocks verbatim, packed ones of exactly out_len bytes) unpacks to their outputs in order, whatever follows it |
| UclSpec.BlockStepSound | main.js:153-182 | an accepted block has sizes within the block size, in_len at most out_len, and a payload that decodes to exactly out_len bytes when packed |
| UclSpec.AtTerminator | main.js:153-157 | where the loop stops, the input holds a zero out_len |
| UclSpec.BlocksSound | main.js:152-185 | the loop accepts only valid blocks followed by the terminator, and returns their outputs in order |
| UclSpec.BlocksSoundCons | main.js:152-185 | the same, after one accepted block |
| UclSpec.UnpackSound | main.js:124-186 | anything ucl_unpack accepts is a valid container followed by other bytes, and the result is its blocks' outputs |
| Ucl.Unpack | main.js:124-186 | the header checks and the loop return what the unpack function gives |
| Ucl.UnpackBlocks | main.js:148-185 | the block loop returns what the block function gives |
| Ucl.UnpackBlock | main.js:153-182 | one pass gives the block function's result and grows dst by exactly that block's output |
| Ucl.AppendStored | main.js:176-180 | pushing in_len bytes appends exactly the stored payload |
| TarSpec.ReadStr | main.js:193-201 | read_str on the field at index; no contract of its own: it is CString of that field, and CStringSpec and CStringOfNameField state what it returns |
| TarSpec.OctalFrom | main.js:204-214 | the digit loop from an accumulated value; no contract of its own: OctalFromValue and OctalFromRejects state its result and its error |
| TarSpec.ReadOctal | main.js:203-215 | read_octal; no contract of its own: ReadOctalSpec and OctalRoundTrip state its result, its error and its inverse |
| TarSpec.RoundUp | main.js:249-254 | the skip over an entry's data; no contract of its own: RoundUpSpec states it |
| TarSpec.Lookup | main.js:222-236 | the header walk from current_header, stopping with not-found where fewer than 1024 bytes remain or they are all zero; no contract of its own: LookupOfLayout and LookupFound state its properties |
| TarSpec.LookupAt | main.js:238-254 | one header of the walk: name, size, the match with its strict bound, and the step to the next header; no contract of its own: EntryStep, LookupFound and ExactFitRejected state its properties |
| TarSpec.Extract | main.js:192-258 | tar_extract, the walk from header 0; no contract of its own: ExtractFromArchive, LookupFound and ExactFitRejected state its properties, and Tar.Extract is proved equal to it |
| TarSpec.CString | main.js:193-201 | the name read is at most as long as the field |
| TarSpec.CStringSpec | main.js:193-201 | the name is the characters of the bytes before the first NUL, and the field has a NUL right after it unless the name fills it |
| TarSpec.CStringOfNameField | main.js:193-201 | the round trip: a NUL-free name padded with NULs reads back as itself |
| TarSpec.DigitsValueBound | main.js:203-215 | an octal digit string is worth at least 0 and less than 8^k |
| TarSpec.OctalFromValue | main.js:205-213 | the read_octal loop over octal digits gives their base-8 value |
| TarSpec.OctalFromRejects | main.js:205-209 | the read_octal loop throws on any byte outside '0'..'7' |
| TarSpec.ReadOctalSpec | main.js:203-215 | read_octal(idx, n) inspects exactly n - 1 bytes and fails exactly when one is not an octal digit; otherwise it returns their base-8 value below 8^(n-1) |
| TarSpec.OctalDigitsValue | main.js:203-215 | a k-digit octal numeral is made of octal digits and is worth its number |
| TarSpec.OctalRoundTrip | main.js:203-215 | the round trip: read_octal reads back any size written as an octal numeral |
| TarSpec.RoundUpSpec | main.js:249-254 | the skip past an entry's data is a whole number of blocks, less than one block more than the size |
| TarSpec.HeaderFields | main.js:238-240 | from a header written by the layout, the name and size come back and the header block is not zero |
| TarSpec.EntryStep | main.js:222-254 | at an entry of the layout, tar_extract returns its data if the name matches and otherwise moves to the next entry |
| TarSpec.TerminatorStep | main.js:224-236 | at two zero blocks, the walk stops with not-found |
| TarSpec.LookupOfLayout | main.js:222-257 | over entries followed by the end marker, the walk finds the first entry with that name, or not-found |
| TarSpec.ExtractFromArchive | main.js:192-258 | tar_extract of an archive of valid entries returns the first entry named so, and throws not-found when none is |
| TarSpec.LookupFound | main.js:222-254 | whatever is returned is exactly size bytes, starting 512 bytes after a 512-aligned header whose name is the one requested and whose size field is that size, and ending before the archive's end |
| TarSpec.ExactFitRejected | main.js:243-245 | an entry whose data ends exactly at the end of the buffer is reported as past the end |
| Tar.ReadStr | main.js:193-201 | the read_str loop returns the field's name |
| Tar.ReadOctal | main.js:203-215 | the read_octal loop returns the size function's result |
| Tar.AtEnd | main.js:228-237 | the end scan says true exactly when the 1024 bytes are all zero |
| Tar.Extract | main.js:192-258 | the header loop returns what the walk function gives |
| Firmware.Load | main.js:353-357 | the first stage, the container and the version file extracted in that order, the first failure ending the load; no contract of its own: LoadFromArchive and LoadNeedsVersion state its properties, and LoadImages is proved equal to it |
| Firmware.LoadImages | main.js:353-357 | the file handler's extractions give the load function's result |
| Firmware.LoadFromArchive | main.js:353-357 | from an archive holding the first stage, a valid container and the version file, the handler gets the first stage and version as stored and the second stage as the container's outputs |
| Firmware.LoadNeedsVersion | main.js:357 | without a version file the handler fails |
| IngenicBoot.ShiftRight16 | main.js:275 | `argument >> 16` is a signed 16-bit number |
| IngenicBoot.Low16 | main.js:276 | `argument & 0xffff` lies in 0..0xffff and agrees with the argument modulo 2^16 |
| IngenicBoot.Field16 | main.js:275-276 | the number put in a 16-bit setup field lies in 0..0xffff and agrees with the given value modulo 2^16 |
| IngenicBoot.VendorRequest | main.js:270-278 | usb_vendor_req sends one control request with the given request number and two 16-bit fields; VendorRequestSplit states that they are the argument's top and bottom halves |
| IngenicBoot.SendTrace | main.js:280-284 | usb_send's address request, length request and bulk transfer on endpoint 1; no contract of its own: Stage1Wire and Stage2Wire spell it out, with Device.Send the method that appends it |
| IngenicBoot.Stage1Trace | main.js:286-289 | run_stage1's commands; no contract of its own: Stage1Wire spells them out |
| IngenicBoot.Stage2Trace | main.js:291-295 | run_stage2's commands; no contract of its own: Stage2Wire spells them out |
| IngenicBoot.ToInt32 | main.js:275-276 | the 32-bit signed value of an argument agrees with it modulo 2^32 |
| IngenicBoot.VendorRequestSplit | main.js:270-278 | a request's wValue is bits 16-31 and its wIndex bits 0-15 of the argument, so value * 65536 + index is the argument |
| IngenicBoot.Stage1Wire | main.js:286-289 | stage one sends address 0xf4001000, the length, the image on endpoint 1, and PROGRAM_START1 at 0xf4001800, in that order |
| IngenicBoot.Stage2Wire | main.js:291-295 | stage two sends address 0x80004000, the length, the image on endpoint 1, FLUSH_CACHES(0) and PROGRAM_START2 at 0x80004000, in that order |
| IngenicBoot.Device.constructor | main.js:396 | a fresh device has received nothing |
| IngenicBoot.Device.VendorReq | main.js:270-278 | one control request, with the split argument, is appended to what the device received |
| IngenicBoot.Device.TransferOut | main.js:283 | one bulk transfer is appended |
| IngenicBoot.Device.Send | main.js:280-284 | usb_send appends address, length and data, in that order, and nothing else |
| IngenicBoot.Device.RunStage1 | main.js:286-289 | run_stage1 appends exactly the stage-one commands |
| IngenicBoot.Device.RunStage2 | main.js:291-295 | run_stage2 appends exactly the stage-two commands |
| IngenicBoot.Boot | main.js:403-409 | a boot appends the stage-one then the stage-two commands, nine in all |

## Left out

- The page around the loading step: the player selection, the buttons, `debug_log`, and the WebUSB checks around the boot (main.js:311-423). These are user interface. The handler's three extractions and the unpacking (main.js:353-357) are modelled, in `Firmware`.
- `retrieve_file` and `fetch` (main.js:305-309). These are network input; the archive is a parameter.
- The WebUSB transport itself: `requestDevice`, `open`, `claimInterface`, `close` and the outcome of each transfer. The model records the commands sent, in order. A failed transfer, and the close-on-error path (main.js:416-419), are not modelled.
- `async`/`await` and the 500 ms pause between the stages (main.js:406). These are timing. `IngenicBoot.Boot` sends the two stages back to back.
- `TextDecoder` and the version string's line-ending strip (main.js:358). This is a foreign library call. `Firmware.Load` returns the version file's bytes.
- The player model's switch (main.js:340-351). This is user interface. The file extension is a parameter.
- Decompress: on corrupt input the original does not fail cleanly, and the model reports the error instead:
  - Reading past the end of the input gives `undefined`, which reads as 0 bits, so the original can loop for ever. The model reports InputOverrun.
  - A match reaching before the first output byte copies `undefined`. The model reports LookbehindOverrun.
  - A folded offset of 2^31 or more, other than 0xffffffff: the original's `^`, `&` and `>>=` see it modulo 2^32, as a signed 32-bit number. The model reports OffsetOverflow for all of these.
    - From 2^31 to 2^32 - 2 the signed number is negative, the offset comes out 0 or below, and the copy reads `undefined` past the end of the output.
    - From 2^32 on the original decodes an ordinary match from the folded offset modulo 2^32. For example, 2^32 + 10 gives offset 6 with the short-length flag set.
- UclSpec.Unpack: a block whose decoder reports one of these errors fails with DecodeFailed. The original has no such check, and would hang or go on with the undefined bytes.
- Util.ReadBE32: the original checks the length of, and reads from, the array's underlying buffer (`buf.buffer`). The model reads the array itself. The two agree for the freshly sliced arrays that ucl_unpack is given.
- TarSpec.ReadStr and TarSpec.ReadOctal: both require the field to lie inside the archive. tar_extract calls them only when at least 1024 bytes remain. Beyond the end of the array the original would read `undefined`.
- IngenicBoot.VendorRequest: the model assumes that the transport puts a number into a 16-bit wValue or wIndex field reduced modulo 2^16. main.js does not say how the conversion works. The assumption matters only for arguments from 2^31 to 2^32 - 1, where `argument >> 16` is negative; these include the stage-one addresses 0xf4001000 and 0xf4001800 and the stage-two address 0x80004000. If the transport range-checked the field instead, the first request to 0xf4001000 would fail, and the model does not capture that.
- UclSpec.UnpackWith: the block decoder is a parameter for the layout proofs. `UclSpec.Unpack` fixes it to the NRV2E decoder.
