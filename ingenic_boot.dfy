/** The Ingenic USB boot protocol as the commands it puts on the wire: vendor control
    requests carrying a 32-bit argument split in two halves, and bulk transfers to endpoint 1. */
module IngenicBoot {
  import opened Util

  const VR_SET_DATA_ADDRESS: nat := 1
  const VR_SET_DATA_LENGTH: nat := 2
  const VR_FLUSH_CACHES: nat := 3
  const VR_PROGRAM_START1: nat := 4
  const VR_PROGRAM_START2: nat := 5

  /** Where the first stage is loaded and where it is started. */
  const STAGE1_LOAD_ADDRESS: nat := 0xf400_1000
  const STAGE1_ENTRY: nat := 0xf400_1800
  /** Where the second stage is loaded and started. */
  const STAGE2_ADDRESS: nat := 0x8000_4000

  const BULK_ENDPOINT: nat := 1
  const HALF: nat := 0x1_0000

  /** One USB transfer from the host: a vendor request to the device with the wValue and
      wIndex fields as sent, or a bulk-out transfer. */
  datatype Command =
    | ControlOut(request: nat, value: nat, index: nat)
    | BulkOut(endpoint: nat, data: seq<uint8>)

  /** ToInt32, which JavaScript applies to both operands of `>>` and `&`. */
  function ToInt32(x: nat): (r: int)
    ensures -0x8000_0000 <= r < 0x8000_0000
    ensures (r - x) % U32_LIMIT == 0
  {
    var t := x % U32_LIMIT;
    if t >= 0x8000_0000 then t - U32_LIMIT else t
  }

  /** `argument >> 16`: an arithmetic shift of the argument modulo 2^32 read as a signed
      32-bit number, so negative for arguments from 2^31 to 2^32 - 1. */
  function ShiftRight16(argument: nat): (r: int)
    ensures -0x8000 <= r < 0x8000
  {
    ToInt32(argument) / HALF
  }

  /** `argument & 0xffff`: the low 16 bits of the two's-complement value. */
  function Low16(argument: nat): (r: int)
    ensures 0 <= r < HALF && (argument - r) % HALF == 0
  {
    ToInt32(argument) % HALF
  }

  /** The conversion of a number to a USB setup field of 16 bits: modulo 2^16. */
  function Field16(x: int): (r: nat)
    ensures r < HALF && (x - r) % HALF == 0
  {
    x % HALF
  }

  /** The control request usb_vendor_req (main.js:270-278) sends. */
  function VendorRequest(request: nat, argument: nat): (c: Command)
    ensures c.ControlOut? && c.request == request && c.value < HALF && c.index < HALF
  {
    ControlOut(request, Field16(ShiftRight16(argument)), Field16(Low16(argument)))
  }

  /** The commands usb_send (main.js:280-284) sends: the address, the length, the data. */
  function SendTrace(address: nat, data: seq<uint8>): seq<Command> {
    [VendorRequest(VR_SET_DATA_ADDRESS, address), VendorRequest(VR_SET_DATA_LENGTH, |data|),
     BulkOut(BULK_ENDPOINT, data)]
  }

  /** The commands run_stage1 (main.js:286-289) sends. */
  function Stage1Trace(spl: seq<uint8>): seq<Command> {
    SendTrace(STAGE1_LOAD_ADDRESS, spl) + [VendorRequest(VR_PROGRAM_START1, STAGE1_ENTRY)]
  }

  /** The commands run_stage2 (main.js:291-295) sends. */
  function Stage2Trace(bootloader: seq<uint8>): seq<Command> {
    SendTrace(STAGE2_ADDRESS, bootloader)
      + [VendorRequest(VR_FLUSH_CACHES, 0), VendorRequest(VR_PROGRAM_START2, STAGE2_ADDRESS)]
  }

  /** The two halves of a request's argument: wValue carries bits 16 to 31 and wIndex bits 0
      to 15, so together they are the argument, whatever the sign `>>` gives it. */
  lemma VendorRequestSplit(request: nat, argument: nat)
    requires argument < U32_LIMIT
    ensures var c := VendorRequest(request, argument);
      c.request == request && c.value < HALF && c.index < HALF &&
      c.value == argument / HALF && c.index == argument % HALF &&
      c.value * HALF + c.index == argument
  {
    var t := ToInt32(argument);
    if argument >= 0x8000_0000 {
      assert t == argument - U32_LIMIT;
      assert t / HALF == argument / HALF - HALF;
      assert t % HALF == argument % HALF;
    }
  }

  /** The first stage on the wire: its load address 0xf4001000 and its length, each as two
      halves, the image itself on endpoint 1, then the start at 0xf4001800. */
  lemma Stage1Wire(spl: seq<uint8>)
    requires |spl| < U32_LIMIT
    ensures Stage1Trace(spl) ==
      [ControlOut(VR_SET_DATA_ADDRESS, 0xf400, 0x1000),
       ControlOut(VR_SET_DATA_LENGTH, |spl| / HALF, |spl| % HALF),
       BulkOut(1, spl),
       ControlOut(VR_PROGRAM_START1, 0xf400, 0x1800)]
  {
    VendorRequestSplit(VR_SET_DATA_ADDRESS, STAGE1_LOAD_ADDRESS);
    VendorRequestSplit(VR_SET_DATA_LENGTH, |spl|);
    VendorRequestSplit(VR_PROGRAM_START1, STAGE1_ENTRY);
  }

  /** The second stage on the wire: loaded at 0x80004000, caches flushed with argument 0,
      then started at the address it was loaded to. */
  lemma Stage2Wire(bootloader: seq<uint8>)
    requires |bootloader| < U32_LIMIT
    ensures Stage2Trace(bootloader) ==
      [ControlOut(VR_SET_DATA_ADDRESS, 0x8000, 0x4000),
       ControlOut(VR_SET_DATA_LENGTH, |bootloader| / HALF, |bootloader| % HALF),
       BulkOut(1, bootloader),
       ControlOut(VR_FLUSH_CACHES, 0, 0),
       ControlOut(VR_PROGRAM_START2, 0x8000, 0x4000)]
  {
    VendorRequestSplit(VR_SET_DATA_ADDRESS, STAGE2_ADDRESS);
    VendorRequestSplit(VR_SET_DATA_LENGTH, |bootloader|);
    VendorRequestSplit(VR_FLUSH_CACHES, 0);
    VendorRequestSplit(VR_PROGRAM_START2, STAGE2_ADDRESS);
  }

  /** The host side of the device: what has been sent to it so far, in order. */
  class Device {
    var sent: seq<Command>

    constructor ()
      ensures sent == []
    {
      sent := [];
    }

    /** controlTransferOut of usb_vendor_req (main.js:270-278). */
    method VendorReq(request: nat, argument: nat)
      modifies this
      ensures sent == old(sent) + [VendorRequest(request, argument)]
    {
      var value := Field16(ShiftRight16(argument));
      var index := Field16(Low16(argument));
      sent := sent + [ControlOut(request, value, index)];
    }

    /** transferOut (main.js:283). */
    method TransferOut(endpoint: nat, data: seq<uint8>)
      modifies this
      ensures sent == old(sent) + [BulkOut(endpoint, data)]
    {
      sent := sent + [BulkOut(endpoint, data)];
    }

    /** usb_send (main.js:280-284). */
    method Send(address: nat, data: seq<uint8>)
      modifies this
      ensures sent == old(sent) + SendTrace(address, data)
    {
      VendorReq(VR_SET_DATA_ADDRESS, address);
      VendorReq(VR_SET_DATA_LENGTH, |data|);
      TransferOut(BULK_ENDPOINT, data);
    }

    /** run_stage1 (main.js:286-289). */
    method RunStage1(spl: seq<uint8>)
      modifies this
      ensures sent == old(sent) + Stage1Trace(spl)
    {
      Send(STAGE1_LOAD_ADDRESS, spl);
      VendorReq(VR_PROGRAM_START1, STAGE1_ENTRY);
    }

    /** run_stage2 (main.js:291-295). */
    method RunStage2(bootloader: seq<uint8>)
      modifies this
      ensures sent == old(sent) + Stage2Trace(bootloader)
    {
      Send(STAGE2_ADDRESS, bootloader);
      VendorReq(VR_FLUSH_CACHES, 0);
      VendorReq(VR_PROGRAM_START2, STAGE2_ADDRESS);
    }
  }

  /** The boot of the load button handler (main.js:403-409), stage one then stage two, with
      the pause between them left out: the nine commands of the two stages, in that order. */
  method Boot(device: Device, spl: seq<uint8>, bootloader: seq<uint8>)
    modifies device
    ensures device.sent == old(device.sent) + Stage1Trace(spl) + Stage2Trace(bootloader)
    ensures |device.sent| == |old(device.sent)| + 9
  {
    device.RunStage1(spl);
    device.RunStage2(bootloader);
  }
}
