/** The loader upload of fxload.c (mode '1'): the bootrom image goes to the device in
    vendor control transfers, one chunk per transfer, each chunk chosen in the
    completion callback of the previous one. */
module FxUpload {
  import opened Bytes
  import opened Usb

  /** The payload area of the transfer buffer. */
  const ChunkSize := 4096
  /** The length of the short chunk. */
  const ShortChunk := 2050
  /** wIndex of the first loader stage and of the second. */
  const DdrLoader := 0x0471
  const UsbPlugLoader := 0x0472
  /** bRequest of every upload transfer; wValue is always 0. */
  const UploadRequest: byte := 12
  /** The transfer buffer: the setup packet, then the payload area. */
  const BufferSize := SetupSize + ChunkSize

  /** One upload transfer: its wIndex, its wLength, and where in bootrom its payload starts. */
  datatype Chunk = Chunk(wIndex: int, len: int, srcOffset: int)

  /** What happens after a completion: another control transfer is submitted; the
      upload is over (do_exit is set); the process exits with `exitCode`; or the next
      chunk would be copied from beyond the end of bootrom, which the source does
      not check for. */
  datatype Next = Control(chunk: Chunk) | Done | Fail(exitCode: int) | Overrun(chunk: Chunk)

  /** The target address of chunk number `stage`. */
  function Address(stage: int): int
  {
    if stage < 3 then DdrLoader else UsbPlugLoader
  }

  /** Chunk number `stage`, starting at `offset` of a bootrom of `total` bytes.
      Chunk 0 is the one main sends; the others are chosen by cb_xfr. */
  function ChunkAt(stage: nat, offset: int, total: int): (c: Chunk)
    ensures c.srcOffset == offset && (c.len == ChunkSize || c.len == ShortChunk)
    ensures c.len == ShortChunk ==> stage != 0
  {
    var len := if stage != 0 && (stage == 2 || total - offset == ShortChunk) then ShortChunk else ChunkSize;
    Chunk(Address(stage), len, offset)
  }

  /** What is sent once `offset` bytes are out and chunk number `stage` is next:
      nothing when everything is out (never before chunk 0), otherwise the chunk,
      unless it reaches past the end of bootrom. */
  function Schedule(stage: nat, offset: int, total: int): (n: Next)
    ensures n.Control? ==> n.chunk.srcOffset == offset && 0 < n.chunk.len <= ChunkSize && offset + n.chunk.len <= total
    ensures n.Control? || n.Done? || n.Overrun?
  {
    if stage > 0 && offset == total then Done
    else
      var c := ChunkAt(stage, offset, total);
      if offset + c.len <= total then Control(c) else Overrun(c)
  }

  /** The decision cb_xfr takes when the transfer completes with `status`: stage is
      incremented before the next chunk is chosen. */
  function Step(stage: nat, offset: int, total: int, status: Status): (n: Next)
    ensures n.Fail? <==> status != Completed
    ensures n.Fail? ==> n.exitCode == TransferFailedExit
  {
    if status != Completed then Fail(TransferFailedExit) else Schedule(stage + 1, offset, total)
  }

  /** The chunks the upload sends from chunk `stage` on when every transfer completes,
      and whether it ends because everything was sent (rather than by an overrun). */
  datatype Upload = Upload(chunks: seq<Chunk>, complete: bool)

  function PlanFrom(stage: nat, offset: int, total: int): Upload
    requires 0 <= offset <= total
    decreases total - offset
  {
    match Schedule(stage, offset, total)
    case Control(c) =>
      var rest := PlanFrom(stage + 1, offset + c.len, total);
      Upload([c] + rest.chunks, rest.complete)
    case Done => Upload([], true)
    case _ => Upload([], false)
  }

  /** The whole upload of a bootrom of `total` bytes. */
  function Plan(total: nat): Upload
  {
    PlanFrom(0, 0, total)
  }

  /** The offset just past the last of `cs` when the first starts at `offset`. */
  function End(cs: seq<Chunk>, offset: int): int
    decreases |cs|
  {
    if cs == [] then offset else End(cs[1..], offset + cs[0].len)
  }

  /** `cs` are chunks number `stage`, `stage` + 1, ... laid end to end from `offset`,
      each one sent to its stage's address and each 4096 or 2050 bytes long. */
  ghost predicate Tiles(cs: seq<Chunk>, stage: nat, offset: int)
    decreases |cs|
  {
    cs == [] ||
    (cs[0].srcOffset == offset && cs[0].wIndex == Address(stage) &&
     (cs[0].len == ChunkSize || cs[0].len == ShortChunk) &&
     Tiles(cs[1..], stage + 1, offset + cs[0].len))
  }

  /** The bytes the chunks carry, in the order they are sent. */
  function Payloads(bootrom: seq<byte>, cs: seq<Chunk>): seq<byte>
    requires forall k :: 0 <= k < |cs| ==> 0 <= cs[k].srcOffset && 0 <= cs[k].len && cs[k].srcOffset + cs[k].len <= |bootrom|
    decreases |cs|
  {
    if cs == [] then [] else bootrom[cs[0].srcOffset..cs[0].srcOffset + cs[0].len] + Payloads(bootrom, cs[1..])
  }

  /** The upload's chunks are laid end to end from `offset`, never reach past the end
      of bootrom, and reach exactly its end when the upload completes. */
  lemma {:induction false} PlanTiles(stage: nat, offset: int, total: int)
    requires 0 <= offset <= total
    ensures var u := PlanFrom(stage, offset, total);
      Tiles(u.chunks, stage, offset) && offset <= End(u.chunks, offset) <= total &&
      (u.complete ==> End(u.chunks, offset) == total)
    decreases total - offset
  {
    var n := Schedule(stage, offset, total);
    if n.Control? {
      PlanTiles(stage + 1, offset + n.chunk.len, total);
      var u := PlanFrom(stage, offset, total);
      assert u.chunks[0] == n.chunk && u.chunks[1..] == PlanFrom(stage + 1, offset + n.chunk.len, total).chunks;
    }
  }

  /** Chunk j of a tiling is sent to the address of stage `stage` + j and is at most
      4096 bytes, so it fits the payload area of the transfer buffer. */
  lemma {:induction false} TilesAt(cs: seq<Chunk>, stage: nat, offset: int, j: nat)
    requires Tiles(cs, stage, offset) && j < |cs|
    ensures cs[j].wIndex == Address(stage + j)
    ensures cs[j].len == ChunkSize || cs[j].len == ShortChunk
    ensures offset <= cs[j].srcOffset && cs[j].srcOffset + cs[j].len <= End(cs, offset)
  {
    if j == 0 {
      EndAfter(cs[1..], stage + 1, offset + cs[0].len);
    } else {
      TilesAt(cs[1..], stage + 1, offset + cs[0].len, j - 1);
    }
  }

  lemma {:induction false} EndAfter(cs: seq<Chunk>, stage: nat, offset: int)
    requires Tiles(cs, stage, offset)
    ensures offset <= End(cs, offset)
    decreases |cs|
  {
    if cs != [] {
      EndAfter(cs[1..], stage + 1, offset + cs[0].len);
    }
  }

  /** Everything the upload sends, in order, is bootrom from `offset` on, each byte once:
      all of it when the upload completes. */
  lemma {:induction false} TilesPayloads(bootrom: seq<byte>, cs: seq<Chunk>, stage: nat, offset: int)
    requires Tiles(cs, stage, offset) && 0 <= offset <= End(cs, offset) <= |bootrom|
    ensures forall k :: 0 <= k < |cs| ==> 0 <= cs[k].srcOffset && 0 <= cs[k].len && cs[k].srcOffset + cs[k].len <= |bootrom|
    ensures Payloads(bootrom, cs) == bootrom[offset..End(cs, offset)]
    decreases |cs|
  {
    forall k | 0 <= k < |cs|
      ensures 0 <= cs[k].srcOffset && 0 <= cs[k].len && cs[k].srcOffset + cs[k].len <= |bootrom|
    {
      TilesAt(cs, stage, offset, k);
    }
    if cs != [] {
      var next := offset + cs[0].len;
      TilesAt(cs, stage, offset, 0);
      EndAfter(cs[1..], stage + 1, next);
      TilesPayloads(bootrom, cs[1..], stage + 1, next);
      assert bootrom[offset..End(cs, offset)] == bootrom[offset..next] + bootrom[next..End(cs, offset)];
    }
  }

  /** The upload of a bootrom that it completes delivers exactly that bootrom, chunk
      after chunk; chunk j goes to 0x0471 for j < 3 and to 0x0472 after, and carries
      at most 4096 bytes. */
  lemma UploadDeliversBootrom(bootrom: seq<byte>)
    requires Plan(|bootrom|).complete
    ensures var cs := Plan(|bootrom|).chunks;
      (forall j :: 0 <= j < |cs| ==> cs[j].wIndex == (if j < 3 then DdrLoader else UsbPlugLoader) && cs[j].len <= ChunkSize) &&
      (forall k :: 0 <= k < |cs| ==> 0 <= cs[k].srcOffset && 0 <= cs[k].len && cs[k].srcOffset + cs[k].len <= |bootrom|) &&
      Payloads(bootrom, cs) == bootrom
  {
    var cs := Plan(|bootrom|).chunks;
    PlanTiles(0, 0, |bootrom|);
    forall j | 0 <= j < |cs|
      ensures cs[j].wIndex == (if j < 3 then DdrLoader else UsbPlugLoader) && cs[j].len <= ChunkSize
    {
      TilesAt(cs, 0, 0, j);
    }
    TilesPayloads(bootrom, cs, 0, 0);
  }

  /** The bootrom sizes the upload completes for: 4096, 6146, 8192, and 10242 plus any
      multiple of 4096, possibly plus 2050. Any other size ends in an overrun. */
  predicate Completes(total: int)
  {
    total == ChunkSize || total == ChunkSize + ShortChunk || total == 2 * ChunkSize ||
    (total >= 2 * ChunkSize + ShortChunk &&
     ((total - 2 * ChunkSize - ShortChunk) % ChunkSize == 0 || (total - 2 * ChunkSize - ShortChunk) % ChunkSize == ShortChunk))
  }

  lemma {:induction false} PlanCompletesIff(total: nat)
    ensures Plan(total).complete <==> Completes(total)
  {
    if total < ChunkSize {
      assert Schedule(0, 0, total).Overrun?;
    } else {
      PlanStep(0, 0, total);
      var r := total - ChunkSize;
      if r == 0 {
        assert Schedule(1, ChunkSize, total) == Done;
      } else if r == ShortChunk {
        PlanStep(1, ChunkSize, total);
        assert Schedule(2, total, total) == Done;
      } else if r < ChunkSize {
        assert Schedule(1, ChunkSize, total).Overrun?;
      } else {
        PlanStep(1, ChunkSize, total);
        var r2 := total - 2 * ChunkSize;
        if r2 == 0 {
          assert Schedule(2, 2 * ChunkSize, total) == Done;
        } else if r2 < ShortChunk {
          assert Schedule(2, 2 * ChunkSize, total).Overrun?;
        } else {
          PlanStep(2, 2 * ChunkSize, total);
          SecondStageCompletes(3, 2 * ChunkSize + ShortChunk, total);
        }
      }
    }
  }

  /** Sending one chunk leaves the rest of the plan to the next stage. */
  lemma {:induction false} PlanStep(stage: nat, offset: int, total: int)
    requires 0 <= offset <= total && Schedule(stage, offset, total).Control?
    ensures var c := Schedule(stage, offset, total).chunk;
      c == ChunkAt(stage, offset, total) &&
      PlanFrom(stage, offset, total) == Upload([c] + PlanFrom(stage + 1, offset + c.len, total).chunks,
                                               PlanFrom(stage + 1, offset + c.len, total).complete)
  {
  }

  /** What the loader keeps invariant: the chunks sent so far followed by the rest of the
      plan from where they end make up the whole plan. Sending the next chunk keeps it;
      the plan ends where the schedule says Done or Overrun. */
  ghost predicate OnPlan(sent: seq<Chunk>, offset: int, total: nat)
  {
    0 <= offset <= total &&
    Plan(total) == Upload(sent + PlanFrom(|sent|, offset, total).chunks, PlanFrom(|sent|, offset, total).complete)
  }

  lemma {:induction false} PlanAdvance(sent: seq<Chunk>, offset: int, total: nat)
    requires OnPlan(sent, offset, total)
    ensures var n := Schedule(|sent|, offset, total);
      (n.Control? ==> OnPlan(sent + [n.chunk], offset + n.chunk.len, total)) &&
      (n.Done? ==> Plan(total) == Upload(sent, true)) &&
      (n.Overrun? ==> Plan(total) == Upload(sent, false))
  {
    var n := Schedule(|sent|, offset, total);
    if n.Control? {
      PlanStep(|sent|, offset, total);
      var rest := PlanFrom(|sent| + 1, offset + n.chunk.len, total);
      assert sent + ([n.chunk] + rest.chunks) == (sent + [n.chunk]) + rest.chunks;
    } else {
      assert PlanFrom(|sent|, offset, total).chunks == [];
      assert sent + [] == sent;
    }
  }

  /** From the fourth chunk on, the upload completes exactly when what remains is a
      multiple of 4096, possibly plus 2050. */
  lemma {:induction false} SecondStageCompletes(stage: nat, offset: int, total: int)
    requires stage >= 3 && 0 <= offset <= total
    ensures PlanFrom(stage, offset, total).complete <==>
      ((total - offset) % ChunkSize == 0 || (total - offset) % ChunkSize == ShortChunk)
    decreases total - offset
  {
    var r := total - offset;
    if r == ShortChunk {
      assert Schedule(stage + 1, total, total) == Done;
    } else if r >= ChunkSize {
      SecondStageCompletes(stage + 1, offset + ChunkSize, total);
      assert (r - ChunkSize) % ChunkSize == r % ChunkSize;
    } else if r > 0 {
      assert r % ChunkSize == r;
    }
  }

  /** The responses of cb_xfr to a series of completions, starting from `stage` and
      `offset`; a response other than a new transfer ends the series. */
  function Run(stage: nat, offset: int, total: int, statuses: seq<Status>): (out: seq<Next>)
    requires 0 <= offset <= total
    ensures |out| <= |statuses|
    decreases |statuses|
  {
    if statuses == [] then []
    else
      var n := Step(stage, offset, total, statuses[0]);
      if n.Control? then [n] + Run(stage + 1, offset + n.chunk.len, total, statuses[1..]) else [n]
  }

  /** Every failed transfer is fatal: the response to completion k is Fail(3) exactly
      when status k is not Completed. */
  lemma {:induction false} RunFault(stage: nat, offset: int, total: int, statuses: seq<Status>)
    requires 0 <= offset <= total
    ensures var out := Run(stage, offset, total, statuses);
      forall k :: 0 <= k < |out| ==> (out[k] == Fail(TransferFailedExit) <==> statuses[k] != Completed)
    decreases |statuses|
  {
    if statuses != [] {
      var n := Step(stage, offset, total, statuses[0]);
      if n.Control? {
        RunFault(stage + 1, offset + n.chunk.len, total, statuses[1..]);
        var out := Run(stage, offset, total, statuses);
        var tail := Run(stage + 1, offset + n.chunk.len, total, statuses[1..]);
        assert out == [n] + tail;
        forall k | 0 < k < |out| ensures out[k] == tail[k - 1] && statuses[k] == statuses[1..][k - 1] {}
      }
    }
  }

  /** Nothing is submitted after a response that is not a new transfer: every response
      but the last is one, and the run ends early only on a response that is not. */
  lemma {:induction false} RunStops(stage: nat, offset: int, total: int, statuses: seq<Status>)
    requires 0 <= offset <= total
    ensures var out := Run(stage, offset, total, statuses);
      (forall k :: 0 <= k < |out| - 1 ==> out[k].Control?) &&
      (|out| < |statuses| ==> out != [] && !out[|out| - 1].Control?)
    decreases |statuses|
  {
    if statuses != [] {
      var n := Step(stage, offset, total, statuses[0]);
      if n.Control? {
        RunStops(stage + 1, offset + n.chunk.len, total, statuses[1..]);
        var out := Run(stage, offset, total, statuses);
        var tail := Run(stage + 1, offset + n.chunk.len, total, statuses[1..]);
        assert out == [n] + tail;
        forall k | 0 < k < |out| ensures out[k] == tail[k - 1] {}
      }
    }
  }

  function AllCompleted(n: nat): (s: seq<Status>)
    ensures |s| == n && forall k :: 0 <= k < n ==> s[k] == Completed
  {
    if n == 0 then [] else [Completed] + AllCompleted(n - 1)
  }

  /** A run in which every transfer completes, one response at a time. */
  lemma {:induction false} RunCompleted(stage: nat, offset: int, total: int, n: nat)
    requires 0 <= offset <= total && n > 0
    ensures var s := Schedule(stage + 1, offset, total);
      Run(stage, offset, total, AllCompleted(n)) ==
        if s.Control? then [s] + Run(stage + 1, offset + s.chunk.len, total, AllCompleted(n - 1)) else [s]
  {
    var statuses := AllCompleted(n);
    assert statuses[0] == Completed && statuses[1..] == AllCompleted(n - 1);
  }

  /** When every transfer completes, cb_xfr submits exactly the planned chunks, in
      order, and then responds once more. */
  lemma {:induction false} RunFollowsPlan(stage: nat, offset: int, total: int, n: nat)
    requires 0 <= offset <= total
    requires n > |PlanFrom(stage + 1, offset, total).chunks|
    ensures var cs := PlanFrom(stage + 1, offset, total).chunks;
      var out := Run(stage, offset, total, AllCompleted(n));
      |out| == |cs| + 1 && forall k :: 0 <= k < |cs| ==> out[k] == Control(cs[k])
    decreases total - offset
  {
    var s := Schedule(stage + 1, offset, total);
    RunCompleted(stage, offset, total, n);
    if s.Control? {
      var next := offset + s.chunk.len;
      RunFollowsPlan(stage + 1, next, total, n - 1);
      var rest := PlanFrom(stage + 2, next, total).chunks;
      var tail := Run(stage + 1, next, total, AllCompleted(n - 1));
      assert PlanFrom(stage + 1, offset, total).chunks == [s.chunk] + rest;
      forall k | 0 < k < |rest| + 1
        ensures ([s] + tail)[k] == Control(([s.chunk] + rest)[k])
      {
        assert ([s] + tail)[k] == tail[k - 1];
      }
    }
  }

  /** The response after the planned chunks ends the upload: Done exactly when the plan
      completes, an overrun otherwise. */
  lemma {:induction false} RunEndsWithPlan(stage: nat, offset: int, total: int, n: nat)
    requires 0 <= offset <= total
    requires n > |PlanFrom(stage + 1, offset, total).chunks|
    ensures var cs := PlanFrom(stage + 1, offset, total).chunks;
      var out := Run(stage, offset, total, AllCompleted(n));
      |out| == |cs| + 1 &&
      (out[|cs|] == Done <==> PlanFrom(stage + 1, offset, total).complete) &&
      (out[|cs|].Done? || out[|cs|].Overrun?)
    decreases total - offset
  {
    var s := Schedule(stage + 1, offset, total);
    RunCompleted(stage, offset, total, n);
    RunFollowsPlan(stage, offset, total, n);
    if s.Control? {
      var next := offset + s.chunk.len;
      RunEndsWithPlan(stage + 1, next, total, n - 1);
      var rest := PlanFrom(stage + 2, next, total);
      var tail := Run(stage + 1, next, total, AllCompleted(n - 1));
      assert PlanFrom(stage + 1, offset, total) == Upload([s.chunk] + rest.chunks, rest.complete);
      assert ([s] + tail)[|rest.chunks| + 1] == tail[|rest.chunks|];
    }
  }

  /** The state of the upload in fxload.c: the globals stage, offset and total, the
      bootrom image, and the buffer main allocates and every transfer reuses. */
  class Loader {
    const bootrom: seq<byte>
    const total: int
    const buf: array<byte>
    var stage: int
    var offset: int
    var doExit: bool
    /** The chunks submitted so far, in order. */
    ghost var sent: seq<Chunk>
    /** A submitted transfer has not yet completed. */
    ghost var inFlight: bool

    /** The upload so far is the start of its plan, and the rest of the plan is what
        the state left behind produces. */
    ghost predicate Valid()
      reads this
    {
      total == |bootrom| && buf.Length == BufferSize &&
      0 <= stage && 0 <= offset <= total &&
      (if sent == [] then stage == 0 && offset == 0 && !inFlight
       else stage == |sent| - 1 || (!inFlight && stage == |sent|)) &&
      OnPlan(sent, offset, total)
    }

    /** The global initialisers, total = sizeof(bootrom), and the buffer of main. */
    constructor (image: seq<byte>)
      ensures Valid() && fresh(buf)
      ensures bootrom == image && stage == 0 && offset == 0 && !doExit && sent == [] && !inFlight
    {
      bootrom := image;
      total := |image|;
      buf := new byte[SetupSize + ChunkSize];
      stage, offset, doExit := 0, 0, false;
      sent, inFlight := [], false;
    }

    /** The transfer buffer holds chunk `c`: the setup packet of a vendor OUT request 12
        with wValue 0, wIndex and wLength those of `c`, then the bytes of `c`, then zeros. */
    ghost predicate Holds(c: Chunk)
      reads this, buf
    {
      buf.Length == BufferSize && total == |bootrom| &&
      0 <= c.wIndex < 0x1_0000 && 0 <= c.len <= ChunkSize && 0 <= c.srcOffset && c.srcOffset + c.len <= total &&
      buf[..SetupSize] == Setup(VendorOut, UploadRequest, 0, c.wIndex, c.len) &&
      buf[SetupSize..SetupSize + c.len] == bootrom[c.srcOffset..c.srcOffset + c.len] &&
      forall j :: SetupSize + c.len <= j < BufferSize ==> buf[j] == 0
    }

    /** memset, memcpy and libusb_fill_control_setup on the transfer buffer: the setup
        packet of a vendor OUT request 12 with wValue 0, the given wIndex and wLength,
        then `len` bytes of bootrom from `from`, then zeros. */
    method FillBuffer(wIndex: int, len: int, from: int)
      requires buf.Length == BufferSize && total == |bootrom|
      requires 0 <= wIndex < 0x1_0000 && 0 <= len <= ChunkSize && 0 <= from && from + len <= total
      modifies buf
      ensures Holds(Chunk(wIndex, len, from))
    {
      ZeroBuffer();
      CopyChunk(len, from);
      WriteSetup(wIndex, len);
    }

    /** memset(buf, 0, LIBUSB_CONTROL_SETUP_SIZE + 4096). */
    method ZeroBuffer()
      requires buf.Length == BufferSize
      modifies buf
      ensures forall j :: 0 <= j < BufferSize ==> buf[j] == 0
    {
      for i := 0 to buf.Length
        invariant forall j :: 0 <= j < i ==> buf[j] == 0
      {
        buf[i] := 0;
      }
    }

    /** memcpy(buf + LIBUSB_CONTROL_SETUP_SIZE, bootrom + from, len). */
    method CopyChunk(len: int, from: int)
      requires buf.Length == BufferSize && total == |bootrom|
      requires 0 <= len <= ChunkSize && 0 <= from && from + len <= total
      modifies buf
      ensures buf[SetupSize..SetupSize + len] == bootrom[from..from + len]
      ensures forall j :: 0 <= j < SetupSize || SetupSize + len <= j < BufferSize ==> buf[j] == old(buf[j])
    {
      for i := 0 to len
        invariant forall j :: SetupSize <= j < SetupSize + i ==> buf[j] == bootrom[from + j - SetupSize]
        invariant forall j :: 0 <= j < SetupSize || SetupSize + len <= j < BufferSize ==> buf[j] == old(buf[j])
      {
        buf[SetupSize + i] := bootrom[from + i];
      }
    }

    /** libusb_fill_control_setup(buf, LIBUSB_ENDPOINT_OUT | LIBUSB_REQUEST_TYPE_VENDOR, 12, 0, wIndex, len). */
    method WriteSetup(wIndex: int, len: int)
      requires buf.Length == BufferSize && 0 <= wIndex < 0x1_0000 && 0 <= len <= ChunkSize
      modifies buf
      ensures buf[..SetupSize] == Setup(VendorOut, UploadRequest, 0, wIndex, len)
      ensures forall j :: SetupSize <= j < BufferSize ==> buf[j] == old(buf[j])
    {
      var setup := Setup(VendorOut, UploadRequest, 0, wIndex, len);
      for i := 0 to SetupSize
        invariant forall j :: 0 <= j < i ==> buf[j] == setup[j]
        invariant forall j :: SetupSize <= j < BufferSize ==> buf[j] == old(buf[j])
      {
        buf[i] := setup[i];
      }
    }

    /** Mode '1' of main: stage 0, the first 4096 bytes of bootrom to 0x0471. */
    method Begin() returns (n: Next)
      requires Valid() && sent == []
      modifies this, buf
      ensures Valid() && n == Schedule(0, 0, total)
      ensures n.Control? ==> (n.chunk == Chunk(DdrLoader, ChunkSize, 0) && stage == 0 && offset == ChunkSize &&
                              sent == [n.chunk] && inFlight)
      ensures n.Control? ==> Holds(n.chunk)
      ensures n.Overrun? ==> (stage == 0 && offset == 0 && sent == [] && !inFlight && !Plan(total).complete &&
                              unchanged(buf))
      ensures doExit == old(doExit)
    {
      stage := 0;
      if offset + ChunkSize > total {
        return Overrun(Chunk(DdrLoader, ChunkSize, offset));
      }
      var c := Chunk(DdrLoader, ChunkSize, offset);
      offset := offset + ChunkSize;
      sent, inFlight := [c], true;
      n := Control(c);
      FillBuffer(DdrLoader, ChunkSize, 0);
    }

    /** cb_xfr: a failed transfer ends the process with exit code 3; once all of bootrom
        is out, the upload is over; otherwise the next chunk is sent. */
    method OnComplete(status: Status) returns (n: Next)
      requires Valid() && inFlight
      modifies this, buf
      ensures Valid() && n == Step(old(stage), old(offset), total, status)
      ensures n.Control? ==> (stage == old(stage) + 1 && offset == old(offset) + n.chunk.len &&
                              sent == old(sent) + [n.chunk] && inFlight && doExit == old(doExit))
      ensures n.Control? ==> Holds(n.chunk)
      ensures n.Done? ==> (doExit && !inFlight && stage == old(stage) && offset == total == old(offset) &&
                           sent == old(sent) && Plan(total) == Upload(sent, true) && unchanged(buf))
      ensures n.Fail? ==> (!inFlight && stage == old(stage) && offset == old(offset) && sent == old(sent) &&
                           doExit == old(doExit) && unchanged(buf))
      ensures n.Overrun? ==> (!inFlight && stage == old(stage) + 1 && offset == old(offset) && sent == old(sent) &&
                              doExit == old(doExit) && Plan(total) == Upload(sent, false) && unchanged(buf))
    {
      if status != Completed {
        inFlight := false;
        return Fail(TransferFailedExit);
      }
      if offset == total {
        PlanAdvance(sent, offset, total);
        doExit, inFlight := true, false;
        return Done;
      }
      n := SendNext();
    }

    /** The else branch of cb_xfr: the next stage, its address and length, the buffer
        refilled from `offset`, and `offset` advanced past the chunk. */
    method SendNext() returns (n: Next)
      requires Valid() && inFlight && offset != total
      modifies this, buf
      ensures Valid() && n == Schedule(old(stage) + 1, old(offset), total) && (n.Control? || n.Overrun?)
      ensures n.Control? ==> (stage == old(stage) + 1 && offset == old(offset) + n.chunk.len &&
                              sent == old(sent) + [n.chunk] && inFlight && doExit == old(doExit))
      ensures n.Control? ==> Holds(n.chunk)
      ensures n.Overrun? ==> (!inFlight && stage == old(stage) + 1 && offset == old(offset) && sent == old(sent) &&
                              doExit == old(doExit) && Plan(total) == Upload(sent, false) && unchanged(buf))
    {
      n := Advance();
      if n.Control? {
        FillBuffer(n.chunk.wIndex, n.chunk.len, n.chunk.srcOffset);
      }
    }

    /** The state change of the else branch of cb_xfr: the stage moves on and, when the
        chunk lies inside bootrom, `offset` moves past it. */
    method Advance() returns (n: Next)
      requires Valid() && inFlight && offset != total
      modifies this
      ensures Valid() && n == Schedule(old(stage) + 1, old(offset), total) && (n.Control? || n.Overrun?)
      ensures n.Control? ==> (stage == old(stage) + 1 && offset == old(offset) + n.chunk.len &&
                              sent == old(sent) + [n.chunk] && inFlight && doExit == old(doExit))
      ensures n.Control? ==> (0 <= n.chunk.wIndex < 0x1_0000 && 0 <= n.chunk.len <= ChunkSize &&
                              n.chunk.srcOffset == old(offset))
      ensures n.Overrun? ==> (!inFlight && stage == old(stage) + 1 && offset == old(offset) && sent == old(sent) &&
                              doExit == old(doExit) && Plan(total) == Upload(sent, false) && unchanged(buf))
    {
      PlanAdvance(sent, offset, total);
      var next := stage + 1;
      var addr := if next < 3 then DdrLoader else UsbPlugLoader;
      var len := if next == 2 || total - offset == ShortChunk then ShortChunk else ChunkSize;
      var c := Chunk(addr, len, offset);
      assert next == |sent| && c == ChunkAt(next, offset, total);
      if offset + len > total {
        assert Schedule(next, offset, total) == Overrun(c);
        stage, inFlight := next, false;
        return Overrun(c);
      }
      assert Schedule(next, offset, total) == Control(c);
      stage, offset := next, offset + len;
      sent := sent + [c];
      n := Control(c);
    }
  }
}
