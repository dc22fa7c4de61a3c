/** Modes '2' and '3' of fxload.c: seven commands from a fixed table go out on bulk
    endpoint 0x02, each followed by an optional data read and then a 13-byte status read
    on endpoint 0x81. The two completion callbacks decide what is submitted next. */
module FxCommands {
  import opened Bytes
  import opened Usb

  /** struct init_seq: a 31-byte command and the length of its data read, 0 for none. */
  datatype InitSeq = InitSeq(cmd: seq<byte>, flag: int)

  /** The callback a transfer is submitted with. */
  datatype Callback = SendComplete | RecvComplete

  /** A bulk transfer as libusb_fill_bulk_transfer prepares it: an OUT carrying `data`,
      or an IN of `length` bytes. */
  datatype Transfer =
    | BulkOut(endpoint: byte, data: seq<byte>, callback: Callback)
    | BulkIn(endpoint: byte, length: int, callback: Callback)

  /** What a callback does: submit the (refilled) transfer, or end the process. */
  datatype Outcome = Submitted(transfer: Transfer) | Exit(code: int)

  const TableSize := 31
  const CommandCount := 7
  const CommandSize := 31
  const StatusSize := 13
  const OutEndpoint: byte := 0x02
  const InEndpoint: byte := 0x81

  /** The first four bytes of every command. */
  const Signature: seq<byte> := [0x55, 0x53, 0x42, 0x43]

  /** The seven commands of the global `seq`, in order. */
  const Command0: seq<byte> := [0x55, 0x53, 0x42, 0x43, 0xcf, 0x31, 0x90, 0x00, 0x00, 0x00, 0x00, 0x00, 0x80, 0x00, 0x06, 0x00,
                                0x00, 0x00, 0x00, 0x00, 0x00, 0x00, 0x00, 0x00, 0x00, 0x00, 0x00, 0x00, 0x00, 0x00, 0x00]
  const Command1: seq<byte> := [0x55, 0x53, 0x42, 0x43, 0xe5, 0x59, 0x7a, 0x95, 0x00, 0x00, 0x00, 0x00, 0x80, 0x00, 0x06, 0x1b,
                                0x00, 0x00, 0x00, 0x00, 0x00, 0x00, 0x00, 0x00, 0x00, 0x00, 0x00, 0x00, 0x00, 0x00, 0x00]
  const Command2: seq<byte> := [0x55, 0x53, 0x42, 0x43, 0xdb, 0x2c, 0xbf, 0xd2, 0x00, 0x00, 0x00, 0x00, 0x80, 0x00, 0x06, 0x1a,
                                0x00, 0x00, 0x00, 0x00, 0x00, 0x00, 0x00, 0x00, 0x00, 0x00, 0x00, 0x00, 0x00, 0x00, 0x00]
  const Command3: seq<byte> := [0x55, 0x53, 0x42, 0x43, 0x03, 0x4d, 0x83, 0xb5, 0x00, 0x00, 0x00, 0x00, 0x80, 0x00, 0x06, 0x01,
                                0x00, 0x00, 0x00, 0x00, 0x00, 0x00, 0x00, 0x00, 0x00, 0x00, 0x00, 0x00, 0x00, 0x00, 0x00]
  const Command4: seq<byte> := [0x55, 0x53, 0x42, 0x43, 0x2a, 0x25, 0x5d, 0x17, 0x00, 0x00, 0x00, 0x00, 0x80, 0x00, 0x0a, 0x03,
                                0x00, 0x00, 0x00, 0x00, 0x00, 0x00, 0x02, 0x00, 0x00, 0x00, 0x00, 0x00, 0x00, 0x00, 0x00]
  const Command5: seq<byte> := [0x55, 0x53, 0x42, 0x43, 0x01, 0x1e, 0x72, 0xfd, 0x00, 0x00, 0x00, 0x00, 0x80, 0x00, 0x0a, 0x04,
                                0x00, 0x00, 0x00, 0x20, 0x00, 0x00, 0x00, 0x04, 0x00, 0x00, 0x00, 0x00, 0x00, 0x00, 0x00]
  const Command6: seq<byte> := [0x55, 0x53, 0x42, 0x43, 0x8b, 0x17, 0x6a, 0x6a, 0x00, 0x00, 0x00, 0x00, 0x00, 0x00, 0x06, 0xff,
                                0x00, 0x00, 0x00, 0x00, 0x00, 0x00, 0x00, 0x00, 0x00, 0x00, 0x00, 0x00, 0x00, 0x00, 0x00]

  /** The global `seq` as initialised: the seven commands with their read lengths, then
      all-zero entries. */
  function InitTable(): (t: seq<InitSeq>)
    ensures |t| == TableSize
  {
    [InitSeq(Command0, 0), InitSeq(Command1, 16), InitSeq(Command2, 11), InitSeq(Command3, 5),
     InitSeq(Command4, 64), InitSeq(Command5, 2112), InitSeq(Command6, 0)] +
    seq(TableSize - CommandCount, _ => InitSeq(seq(CommandSize, _ => 0), 0))
  }

  /** Every entry has a 31-byte command and a read length that is not negative. */
  ghost predicate WellFormed(t: seq<InitSeq>)
  {
    |t| == TableSize && forall k :: 0 <= k < |t| ==> |t[k].cmd| == CommandSize && t[k].flag >= 0
  }

  /** The transfers of one command: the command itself, the data read if its flag asks
      for one (completed through the same callback as the command), then the status read. */
  function CommandTrace(e: InitSeq): (w: seq<Transfer>)
    ensures |w| == if e.flag != 0 then 3 else 2
    ensures w[0] == BulkOut(OutEndpoint, e.cmd, SendComplete)
    ensures w[|w| - 1] == BulkIn(InEndpoint, StatusSize, RecvComplete)
  {
    [BulkOut(OutEndpoint, e.cmd, SendComplete)] +
    (if e.flag != 0 then [BulkIn(InEndpoint, e.flag, SendComplete)] else []) +
    [BulkIn(InEndpoint, StatusSize, RecvComplete)]
  }

  /** The transfers of the first `n` commands of `t`, in order. */
  function Trace(t: seq<InitSeq>, n: nat): seq<Transfer>
    requires n <= |t|
  {
    if n == 0 then [] else Trace(t, n - 1) + CommandTrace(t[n - 1])
  }

  /** How many of the first `n` entries ask for a data read. */
  function DataReads(t: seq<InitSeq>, n: nat): (c: nat)
    requires n <= |t|
    ensures c <= n
  {
    if n == 0 then 0 else DataReads(t, n - 1) + (if t[n - 1].flag != 0 then 1 else 0)
  }

  /** The first `n` commands of `t`. */
  function Commands(t: seq<InitSeq>, n: nat): (cs: seq<seq<byte>>)
    requires n <= |t|
    ensures |cs| == n && forall k :: 0 <= k < n ==> cs[k] == t[k].cmd
  {
    seq(n, k requires 0 <= k < n => t[k].cmd)
  }

  /** The data of the OUT transfers of `w`, in order. */
  function Sent(w: seq<Transfer>): seq<seq<byte>>
  {
    if w == [] then []
    else (if w[0].BulkOut? then [w[0].data] else []) + Sent(w[1..])
  }

  /** How many status reads `w` contains. */
  function StatusReads(w: seq<Transfer>): nat
  {
    if w == [] then 0
    else (if w[0] == BulkIn(InEndpoint, StatusSize, RecvComplete) then 1 else 0) + StatusReads(w[1..])
  }

  lemma {:induction false} SentAppend(a: seq<Transfer>, b: seq<Transfer>)
    ensures Sent(a + b) == Sent(a) + Sent(b)
    decreases |a|
  {
    if a == [] {
      assert a + b == b;
    } else {
      assert (a + b)[0] == a[0] && (a + b)[1..] == a[1..] + b;
      SentAppend(a[1..], b);
    }
  }

  lemma {:induction false} StatusReadsAppend(a: seq<Transfer>, b: seq<Transfer>)
    ensures StatusReads(a + b) == StatusReads(a) + StatusReads(b)
    decreases |a|
  {
    if a == [] {
      assert a + b == b;
    } else {
      assert (a + b)[0] == a[0] && (a + b)[1..] == a[1..] + b;
      StatusReadsAppend(a[1..], b);
    }
  }

  lemma {:induction false} SentOne(x: Transfer)
    ensures Sent([x]) == if x.BulkOut? then [x.data] else []
    ensures StatusReads([x]) == if x == BulkIn(InEndpoint, StatusSize, RecvComplete) then 1 else 0
  {
    assert [x][1..] == [];
  }

  /** One command puts its own bytes on the wire once and reads one status. */
  lemma {:induction false} CommandTraceSends(e: InitSeq)
    requires e.flag >= 0
    ensures Sent(CommandTrace(e)) == [e.cmd]
    ensures StatusReads(CommandTrace(e)) == 1
  {
    var out := BulkOut(OutEndpoint, e.cmd, SendComplete);
    var status := BulkIn(InEndpoint, StatusSize, RecvComplete);
    var mid := if e.flag != 0 then [BulkIn(InEndpoint, e.flag, SendComplete)] else [];
    SentOne(out);
    SentOne(status);
    if e.flag != 0 {
      SentOne(mid[0]);
    }
    SentAppend([out], mid);
    SentAppend([out] + mid, [status]);
    StatusReadsAppend([out], mid);
    StatusReadsAppend([out] + mid, [status]);
  }

  /** Each command costs two transfers, plus one for a data read. */
  lemma {:induction false} TraceLength(t: seq<InitSeq>, n: nat)
    requires n <= |t|
    ensures |Trace(t, n)| == 2 * n + DataReads(t, n)
  {
    if n > 0 {
      TraceLength(t, n - 1);
    }
  }

  /** The commands go out in table order, each exactly once, and every one of them is
      followed by exactly one status read. */
  lemma {:induction false} TraceSendsCommands(t: seq<InitSeq>, n: nat)
    requires WellFormed(t) && n <= |t|
    ensures Sent(Trace(t, n)) == Commands(t, n)
    ensures StatusReads(Trace(t, n)) == n
  {
    if n > 0 {
      TraceSendsCommands(t, n - 1);
      SentAppend(Trace(t, n - 1), CommandTrace(t[n - 1]));
      StatusReadsAppend(Trace(t, n - 1), CommandTrace(t[n - 1]));
      CommandTraceSends(t[n - 1]);
      assert Commands(t, n) == Commands(t, n - 1) + [t[n - 1].cmd];
    }
  }

  /** Every OUT goes to endpoint 0x02 with a 31-byte command and every IN comes from
      endpoint 0x81, of 13 bytes when it is a status read. */
  lemma {:induction false} TraceEndpoints(t: seq<InitSeq>, n: nat)
    requires WellFormed(t) && n <= |t|
    ensures forall k :: 0 <= k < |Trace(t, n)| ==>
      match Trace(t, n)[k]
      case BulkOut(ep, data, cb) => ep == OutEndpoint && |data| == CommandSize && cb == SendComplete
      case BulkIn(ep, len, cb) => ep == InEndpoint && (cb == RecvComplete ==> len == StatusSize)
  {
    if n > 0 {
      TraceEndpoints(t, n - 1);
      var a, b := Trace(t, n - 1), CommandTrace(t[n - 1]);
      assert forall k :: |a| <= k < |a| + |b| ==> (a + b)[k] == b[k - |a|];
    }
  }

  /** The table of fxload.c is well formed. */
  lemma InitTableWellFormed()
    ensures WellFormed(InitTable())
  {
    var t := InitTable();
    assert |Command0| == |Command1| == |Command2| == |Command3| == CommandSize;
    assert |Command4| == |Command5| == |Command6| == CommandSize;
    forall k | 0 <= k < TableSize
      ensures |t[k].cmd| == CommandSize && t[k].flag >= 0
    {
    }
  }

  /** Every command of the table starts with the signature "USBC". */
  lemma InitTableSignature()
    ensures forall k :: 0 <= k < CommandCount ==> Signature <= InitTable()[k].cmd
  {
    var t := InitTable();
    assert t[..CommandCount] == [InitSeq(Command0, 0), InitSeq(Command1, 16), InitSeq(Command2, 11), InitSeq(Command3, 5),
                                 InitSeq(Command4, 64), InitSeq(Command5, 2112), InitSeq(Command6, 0)];
  }

  /** Five of the seven commands ask for a data read, so the whole sequence is nineteen
      transfers. */
  lemma InitTraceLength()
    ensures DataReads(InitTable(), CommandCount) == 5
    ensures |Trace(InitTable(), CommandCount)| == 19
  {
    var t := InitTable();
    assert t[0].flag == 0 && t[1].flag == 16 && t[2].flag == 11 && t[3].flag == 5;
    assert t[4].flag == 64 && t[5].flag == 2112 && t[6].flag == 0;
    TraceLength(t, CommandCount);
  }

  /** Where the sequencer is within the current command: its OUT, its data read, or its
      status read has been submitted. */
  datatype Phase = CommandOut | DataIn | StatusIn

  /** The transfers of command `e` submitted so far in phase `p`. */
  function Partial(e: InitSeq, p: Phase): seq<Transfer>
  {
    match p
    case CommandOut => [BulkOut(OutEndpoint, e.cmd, SendComplete)]
    case DataIn => [BulkOut(OutEndpoint, e.cmd, SendComplete), BulkIn(InEndpoint, e.flag, SendComplete)]
    case StatusIn => CommandTrace(e)
  }

  /** The state of modes '2' and '3': the global table, cmd_count, and the one transfer
      every callback refills and resubmits. */
  class Sequencer {
    const table: array<InitSeq>
    var cmdCount: int
    var xfr: Transfer
    /** The table as initialised. */
    ghost const table0: seq<InitSeq>
    /** Every transfer submitted so far, in order. */
    ghost var wire: seq<Transfer>
    ghost var phase: Phase
    ghost var started: bool
    /** The process has ended: a callback answered with exit(3) or exit(0), and no
        further completion can arrive. */
    ghost var exited: bool

    /** The commands before cmd_count are done and had their read flags cleared; the
        transfers submitted are theirs, then those of the current command in its phase,
        the last of them being the one in flight; after the seventh, all seven are done. */
    ghost predicate Valid()
      reads this, table
    {
      table.Length == TableSize && WellFormed(table0) &&
      0 <= cmdCount <= CommandCount &&
      (forall k :: 0 <= k < TableSize ==> table[k].cmd == table0[k].cmd) &&
      (forall k :: 0 <= k < TableSize && k != cmdCount ==>
         table[k].flag == if k < cmdCount then 0 else table0[k].flag) &&
      (!started ==> cmdCount == 0 && wire == [] && table[0].flag == table0[0].flag) &&
      (started && cmdCount < CommandCount ==>
         wire == Trace(table0, cmdCount) + Partial(table0[cmdCount], phase) &&
         xfr == wire[|wire| - 1] &&
         table[cmdCount].flag == (if phase == CommandOut then table0[cmdCount].flag else 0) &&
         (phase == DataIn ==> table0[cmdCount].flag != 0)) &&
      (cmdCount == CommandCount ==> started && wire == Trace(table0, CommandCount) && table[cmdCount].flag == table0[cmdCount].flag)
    }

    /** The static initialisers: the table of fxload.c and cmd_count = 0. */
    constructor ()
      ensures Valid() && fresh(table) && table0 == InitTable() && table[..] == InitTable()
      ensures cmdCount == 0 && !started && !exited && wire == []
    {
      var t := InitTable();
      InitTableWellFormed();
      table := new InitSeq[TableSize](k requires 0 <= k < TableSize => t[k]);
      table0 := t;
      cmdCount := 0;
      xfr := BulkOut(OutEndpoint, t[0].cmd, SendComplete);
      wire, phase, started, exited := [], CommandOut, false, false;
    }

    /** Modes '2' and '3' of main: the command at cmd_count, 31 bytes to endpoint 0x02. */
    method Begin()
      requires Valid() && !started && !exited
      modifies this
      ensures Valid() && started && !exited && cmdCount == 0 && phase == CommandOut
      ensures xfr == BulkOut(OutEndpoint, table0[0].cmd, SendComplete) && wire == [xfr]
    {
      xfr := BulkOut(OutEndpoint, table[cmdCount].cmd, SendComplete);
      wire, phase, started := [xfr], CommandOut, true;
    }

    /** send_complete_cb: a failed transfer ends the process with exit code 3. Otherwise
        the status read follows when the current entry's flag is 0; when it is not, a read
        of `flag` bytes comes first, through this same callback, and the flag is cleared. */
    method OnSendComplete(status: Status) returns (r: Outcome)
      requires Valid() && started && !exited && cmdCount < CommandCount && xfr.callback == SendComplete
      modifies this, table
      ensures Valid() && cmdCount == old(cmdCount) && (exited <==> r.Exit?)
      ensures status != Completed ==> r == Exit(TransferFailedExit) && wire == old(wire) && unchanged(table)
      ensures status == Completed ==> r == Submitted(xfr) && wire == old(wire) + [xfr]
      ensures status == Completed && old(table[cmdCount].flag) == 0 ==>
        xfr == BulkIn(InEndpoint, StatusSize, RecvComplete) && phase == StatusIn && unchanged(table)
      ensures status == Completed && old(table[cmdCount].flag) != 0 ==>
        xfr == BulkIn(InEndpoint, old(table[cmdCount].flag), SendComplete) && phase == DataIn &&
        table[..] == old(table[..])[cmdCount := InitSeq(old(table[cmdCount].cmd), 0)]
    {
      if status != Completed {
        exited := true;
        return Exit(TransferFailedExit);
      }
      if table[cmdCount].flag == 0 {
        ReadStatus();
      } else {
        ReadData();
      }
      r := Submitted(xfr);
    }

    /** The command's flag is 0: the 13-byte status read, completed by recv_complete_cb. */
    method ReadStatus()
      requires Valid() && started && cmdCount < CommandCount && xfr.callback == SendComplete
      requires table[cmdCount].flag == 0
      modifies this
      ensures Valid() && cmdCount == old(cmdCount) && exited == old(exited) && wire == old(wire) + [xfr]
      ensures xfr == BulkIn(InEndpoint, StatusSize, RecvComplete) && phase == StatusIn
    {
      xfr := BulkIn(InEndpoint, StatusSize, RecvComplete);
      phase := StatusIn;
      wire := wire + [xfr];
    }

    /** The command's flag is not 0: a read of `flag` bytes, completed by send_complete_cb
        again, and the flag cleared so that the status read comes next. */
    method ReadData()
      requires Valid() && started && cmdCount < CommandCount && xfr.callback == SendComplete
      requires table[cmdCount].flag != 0
      modifies this, table
      ensures Valid() && cmdCount == old(cmdCount) && exited == old(exited) && wire == old(wire) + [xfr]
      ensures xfr == BulkIn(InEndpoint, old(table[cmdCount].flag), SendComplete) && phase == DataIn
      ensures table[..] == old(table[..])[cmdCount := InitSeq(old(table[cmdCount].cmd), 0)]
    {
      var flag := table[cmdCount].flag;
      xfr := BulkIn(InEndpoint, flag, SendComplete);
      table[cmdCount] := InitSeq(table[cmdCount].cmd, 0);
      phase := DataIn;
      wire := wire + [xfr];
    }

    /** recv_complete_cb: a failed transfer ends the process with exit code 3. Otherwise
        the command is done and cmd_count advances: the next command goes out, or after
        the seventh the process exits with 0. */
    method OnRecvComplete(status: Status) returns (r: Outcome)
      requires Valid() && started && !exited && cmdCount < CommandCount && xfr.callback == RecvComplete
      modifies this
      ensures Valid() && unchanged(table) && (exited <==> r.Exit?)
      ensures status != Completed ==> r == Exit(TransferFailedExit) && wire == old(wire) && cmdCount == old(cmdCount)
      ensures status == Completed ==> cmdCount == old(cmdCount) + 1 && wire == Trace(table0, cmdCount) + (if cmdCount < CommandCount then [xfr] else [])
      ensures status == Completed && cmdCount < CommandCount ==>
        r == Submitted(xfr) && xfr == BulkOut(OutEndpoint, table0[cmdCount].cmd, SendComplete) && wire == old(wire) + [xfr]
      ensures status == Completed && cmdCount == CommandCount ==> r == Exit(0) && wire == old(wire)
    {
      if status != Completed {
        exited := true;
        return Exit(TransferFailedExit);
      }
      cmdCount := cmdCount + 1;
      if cmdCount < CommandCount {
        xfr := BulkOut(OutEndpoint, table[cmdCount].cmd, SendComplete);
        wire, phase := wire + [xfr], CommandOut;
        r := Submitted(xfr);
      } else {
        exited := true;
        r := Exit(0);
      }
    }
  }
}
