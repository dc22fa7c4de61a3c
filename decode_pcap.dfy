/** decode_pcap.c: reads a USBPcap capture and writes, as C source, a table holding the
    payload of every bulk OUT transfer to endpoint 2 of 32 to 8448 bytes, one sector per
    transfer, ended by an entry of length -1. The capture is the mapped file; the
    output file is the text written to it. */
module DecodePcap {
  import opened Bytes
  import opened HexText

  /** sizeof(struct pcap_file_header) and sizeof(pcaprec_hdr_t). */
  const GlobalHeaderSize := 24
  const RecordHeaderSize := 16
  /** The largest payload a sector holds (uint8_t data[8448]); payloads of 31 bytes or
      fewer are left out. */
  const MaxData := 8448
  const MinData := 31
  const DataEndpoint: byte := 0x02
  const BulkTransfer: byte := 0x03

  /** Offsets within the packed packet header: headerLen at 0, endpoint at 21, transfer
      at 22, dataLength at 23, stage at 27. */
  const EndpointField := 21
  const TransferField := 22
  const DataLengthField := 23
  const StageField := 27

  /** Where the packet header of the record at `at` starts. */
  function Packet(at: int): int
  {
    at + RecordHeaderSize
  }

  /** incl_len of the record header at `at`. */
  function InclLen(file: seq<byte>, at: int): (n: int)
    requires 0 <= at && at + RecordHeaderSize <= |file|
    ensures 0 <= n < 0x1_0000_0000
  {
    U32At(file, at + 8)
  }

  /** The endpoint byte of the record at `at`, the first field the loop reads. */
  function Endpoint(file: seq<byte>, at: int): byte
    requires 0 <= at && Packet(at) + EndpointField < |file|
  {
    file[Packet(at) + EndpointField]
  }

  /** The reads of the two if conditions lie inside the file. Both conditions stop early:
      stage is read only on endpoint 0, transfer only on endpoint 2, and dataLength only
      when transfer is 3 as well. */
  predicate HeadersFit(file: seq<byte>, at: int)
  {
    0 <= at && Packet(at) + EndpointField < |file| &&
    (Endpoint(file, at) == 0 ==> Packet(at) + StageField < |file|) &&
    (Endpoint(file, at) == DataEndpoint ==>
       Packet(at) + TransferField < |file| &&
       (file[Packet(at) + TransferField] == BulkTransfer ==> Packet(at) + DataLengthField + 4 <= |file|))
  }

  /** dataLength of the record at `at`, little-endian. */
  function DataLength(file: seq<byte>, at: int): (n: int)
    requires 0 <= at && Packet(at) + DataLengthField + 4 <= |file|
    ensures 0 <= n < 0x1_0000_0000
  {
    U32At(file, Packet(at) + DataLengthField)
  }

  /** The transfers the extractor keeps: bulk, on endpoint 2, with more than 31 and at
      most 8448 bytes. */
  predicate Selected(file: seq<byte>, at: int)
    requires HeadersFit(file, at)
  {
    Endpoint(file, at) == DataEndpoint && file[Packet(at) + TransferField] == BulkTransfer &&
    MinData < DataLength(file, at) <= MaxData
  }

  /** Where the payload of the record at `at` starts: after the record header and the
      packet header's own headerLen bytes. */
  function PayloadStart(file: seq<byte>, at: int): (start: int)
    requires 0 <= at && Packet(at) + 2 <= |file|
    ensures at + RecordHeaderSize <= start < at + RecordHeaderSize + 0x1_0000
  {
    Packet(at) + U16At(file, Packet(at))
  }

  /** The round of the loop at `at` reads only inside the file: the fields its if
      conditions read, and the payload when the transfer is selected. */
  predicate RecordFits(file: seq<byte>, at: int)
  {
    HeadersFit(file, at) &&
    (Selected(file, at) ==> PayloadStart(file, at) + DataLength(file, at) <= |file|)
  }

  /** A record on an endpoint other than 0 and 2 needs only its endpoint byte inside the
      file: nothing else is read, and it contributes no sector. */
  lemma OtherEndpointFits(file: seq<byte>, at: int)
    requires 0 <= at && Packet(at) + EndpointField < |file|
    requires Endpoint(file, at) != 0 && Endpoint(file, at) != DataEndpoint
    ensures RecordFits(file, at) && Kept(file, at) == []
  {
  }

  /** The offset of the record after the one at `at`. */
  function NextRecord(file: seq<byte>, at: int): (next: int)
    requires 0 <= at && at + RecordHeaderSize <= |file|
    ensures next >= at + RecordHeaderSize
  {
    at + RecordHeaderSize + InclLen(file, at)
  }

  /** One sector of the table: its length and its bytes. */
  datatype Entry = Entry(len: int, data: seq<byte>)

  /** {.len = -1}, the entry that ends the table. */
  const Sentinel := Entry(-1, [])

  /** The sector the record at `at` contributes: its payload if the transfer is
      selected, none otherwise. */
  function Kept(file: seq<byte>, at: int): (es: seq<Entry>)
    requires RecordFits(file, at)
    ensures |es| <= 1 && (es != [] ==> MinData < es[0].len <= MaxData && |es[0].data| == es[0].len)
  {
    if Selected(file, at) then
      var start, len := PayloadStart(file, at), DataLength(file, at);
      [Entry(len, file[start..start + len])]
    else []
  }

  /** The end of a walk over the records: the sectors found and the offset where the
      loop stopped, or the offset of the record whose round reads beyond the end of the
      file. */
  datatype Walk = Walked(entries: seq<Entry>, end: int) | PastEnd(at: int)

  function Prepend(es: seq<Entry>, w: Walk): Walk
  {
    match w
    case Walked(rest, end) => Walked(es + rest, end)
    case PastEnd(at) => PastEnd(at)
  }

  /** The loop of main from `off`: read the fields the if conditions test, keep
      the payload if the transfer is selected, move on by incl_len. The loop runs while
      `off` < |file|, or while `off` <= |file| when `inclusive`. */
  function WalkWith(file: seq<byte>, off: int, inclusive: bool): (w: Walk)
    requires 0 <= off
    ensures w.Walked? ==> w.end >= |file| && w.end >= off && (w.end == |file| ==> !inclusive)
    ensures w.PastEnd? ==> off <= w.at <= |file|
    decreases |file| + 1 - off
  {
    if off > |file| || (off == |file| && !inclusive) then Walked([], off)
    else if !RecordFits(file, off) then PastEnd(off)
    else Prepend(Kept(file, off), WalkWith(file, NextRecord(file, off), inclusive))
  }

  /** The walk as the loop should run, stopping at the end of the file. */
  function WalkFrom(file: seq<byte>, off: int): Walk
    requires 0 <= off
  {
    WalkWith(file, off, false)
  }

  /** The walk as written, with `offset <= info.st_size`. */
  function WalkAsWritten(file: seq<byte>, off: int): Walk
    requires 0 <= off
  {
    WalkWith(file, off, true)
  }

  lemma {:induction false} PrependAssoc(a: seq<Entry>, b: seq<Entry>, w: Walk)
    ensures Prepend(a, Prepend(b, w)) == Prepend(a + b, w)
  {
    if w.Walked? {
      assert a + (b + w.entries) == (a + b) + w.entries;
    }
  }

  /** The offsets of the records from `off` on, following incl_len, or None when some
      record header does not fit in the file. */
  function RecordsFrom(file: seq<byte>, off: int): Option<seq<int>>
    requires 0 <= off
    decreases |file| - off
  {
    if off >= |file| then Some([])
    else if off + RecordHeaderSize > |file| then None
    else
      match RecordsFrom(file, NextRecord(file, off))
      case None => None
      case Some(rs) => Some([off] + rs)
  }

  /** Every record of `rs` can be read. */
  predicate AllFit(file: seq<byte>, rs: seq<int>)
    decreases |rs|
  {
    rs == [] || (RecordFits(file, rs[0]) && AllFit(file, rs[1..]))
  }

  /** The sectors of the records `rs`, in order. Each holds its transfer's dataLength
      bytes, more than 31 and at most 8448. */
  function Filter(file: seq<byte>, rs: seq<int>): (es: seq<Entry>)
    requires AllFit(file, rs)
    ensures |es| <= |rs|
    ensures forall k :: 0 <= k < |es| ==> MinData < es[k].len <= MaxData && |es[k].data| == es[k].len
    decreases |rs|
  {
    if rs == [] then [] else Kept(file, rs[0]) + Filter(file, rs[1..])
  }

  /** The walk succeeds exactly when the file splits into records that can all be read,
      and then its sectors are the selected records' payloads in file order. */
  lemma {:induction false} WalkIsFilter(file: seq<byte>, off: int)
    requires 0 <= off
    ensures WalkFrom(file, off).Walked? <==> (RecordsFrom(file, off).Some? && AllFit(file, RecordsFrom(file, off).value))
    ensures WalkFrom(file, off).Walked? ==> WalkFrom(file, off).entries == Filter(file, RecordsFrom(file, off).value)
    decreases |file| - off
  {
    if off < |file| && off + RecordHeaderSize <= |file| {
      var next := NextRecord(file, off);
      WalkIsFilter(file, next);
      if RecordsFrom(file, next).Some? {
        var rs := [off] + RecordsFrom(file, next).value;
        assert rs[1..] == RecordsFrom(file, next).value;
      }
    }
  }

  /** The loop guard `offset <= info.st_size`. Whenever the loop as it should run stops exactly at the
      end of the file, which it does for every capture that ends with a whole record,
      the loop as written goes round once more and reads a record header beyond the end
      of the mapping; when it stops beyond the end, the two agree. */
  lemma {:induction false} AsWrittenReadsPastEnd(file: seq<byte>, off: int)
    requires 0 <= off && WalkFrom(file, off).Walked?
    ensures var w := WalkFrom(file, off);
      WalkAsWritten(file, off) == if w.end == |file| then PastEnd(|file|) else w
    decreases |file| + 1 - off
  {
    if off < |file| && RecordFits(file, off) {
      AsWrittenReadsPastEnd(file, NextRecord(file, off));
    }
  }

  /** A capture holding only its 24-byte global header: the loop should write an empty
      table, but the loop as written reads a record header at offset 24. */
  lemma HeaderOnlyCapture(file: seq<byte>)
    requires |file| == GlobalHeaderSize
    ensures WalkFrom(file, GlobalHeaderSize) == Walked([], GlobalHeaderSize)
    ensures WalkAsWritten(file, GlobalHeaderSize) == PastEnd(GlobalHeaderSize)
  {
  }

  /** The text of firmware.h. */
  const Prologue := "typedef struct {\n\tint len;\n\tuint8_t data[8448];\n} dram_t;\n\ndram_t firmware[] = {\n\t"
  /** The text of the {.len = -1} entry, and the end of the table. */
  const SentinelText := "{.len = -1}"
  const Closing := "\n};"
  const Epilogue := SentinelText + Closing
  /** What goes before every row of sixteen bytes but the first. */
  const RowBreak := "\n\t\t"

  /** The banner and opening of sector `n`, of `len` bytes. */
  function SectorHead(n: nat, len: int): string
  {
    "\n\t/******************************** sector " + Dec(n) +
    " ********************************/\n\t" + "{\n\t\t" + DecInt(len) + ",{\n\t\t"
  }

  function DropLast(s: string): string
  {
    if |s| == 0 then s else s[..|s| - 1]
  }

  /** One sector as written: the head, the bytes, then one character back (over the last
      comma) and the closing braces. */
  function SectorText(n: nat, e: Entry): string
  {
    DropLast(SectorHead(n, e.len) + Listing(e.data, RowBreak)) + "}\n\t},"
  }

  /** The sectors `es`, numbered from 0. */
  function Sectors(es: seq<Entry>): string
  {
    if es == [] then "" else Sectors(es[..|es| - 1]) + SectorText(|es| - 1, es[|es| - 1])
  }

  /** The whole of firmware.h for the sectors `es`. */
  function Render(es: seq<Entry>): string
  {
    TextSoFar(es) + Epilogue
  }

  /** The text of firmware.h once the sectors `es` are written. */
  function TextSoFar(es: seq<Entry>): string
  {
    Prologue + Sectors(es)
  }

  /** What the extractor leaves behind: the text of firmware.h, or the offset of the
      first read beyond the end of the capture. */
  datatype Result = Written(text: string) | ReadPastEnd(at: int)

  /** The extractor on a capture: a capture shorter than its global header is read
      beyond its end at once; otherwise the records are walked from offset 24. */
  function Output(file: seq<byte>): Result
  {
    if |file| < GlobalHeaderSize then ReadPastEnd(0)
    else
      match WalkFrom(file, GlobalHeaderSize)
      case Walked(es, _) => Written(Render(es))
      case PastEnd(at) => ReadPastEnd(at)
  }

  /** A non-empty listing ends with the comma the extractor moves back over. */
  lemma {:induction false} ListingEndsWithComma(bs: seq<byte>, brk: string)
    requires bs != []
    ensures var s := Listing(bs, brk); |s| > 0 && s[|s| - 1] == ','
  {
    var n := |bs| - 1;
    assert bs == bs[..n] + [bs[n]];
    ListingAppend(bs[..n], bs[n], brk);
  }

  /** A sector holds its bytes as a listing with the last comma removed: putting the
      comma back gives a listing that parses to exactly those bytes. */
  lemma {:induction false} SectorBody(n: nat, e: Entry)
    requires e.data != []
    ensures exists body :: (SectorText(n, e) == SectorHead(n, e.len) + body + "}\n\t}," &&
                            ParseListingFrom(body + ",", 0, RowBreak) == Some(e.data))
  {
    var l := Listing(e.data, RowBreak);
    ListingEndsWithComma(e.data, RowBreak);
    var body := l[..|l| - 1];
    assert body + "," == l;
    var h := SectorHead(n, e.len);
    assert (h + l)[..|h + l| - 1] == h + body;
    ListingRoundTrip(e.data, 0, RowBreak);
    assert SectorText(n, e) == h + body + "}\n\t},";
  }

  /** The table firmware.h declares for `es`: the sectors, then {.len = -1}. */
  function Table(es: seq<Entry>): seq<Entry>
  {
    es + [Sentinel]
  }

  /** The text of entry `n` of the table: a sector, or the {.len = -1} that ends it. */
  function EntryText(n: nat, e: Entry): string
  {
    if e.len == -1 then SentinelText else SectorText(n, e)
  }

  /** The text of the entries `t`, numbered from 0. */
  function EntriesText(t: seq<Entry>): string
  {
    if t == [] then "" else EntriesText(t[..|t| - 1]) + EntryText(|t| - 1, t[|t| - 1])
  }

  /** Sectors of non-negative length are written as table entries. */
  lemma {:induction false} SectorsAreEntries(es: seq<Entry>)
    requires forall k :: 0 <= k < |es| ==> es[k].len >= 0
    ensures EntriesText(es) == Sectors(es)
    decreases |es|
  {
    if es != [] {
      SectorsAreEntries(es[..|es| - 1]);
    }
  }

  /** firmware.h is the prologue, the text of the table Table(es) entry by entry, and
      the closing brace: the sectors and then the sentinel. */
  lemma {:induction false} RenderIsTable(es: seq<Entry>)
    requires forall k :: 0 <= k < |es| ==> es[k].len >= 0
    ensures Render(es) == Prologue + EntriesText(Table(es)) + Closing
  {
    TableText(es);
    Assoc4(Prologue, Sectors(es), SentinelText, Closing);
  }

  lemma {:induction false} Assoc4(a: string, b: string, c: string, d: string)
    ensures (a + b) + (c + d) == (a + (b + c)) + d
  {
  }

  /** The entries of Table(es) are written as the sectors, then {.len = -1}. */
  lemma {:induction false} TableText(es: seq<Entry>)
    requires forall k :: 0 <= k < |es| ==> es[k].len >= 0
    ensures EntriesText(Table(es)) == Sectors(es) + SentinelText
  {
    var t := Table(es);
    assert t[..|t| - 1] == es && t[|t| - 1] == Sentinel;
    SectorsAreEntries(es);
  }

  /** What a reader of the table takes from it: the entries before the first with
      length -1. */
  function Until(t: seq<Entry>): seq<Entry>
  {
    if t == [] || t[0].len == -1 then [] else [t[0]] + Until(t[1..])
  }

  /** The sentinel ends the table exactly: a reader stopping at length -1 reads back
      every sector and nothing else. */
  lemma {:induction false} TableReadBack(es: seq<Entry>)
    requires forall k :: 0 <= k < |es| ==> es[k].len >= 0
    ensures Until(Table(es)) == es
    decreases |es|
  {
    if es == [] {
      assert Table(es) == [Sentinel];
    } else {
      assert Table(es)[1..] == Table(es[1..]);
      TableReadBack(es[1..]);
    }
  }

  lemma {:induction false} DropLastAppend(x: string, y: string)
    requires y != []
    ensures (x + y)[..|x + y| - 1] == x + DropLast(y)
  {
  }

  /** Writing sector `e` after the sectors `done`. */
  lemma {:induction false} SectorsAppend(done: seq<Entry>, e: Entry, out0: string, out: string, out': string)
    requires out == out0 + Sectors(done) && out' == out + SectorText(|done|, e)
    ensures out' == out0 + Sectors(done + [e])
  {
    var all := done + [e];
    assert all[..|all| - 1] == done;
    assert Sectors(all) == Sectors(done) + SectorText(|done|, e);
    Assoc(out0, Sectors(done), SectorText(|done|, e));
  }

  lemma {:induction false} Assoc(a: string, b: string, c: string)
    ensures a + (b + c) == (a + b) + c
  {
  }

  /** The for loop over a payload: a line break before every sixteenth byte but the
      first, then the byte's literal and its comma. */
  method AppendListing(data: seq<byte>, out0: string) returns (out: string)
    ensures out == out0 + Listing(data, RowBreak)
  {
    out := out0;
    for i := 0 to |data|
      invariant out == out0 + Listing(data[..i], RowBreak)
    {
      ListingAppend(data[..i], data[i], RowBreak);
      assert data[..i + 1] == data[..i] + [data[i]];
      out := out + Item(i, data[i], RowBreak);
      Assoc(out0, Listing(data[..i], RowBreak), Item(i, data[i], RowBreak));
    }
    assert data[..|data|] == data;
  }

  /** The body of the if at line 87: the banner with the sector's number, its length,
      its bytes, then the step back over the last comma and the closing braces. */
  method WriteSector(e: Entry, count: nat, out0: string) returns (out: string)
    requires 0 < e.len == |e.data|
    ensures out == out0 + SectorText(count, e)
  {
    var head := out0 + SectorHead(count, e.len);
    var text := AppendListing(e.data, head);
    out := text[..|text| - 1] + "}\n\t},";
    DropLastAppend(out0, SectorHead(count, e.len) + Listing(e.data, RowBreak));
  }

  /** main: the prologue, then the loop over the records, then the end of the table. */
  method Extract(file: seq<byte>) returns (r: Result)
    ensures r == Output(file)
  {
    if |file| < GlobalHeaderSize {
      return ReadPastEnd(0);
    }
    var out := Prologue;
    r := Records(file, out);
    if r.Written? {
      r := Written(r.text + Epilogue);
    }
  }

  /** The while loop of main, writing after the text `out0`: the sectors of the records
      from offset 24 on, or the offset of the record read beyond the end of the file. */
  method Records(file: seq<byte>, out0: string) returns (r: Result)
    requires |file| >= GlobalHeaderSize
    ensures match WalkFrom(file, GlobalHeaderSize)
      case Walked(es, _) => r == Written(out0 + Sectors(es))
      case PastEnd(at) => r == ReadPastEnd(at)
  {
    var offset := GlobalHeaderSize;
    var out := out0;
    var count := 0;
    ghost var done: seq<Entry> := [];
    while offset < |file|
      invariant GlobalHeaderSize <= offset && count == |done| && out == out0 + Sectors(done)
      invariant WalkFrom(file, GlobalHeaderSize) == Prepend(done, WalkFrom(file, offset))
      decreases |file| - offset
    {
      var past, next, kept := ReadRecord(file, offset);
      if past {
        return ReadPastEnd(offset);
      }
      PrependAssoc(done, kept, WalkFrom(file, next));
      if kept != [] {
        out := AppendSector(kept[0], count, out, out0, done);
        count := count + 1;
      } else {
        assert done + kept == done;
      }
      done := done + kept;
      offset := next;
    }
    assert done + [] == done;
    r := Written(out);
  }

  /** One round of the loop at `offset`: the endpoint, then stage on endpoint 0, or
      transfer and, on a bulk transfer, dataLength on endpoint 2; then the payload if the
      transfer is selected. `past` when one of these reads lies beyond the end of the
      file. */
  method ReadRecord(file: seq<byte>, offset: int) returns (past: bool, next: int, kept: seq<Entry>)
    requires 0 <= offset < |file|
    ensures past <==> !RecordFits(file, offset)
    ensures !past ==> next == NextRecord(file, offset) && kept == Kept(file, offset)
  {
    var p := offset + RecordHeaderSize;
    if p + EndpointField >= |file| {
      return true, offset, [];
    }
    var endpoint := file[p + EndpointField];
    if endpoint == 0 && p + StageField >= |file| {
      return true, offset, [];
    }
    var selected := false;
    if endpoint == DataEndpoint {
      if p + TransferField >= |file| {
        return true, offset, [];
      }
      if file[p + TransferField] == BulkTransfer {
        if p + DataLengthField + 4 > |file| {
          return true, offset, [];
        }
        var len := U32At(file, p + DataLengthField);
        selected := MinData < len <= MaxData;
      }
    }
    next := NextRecord(file, offset);
    kept := [];
    if selected {
      var start, len := PayloadStart(file, offset), DataLength(file, offset);
      if start + len > |file| {
        return true, next, [];
      }
      kept := [Entry(len, file[start..start + len])];
    }
    past := false;
  }

  /** The sector `e` written after the sectors `done`. */
  method AppendSector(e: Entry, count: nat, out: string, ghost out0: string, ghost done: seq<Entry>)
    returns (out': string)
    requires 0 < e.len == |e.data| && count == |done| && out == out0 + Sectors(done)
    ensures out' == out0 + Sectors(done + [e])
  {
    out' := WriteSector(e, count, out);
    SectorsAppend(done, e, out0, out, out');
  }
}
