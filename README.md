# rkflashtool loader tools, modelled in Dafny

This project models three small C programs from rkflashtool's Rockchip loader tools:

- **fxload.c** talks to a Rockchip device in mask-ROM mode over libusb.
  - Mode `1` uploads the built-in `bootrom` image. Each vendor control transfer (request 12) carries one chunk of at most 4096 bytes. The completion callback `cb_xfr` picks the next chunk's target address (wIndex 0x0471 for chunks 0 to 2, then 0x0472) and its length (2050 for chunk 2 and for a 2050-byte tail, otherwise 4096).
  - Modes `2` and `3` send seven fixed 31-byte commands on bulk endpoint 0x02. After each command comes an optional data read, then a 13-byte status read on endpoint 0x81. Two completion callbacks chain these transfers.
- **decode/decode_pcap.c** walks a USBPcap capture record by record. It writes `firmware.h`, a C table with one sector per bulk OUT transfer to endpoint 2 of 32 to 8448 bytes. An entry of length -1 ends the table.
- **convert.c** prints the 32-bit words of `rom.h` as `0x%02x,` byte literals. Each word's most significant byte comes first, and each line holds four words.

Modules, one file each:

| file | module | models |
|---|---|---|
| `bytes.dfy` | `Bytes` | `uint8_t`, little-endian 16- and 32-bit fields |
| `usb.dfy` | `Usb` | transfer status, the 8-byte control setup packet |
| `hex_text.dfy` | `HexText` | the `%d` and `0x%02x,` text both printers produce, the sixteen-per-line byte listing, parsing it back |
| `fxupload.dfy` | `FxUpload` | mode `1` of fxload.c: the chunk schedule as functions, the upload state as the class `Loader` |
| `fxcommands.dfy` | `FxCommands` | modes `2`/`3` of fxload.c: the command table as a value, the callbacks as the class `Sequencer` |
| `decode_pcap.dfy` | `DecodePcap` | the record walk and the text of `firmware.h` |
| `convert.dfy` | `Convert` | the two loops of convert.c |

How the C becomes Dafny:

- fxload.c's callbacks update globals in place. They become methods of two classes whose fields are those globals. A ghost history (`sent`, `wire`) ties each class to a specification function (`Plan`, `Trace`).
- The transfer buffer is an `array` that is zeroed, copied into and stamped with the setup packet, as in the source.
- The decoder and converter loops become methods with loops. Each is proved to produce the text a recursive function defines. Lemmas then prove that text can be read back.

Two details of the upload:

- wValue is always 0, and the target address goes in wIndex (fxload.c:198, 266).
- The address depends only on the chunk number (`stage < 3`), not on where an image ends. A 6146-byte image therefore sends both of its chunks to 0x0471 (`FxUpload.Address`, `FxUpload.PlanCompletesIff`).

## Model

| member | source | states |
|---|---|---|
| Bytes.Le16 | fxload.c:198 | a 16-bit setup field is written low byte first and reads back as the same value |
| Usb.Setup | fxload.c:198 | the setup packet is 8 bytes; bmRequestType, bRequest, wValue, wIndex and wLength decode back to the values given |
| HexText.HexByteRoundTrip | decode/decode_pcap.c:103 | a `0x%02x` literal parses back to its byte |
| HexText.Dec | decode/decode_pcap.c:91 | `%d` of a natural number is a decimal string without a leading zero whose value is that number |
| HexText.DecInt | decode/decode_pcap.c:94 | `%d` of the sector length: a minus sign exactly for a negative number, and the digits after it read back as the number |
| HexText.ListingAppend | decode/decode_pcap.c:99-104 | one more byte adds its literal and comma to the listing, preceded by the row break when its index is a non-zero multiple of 16 |
| HexText.ListingRows | decode/decode_pcap.c:99-104 | the listing is the rows of sixteen bytes, each as its literals, joined by the row break |
| HexText.ListingRoundTrip | decode/decode_pcap.c:99-104 | parsing a listing gives back exactly the bytes listed |
| HexText.HexByte | decode/decode_pcap.c:103 | `0x%02x` of a byte: four characters starting with `0x` (the two lower-case hex digits are defined here; HexText.HexByteRoundTrip is their property) |
| HexText.ListingFrom | decode/decode_pcap.c:99-104 | defines the text of the for loop from byte index `i` on: before each byte whose index is a non-zero multiple of 16, the row break, then the byte's literal and a comma |
| HexText.Item | decode/decode_pcap.c:100-103 | defines one round of the for loop body: the row break if the index is a non-zero multiple of 16, then the byte's `0x%02x` literal and a comma (the same text convert.c:9-12 prints, with a newline break) |
| HexText.Listing | decode/decode_pcap.c:99-104 | defines the text of the whole for loop, ListingFrom from index 0 |
| HexText.Rows16 | decode/decode_pcap.c:100 | the rows hold 1 to 16 bytes, all but the last exactly 16, and together make the input |
| FxUpload.Schedule | fxload.c:143-196 | a chunk sent starts at the current offset, is 1 to 4096 bytes long and ends inside bootrom; otherwise the upload is done or the chunk would overrun |
| FxUpload.Address | fxload.c:183-186 | defines the target address: 0x0471 while stage < 3, then 0x0472 |
| FxUpload.ChunkAt | fxload.c:181-191 | chunk number `stage` starts at the current offset and is 4096 or 2050 bytes long, 2050 never for chunk 0 |
| FxUpload.Step | fxload.c:137-196 | cb_xfr's decision: a Fail, with exit code 3, exactly when the status is not Completed; otherwise the schedule for the incremented stage |
| FxUpload.PlanFrom | fxload.c:130-203 | defines the chunks cb_xfr sends from chunk `stage` on when every transfer completes, and whether they end with offset == total |
| FxUpload.Plan | fxload.c:228-267 | defines the whole upload of a `total`-byte bootrom, from chunk 0 at offset 0 |
| FxUpload.PlanTiles | fxload.c:181-196 | the chunks of the upload are laid end to end, each 4096 or 2050 bytes long and sent to its stage's address; they never pass the end of bootrom and reach it exactly when the upload completes |
| FxUpload.TilesAt | fxload.c:183-191 | chunk j goes to the address of stage j, is 4096 or 2050 bytes long and lies inside the span the chunks cover |
| FxUpload.TilesPayloads | fxload.c:195 | the payloads of chunks laid end to end are exactly the bootrom bytes they span |
| FxUpload.UploadDeliversBootrom | fxload.c:181-196 | when the upload completes, chunks 0 to 2 go to 0x0471 and the rest to 0x0472, none longer than 4096, and their payloads in order are the whole of bootrom |
| FxUpload.PlanCompletesIff | fxload.c:143 | the upload ends with offset == total exactly for the sizes 4096, 6146, 8192 and 10242 + 4096 k (+ 2050); every other size ends in an overrun |
| FxUpload.SecondStageCompletes | fxload.c:183-191 | from the fourth chunk on, the upload completes exactly when what remains is a multiple of 4096, possibly plus 2050 |
| FxUpload.PlanStep | fxload.c:181-196 | sending one chunk leaves the rest of the upload to the next stage |
| FxUpload.PlanAdvance | fxload.c:143-196 | sending the scheduled chunk keeps the sent chunks a prefix of the plan; Done or an overrun means the sent chunks are the whole plan |
| FxUpload.Run | fxload.c:130-203 | a series of completions produces at most one response per completion |
| FxUpload.RunFault | fxload.c:137-141 | a response is Fail with exit code 3 exactly when its completion status is not Completed |
| FxUpload.RunStops | fxload.c:137-201 | every response but the last submits a new transfer, and the series ends early only on a response that does not |
| FxUpload.AllCompleted | fxload.c:137 | n completions, all with status Completed |
| FxUpload.RunCompleted | fxload.c:180-201 | a completed transfer is answered by the scheduled chunk, and the series continues from the next stage only when that is a new transfer |
| FxUpload.RunFollowsPlan | fxload.c:130-203 | when every transfer completes, cb_xfr submits exactly the planned chunks after the first, in order |
| FxUpload.RunEndsWithPlan | fxload.c:143-164 | after the planned chunks, cb_xfr answers Done exactly when the upload completes, and otherwise an overrun |
| FxUpload.Loader.constructor | fxload.c:25-29 | the globals start at stage 0, offset 0, do_exit 0, with total the size of bootrom and nothing sent |
| FxUpload.Loader.Begin | fxload.c:258-267 | mode `1` sends the first 4096 bytes to 0x0471 as chunk 0, with offset then 4096, or reports an overrun for an image shorter than 4096 bytes |
| FxUpload.Loader.OnComplete | fxload.c:130-203 | cb_xfr: exit 3 on a failed transfer with nothing else changed; do_exit once all of bootrom is sent, the sent chunks then being the whole plan; otherwise the next scheduled chunk, in the buffer, with stage and offset advanced |
| FxUpload.Loader.SendNext | fxload.c:180-201 | the else branch of cb_xfr: the next scheduled chunk goes out, in the buffer, or the upload stops with an overrun |
| FxUpload.Loader.Advance | fxload.c:181-196 | stage is incremented and offset moved past the chosen chunk; the chunk sent is recorded and keeps the loader on its plan |
| FxUpload.Loader.FillBuffer | fxload.c:194-198 | the buffer holds the setup packet of a vendor OUT request 12 with wValue 0, then the chunk's bytes, then zeros |
| FxUpload.Loader.ZeroBuffer | fxload.c:194 | every byte of the buffer is zero |
| FxUpload.Loader.CopyChunk | fxload.c:195 | the payload area starts with the chunk's bytes of bootrom; nothing else changes |
| FxUpload.Loader.WriteSetup | fxload.c:198 | the first eight bytes are the setup packet; nothing else changes |
| FxCommands.InitTable | fxload.c:36-87 | the table has 31 entries |
| FxCommands.InitTableWellFormed | fxload.c:31-87 | every entry of the table has a 31-byte command and a read length that is not negative |
| FxCommands.InitTableSignature | fxload.c:36-87 | each of the seven commands starts with the bytes `USBC` |
| FxCommands.InitTraceLength | fxload.c:42-85 | five of the seven commands ask for a data read, so the whole sequence takes nineteen transfers |
| FxCommands.CommandTrace | fxload.c:99-123 | one command is its OUT on 0x02, the data read if its flag asks for one, then the 13-byte status read on 0x81 |
| FxCommands.Trace | fxload.c:91-128 | defines the transfers of the first `n` commands, command after command |
| FxCommands.CommandTraceSends | fxload.c:99-123 | one command puts its own bytes on the wire once and reads one status |
| FxCommands.TraceLength | fxload.c:91-128 | the commands take two transfers each, plus one per data read |
| FxCommands.TraceSendsCommands | fxload.c:91-128 | the commands go out in table order, each exactly once, and each is followed by exactly one status read |
| FxCommands.TraceEndpoints | fxload.c:101-123 | every OUT goes to 0x02 with a 31-byte command; every IN comes from 0x81, and a status read is 13 bytes |
| FxCommands.Sequencer.constructor | fxload.c:29-87 | the table as initialised and cmd_count 0 |
| FxCommands.Sequencer.Begin | fxload.c:268-272 | the first command goes out on 0x02 |
| FxCommands.Sequencer.OnSendComplete | fxload.c:91-109 | exit 3 on a failed transfer; on a zero flag the 13-byte status read; otherwise a read of `flag` bytes through the same callback, with that flag cleared and the rest of the table unchanged; the run has ended exactly when the answer is an exit |
| FxCommands.Sequencer.ReadStatus | fxload.c:99-101 | the 13-byte status read from 0x81, completed by recv_complete_cb, is the next transfer |
| FxCommands.Sequencer.ReadData | fxload.c:102-106 | the data read of `flag` bytes is the next transfer, and that flag is cleared |
| FxCommands.Sequencer.OnRecvComplete | fxload.c:111-128 | exit 3 on a failed transfer; otherwise cmd_count advances, the wire holds the finished commands' transfers, and the next command goes out or, after the seventh, the process exits with 0; the run has ended exactly when the answer is an exit, and neither callback can be called after that |
| DecodePcap.NextRecord | decode/decode_pcap.c:78-109 | the next record starts at least 16 bytes after the current one |
| DecodePcap.Packet | decode/decode_pcap.c:78-80 | defines where the packet header starts: 16 bytes after the record header |
| DecodePcap.InclLen | decode/decode_pcap.c:16 | incl_len, the 32-bit little-endian field at byte 8 of the record header, is below 2^32 |
| DecodePcap.Endpoint | decode/decode_pcap.c:32 | defines endpoint, byte 21 of the packed packet header, the field both if conditions read first |
| DecodePcap.HeadersFit | decode/decode_pcap.c:83-87 | defines when the if conditions read only inside the file, in their short-circuit order: endpoint; stage (byte 27) only on endpoint 0; transfer (byte 22) only on endpoint 2; dataLength (bytes 23 to 26) only on endpoint 2 with transfer 3 |
| DecodePcap.DataLength | decode/decode_pcap.c:35 | dataLength, the 32-bit little-endian field at byte 23 of the packet header, is below 2^32 |
| DecodePcap.Selected | decode/decode_pcap.c:87 | defines the transfers kept: endpoint 0x02, transfer type 3 (bulk), dataLength above 31 and at most 8448 |
| DecodePcap.PayloadStart | decode/decode_pcap.c:103 | the payload starts after the 16-byte record header, headerLen bytes on, less than 2^16 bytes past it |
| DecodePcap.RecordFits | decode/decode_pcap.c:76-103 | defines when a round of the loop reads only inside the file: the fields its if conditions test (DecodePcap.HeadersFit), and the payload of a selected transfer |
| DecodePcap.OtherEndpointFits | decode/decode_pcap.c:83-87 | a record on an endpoint other than 0 and 2 can be read as soon as its endpoint byte lies in the file, and it contributes no sector |
| DecodePcap.WalkFrom | decode/decode_pcap.c:75-112 | defines the record loop with the guard `offset < st_size` |
| DecodePcap.WalkAsWritten | decode/decode_pcap.c:75-112 | defines the record loop as written, with the guard `offset <= st_size` |
| DecodePcap.SectorHead | decode/decode_pcap.c:91-94 | defines the banner with the sector number, `{`, and the length followed by `,{` |
| DecodePcap.SectorText | decode/decode_pcap.c:91-106 | defines one sector's text: the head, the listing with its last character dropped by the fseek, then `}` and `},` (DecodePcap.SectorBody is its property) |
| DecodePcap.Output | decode/decode_pcap.c:60-117 | defines what main leaves with the record loop guarded by `offset < st_size`: the text of firmware.h, or where it first reads beyond the capture |
| DecodePcap.Render | decode/decode_pcap.c:70-117 | defines the whole of firmware.h: the prologue (the typedef and the opening of `firmware[]`), the sectors, then `{.len = -1}` and `\n};` |
| DecodePcap.Sectors | decode/decode_pcap.c:91-106 | defines the text the while loop writes for the sectors, numbered from 0, one after another |
| DecodePcap.EntryText | decode/decode_pcap.c:91-114 | defines the text of one table entry: a sector, or `{.len = -1}` for the entry of length -1 |
| DecodePcap.EntriesText | decode/decode_pcap.c:91-114 | defines the text of a sequence of table entries, numbered from 0 |
| DecodePcap.SectorsAreEntries | decode/decode_pcap.c:91-106 | the sectors' text is their text as table entries |
| DecodePcap.TableText | decode/decode_pcap.c:106-114 | the table Table(es) is written as the sectors, then `{.len = -1}` |
| DecodePcap.RenderIsTable | decode/decode_pcap.c:70-117 | firmware.h is the prologue, the entries of Table(es) one by one (every sector, then `{.len = -1}`), and the closing brace |
| DecodePcap.Kept | decode/decode_pcap.c:87-104 | a record contributes at most one sector, of more than 31 and at most 8448 bytes, holding exactly its dataLength bytes |
| DecodePcap.WalkWith | decode/decode_pcap.c:75-112 | the record loop under either guard: it stops at a record that cannot be read, or at or beyond the end of the file; it stops exactly at the end only under the strict guard `<`, while under `<=` it always goes past the end |
| DecodePcap.Filter | decode/decode_pcap.c:87-104 | every sector kept has more than 31 and at most 8448 bytes, its length being its number of bytes |
| DecodePcap.WalkIsFilter | decode/decode_pcap.c:75-112 | the walk succeeds exactly when the whole file splits into readable records, and its sectors are then the selected records' payloads in file order |
| DecodePcap.AsWrittenReadsPastEnd | decode/decode_pcap.c:75 | the loop as written reads a record beyond the mapping whenever the records end exactly at the end of the file |
| DecodePcap.HeaderOnlyCapture | decode/decode_pcap.c:60-75 | for a 24-byte capture the corrected loop writes an empty table while the loop as written reads at offset 24 |
| DecodePcap.ListingEndsWithComma | decode/decode_pcap.c:103-105 | a non-empty listing ends with the comma the extractor steps back over |
| DecodePcap.SectorBody | decode/decode_pcap.c:91-106 | a sector is its banner and length, then a body that parses back to the sector's bytes once the dropped comma is restored, then its closing braces |
| DecodePcap.TableReadBack | decode/decode_pcap.c:106-114 | for the table firmware.h declares (DecodePcap.RenderIsTable), a reader stopping at the entry of length -1 reads back every sector and nothing else |
| DecodePcap.Extract | decode/decode_pcap.c:60-117 | main with the record loop guarded by `offset < st_size`: the prologue, every selected sector in order, then `{.len = -1}` and the closing brace, or where it first reads beyond the capture |
| DecodePcap.Records | decode/decode_pcap.c:73-112 | the while loop with the guard `offset < st_size` appends the text of every sector the walk finds, or stops at the record that cannot be read |
| DecodePcap.ReadRecord | decode/decode_pcap.c:76-109 | a round reads past the end of the file exactly when one of the fields it tests, in short-circuit order, or the payload of a selected transfer does not fit; otherwise it gives the next offset and the sector kept |
| DecodePcap.AppendSector | decode/decode_pcap.c:87-108 | one more sector is written after those already written |
| DecodePcap.WriteSector | decode/decode_pcap.c:91-106 | the sector's text: banner, length, listing with the last comma removed, closing braces |
| DecodePcap.AppendListing | decode/decode_pcap.c:98-104 | the for loop writes the sixteen-per-line listing of the payload |
| Convert.WordBytes | convert.c:11-12 | a word prints as four bytes |
| Convert.Shifted | convert.c:12 | `w >> (j * 8)` is the quotient of w by 256^j |
| Convert.ByteOf | convert.c:12 | defines `(w >> (j * 8)) & 0xff`, the remainder of that quotient by 256 |
| Convert.WordRoundTrip | convert.c:11-12 | the four bytes printed for a word recombine, most significant first, into that word |
| Convert.BytesRoundTrip | convert.c:11-12 | any four bytes are the bytes printed for the word they make |
| Convert.BigEndian | convert.c:8-12 | the words print as four bytes each |
| Convert.BigEndianAt | convert.c:8-12 | byte k of word i is printed at position 4 i + k: the words go out in order, each once, most significant byte first |
| Convert.Words | convert.c:8 | grouping bytes four at a time gives one word per four bytes |
| Convert.WordsRoundTrip | convert.c:8-12 | grouping the printed bytes four at a time gives the words back |
| Convert.WordListing | convert.c:9-12 | word i adds a newline when i is a non-zero multiple of 4, then its four literals, extending the listing of the bytes before it |
| Convert.WriteWord | convert.c:11-12 | the inner loop prints the word's four literals, bits 31..24 first |
| Convert.Convert | convert.c:8-15 | the output is the sixteen-per-line listing of the words' big-endian bytes |
| Convert.ConvertReadsBack | convert.c:8-15 | the output parses back into the big-endian bytes, and those into the words |

## Left out

- libusb itself is left out: device opening, claiming the interface, allocating, filling and submitting transfers, timeouts (60 s) and the event thread. A submitted transfer is a value the callbacks return (`FxCommands.Outcome`) or record in a ghost history (`Loader.sent`, `Sequencer.wire`).
- The process ends rather than returns at `exit(3)` and `exit(0)`. The model returns `Fail(3)`, `Exit(3)` or `Exit(0)` and leaves the state as it was. In `FxCommands.Sequencer` a ghost flag `exited` is set exactly on an `Exit` answer, and both callbacks require it unset, so no completion follows the end of the process.
- All `fprintf(stderr, …)` and `printf` logging is left out, because it does not affect what is sent or written. This covers the stage messages, "transfer status", the per-init-seq messages, and decode_pcap's magic, linktype, header size, control-transfer and per-sector bus/device prints.
- At the end of the upload cb_xfr also waits two seconds, reads the device descriptor, sets configuration 1 when the current configuration is not 1, and frees the transfer (fxload.c:149-161). These are device calls, so the model keeps only `do_exit = 1`.
- The `#if 0` block at fxload.c:166-178 is not compiled, so it is not modelled.
- Mode `4` of main (fxload.c:273-276) holds raw hex bytes, not C, so it is not modelled.
- An argument that selects no mode is not modelled either, because the transfer main then submits is never filled.
- The data the bulk reads bring back (`cmd_ret`) is never examined by the source. The model records only the reads.
- FxUpload.Loader.Begin and FxUpload.Loader.Advance: the source copies the chunk with memcpy whether or not it lies inside `bootrom`, which is undefined behaviour. The model stops with `Overrun` instead of copying.
- The contents of `bootrom.h` and `rom.h` are not part of this model. The image is a parameter, and the words of `rom.h` are assumed to be unsigned 32-bit values.
- decode_pcap's `stat`, `open`, `mmap`, `fopen`, `rewind`, `munmap` and `close` are left out. The capture is a byte sequence and `firmware.h` is a string. A failed open or mmap is not modelled.
- DecodePcap.Extract: a read beyond the end of the mapping is modelled as the result `ReadPastEnd`. In the source it reads zero-filled page bytes or faults. This affects a capture shorter than 24 bytes, a record one of whose tested fields lies past the end, and a selected payload running past the end. The model reports the offset of the record whose round reads beyond the end, not the byte.
- DecodePcap.NextRecord and DecodePcap.Records: `offset` is a 32-bit `int` in the source, and `offset += rec_hdr->incl_len` (decode/decode_pcap.c:109) wraps modulo 2^32. The model's offsets are unbounded. The wrap can hit a capture of any size: a record whose offset + 16 + incl_len reaches 2^31 turns `offset` negative or back to an earlier record. The source then reads before the mapping, or revisits earlier records, possibly forever and writing their sectors again each time. In the model the walk moves past the end of the file and stops.
- DecodePcap.Records, DecodePcap.Extract and DecodePcap.Output model the record loop with the guard `offset < st_size`, the intended one. For a capture whose records end exactly at `st_size` they give the text of firmware.h where main as written reads one more record header at `st_size`. The loop as written, with `<=`, is `DecodePcap.WalkAsWritten`. `DecodePcap.AsWrittenReadsPastEnd` relates the two (see "## Findings").
- The `fseek(c_header_file, -1, SEEK_CUR)` followed by a write is modelled as dropping the last character. This holds because every sector written has at least 32 bytes.
- DecodePcap.TableReadBack and DecodePcap.RenderIsTable require non-negative sector lengths, which every sector the walk produces has (`DecodePcap.Filter`).

## Findings

| source | as written | input that shows it | evidently intended | confidence | as-written member | corrected member |
|---|---|---|---|---|---|---|
| decode/decode_pcap.c:75 | the record loop runs while `offset <= info.st_size` | a capture of only its 24-byte global header, or any capture whose last record ends exactly at the end of the file: the loop reads a record header at offset `st_size`, beyond the mapping | `offset < info.st_size`, stopping after the last record | not executed | DecodePcap.AsWrittenReadsPastEnd | DecodePcap.WalkIsFilter |
