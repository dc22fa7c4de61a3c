/** The text both converters write with printf: "%d" numbers, "0x%02x," byte
    literals, and byte listings that start a new line before every sixteenth byte. */
module HexText {
  import opened Bytes

  datatype Option<T> = None | Some(value: T)

  /** The digit "%x" writes for a nibble (lower case). */
  function HexDigit(v: int): (c: char)
    requires 0 <= v < 16
    ensures HexValue(c) == Some(v)
  {
    if v < 10 then ('0' as int + v) as char else ('a' as int + v - 10) as char
  }

  /** The value of a lower-case hexadecimal digit. */
  function HexValue(c: char): (r: Option<int>)
    ensures r.Some? ==> 0 <= r.value < 16
  {
    if '0' <= c <= '9' then Some(c as int - '0' as int)
    else if 'a' <= c <= 'f' then Some(c as int - 'a' as int + 10)
    else None
  }

  /** "0x%02x" applied to one byte: two digits, the high nibble first. */
  function HexByte(b: byte): (s: string)
    ensures |s| == 4 && s[0] == '0' && s[1] == 'x'
  {
    var v := b as int;
    "0x" + [HexDigit(v / 16), HexDigit(v % 16)]
  }

  /** Reading a "0x%02x" literal back gives the byte that was printed. */
  lemma {:induction false} HexByteRoundTrip(b: byte)
    ensures ParseHexByte(HexByte(b)) == Some(b)
  {
    var v := b as int;
    assert HexValue(HexByte(b)[2]) == Some(v / 16);
    assert HexValue(HexByte(b)[3]) == Some(v % 16);
  }

  /** Reads back a "0x%02x" literal. */
  function ParseHexByte(s: string): Option<byte>
  {
    if |s| == 4 && s[0] == '0' && s[1] == 'x' && HexValue(s[2]).Some? && HexValue(s[3]).Some?
    then Some((16 * HexValue(s[2]).value + HexValue(s[3]).value) as byte)
    else None
  }

  /** The digit "%d" writes for 0..9. */
  function DecDigit(d: int): (c: char)
    requires 0 <= d < 10
    ensures '0' <= c <= '9' && c as int - '0' as int == d
  {
    ('0' as int + d) as char
  }

  predicate IsDecimal(s: string)
  {
    |s| > 0 && forall k :: 0 <= k < |s| ==> '0' <= s[k] <= '9'
  }

  /** The value of a string of decimal digits, most significant first. */
  function DecValue(s: string): nat
    requires IsDecimal(s)
  {
    var d := s[|s| - 1] as int - '0' as int;
    if |s| == 1 then d else 10 * DecValue(s[..|s| - 1]) + d
  }

  /** "%d" applied to a non-negative number: digits only, no leading zero, and
      reading the digits back gives the number. */
  function Dec(n: nat): (s: string)
    ensures IsDecimal(s)
    ensures DecValue(s) == n
    ensures |s| > 1 ==> s[0] != '0'
  {
    if n < 10 then [DecDigit(n)]
    else
      var h := Dec(n / 10);
      assert (h + [DecDigit(n % 10)])[..|h|] == h;
      h + [DecDigit(n % 10)]
  }

  /** "%d" applied to any int: a minus sign before the digits of a negative number, and
      reading the text back, sign first, gives the number. */
  function DecInt(i: int): (s: string)
    ensures |s| > 0 && (s[0] == '-' <==> i < 0)
    ensures s[0] == '-' ==> IsDecimal(s[1..]) && DecValue(s[1..]) == -i
    ensures s[0] != '-' ==> IsDecimal(s) && DecValue(s) == i
  {
    if i < 0 then
      var d := Dec(-i);
      assert ("-" + d)[1..] == d;
      "-" + d
    else
      var d := Dec(i);
      assert '0' <= d[0] <= '9';
      d
  }

  /** The text written for the i-th byte of a listing: the line break `brk` when i is a
      non-zero multiple of 16, then the literal and its comma. */
  function Item(i: int, b: byte, brk: string): string
  {
    (if i % 16 == 0 && i != 0 then brk else "") + HexByte(b) + ","
  }

  /** The listing of `bs` when its first byte is byte number `i` of the whole listing. */
  function ListingFrom(bs: seq<byte>, i: int, brk: string): string
    decreases |bs|
  {
    if bs == [] then "" else Item(i, bs[0], brk) + ListingFrom(bs[1..], i + 1, brk)
  }

  /** The listing of `bs` from byte 0. */
  function Listing(bs: seq<byte>, brk: string): string
  {
    ListingFrom(bs, 0, brk)
  }

  /** One line of a listing: literals and commas, no line break. */
  function RowText(r: seq<byte>): (s: string)
    ensures |s| == 5 * |r|
    ensures forall k :: 0 <= k < |s| ==> s[k] != '\n'
    decreases |r|
  {
    if r == [] then ""
    else
      var h := HexByte(r[0]) + ",";
      assert forall k :: 0 <= k < |h| ==> h[k] != '\n' by {
        assert h == ['0', 'x', h[2], h[3], ','];
      }
      h + RowText(r[1..])
  }

  /** `bs` cut into lines of sixteen bytes; only the last may be shorter. */
  function Rows16(bs: seq<byte>): (rows: seq<seq<byte>>)
    ensures forall k :: 0 <= k < |rows| ==> 0 < |rows[k]| <= 16
    ensures forall k :: 0 <= k < |rows| - 1 ==> |rows[k]| == 16
    ensures Flatten(rows) == bs
    decreases |bs|
  {
    if |bs| == 0 then []
    else if |bs| <= 16 then
      assert Flatten([bs]) == bs + Flatten([]);
      [bs]
    else
      var rest := Rows16(bs[16..]);
      assert Flatten([bs[..16]] + rest) == bs[..16] + Flatten(rest) by {
        assert ([bs[..16]] + rest)[1..] == rest;
      }
      [bs[..16]] + rest
  }

  function Flatten(rows: seq<seq<byte>>): seq<byte>
    decreases |rows|
  {
    if rows == [] then [] else rows[0] + Flatten(rows[1..])
  }

  /** Lines joined with the break `brk` between them. */
  function JoinRows(rows: seq<seq<byte>>, brk: string): string
    decreases |rows|
  {
    if rows == [] then ""
    else if |rows| == 1 then RowText(rows[0])
    else RowText(rows[0]) + brk + JoinRows(rows[1..], brk)
  }

  lemma {:induction false} ListingSplit(a: seq<byte>, c: seq<byte>, i: int, brk: string)
    ensures ListingFrom(a + c, i, brk) == ListingFrom(a, i, brk) + ListingFrom(c, i + |a|, brk)
    decreases |a|
  {
    if a == [] {
      assert a + c == c;
    } else {
      assert (a + c)[0] == a[0];
      assert (a + c)[1..] == a[1..] + c;
      ListingSplit(a[1..], c, i + 1, brk);
    }
  }

  /** Appending one byte appends exactly its item: what a loop that prints byte by
      byte keeps. */
  lemma {:induction false} ListingAppend(bs: seq<byte>, b: byte, brk: string)
    ensures Listing(bs + [b], brk) == Listing(bs, brk) + Item(|bs|, b, brk)
  {
    ListingSplit(bs, [b], 0, brk);
    assert ListingFrom([b], |bs|, brk) == Item(|bs|, b, brk) + ListingFrom([], |bs| + 1, brk);
  }

  lemma {:induction false} RowListing(r: seq<byte>, start: nat, brk: string)
    requires |r| <= 16 && start % 16 == 0
    ensures ListingFrom(r, start, brk) == (if start > 0 && r != [] then brk else "") + RowText(r)
  {
    if r != [] {
      InRowNoBreak(r[1..], start, 1, brk);
    }
  }

  lemma {:induction false} InRowNoBreak(r: seq<byte>, start: nat, j: nat, brk: string)
    requires start % 16 == 0 && 0 < j && j + |r| <= 16
    ensures ListingFrom(r, start + j, brk) == RowText(r)
    decreases |r|
  {
    if r != [] {
      assert (start + j) % 16 == j;
      InRowNoBreak(r[1..], start, j + 1, brk);
    }
  }

  /** The line structure of a listing: it is its sixteen-byte lines joined by `brk`,
      so a break precedes exactly the bytes whose index is a non-zero multiple of 16,
      and there is no break before the first byte nor after the last. */
  lemma {:induction false} ListingRows(bs: seq<byte>, brk: string)
    ensures Listing(bs, brk) == JoinRows(Rows16(bs), brk)
  {
    ListingRowsFrom(bs, 0, brk);
  }

  lemma {:induction false} ListingRowsFrom(bs: seq<byte>, start: nat, brk: string)
    requires start % 16 == 0
    ensures ListingFrom(bs, start, brk) == (if start > 0 && bs != [] then brk else "") + JoinRows(Rows16(bs), brk)
    decreases |bs|
  {
    if |bs| <= 16 {
      RowListing(bs, start, brk);
    } else {
      ListingRowsFrom(bs[16..], start + 16, brk);
      ListingRowsStep(bs, start, brk);
    }
  }

  lemma {:induction false} ListingRowsStep(bs: seq<byte>, start: nat, brk: string)
    requires start % 16 == 0 && |bs| > 16
    requires ListingFrom(bs[16..], start + 16, brk) == brk + JoinRows(Rows16(bs[16..]), brk)
    ensures ListingFrom(bs, start, brk) == (if start > 0 then brk else "") + JoinRows(Rows16(bs), brk)
  {
    SplitAt16(bs, start, brk);
    RowListing(bs[..16], start, brk);
    RowsHead(bs);
    JoinCons(bs[..16], Rows16(bs[16..]), brk);
    Glue(ListingFrom(bs, start, brk), ListingFrom(bs[..16], start, brk), ListingFrom(bs[16..], start + 16, brk),
      if start > 0 then brk else "", RowText(bs[..16]), brk, JoinRows(Rows16(bs[16..]), brk), JoinRows(Rows16(bs), brk));
  }

  lemma {:induction false} SplitAt16(bs: seq<byte>, start: int, brk: string)
    requires |bs| > 16
    ensures ListingFrom(bs, start, brk) == ListingFrom(bs[..16], start, brk) + ListingFrom(bs[16..], start + 16, brk)
  {
    assert bs == bs[..16] + bs[16..];
    ListingSplit(bs[..16], bs[16..], start, brk);
  }

  lemma {:induction false} RowsHead(bs: seq<byte>)
    requires |bs| > 16
    ensures Rows16(bs) == [bs[..16]] + Rows16(bs[16..]) && |Rows16(bs[16..])| > 0
  {
    assert Flatten(Rows16(bs[16..])) == bs[16..];
  }

  lemma {:induction false} Glue(whole: string, a: string, b: string, p: string, r: string, brk: string, j: string, joined: string)
    requires whole == a + b && a == p + r && b == brk + j && joined == r + brk + j
    ensures whole == p + joined
  {
  }

  lemma {:induction false} JoinCons(r: seq<byte>, rest: seq<seq<byte>>, brk: string)
    requires |rest| > 0
    ensures JoinRows([r] + rest, brk) == RowText(r) + brk + JoinRows(rest, brk)
  {
    assert ([r] + rest)[0] == r && ([r] + rest)[1..] == rest;
  }

  /** Cutting a string made of a prefix, a four-character literal, a comma and a rest. */
  lemma {:induction false} ItemParts(p: string, h: string, t: string)
    requires |h| == 4
    ensures var s := p + h + "," + t;
      s[..|p|] == p && s[|p|..|p| + 4] == h && s[|p| + 4] == ',' && s[|p| + 5..] == t
  {
  }

  /** Reads a listing back into its bytes: the inverse of `ListingFrom`. */
  function ParseListingFrom(s: string, i: int, brk: string): Option<seq<byte>>
    decreases |s|
  {
    if s == [] then Some([])
    else
      var pre := if i % 16 == 0 && i != 0 then |brk| else 0;
      if |s| < pre + 5 || s[..pre] != (if pre == 0 then "" else brk) || s[pre + 4] != ',' then None
      else match ParseHexByte(s[pre..pre + 4])
        case None => None
        case Some(b) =>
          match ParseListingFrom(s[pre + 5..], i + 1, brk)
          case None => None
          case Some(rest) => Some([b] + rest)
  }

  /** Round trip of a listing: reading it back gives the bytes that were printed. */
  lemma {:induction false} ListingRoundTrip(bs: seq<byte>, i: int, brk: string)
    ensures ParseListingFrom(ListingFrom(bs, i, brk), i, brk) == Some(bs)
    decreases |bs|
  {
    if bs != [] {
      var p := if i % 16 == 0 && i != 0 then brk else "";
      var tail := ListingFrom(bs[1..], i + 1, brk);
      assert ListingFrom(bs, i, brk) == p + HexByte(bs[0]) + "," + tail;
      ParseCons(p, bs[0], tail, i, brk);
      ListingRoundTrip(bs[1..], i + 1, brk);
      assert [bs[0]] + bs[1..] == bs;
    }
  }

  /** Reading one item off the front of a listing. */
  lemma {:induction false} ParseCons(p: string, b: byte, t: string, i: int, brk: string)
    requires p == if i % 16 == 0 && i != 0 then brk else ""
    ensures ParseListingFrom(p + HexByte(b) + "," + t, i, brk) ==
      match ParseListingFrom(t, i + 1, brk)
      case None => None
      case Some(rest) => Some([b] + rest)
  {
    ItemParts(p, HexByte(b), t);
    HexByteRoundTrip(b);
  }
}
