/** convert.c: prints the 32-bit words of rom.h as "0x%02x," byte literals, the most
    significant byte of every word first, four words (sixteen bytes) to a line. The
    words are taken as unsigned; the text is what goes to standard output. */
module Convert {
  import opened Bytes
  import opened HexText

  /** An unsigned 32-bit value. */
  newtype word = x: int | 0 <= x < 0x1_0000_0000

  /** 256 to the power `k`. */
  function Pow256(k: nat): (p: nat)
    ensures p > 0
  {
    if k == 0 then 1 else 256 * Pow256(k - 1)
  }

  /** w >> (j * 8), for the shifts the inner loop uses: the quotient of w by 256^j. */
  function Shifted(w: word, j: nat): (v: int)
    requires j < 4
    ensures 0 <= v && Pow256(j) * v <= w as int < Pow256(j) * (v + 1)
    decreases j
  {
    if j == 0 then w as int
    else
      var s := Shifted(w, j - 1);
      var v := s / 256;
      ShiftStep(Pow256(j - 1), s, v, w as int);
      v
  }

  /** Dividing by 256 once more keeps the quotient bounds, with 256 times the divisor. */
  lemma ShiftStep(p: nat, s: int, v: int, w: int)
    requires p > 0 && 0 <= s && v == s / 256 && p * s <= w < p * (s + 1)
    ensures 0 <= v && (256 * p) * v <= w < (256 * p) * (v + 1)
  {
    var r := s % 256;
    assert s == 256 * v + r && 0 <= r < 256;
    assert p * s == (256 * p) * v + p * r;
    assert p * (s + 1) == (256 * p) * v + p * (r + 1);
    assert p * (r + 1) <= p * 256;
  }

  /** (w >> (j * 8)) & 0xff. */
  function ByteOf(w: word, j: nat): byte
    requires j < 4
  {
    (Shifted(w, j) % 256) as byte
  }

  /** The four bytes the inner loop prints for `w`, j = 3 down to 0. */
  function WordBytes(w: word): (bs: seq<byte>)
    ensures |bs| == 4
  {
    [ByteOf(w, 3), ByteOf(w, 2), ByteOf(w, 1), ByteOf(w, 0)]
  }

  /** Four bytes read back as a big-endian word. */
  function FromBytes(bs: seq<byte>): word
    requires |bs| == 4
  {
    (bs[0] as int * 0x100_0000 + bs[1] as int * 0x1_0000 + bs[2] as int * 0x100 + bs[3] as int) as word
  }

  /** Recombining the four printed bytes, most significant first, gives the word back. */
  lemma {:induction false} WordRoundTrip(w: word)
    ensures FromBytes(WordBytes(w)) == w
  {
    var s1, s2, s3 := Shifted(w, 1), Shifted(w, 2), Shifted(w, 3);
    assert w as int == 256 * s1 + w as int % 256;
    assert s1 == 256 * s2 + s1 % 256;
    assert s2 == 256 * s3 + s2 % 256;
    assert s3 < 256;
  }

  /** And every four bytes are the bytes of the word they make. */
  lemma {:induction false} BytesRoundTrip(bs: seq<byte>)
    requires |bs| == 4
    ensures WordBytes(FromBytes(bs)) == bs
  {
    var w := FromBytes(bs);
    assert Shifted(w, 1) == bs[0] as int * 0x1_0000 + bs[1] as int * 0x100 + bs[2] as int;
    assert Shifted(w, 2) == bs[0] as int * 0x100 + bs[1] as int;
    assert Shifted(w, 3) == bs[0] as int;
  }

  /** The bytes of `data` as the outer loop prints them, word after word. */
  function BigEndian(data: seq<word>): (bs: seq<byte>)
    ensures |bs| == 4 * |data|
  {
    if data == [] then [] else BigEndian(data[..|data| - 1]) + WordBytes(data[|data| - 1])
  }

  /** Byte k of word i is printed at position 4 i + k: the words go out in order, each
      once, most significant byte first. */
  lemma {:induction false} BigEndianAt(data: seq<word>, i: nat, k: nat)
    requires i < |data| && k < 4
    ensures BigEndian(data)[4 * i + k] == ByteOf(data[i], 3 - k)
    decreases |data|
  {
    var init := data[..|data| - 1];
    if i < |init| {
      BigEndianAt(init, i, k);
      assert init[i] == data[i];
    }
  }

  /** Groups bytes into big-endian words, four at a time. */
  function Words(bs: seq<byte>): (ws: seq<word>)
    requires |bs| % 4 == 0
    ensures |ws| == |bs| / 4
  {
    if bs == [] then [] else Words(bs[..|bs| - 4]) + [FromBytes(bs[|bs| - 4..])]
  }

  /** Reading the bytes back four at a time gives the words printed. */
  lemma {:induction false} WordsRoundTrip(data: seq<word>)
    ensures Words(BigEndian(data)) == data
    decreases |data|
  {
    if data != [] {
      var init, w := data[..|data| - 1], data[|data| - 1];
      var bs := BigEndian(data);
      assert bs[..|bs| - 4] == BigEndian(init) && bs[|bs| - 4..] == WordBytes(w);
      WordsRoundTrip(init);
      WordRoundTrip(w);
      assert init + [w] == data;
    }
  }

  /** The text of word i after the 4 i bytes `bs` before it: the newline of the outer
      loop when i is a non-zero multiple of 4, then its four literals. */
  lemma {:induction false} WordListing(bs: seq<byte>, w: word, i: nat)
    requires |bs| == 4 * i
    ensures Listing(bs + WordBytes(w), "\n") ==
      Listing(bs, "\n") + (if i % 4 == 0 && i != 0 then "\n" else "") + RowText(WordBytes(w))
  {
    ListingSplit(bs, WordBytes(w), 0, "\n");
    var q, m := i / 4, i % 4;
    assert |bs| == 16 * q + 4 * m;
    WordInRow(w, q, m);
  }

  /** Word m of row q: a line break before it only when it opens a row after the first. */
  lemma {:induction false} WordInRow(w: word, q: nat, m: nat)
    requires m < 4
    ensures ListingFrom(WordBytes(w), 16 * q + 4 * m, "\n") ==
      (if m == 0 && q != 0 then "\n" else "") + RowText(WordBytes(w))
  {
    assert (16 * q) % 16 == 0;
    if m == 0 {
      RowListing(WordBytes(w), 16 * q, "\n");
    } else {
      InRowNoBreak(WordBytes(w), 16 * q, 4 * m, "\n");
    }
  }

  lemma {:induction false} RowTextAppend(r: seq<byte>, b: byte)
    ensures RowText(r + [b]) == RowText(r) + HexByte(b) + ","
    decreases |r|
  {
    if r == [] {
      assert RowText([b]) == HexByte(b) + "," + RowText([]);
    } else {
      assert (r + [b])[0] == r[0] && (r + [b])[1..] == r[1..] + [b];
      RowTextAppend(r[1..], b);
    }
  }

  /** The inner for loop: the four bytes of `w`, from bits 31..24 down to bits 7..0. */
  method WriteWord(w: word, out0: string) returns (out: string)
    ensures out == out0 + RowText(WordBytes(w))
  {
    ghost var bs := WordBytes(w);
    out := out0;
    var j := 3;
    while j >= 0
      invariant -1 <= j <= 3
      invariant out == out0 + RowText(bs[..3 - j])
      decreases j
    {
      assert bs[3 - j] == ByteOf(w, j) && bs[..4 - j] == bs[..3 - j] + [bs[3 - j]];
      RowTextAppend(bs[..3 - j], bs[3 - j]);
      out := out + HexByte(ByteOf(w, j)) + ",";
      j := j - 1;
    }
    assert bs[..4] == bs;
  }

  /** main: the words of `data` in order, a newline before every fourth word but the
      first. The text is the sixteen-per-line listing of the big-endian bytes. */
  method Convert(data: seq<word>) returns (out: string)
    ensures out == Listing(BigEndian(data), "\n")
  {
    out := "";
    for i := 0 to |data|
      invariant out == Listing(BigEndian(data[..i]), "\n")
    {
      ghost var before := BigEndian(data[..i]);
      if i % 4 == 0 && i != 0 {
        out := out + "\n";
      }
      out := WriteWord(data[i], out);
      WordListing(before, data[i], i);
      assert data[..i + 1][..i] == data[..i];
    }
    assert data[..|data|] == data;
  }

  /** What convert prints reads back, literal by literal and line break by line break,
      into the big-endian bytes of the words, and those into the words themselves. */
  lemma ConvertReadsBack(data: seq<word>)
    ensures var bs := BigEndian(data);
      ParseListingFrom(Listing(bs, "\n"), 0, "\n") == Some(bs) && Words(bs) == data
  {
    ListingRoundTrip(BigEndian(data), 0, "\n");
    WordsRoundTrip(data);
  }
}
