/** The segment file's records as bytes, and the reader that meets them in chunks:
    `src/tape/segment/segment.py`. Compression is taken as the identity. */
module Segment {
  type Byte = x: int | 0 <= x < 256

  datatype Record = Record(kind: int, conn: int, mono: int, wall: int, payload: seq<Byte>)

  // ------------------------------------------------------------------ little-endian fields

  function Pow256(width: nat): (p: nat)
    ensures p > 0
  {
    if width == 0 then 1 else 256 * Pow256(width - 1)
  }

  function Pack(n: nat, width: nat): (bs: seq<Byte>)
    ensures |bs| == width
  {
    if width == 0 then [] else [n % 256] + Pack(n / 256, width - 1)
  }

  function Unpack(bs: seq<Byte>): nat {
    if bs == [] then 0 else bs[0] + 256 * Unpack(bs[1..])
  }

  /** A field survives in its range and no further. */
  lemma {:induction false} PackRoundTrip(n: nat, width: nat)
    ensures Unpack(Pack(n, width)) == n <==> n < Pow256(width)
    ensures Unpack(Pack(n, width)) < Pow256(width)
    decreases width
  {
    if width > 0 {
      PackRoundTrip(n / 256, width - 1);
      assert Pack(n, width)[1..] == Pack(n / 256, width - 1);
    }
  }

  const HEADER_SIZE: nat := 23

  /** What fits the fields of the record header. */
  predicate Fits(r: Record) {
    && 1 <= r.kind <= 5 && 0 <= r.conn < Pow256(2) && 0 <= r.mono < Pow256(8) && 0 <= r.wall < Pow256(8)
    && |r.payload| < Pow256(4)
  }

  /** The record kinds are 1 to 5, and the header's fields have 16, 64, 64 and 32 bits. */
  lemma FitsMeans(r: Record)
    ensures Fits(r) <==>
              && (r.kind == 1 || r.kind == 2 || r.kind == 3 || r.kind == 4 || r.kind == 5)
              && 0 <= r.conn < 0x1_0000 && 0 <= r.mono < 0x1_0000_0000_0000_0000
              && 0 <= r.wall < 0x1_0000_0000_0000_0000 && |r.payload| < 0x1_0000_0000
  {
    assert Pow256(2) == 0x1_0000;
    assert Pow256(4) == 0x1_0000 * Pow256(2);
    assert Pow256(6) == 0x1_0000 * Pow256(4);
    assert Pow256(8) == 0x1_0000 * Pow256(6);
  }

  function Header(r: Record): (h: seq<Byte>)
    requires Fits(r)
    ensures |h| == HEADER_SIZE
  {
    Pack(r.kind, 1) + Pack(r.conn, 2) + Pack(r.mono, 8) + Pack(r.wall, 8) + Pack(|r.payload|, 4)
  }

  function Encode(r: Record): seq<Byte>
    requires Fits(r)
  {
    Header(r) + r.payload
  }

  function EncodeAll(rs: seq<Record>): seq<Byte>
    requires forall i :: 0 <= i < |rs| ==> Fits(rs[i])
  {
    if rs == [] then [] else Encode(rs[0]) + EncodeAll(rs[1..])
  }

  // ------------------------------------------------------------------ parsing in one go

  datatype Parse = Parse(records: seq<Record>, rest: seq<Byte>, corrupt: bool)

  function LengthAt(b: seq<Byte>): nat
    requires |b| >= HEADER_SIZE
  {
    Unpack(b[19..23])
  }

  function RecordAt(b: seq<Byte>): Record
    requires |b| >= HEADER_SIZE && |b| >= HEADER_SIZE + LengthAt(b)
  {
    Record(Unpack(b[0..1]), Unpack(b[1..3]), Unpack(b[3..11]), Unpack(b[11..19]),
        b[HEADER_SIZE..HEADER_SIZE + LengthAt(b)])
  }

  predicate Complete(b: seq<Byte>) {
    |b| >= HEADER_SIZE && |b| >= HEADER_SIZE + LengthAt(b)
  }

  function ParseAll(b: seq<Byte>): Parse
    decreases |b|
  {
    if !Complete(b) then Parse([], b, false)
    else
      var r, rest := RecordAt(b), b[HEADER_SIZE + LengthAt(b)..];
      if r.kind < 1 || r.kind > 5 then Parse([], rest, true)
      else var p := ParseAll(rest); p.(records := [r] + p.records)
  }

  lemma FieldsAt(r: Record, more: seq<Byte>)
    requires Fits(r)
    ensures var b := Header(r) + more;
            && b[0..1] == Pack(r.kind, 1) && b[1..3] == Pack(r.conn, 2) && b[3..11] == Pack(r.mono, 8)
            && b[11..19] == Pack(r.wall, 8) && b[19..23] == Pack(|r.payload|, 4)
  {
  }

  lemma HeaderReadsBack(r: Record, more: seq<Byte>)
    requires Fits(r)
    ensures LengthAt(Header(r) + more) == |r.payload|
    ensures |more| >= |r.payload| && more[..|r.payload|] == r.payload ==>
            Complete(Header(r) + more) && RecordAt(Header(r) + more) == r
  {
    FieldsAt(r, more);
    PackRoundTrip(r.kind, 1);
    PackRoundTrip(r.conn, 2);
    PackRoundTrip(r.mono, 8);
    PackRoundTrip(r.wall, 8);
    PackRoundTrip(|r.payload|, 4);
    var b := Header(r) + more;
    if |more| >= |r.payload| { assert b[HEADER_SIZE..HEADER_SIZE + |r.payload|] == more[..|r.payload|]; }
  }

  /** The header byte by byte, each field from its lowest byte up: the kind, the connection in two bytes, the two
      clocks in eight each, and the payload's length in four. */
  lemma HeaderLayout(r: Record)
    requires Fits(r)
    ensures var h := Header(r);
            && |h| == 23 && h[0] == r.kind && (h[1] as int) + 256 * (h[2] as int) == r.conn
            && Unpack(h[3..11]) == r.mono && Unpack(h[11..19]) == r.wall
            && (h[19] as int) + 256 * (h[20] as int) + 65_536 * (h[21] as int) + 16_777_216 * (h[22] as int)
               == |r.payload|
  {
    var h := Header(r);
    FieldsAt(r, []);
    assert h + [] == h;
    PackRoundTrip(r.mono, 8);
    PackRoundTrip(r.wall, 8);
    PackRoundTrip(r.kind, 1);
    PackRoundTrip(r.conn, 2);
    PackRoundTrip(|r.payload|, 4);
    assert h[0..1] == [h[0]] && h[1..3] == [h[1], h[2]] && h[19..23] == [h[19], h[20], h[21], h[22]];
    UnpackOne(h[0]);
    UnpackTwo(h[1], h[2]);
    UnpackFour(h[19], h[20], h[21], h[22]);
  }

  lemma UnpackOne(a: Byte)
    ensures Unpack([a]) == a
  {
    assert [a][1..] == [];
  }

  lemma UnpackTwo(a: Byte, b: Byte)
    ensures Unpack([a, b]) == (a as int) + 256 * (b as int)
  {
    assert [a, b][1..] == [b];
    UnpackOne(b);
  }

  lemma UnpackFour(a: Byte, b: Byte, c: Byte, d: Byte)
    ensures Unpack([a, b, c, d])
            == (a as int) + 256 * (b as int) + 65_536 * (c as int) + 16_777_216 * (d as int)
  {
    assert [a, b, c, d][1..] == [b, c, d] && [b, c, d][1..] == [c, d];
    UnpackTwo(c, d);
  }

  /** How many records lie wholly before the cut. */
  ghost function Whole(rs: seq<Record>, cut: nat): (k: nat)
    requires forall i :: 0 <= i < |rs| ==> Fits(rs[i])
    ensures k <= |rs|
  {
    if rs == [] || cut < |Encode(rs[0])| then 0 else 1 + Whole(rs[1..], cut - |Encode(rs[0])|)
  }

  /** `Whole` counts what it says: the records before it end at or before the cut, the next one after it. */
  lemma {:induction false} WholeIs(rs: seq<Record>, cut: nat)
    requires forall i :: 0 <= i < |rs| ==> Fits(rs[i])
    ensures var k := Whole(rs, cut);
            k <= |rs| && |EncodeAll(rs[..k])| <= cut && (k < |rs| ==> cut < |EncodeAll(rs[..k + 1])|)
  {
    if rs == [] || cut < |Encode(rs[0])| {
      assert rs[..0] == [];
      if rs != [] { assert rs[..1][1..] == [] && EncodeAll(rs[..1]) == Encode(rs[0]) + []; }
    } else {
      WholeIs(rs[1..], cut - |Encode(rs[0])|);
      var k := Whole(rs[1..], cut - |Encode(rs[0])|);
      assert rs[..k + 1][1..] == rs[1..][..k];
      if k < |rs| - 1 { assert rs[..k + 2][1..] == rs[1..][..k + 1]; }
    }
  }

  lemma ParseOne(r: Record, more: seq<Byte>)
    requires Fits(r)
    ensures ParseAll(Encode(r) + more) == var p := ParseAll(more); p.(records := [r] + p.records)
  {
    assert Encode(r) + more == Header(r) + (r.payload + more);
    HeaderReadsBack(r, r.payload + more);
    assert (Encode(r) + more)[HEADER_SIZE + |r.payload|..] == more;
  }

  lemma CutInside(r: Record, cut: nat)
    requires Fits(r) && cut < |Encode(r)|
    ensures !Complete(Encode(r)[..cut])
  {
    if cut >= HEADER_SIZE {
      assert Encode(r)[..cut] == Header(r) + r.payload[..cut - HEADER_SIZE];
      HeaderReadsBack(r, r.payload[..cut - HEADER_SIZE]);
    }
  }

  lemma CutBeyond(first: seq<Byte>, rest: seq<Byte>, m: nat, left: nat)
    requires m <= left <= |rest|
    ensures (first + rest)[..|first| + left] == first + rest[..left]
    ensures (first + rest)[|first| + m..|first| + left] == rest[m..left]
  {
  }

  ghost predicate ParsesTo(rs: seq<Record>, cut: nat, k: nat)
    requires (forall i :: 0 <= i < |rs| ==> Fits(rs[i])) && cut <= |EncodeAll(rs)| && k <= |rs|
  {
    ParsesAs(EncodeAll(rs), cut, rs[..k], |EncodeAll(rs[..k])|)
  }

  /** The first `cut` bytes parse to the records, with what follows byte `used` left over. */
  ghost predicate ParsesAs(all: seq<Byte>, cut: nat, records: seq<Record>, used: nat) {
    used <= cut <= |all| && ParseAll(all[..cut]) == Parse(records, all[used..cut], false)
  }

  lemma PrefixOneMore(rs: seq<Record>, k: nat)
    requires rs != [] && (forall i :: 0 <= i < |rs| ==> Fits(rs[i])) && k <= |rs[1..]|
    ensures rs[..k + 1] == [rs[0]] + rs[1..][..k]
    ensures |EncodeAll(rs[..k + 1])| == |Encode(rs[0])| + |EncodeAll(rs[1..][..k])|
  {
    assert rs[..k + 1][1..] == rs[1..][..k];
  }

  lemma ParseBeyond(r: Record, rest: seq<Byte>, left: nat, records: seq<Record>, used: nat)
    requires Fits(r) && ParsesAs(rest, left, records, used)
    ensures ParsesAs(Encode(r) + rest, |Encode(r)| + left, [r] + records, |Encode(r)| + used)
  {
    CutBeyond(Encode(r), rest, used, left);
    ParseOne(r, rest[..left]);
  }

  lemma ParsesOneMore(rs: seq<Record>, left: nat, k: nat)
    requires rs != [] && (forall i :: 0 <= i < |rs| ==> Fits(rs[i])) && left <= |EncodeAll(rs[1..])| && k <= |rs[1..]|
    requires ParsesTo(rs[1..], left, k)
    ensures ParsesTo(rs, |Encode(rs[0])| + left, k + 1)
  {
    PrefixOneMore(rs, k);
    ParseBeyond(rs[0], EncodeAll(rs[1..]), left, rs[1..][..k], |EncodeAll(rs[1..][..k])|);
    assert EncodeAll(rs) == Encode(rs[0]) + EncodeAll(rs[1..]);
    assert ParsesAs(EncodeAll(rs), |Encode(rs[0])| + left, rs[..k + 1], |EncodeAll(rs[..k + 1])|);
  }

  lemma CutInFirst(rs: seq<Record>, cut: nat)
    requires (forall i :: 0 <= i < |rs| ==> Fits(rs[i])) && cut <= |EncodeAll(rs)|
    requires rs == [] || cut < |Encode(rs[0])|
    ensures ParsesTo(rs, cut, 0)
  {
    assert rs[..0] == [] && EncodeAll(rs)[0..cut] == EncodeAll(rs)[..cut];
    if rs != [] {
      CutInside(rs[0], cut);
      assert EncodeAll(rs)[..cut] == Encode(rs[0])[..cut];
    }
  }

  /** Cut anywhere, the bytes of a record list parse to exactly the records that lie wholly before the cut,
      and what is left over is the piece of the record the cut falls in. */
  lemma {:induction false} TruncatedRoundTrip(rs: seq<Record>, cut: nat)
    requires (forall i :: 0 <= i < |rs| ==> Fits(rs[i])) && cut <= |EncodeAll(rs)|
    ensures ParsesTo(rs, cut, Whole(rs, cut))
  {
    if rs == [] || cut < |Encode(rs[0])| {
      CutInFirst(rs, cut);
    } else {
      TruncatedRoundTrip(rs[1..], cut - |Encode(rs[0])|);
      ParsesOneMore(rs, cut - |Encode(rs[0])|, Whole(rs[1..], cut - |Encode(rs[0])|));
    }
  }

  // ------------------------------------------------------------------ the writer

  /** Records appended to what `_write` has sent to the file after its header. */
  class SegmentWriter {
    var data: seq<Byte>
    var closed: bool
    var recordsWritten: nat
    ghost var appended: seq<Record>

    ghost predicate Valid()
      reads this
    {
      (forall i :: 0 <= i < |appended| ==> Fits(appended[i])) && data == EncodeAll(appended)
      && recordsWritten == |appended|
    }

    constructor ()
      ensures Valid() && appended == [] && !closed
    {
      data, closed, recordsWritten, appended := [], false, 0, [];
    }

    /** `false` stands for the error of a closed writer or a field out of range. */
    method Append(r: Record) returns (ok: bool)
      requires Valid()
      modifies this
      ensures Valid() && closed == old(closed) && ok == (!closed && Fits(r))
      ensures appended == if ok then old(appended) + [r] else old(appended)
    {
      if closed || !Fits(r) { return false; }
      AppendOne(appended, r);
      data := data + Header(r);
      data := data + r.payload;
      recordsWritten := recordsWritten + 1;
      appended := appended + [r];
      ok := true;
    }

    method Close()
      requires Valid()
      modifies this`closed
      ensures Valid() && closed
    {
      closed := true;
    }
  }

  lemma {:induction false} AppendOne(rs: seq<Record>, r: Record)
    requires (forall i :: 0 <= i < |rs| ==> Fits(rs[i])) && Fits(r)
    ensures EncodeAll(rs + [r]) == EncodeAll(rs) + Header(r) + r.payload
  {
    if rs == [] {
      assert EncodeAll([] + [r]) == Encode(r) + [];
    } else {
      AppendOne(rs[1..], r);
      assert (rs + [r])[1..] == rs[1..] + [r];
    }
  }

  // ------------------------------------------------------------------ the reader

  /** How the decompressed input ends: with its frame, before it, in an error, or with input left over after it. */
  datatype End = Finished | Unfinished | Broken | Trailing

  datatype Item = Got(record: Record) | Stopped | Corrupt

  class SegmentReader {
    var chunks: seq<seq<Byte>>       // what decompression has yet to yield, in any cut
    const end: End
    var buffer: seq<Byte>
    var eof: bool
    var truncated: bool
    var damaged: bool

    /** Every byte still to be parsed. */
    ghost function Pending(): seq<Byte>
      reads this
    {
      buffer + Flat(chunks)
    }

    /** The input counts as damaged from where it turned out so, and at no other time. */
    ghost predicate Valid()
      reads this
    {
      && (eof ==> chunks == []) && (eof && end.Unfinished? ==> truncated) && (!eof ==> !truncated)
      && (damaged <==> eof && (end.Broken? || end.Trailing?))
    }

    constructor (chunks: seq<seq<Byte>>, end: End)
      ensures Valid() && !eof && !truncated && Pending() == Flat(chunks) && this.end == end
    {
      this.chunks, this.end, buffer, eof, truncated, damaged := chunks, end, [], false, false, false;
    }

    /** A chunk moves to the buffer; or the input has ended, unfinished, damaged or neither. */
    method Fill() returns (more: bool)
      requires Valid()
      modifies this
      ensures Valid() && Pending() == old(Pending())
      ensures more ==>
              |buffer| > |old(buffer)| && truncated == old(truncated) && !old(eof)
              && (eof <==> chunks == [] && end.Trailing?)
      ensures !more ==> eof && buffer == old(buffer) && truncated == (old(truncated) || end.Unfinished?)
      ensures damaged <==> old(damaged) || (eof && !old(eof) && (end.Broken? || end.Trailing?))
      decreases |chunks|
    {
      if eof { return false; }
      if chunks == [] {
        eof := true;
        if end.Unfinished? { truncated := true; }
        if end.Broken? || end.Trailing? { damaged := true; }
        return false;
      }
      var chunk := chunks[0];
      assert buffer + Flat(chunks) == (buffer + chunk) + Flat(chunks[1..]);
      chunks := chunks[1..];
      if chunks == [] && end.Trailing? { eof, damaged := true, true; }
      if chunk != [] {
        buffer := buffer + chunk;
        return true;
      }
      assert buffer + chunk == buffer;
      more := Fill();
    }

    /** Whether the input holds as many bytes as needed. */
    method Ensure(needed: nat) returns (ok: bool)
      requires Valid()
      modifies this
      ensures Valid() && Pending() == old(Pending())
      ensures ok ==> |buffer| >= needed && truncated == old(truncated) && (eof == old(eof) || end.Trailing?)
      ensures !ok ==> eof && chunks == [] && |buffer| < needed && truncated == (old(truncated) || end.Unfinished?)
    {
      ghost var was, ended := truncated, eof;
      while |buffer| < needed
        invariant Valid() && Pending() == old(Pending()) && truncated == was && (eof == ended || end.Trailing?)
        decreases needed - |buffer|
      {
        var more := Fill();
        if !more { return false; }
      }
      return true;
    }

    /** One step of `records()`. */
    method Next() returns (item: Item)
      requires Valid()
      modifies this
      ensures Valid()
      ensures item.Got? ==>
              Complete(old(Pending())) && item.record == RecordAt(old(Pending())) && 1 <= item.record.kind <= 5
      ensures item.Corrupt? ==> Complete(old(Pending())) && !(1 <= RecordAt(old(Pending())).kind <= 5)
      ensures !item.Stopped? ==>
              Pending() == old(Pending())[HEADER_SIZE + LengthAt(old(Pending()))..] && truncated == old(truncated)
              && (eof == old(eof) || end.Trailing?)
      ensures item.Stopped? ==> !Complete(old(Pending())) && Pending() == old(Pending()) && chunks == [] && eof
      ensures item.Stopped? && !old(truncated) ==> (truncated <==> Pending() != [] || end.Unfinished?)
      ensures item.Stopped? ==> (damaged <==> end.Broken? || end.Trailing?)
    {
      ghost var pending := Pending();
      var ok := Ensure(HEADER_SIZE);
      if !ok {
        assert buffer + Flat(chunks) == buffer;
        truncated := truncated || |buffer| > 0;
        return Stopped;
      }
      assert buffer[19..23] == pending[19..23];
      var length := Unpack(buffer[19..23]);
      ok := Ensure(HEADER_SIZE + length);
      if !ok {
        assert buffer + Flat(chunks) == buffer;
        truncated := true;
        return Stopped;
      }
      assert buffer[19..23] == pending[19..23];
      SameRecord(buffer, Flat(chunks));
      var record := RecordAt(buffer);
      assert pending[HEADER_SIZE + length..] == buffer[HEADER_SIZE + length..] + Flat(chunks);
      buffer := buffer[HEADER_SIZE + length..];
      item := if 1 <= record.kind <= 5 then Got(record) else Corrupt;
    }

    /** However the bytes come in chunks, reading gives what parsing them in one go gives; and after the
        last record, bytes left over mean that the file is truncated. */
    method ReadAll() returns (records: seq<Record>, corrupt: bool)
      requires Valid() && !truncated
      modifies this
      ensures Valid() && records == ParseAll(old(Pending())).records && corrupt == ParseAll(old(Pending())).corrupt
      ensures Pending() == ParseAll(old(Pending())).rest
      ensures !corrupt ==>
              eof && (truncated <==> Pending() != [] || end.Unfinished?) && (damaged <==> end.Broken? || end.Trailing?)
    {
      ghost var all := Pending();
      records := [];
      while true
        invariant Valid() && !truncated
        invariant ParseAll(all).records == records + ParseAll(Pending()).records
        invariant ParseAll(all).rest == ParseAll(Pending()).rest && ParseAll(all).corrupt == ParseAll(Pending()).corrupt
        decreases |Pending()|
      {
        ghost var pending := Pending();
        var item := Next();
        match item
        case Stopped => return records, false;
        case Corrupt => return records, true;
        case Got(record) =>
          assert ParseAll(pending).records == [record] + ParseAll(Pending()).records;
          records := records + [record];
      }
    }
  }

  lemma SameRecord(buffer: seq<Byte>, more: seq<Byte>)
    requires Complete(buffer)
    ensures Complete(buffer + more) && RecordAt(buffer + more) == RecordAt(buffer)
            && LengthAt(buffer + more) == LengthAt(buffer)
  {
    var b, n := buffer + more, HEADER_SIZE + LengthAt(buffer);
    assert b[19..23] == buffer[19..23] && b[0..1] == buffer[0..1] && b[1..3] == buffer[1..3];
    assert b[3..11] == buffer[3..11] && b[11..19] == buffer[11..19] && b[HEADER_SIZE..n] == buffer[HEADER_SIZE..n];
  }

  function Flat(chunks: seq<seq<Byte>>): seq<Byte> {
    if chunks == [] then [] else chunks[0] + Flat(chunks[1..])
  }
}
