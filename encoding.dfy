/** The container's byte layout (writer.go, reader.go, interface.go): little-endian
    64-bit integers, length-prefixed names, file records and the file table, with
    reference decoders and the round trips between the two. */
module Encoding {
  import opened Streams

  function Pow256(k: nat): (p: nat)
    ensures p >= 1
  {
    if k == 0 then 1 else 256 * Pow256(k - 1)
  }

  lemma Pow256Eight()
    ensures Pow256(8) == U64_LIMIT
  {
  }

  /** The `width` low-order bytes of `v`, least significant first (binary.LittleEndian.PutUint64 for width 8). */
  function LeBytes(v: nat, width: nat): (r: seq<byte>)
    ensures |r| == width
  {
    if width == 0 then [] else [v % 256] + LeBytes(v / 256, width - 1)
  }

  /** The number whose little-endian bytes are `s` (binary.LittleEndian.Uint64 for 8 bytes). */
  function LeValue(s: seq<byte>): (v: nat)
    ensures v < Pow256(|s|)
  {
    if s == [] then 0
    else
      var rest := LeValue(s[1..]);
      assert rest <= Pow256(|s| - 1) - 1;
      assert 256 * rest <= 256 * Pow256(|s| - 1) - 256;
      s[0] + 256 * rest
  }

  /** Decoding the bytes written for `v` gives `v` back. */
  lemma {:induction false} LeValueOfBytes(v: nat, width: nat)
    requires v < Pow256(width)
    ensures LeValue(LeBytes(v, width)) == v
  {
    if width > 0 {
      var q, r := v / 256, v % 256;
      assert v == 256 * q + r;
      assert Pow256(width) == 256 * Pow256(width - 1);
      assert q < Pow256(width - 1);
      LeValueOfBytes(q, width - 1);
      var bytes := LeBytes(v, width);
      assert bytes[1..] == LeBytes(q, width - 1);
      assert bytes[0] == r;
    }
  }

  /** Encoding a decoded value gives the same bytes back, so the encoding is a bijection. */
  lemma {:induction false} LeBytesOfValue(s: seq<byte>)
    ensures LeBytes(LeValue(s), |s|) == s
  {
    if s != [] {
      LeBytesOfValue(s[1..]);
      var b, x := s[0], LeValue(s[1..]);
      assert LeValue(s) == b + 256 * x;
      DivModByte(b, x);
      assert LeBytes(LeValue(s), |s|) == [s[0]] + LeBytes(x, |s| - 1);
      assert [s[0]] + s[1..] == s;
    }
  }

  lemma DivModByte(b: nat, x: nat)
    requires b < 256
    ensures (b + 256 * x) % 256 == b && (b + 256 * x) / 256 == x
  {
  }

  /** `writeUint64`'s eight bytes. */
  function Uint64Bytes(v: u64): (r: seq<byte>)
    ensures |r| == 8
  {
    LeBytes(v, 8)
  }

  /** `readUint64`'s value: present when at least eight bytes are there. */
  function DecodeUint64(s: seq<byte>): (r: Option<u64>)
    ensures r.Some? <==> |s| >= 8
  {
    if |s| < 8 then None
    else
      Pow256Eight();
      Some(LeValue(s[..8]))
  }

  lemma Uint64RoundTrip(v: u64, tail: seq<byte>)
    ensures DecodeUint64(Uint64Bytes(v) + tail) == Some(v)
  {
    Pow256Eight();
    LeValueOfBytes(v, 8);
    assert (Uint64Bytes(v) + tail)[..8] == Uint64Bytes(v);
  }

  /** interface.go's File; the name is held as the bytes Go writes for it. */
  datatype File = File(name: seq<byte>, size: u64)

  /** The Go types bound every length written as a uint64. */
  predicate Encodable(f: File)
  {
    |f.name| < U64_LIMIT
  }

  predicate EncodableTable(ft: seq<File>)
  {
    |ft| < U64_LIMIT && forall i :: 0 <= i < |ft| ==> Encodable(ft[i])
  }

  function Flatten(chunks: seq<seq<byte>>): seq<byte>
  {
    if chunks == [] then [] else chunks[0] + Flatten(chunks[1..])
  }

  lemma {:induction false} FlattenAppend(a: seq<seq<byte>>, b: seq<seq<byte>>)
    ensures Flatten(a + b) == Flatten(a) + Flatten(b)
  {
    if a == [] {
      assert a + b == b;
    } else {
      assert (a + b)[0] == a[0];
      assert (a + b)[1..] == a[1..] + b;
      FlattenAppend(a[1..], b);
      calc {
        Flatten(a + b);
        a[0] + Flatten(a[1..] + b);
        a[0] + (Flatten(a[1..]) + Flatten(b));
      }
    }
  }

  /** The three writes `writeFileInfo` makes: name length, name, size. */
  function FileInfoChunks(f: File): seq<seq<byte>>
    requires Encodable(f)
  {
    [Uint64Bytes(|f.name|), f.name, Uint64Bytes(f.size)]
  }

  function FileInfoBytes(f: File): (r: seq<byte>)
    requires Encodable(f)
    ensures |r| == 16 + |f.name|
  {
    Uint64Bytes(|f.name|) + f.name + Uint64Bytes(f.size)
  }

  lemma FileInfoChunksFlatten(f: File)
    requires Encodable(f)
    ensures Flatten(FileInfoChunks(f)) == FileInfoBytes(f)
  {
    var c: seq<seq<byte>> := FileInfoChunks(f);
    assert c[1..] == [f.name, Uint64Bytes(f.size)];
    assert c[1..][1..] == [Uint64Bytes(f.size)];
    assert |c[1..][1..][1..]| == 0;
    assert Flatten(c[1..][1..]) == Uint64Bytes(f.size);
    assert Flatten(c[1..]) == f.name + Uint64Bytes(f.size);
  }

  /** The writes `WriteFileTable` makes for the records, in table order. */
  function RecordChunks(ft: seq<File>): seq<seq<byte>>
    requires forall i :: 0 <= i < |ft| ==> Encodable(ft[i])
  {
    if ft == [] then [] else FileInfoChunks(ft[0]) + RecordChunks(ft[1..])
  }

  function RecordBytes(ft: seq<File>): seq<byte>
    requires forall i :: 0 <= i < |ft| ==> Encodable(ft[i])
  {
    if ft == [] then [] else FileInfoBytes(ft[0]) + RecordBytes(ft[1..])
  }

  /** All writes `WriteFileTable` makes: the count, then the records. */
  function TableChunks(ft: seq<File>): seq<seq<byte>>
    requires EncodableTable(ft)
  {
    [Uint64Bytes(|ft|)] + RecordChunks(ft)
  }

  function TableBytes(ft: seq<File>): seq<byte>
    requires EncodableTable(ft)
  {
    Uint64Bytes(|ft|) + RecordBytes(ft)
  }

  lemma {:induction false} RecordChunksFlatten(ft: seq<File>)
    requires forall i :: 0 <= i < |ft| ==> Encodable(ft[i])
    ensures Flatten(RecordChunks(ft)) == RecordBytes(ft)
  {
    if ft != [] {
      RecordChunksFlatten(ft[1..]);
      FlattenAppend(FileInfoChunks(ft[0]), RecordChunks(ft[1..]));
      FileInfoChunksFlatten(ft[0]);
    }
  }

  /** The writes of `WriteFileTable` put down exactly the table's encoding. */
  lemma TableChunksFlatten(ft: seq<File>)
    requires EncodableTable(ft)
    ensures Flatten(TableChunks(ft)) == TableBytes(ft)
  {
    RecordChunksFlatten(ft);
    FlattenAppend([Uint64Bytes(|ft|)], RecordChunks(ft));
  }

  lemma {:induction false} RecordChunksAppend(a: seq<File>, b: seq<File>)
    requires forall i :: 0 <= i < |a| ==> Encodable(a[i])
    requires forall i :: 0 <= i < |b| ==> Encodable(b[i])
    ensures forall i :: 0 <= i < |a + b| ==> Encodable((a + b)[i])
    ensures RecordChunks(a + b) == RecordChunks(a) + RecordChunks(b)
  {
    if a != [] {
      assert (a + b)[0] == a[0];
      assert (a + b)[1..] == a[1..] + b;
      RecordChunksAppend(a[1..], b);
    } else {
      assert a + b == b;
    }
  }

  /** `readString`'s result: a length, then that many bytes; with the bytes it spans. */
  function DecodeString(s: seq<byte>): (r: Option<(seq<byte>, nat)>)
    ensures r.Some? ==> |s| >= 8 && r.value.1 == 8 + |r.value.0| <= |s|
  {
    if |s| < 8 then None
    else
      var l := LeValue(s[..8]);
      if |s| - 8 < l then None else Some((s[8..8 + l], 8 + l))
  }

  /** `readFileInfo`'s result, with the bytes it spans. */
  function DecodeFileInfo(s: seq<byte>): (r: Option<(File, nat)>)
    ensures r.Some? ==> 16 <= r.value.1 <= |s|
  {
    var name := DecodeString(s);
    if name.None? then None
    else
      var size := DecodeUint64(s[name.value.1..]);
      if size.None? then None
      else Some((File(name.value.0, size.value), name.value.1 + 8))
  }

  /** `count` records read one after another, with the bytes they span: the first
      `count - 1` records, then one more where they end. */
  function DecodeRecords(s: seq<byte>, count: nat): (r: Option<(seq<File>, nat)>)
    ensures r.Some? ==> |r.value.0| == count && r.value.1 <= |s|
  {
    if count == 0 then Some(([], 0))
    else
      var prev := DecodeRecords(s, count - 1);
      if prev.None? then None
      else
        var next := DecodeFileInfo(s[prev.value.1..]);
        if next.None? then None
        else Some((prev.value.0 + [next.value.0], prev.value.1 + next.value.1))
  }

  /** `ReadFileTable`'s result when nothing fails: a count, then that many records. */
  function DecodeTable(s: seq<byte>): (r: Option<(seq<File>, nat)>)
    ensures r.Some? ==> r.value.1 <= |s|
  {
    var count := DecodeUint64(s);
    if count.None? then None
    else
      var records := DecodeRecords(s[8..], count.value);
      if records.None? then None
      else Some((records.value.0, 8 + records.value.1))
  }

  lemma FileInfoRoundTrip(f: File, tail: seq<byte>)
    requires Encodable(f)
    ensures var r := DecodeFileInfo(FileInfoBytes(f) + tail);
      r.Some? && r.value.0 == f && r.value.1 == |FileInfoBytes(f)|
  {
    var s := FileInfoBytes(f) + tail;
    var n := |f.name|;
    Uint64RoundTrip(n, f.name + Uint64Bytes(f.size) + tail);
    assert s == Uint64Bytes(n) + (f.name + Uint64Bytes(f.size) + tail);
    assert s[..8] == Uint64Bytes(n);
    Pow256Eight();
    LeValueOfBytes(n, 8);
    assert s[8..8 + n] == f.name;
    assert DecodeString(s) == Some((f.name, 8 + n));
    assert s[8 + n..] == Uint64Bytes(f.size) + tail;
    Uint64RoundTrip(f.size, tail);
  }

  lemma {:induction false} RecordBytesSnoc(ft: seq<File>, f: File)
    requires forall i :: 0 <= i < |ft| ==> Encodable(ft[i])
    requires Encodable(f)
    ensures forall i :: 0 <= i < |ft + [f]| ==> Encodable((ft + [f])[i])
    ensures RecordBytes(ft + [f]) == RecordBytes(ft) + FileInfoBytes(f)
  {
    if ft == [] {
      assert [] + [f] == [f];
    } else {
      assert (ft + [f])[1..] == ft[1..] + [f];
      RecordBytesSnoc(ft[1..], f);
    }
  }

  lemma {:induction false} RecordsRoundTrip(ft: seq<File>, tail: seq<byte>)
    requires forall i :: 0 <= i < |ft| ==> Encodable(ft[i])
    ensures var r := DecodeRecords(RecordBytes(ft) + tail, |ft|);
      r.Some? && r.value.0 == ft && r.value.1 == |RecordBytes(ft)|
  {
    if ft != [] {
      var init, f := ft[..|ft| - 1], ft[|ft| - 1];
      assert ft == init + [f];
      RecordBytesSnoc(init, f);
      var s := RecordBytes(ft) + tail;
      var k := |RecordBytes(init)|;
      assert s == RecordBytes(init) + (FileInfoBytes(f) + tail);
      RecordsRoundTrip(init, FileInfoBytes(f) + tail);
      assert DecodeRecords(s, |ft| - 1).value == (init, k);
      assert s[k..] == FileInfoBytes(f) + tail;
      FileInfoRoundTrip(f, tail);
      var next := DecodeFileInfo(s[k..]);
      assert next.Some? && next.value.0 == f && next.value.1 == |FileInfoBytes(f)|;
      assert |RecordBytes(ft)| == k + next.value.1;
      var r := DecodeRecords(s, |ft|);
      assert r.Some? && r.value.0 == init + [f] && r.value.1 == k + next.value.1;
    }
  }

  /** Reading back the table's encoding, followed by anything, gives the table and
      consumes exactly its encoding. */
  lemma TableRoundTrip(ft: seq<File>, tail: seq<byte>)
    requires EncodableTable(ft)
    ensures var r := DecodeTable(TableBytes(ft) + tail);
      r.Some? && r.value.0 == ft && r.value.1 == |TableBytes(ft)|
  {
    var s := TableBytes(ft) + tail;
    var rest := RecordBytes(ft) + tail;
    assert DecodeUint64(s) == Some(|ft|) && s[8..] == rest by {
      assert s == Uint64Bytes(|ft|) + rest;
      Uint64RoundTrip(|ft|, rest);
    }
    assert DecodeRecords(rest, |ft|) == Some((ft, |RecordBytes(ft)|)) by {
      RecordsRoundTrip(ft, tail);
    }
  }

  lemma SliceSplit(s: seq<byte>, a: nat, b: nat)
    requires a <= b <= |s|
    ensures s[..b] == s[..a] + s[a..][..b - a]
  {
    assert s[..b] == s[..a] + s[a..b];
  }

  /** The decoder accepts only encodings: what it consumed is the encoding of what it returned. */
  lemma FileInfoCanonical(s: seq<byte>)
    requires DecodeFileInfo(s).Some?
    ensures Encodable(DecodeFileInfo(s).value.0)
    ensures FileInfoBytes(DecodeFileInfo(s).value.0) == s[..DecodeFileInfo(s).value.1]
  {
    var (f, k) := DecodeFileInfo(s).value;
    var n := |f.name|;
    assert LeValue(s[..8]) == n;
    LeBytesOfValue(s[..8]);
    LeBytesOfValue(s[k - 8..k]);
    assert s[k - 8..][..8] == s[k - 8..k];
    assert s[..k] == s[..8] + s[8..8 + n] + s[k - 8..k];
  }

  lemma {:induction false} RecordsCanonical(s: seq<byte>, count: nat)
    requires DecodeRecords(s, count).Some?
    ensures forall i :: 0 <= i < count ==> Encodable(DecodeRecords(s, count).value.0[i])
    ensures RecordBytes(DecodeRecords(s, count).value.0) == s[..DecodeRecords(s, count).value.1]
  {
    if count > 0 {
      var prev := DecodeRecords(s, count - 1).value;
      RecordsCanonical(s, count - 1);
      var next := DecodeFileInfo(s[prev.1..]).value;
      FileInfoCanonical(s[prev.1..]);
      RecordBytesSnoc(prev.0, next.0);
      SliceSplit(s, prev.1, prev.1 + next.1);
    }
  }

  /** Every table the decoder accepts is re-encoded to exactly the bytes it consumed. */
  lemma TableCanonical(s: seq<byte>)
    requires DecodeTable(s).Some?
    ensures EncodableTable(DecodeTable(s).value.0)
    ensures TableBytes(DecodeTable(s).value.0) == s[..DecodeTable(s).value.1]
  {
    var l := DecodeUint64(s).value;
    var records := DecodeRecords(s[8..], l).value;
    assert DecodeTable(s).value == (records.0, 8 + records.1);
    assert EncodableTable(records.0) && RecordBytes(records.0) == s[8..][..records.1] by {
      RecordsCanonical(s[8..], l);
    }
    assert Uint64Bytes(|records.0|) == s[..8] by {
      assert l == LeValue(s[..8]) && |records.0| == l;
      LeBytesOfValue(s[..8]);
    }
    SliceSplit(s, 8, 8 + records.1);
  }

  /** Once a record fails, reading any number of further records fails. */
  lemma {:induction false} DecodeRecordsFailure(s: seq<byte>, i: nat, j: nat)
    requires DecodeRecords(s, i).None?
    ensures DecodeRecords(s, i + j).None?
  {
    if j > 0 {
      DecodeRecordsFailure(s, i, j - 1);
    }
  }
}
