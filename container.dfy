/** The archive stream as a whole: the signature, the file table, then each file's payload in
    table order, written with `ArchiveWriter.Writer` and read back with
    `ArchiveReader.Reader` (the order pack.go and unpack.go use them in). */
module Container {
  import opened Streams
  import opened Encoding
  import opened Signatures
  import opened ArchiveWriter
  import opened ArchiveReader

  /** The payloads are those the table describes. */
  predicate Describes(ft: seq<File>, payloads: seq<seq<byte>>)
  {
    |payloads| == |ft| &&
    forall i :: 0 <= i < |ft| ==> ft[i].size == |payloads[i]| < 0x8000_0000_0000_0000
  }

  lemma FlattenSnoc(ps: seq<seq<byte>>, i: nat)
    requires i < |ps|
    ensures Flatten(ps[..i + 1]) == Flatten(ps[..i]) + ps[i]
  {
    assert ps[..i + 1] == ps[..i] + [ps[i]];
    FlattenAppend(ps[..i], [ps[i]]);
    assert Flatten([ps[i]]) == ps[i] + Flatten([]);
  }

  lemma FlattenSplit(ps: seq<seq<byte>>, i: nat)
    requires i < |ps|
    ensures Flatten(ps) == Flatten(ps[..i]) + ps[i] + Flatten(ps[i + 1..])
  {
    assert ps == ps[..i + 1] + ps[i + 1..];
    FlattenAppend(ps[..i + 1], ps[i + 1..]);
    FlattenSnoc(ps, i);
  }

  /** The container bytes for a table and its payloads. */
  function ContainerBytes(ft: seq<File>, payloads: seq<seq<byte>>): seq<byte>
    requires EncodableTable(ft)
  {
    NewSignature() + TableBytes(ft) + Flatten(payloads)
  }

  /** pack.go's order of writes: the signature, the table, then each payload copied from its
      own source.  On a sink with exactly enough room nothing fails and the sink receives the
      container bytes. */
  method Pack(ft: seq<File>, payloads: seq<seq<byte>>, overflow: Overflow)
    returns (container: seq<byte>, err: Option<Error>)
    requires EncodableTable(ft) && Describes(ft, payloads)
    ensures err == None && container == ContainerBytes(ft, payloads)
  {
    var header := NewSignature() + TableBytes(ft);
    var sink := new Sink(|header| + |Flatten(payloads)|, overflow);
    var w := new Writer(sink);
    assert Flatten([NewSignature()]) == NewSignature() + Flatten([]);
    EmitFits([NewSignature()], sink.State(), overflow);
    err := w.WriteSignature(NewSignature());
    EmitTable(ft, sink.State(), overflow);
    err := w.WriteFileTable(ft);
    assert sink.data == header;
    var i := 0;
    while i < |ft|
      invariant i <= |ft| && err == None
      invariant sink.data == header + Flatten(payloads[..i])
      invariant sink.room == |Flatten(payloads)| - |Flatten(payloads[..i])|
    {
      FlattenSnoc(payloads, i);
      assert |payloads[i]| <= sink.room by {
        FlattenSplit(payloads, i);
      }
      err := PackPayload(w, payloads[i], ft[i].size);
      i := i + 1;
    }
    assert payloads[..i] == payloads;
    container := sink.data;
  }

  /** One payload copied from its own source into the archive, `size` bytes as the table
      says. */
  method PackPayload(w: Writer, payload: seq<byte>, size: u64) returns (err: Option<Error>)
    requires size == |payload| < 0x8000_0000_0000_0000 && |payload| <= w.out.room
    modifies w.out
    ensures err == None && w.out.data == old(w.out.data) + payload && w.out.room == old(w.out.room) - |payload|
  {
    var src := new Source(payload, false);
    err := w.WriteFrom(src, size);
    assert src.data[0..src.pos] == payload;
  }

  /** unpack.go's order of reads: the signature, the table, then each payload copied to its
      own sink of the size the table gives.  Reading the bytes `Pack` produced gives back a
      valid signature, the table and every payload. */
  method Unpack(container: seq<byte>, ghost ft: seq<File>, ghost payloads: seq<seq<byte>>)
    returns (sig: Signature, table: Option<seq<File>>, back: seq<seq<byte>>, err: Option<Error>)
    requires EncodableTable(ft) && Describes(ft, payloads)
    requires container == ContainerBytes(ft, payloads)
    ensures IsValid(sig) && table == Some(ft) && back == payloads && err == None
  {
    var header := NewSignature() + TableBytes(ft);
    var source := new Source(container, false);
    var r := new Reader(source);
    assert source.Rest() == NewSignature() + (TableBytes(ft) + Flatten(payloads));
    sig, err := r.ReadSignature();
    TableRoundTrip(ft, Flatten(payloads));
    assert source.Rest() == TableBytes(ft) + Flatten(payloads);
    table, err := r.ReadFileTable();
    back, err := ReadPayloads(r, table.value, |header|, payloads);
  }

  /** The payload loop of `Unpack`, from a reader positioned just after the table. */
  method ReadPayloads(r: Reader, sizes: seq<File>, ghost start: nat, ghost payloads: seq<seq<byte>>)
    returns (back: seq<seq<byte>>, err: Option<Error>)
    requires r.src.Valid() && Describes(sizes, payloads)
    requires start == r.src.pos && r.src.data == r.src.data[..start] + Flatten(payloads)
    modifies r.src
    ensures back == payloads && err == None
  {
    back := [];
    err := None;
    assert r.src.data[start..] == Flatten(payloads);
    var i := 0;
    while i < |sizes|
      invariant i <= |sizes| && err == None && r.src.Valid()
      invariant r.src.pos == start + |Flatten(payloads[..i])|
      invariant back == payloads[..i]
    {
      FlattenSnoc(payloads, i);
      FlattenSplit(payloads, i);
      ghost var a := |Flatten(payloads[..i])|;
      assert Flatten(payloads)[a..a + |payloads[i]|] == payloads[i];
      assert r.src.data[start + a..start + a + |payloads[i]|] == payloads[i];
      var dst := new Sink(sizes[i].size, Fail);
      ghost var at := r.src.pos;
      err := r.ReadFileTo(dst, sizes[i].size);
      assert r.src.pos == at + |payloads[i]|;
      assert dst.data == payloads[i];
      back := back + [dst.data];
      assert payloads[..i + 1] == payloads[..i] + [payloads[i]];
      i := i + 1;
    }
    assert payloads[..i] == payloads;
  }
}
