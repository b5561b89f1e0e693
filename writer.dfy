/** writer.go: the archive writer, which puts the signature, the file table and the
    payloads on a byte sink.  Every operation is specified by `Emit`, the pure account of
    a sequence of `write` calls that stops at the first error. */
module ArchiveWriter {
  import opened Streams
  import opened Encoding
  import opened Signatures

  /** The error `Writer.write` reports for a sink write of `b` that returned `n` and `e`:
      the sink's own error, or ErrShortWrite when it took fewer bytes without one. */
  function WriteError(b: seq<byte>, n: int, e: Option<Error>): (r: Option<Error>)
    ensures e.Some? ==> r == e
    ensures e.None? ==> (r.Some? <==> n < |b|) && (r.Some? ==> r.value == ShortWrite)
  {
    if e.Some? then e else if n < |b| then Some(ShortWrite) else None
  }

  /** One `Writer.write` call: the sink's new state and the error reported. */
  function Offer(st: SinkState, o: Overflow, b: seq<byte>): (r: (SinkState, Option<Error>))
    ensures r.0.writes == st.writes + 1
    ensures |b| <= st.room ==> r == (SinkState(st.data + b, st.room - |b|, st.writes + 1), None)
    ensures |b| > st.room ==> r.0.data == st.data + b[..st.room] && r.0.room == 0
    ensures |b| > st.room ==> (r.1.None? <==> o == Overcount)
    ensures r.1 == Some(ShortWrite) <==> |b| > st.room && (o == Short || o == Negative)
  {
    var p := Put(st.room, o, b);
    assert |b| <= st.room ==> b[..p.0] == b;
    (SinkState(st.data + b[..p.0], st.room - p.0, st.writes + 1), WriteError(b, p.1, p.2))
  }

  /** The `write` calls of `chunks`, in order, stopping after the first one that fails. */
  function Emit(chunks: seq<seq<byte>>, st: SinkState, o: Overflow): (SinkState, Option<Error>)
  {
    if chunks == [] then (st, None)
    else
      var first := Offer(st, o, chunks[0]);
      if first.1.Some? then first else Emit(chunks[1..], first.0, o)
  }

  /** Emitting `a + b` emits `a`, then `b` unless `a` failed. */
  lemma {:induction false} EmitAppend(a: seq<seq<byte>>, b: seq<seq<byte>>, st: SinkState, o: Overflow)
    ensures var ra := Emit(a, st, o);
      Emit(a + b, st, o) == if ra.1.Some? then ra else Emit(b, ra.0, o)
  {
    if a == [] {
      assert a + b == b;
    } else {
      assert (a + b)[0] == a[0];
      assert (a + b)[1..] == a[1..] + b;
      var first := Offer(st, o, a[0]);
      if first.1.None? {
        EmitAppend(a[1..], b, first.0, o);
      }
    }
  }

  /** When the sink has room for everything, it receives exactly the concatenated chunks,
      one write per chunk, and no error is reported. */
  lemma {:induction false} EmitFits(chunks: seq<seq<byte>>, st: SinkState, o: Overflow)
    requires |Flatten(chunks)| <= st.room
    ensures var r := Emit(chunks, st, o);
      r.1 == None && r.0 == SinkState(st.data + Flatten(chunks), st.room - |Flatten(chunks)|, st.writes + |chunks|)
  {
    if chunks != [] {
      var c := chunks[0];
      assert Flatten(chunks) == c + Flatten(chunks[1..]);
      var first := Offer(st, o, c);
      assert first == (SinkState(st.data + c, st.room - |c|, st.writes + 1), None);
      EmitFits(chunks[1..], first.0, o);
      assert first.0.data + Flatten(chunks[1..]) == st.data + Flatten(chunks);
    }
  }

  /** How many writes an honest sink with `room` bytes left is offered: up to and including
      the first chunk that does not fit. */
  function Offered(chunks: seq<seq<byte>>, room: nat): (r: nat)
    ensures r <= |chunks|
  {
    if chunks == [] then 0
    else if |chunks[0]| > room then 1
    else 1 + Offered(chunks[1..], room - |chunks[0]|)
  }

  /** `Offered` counts exactly the chunks up to the first that overflows the room. */
  lemma {:induction false} OfferedStops(chunks: seq<seq<byte>>, room: nat)
    ensures |Flatten(chunks)| <= room ==> Offered(chunks, room) == |chunks|
    ensures |Flatten(chunks)| > room ==> var r := Offered(chunks, room);
      1 <= r && |Flatten(chunks[..r - 1])| <= room < |Flatten(chunks[..r])|
  {
    if chunks != [] {
      var c := chunks[0];
      assert Flatten(chunks) == c + Flatten(chunks[1..]);
      if |c| > room {
        assert chunks[..1] == [c] + [];
        FlattenAppend([c], []);
        assert chunks[..0] == [];
      } else {
        var rest := Offered(chunks[1..], room - |c|);
        OfferedStops(chunks[1..], room - |c|);
        if |Flatten(chunks)| > room {
          var r := 1 + rest;
          assert chunks[..r] == [c] + chunks[1..][..rest];
          assert chunks[..r - 1] == [c] + chunks[1..][..rest - 1];
          FlattenAppend([c], chunks[1..][..rest]);
          FlattenAppend([c], chunks[1..][..rest - 1]);
          assert Flatten([c]) == c + Flatten([]);
        }
      }
    }
  }

  /** A sink that reports what it took honestly (anything but Overcount) and runs out of room:
      the write fails, the sink holds exactly the bytes that fitted, and no chunk after the
      one that did not fit is offered. */
  lemma {:induction false} EmitOverflow(chunks: seq<seq<byte>>, st: SinkState, o: Overflow)
    requires o != Overcount && |Flatten(chunks)| > st.room
    ensures var r := Emit(chunks, st, o);
      && r.1.Some?
      && r.0.data == st.data + Flatten(chunks)[..st.room]
      && r.0.room == 0
      && r.0.writes == st.writes + Offered(chunks, st.room)
  {
    var c := chunks[0];
    assert Flatten(chunks) == c + Flatten(chunks[1..]);
    var first := Offer(st, o, c);
    if |c| > st.room {
      assert Flatten(chunks)[..st.room] == c[..st.room];
    } else {
      EmitOverflow(chunks[1..], first.0, o);
      assert Flatten(chunks)[..st.room] == c + Flatten(chunks[1..])[..st.room - |c|];
    }
  }

  /** A sink that over-reports what it took is trusted: every chunk is offered and no error is
      reported, though the sink holds only the bytes that fitted. */
  lemma {:induction false} EmitOvercount(chunks: seq<seq<byte>>, st: SinkState)
    ensures var r := Emit(chunks, st, Overcount);
      && r.1 == None
      && r.0.data == st.data + Flatten(chunks)[..Min(st.room, |Flatten(chunks)|)]
      && r.0.writes == st.writes + |chunks|
  {
    if chunks != [] {
      var c := chunks[0];
      assert Flatten(chunks) == c + Flatten(chunks[1..]);
      var first := Offer(st, Overcount, c);
      EmitOvercount(chunks[1..], first.0);
      if |c| > st.room {
        assert Flatten(chunks)[..st.room] == c[..st.room];
        assert Flatten(chunks[1..])[..0] == [];
      } else {
        assert Flatten(chunks)[..Min(st.room, |Flatten(chunks)|)]
          == c + Flatten(chunks[1..])[..Min(st.room - |c|, |Flatten(chunks[1..])|)];
      }
    }
  }

  /** The writes `WriteFileTable` has made after its first `i` records. */
  function TablePrefix(ft: seq<File>, i: nat): seq<seq<byte>>
    requires EncodableTable(ft) && i <= |ft|
  {
    [Uint64Bytes(|ft|)] + RecordChunks(ft[..i])
  }

  lemma TablePrefixStep(ft: seq<File>, i: nat)
    requires EncodableTable(ft) && i < |ft|
    ensures TablePrefix(ft, i) + FileInfoChunks(ft[i]) == TablePrefix(ft, i + 1)
  {
    assert ft[..i + 1] == ft[..i] + [ft[i]];
    RecordChunksAppend(ft[..i], [ft[i]]);
    assert RecordChunks([ft[i]]) == FileInfoChunks(ft[i]) + RecordChunks([]);
  }

  lemma TablePrefixRest(ft: seq<File>, i: nat)
    requires EncodableTable(ft) && i <= |ft|
    ensures TablePrefix(ft, i) + RecordChunks(ft[i..]) == TableChunks(ft)
  {
    assert ft[..i] + ft[i..] == ft;
    RecordChunksAppend(ft[..i], ft[i..]);
  }

  /** With room for it, `WriteFileTable` puts down exactly the table's encoding. */
  lemma EmitTable(ft: seq<File>, st: SinkState, o: Overflow)
    requires EncodableTable(ft) && |TableBytes(ft)| <= st.room
    ensures var r := Emit(TableChunks(ft), st, o);
      r.1 == None && r.0.data == st.data + TableBytes(ft) && r.0.room == st.room - |TableBytes(ft)|
  {
    TableChunksFlatten(ft);
    EmitFits(TableChunks(ft), st, o);
  }

  /** With room for it, `writeFileInfo` puts down exactly the record's encoding. */
  lemma EmitFileInfo(f: File, st: SinkState, o: Overflow)
    requires Encodable(f) && |FileInfoBytes(f)| <= st.room
    ensures var r := Emit(FileInfoChunks(f), st, o);
      r.1 == None && r.0.data == st.data + FileInfoBytes(f) && r.0.writes == st.writes + 3
  {
    FileInfoChunksFlatten(f);
    EmitFits(FileInfoChunks(f), st, o);
  }

  class Writer {
    const out: Sink

    constructor (out: Sink)
      ensures this.out == out
    {
      this.out := out;
    }

    /** `write`: one write to the sink, with short writes turned into ErrShortWrite. */
    method WriteBytes(b: seq<byte>) returns (err: Option<Error>)
      modifies out
      ensures (out.State(), err) == Emit([b], old(out.State()), out.overflow)
    {
      var n, e := out.Write(b);
      err := WriteError(b, n, e);
    }

    /** `writeUint64`: the eight little-endian bytes of `v`. */
    method WriteUint64(v: u64) returns (err: Option<Error>)
      modifies out
      ensures (out.State(), err) == Emit([Uint64Bytes(v)], old(out.State()), out.overflow)
    {
      err := WriteBytes(Uint64Bytes(v));
    }

    /** `writeFileInfo`: name length, name and size, stopping at the first error. */
    method WriteFileInfo(f: File) returns (err: Option<Error>)
      requires Encodable(f)
      modifies out
      ensures (out.State(), err) == Emit(FileInfoChunks(f), old(out.State()), out.overflow)
    {
      ghost var st0 := out.State();
      ghost var c := FileInfoChunks(f);
      assert c == [c[0]] + [c[1]] + [c[2]];
      EmitAppend([c[0]] + [c[1]], [c[2]], st0, out.overflow);
      EmitAppend([c[0]], [c[1]], st0, out.overflow);
      err := WriteUint64(|f.name|);
      if err == None {
        err := WriteBytes(f.name);
      }
      if err == None {
        err := WriteUint64(f.size);
      }
    }

    /** `WriteSignature`: the sixteen signature bytes in one write. */
    method WriteSignature(s: Signature) returns (err: Option<Error>)
      modifies out
      ensures (out.State(), err) == Emit([s], old(out.State()), out.overflow)
    {
      err := WriteBytes(s);
    }

    /** `WriteFileTable`: the record count, then each record in table order,
        leaving the loop at the first record that fails. */
    method WriteFileTable(ft: seq<File>) returns (err: Option<Error>)
      requires EncodableTable(ft)
      modifies out
      ensures (out.State(), err) == Emit(TableChunks(ft), old(out.State()), out.overflow)
    {
      ghost var st0 := out.State();
      ghost var o := out.overflow;
      err := WriteUint64(|ft|);
      if err == None {
        var i := 0;
        while i < |ft|
          invariant 0 <= i <= |ft|
          invariant (out.State(), err) == Emit(TablePrefix(ft, i), st0, o)
          invariant err == None
        {
          TablePrefixStep(ft, i);
          EmitAppend(TablePrefix(ft, i), FileInfoChunks(ft[i]), st0, o);
          err := WriteFileInfo(ft[i]);
          if err != None {
            TablePrefixRest(ft, i + 1);
            EmitAppend(TablePrefix(ft, i + 1), RecordChunks(ft[i + 1..]), st0, o);
            return;
          }
          i := i + 1;
        }
        TablePrefixRest(ft, |ft|);
        assert RecordChunks(ft[|ft|..]) == [];
        assert TablePrefix(ft, |ft|) == TableChunks(ft);
      } else {
        EmitAppend([Uint64Bytes(|ft|)], RecordChunks(ft), st0, o);
      }
    }

    /** `WriteFrom`: io.CopyN of `size` bytes from `src`, with a short copy that reports no
        error turned into ErrShortWrite.  io.CopyN reports an error for every short copy (the
        source's end error when the source runs out, the write's error when the sink is
        full), so that branch is never taken and ErrShortWrite comes only from a sink that
        reports a short count.  Go converts `size` to int64 first, so a size of 2^63 or more
        copies nothing and reports no error. */
    method WriteFrom(src: Source, size: u64) returns (err: Option<Error>)
      requires src.Valid()
      modifies out, src
      ensures src.Valid()
      ensures size >= 0x8000_0000_0000_0000 ==>
        err == None && out.State() == old(out.State()) && src.pos == old(src.pos)
      ensures size < 0x8000_0000_0000_0000 ==>
        (err.None? <==> size <= |src.data| - old(src.pos) && size <= old(out.room))
      ensures err.None? ==> old(src.pos) <= src.pos && out.data == old(out.data) + src.data[old(src.pos)..src.pos]
      ensures out.room + |out.data| == old(out.room) + |old(out.data)|
      ensures err.None? && size < 0x8000_0000_0000_0000 ==> src.pos == old(src.pos) + size
      ensures size < 0x8000_0000_0000_0000 && |src.data| - old(src.pos) < size && |src.data| - old(src.pos) <= old(out.room) ==>
        err == Some(src.EndError())
      ensures size < 0x8000_0000_0000_0000 && old(out.room) < Min(size, |src.data| - old(src.pos)) ==>
        err == Some(CopyWriteError(out.overflow))
      ensures err != Some(ShortWrite) || out.overflow == Short
    {
      var n, e := CopyN(out, src, Int64(size));
      if e == None && n < Int64(size) {
        err := Some(ShortWrite);
      } else {
        err := e;
      }
    }

    /** `Write`: the sink's own write, passed through unchanged. */
    method Write(b: seq<byte>) returns (n: int, err: Option<Error>)
      modifies out
      ensures var (taken, count, e) := Put(old(out.room), out.overflow, b);
        && out.data == old(out.data) + b[..taken]
        && out.room == old(out.room) - taken
        && out.writes == old(out.writes) + 1
        && n == count && err == e
    {
      n, err := out.Write(b);
    }
  }
}
