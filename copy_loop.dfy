/** The read/write loop of copyBuffer, which cmd/rpk/common.go and cmd/rpk/main.go each define
    (the first behind a limit on what it reads, the second without one): what the loop does to
    the sink, how much it reports written, how much it reads and the error it returns, given
    the bytes it will be able to read and the buffer's size. */
module CopyLoop {
  import opened Streams

  /** The loop's result: the sink's new state, the count `written`, how many bytes were read
      from the source, and the error returned. */
  datatype Outcome = Outcome(sink: SinkState, written: nat, read: nat, err: Option<Error>)

  /** How copyBuffer judges one write of a `chunk`: a count below zero or above the chunk is
      an invalid result and counts as zero (the sink's own error, if any, wins over "invalid
      write result"); a valid count short of the chunk without an error is a short write. */
  function Judge(chunk: nat, nw: int, ew: Option<Error>): (r: (nat, Option<Error>))
    ensures r.0 <= chunk
    ensures r.1.None? <==> nw == chunk && ew.None?
    ensures 0 <= nw <= chunk ==> r.0 == nw
  {
    if nw < 0 || chunk < nw then (0, if ew.Some? then ew else Some(InvalidWrite))
    else (nw, if ew.Some? then ew else if nw != chunk then Some(ShortWrite) else None)
  }

  /** One round's write of a `chunk` to a sink in state `st`, judged: the sink's new state,
      the count added to `written`, and the error that ends the loop, if any. */
  function Round(st: SinkState, o: Overflow, chunk: seq<byte>): (r: (SinkState, nat, Option<Error>))
    ensures r.1 <= |chunk| && (r.2.None? ==> r.1 == |chunk|)
  {
    var p := Put(st.room, o, chunk);
    var j := Judge(|chunk|, p.1, p.2);
    (SinkState(st.data + chunk[..p.0], st.room - p.0, st.writes + 1), j.0, j.1)
  }

  /** `r` continued after `written` bytes were counted and `read` bytes read. */
  function After(written: nat, read: nat, r: Outcome): Outcome
  {
    Outcome(r.sink, written + r.written, read + r.read, r.err)
  }

  /** The loop over `data`, the bytes its reads will return, read `size` at a time into the
      buffer and written to a sink in state `st`; `end` is what the final read's error
      becomes (nothing for end-of-file, the source's own error otherwise). */
  function Copy(data: seq<byte>, size: nat, st: SinkState, o: Overflow, end: Option<Error>): Outcome
    requires size > 0
    decreases |data|
  {
    if data == [] then Outcome(st, 0, 0, end)
    else
      var chunk := data[..Min(size, |data|)];
      var r := Round(st, o, chunk);
      if r.2.Some? then Outcome(r.0, r.1, |chunk|, r.2)
      else After(r.1, |chunk|, Copy(data[|chunk|..], size, r.0, o, end))
  }

  /** What a read error becomes in copyBuffer's result: end-of-file is not an error. */
  function Reported(e: Error): Option<Error>
  {
    if e == EOF then None else Some(e)
  }

  /** The error a sink that overflows ends the copy with: its own error, a short write, or an
      invalid write result. */
  function OverflowError(o: Overflow): Error
  {
    match o
    case Fail => DeviceFull
    case Short => ShortWrite
    case Negative => InvalidWrite
    case Overcount => InvalidWrite
  }

  /** One round of the loop that the write passes: the loop goes on with the rest of the
      data and the sink in its new state `st'`. */
  lemma CopyGoesOn(data: seq<byte>, size: nat, st: SinkState, o: Overflow, end: Option<Error>, st': SinkState)
    requires size > 0 && data != []
    requires var r := Round(st, o, data[..Min(size, |data|)]); r.2 == None && st' == r.0
    ensures var n := Min(size, |data|);
      Copy(data, size, st, o, end) == After(n, n, Copy(data[n..], size, st', o, end))
  {
  }

  /** One round of the loop that the write fails: the loop stops there, with the count and
      error the write was judged to give. */
  lemma CopyStops(data: seq<byte>, size: nat, st: SinkState, o: Overflow, end: Option<Error>)
    requires size > 0 && data != []
    requires Round(st, o, data[..Min(size, |data|)]).2.Some?
    ensures var chunk := data[..Min(size, |data|)];
      var r := Round(st, o, chunk);
      Copy(data, size, st, o, end) == Outcome(r.0, r.1, |chunk|, r.2)
  {
  }

  /** A chunk the sink has room for is taken whole and counted, and the loop goes on. */
  lemma CopyChunkFits(data: seq<byte>, size: nat, st: SinkState, o: Overflow, end: Option<Error>)
    requires size > 0 && data != [] && Min(size, |data|) <= st.room
    ensures var chunk := data[..Min(size, |data|)];
      var st' := SinkState(st.data + chunk, st.room - |chunk|, st.writes + 1);
      Copy(data, size, st, o, end) == After(|chunk|, |chunk|, Copy(data[|chunk|..], size, st', o, end))
  {
    var chunk := data[..Min(size, |data|)];
    var st' := SinkState(st.data + chunk, st.room - |chunk|, st.writes + 1);
    RoundFits(st, o, chunk);
    CopyGoesOn(data, size, st, o, end, st');
  }

  /** A write the sink has room for takes the whole chunk and counts it. */
  lemma RoundFits(st: SinkState, o: Overflow, chunk: seq<byte>)
    requires |chunk| <= st.room
    ensures Round(st, o, chunk) == (SinkState(st.data + chunk, st.room - |chunk|, st.writes + 1), |chunk|, None)
  {
    assert Put(st.room, o, chunk) == (|chunk|, |chunk|, None);
    assert chunk[..|chunk|] == chunk;
  }

  /** What the sink holds after taking the first `k` bytes of `data` and then the first
      `n - k` of the rest. */
  lemma PrefixJoin(held: seq<byte>, data: seq<byte>, k: nat, n: nat)
    requires k <= n <= |data|
    ensures (held + data[..k]) + data[k..][..n - k] == held + data[..n]
  {
    assert data[..k] + data[k..][..n - k] == data[..n];
  }

  /** The first `k` bytes of `data` taken, then all of the rest. */
  lemma FitsJoin(data: seq<byte>, k: nat, st: SinkState, r1: Outcome, end: Option<Error>)
    requires k <= |data| <= st.room
    requires r1.sink.data == (st.data + data[..k]) + data[k..] && r1.sink.room == st.room - k - (|data| - k)
    requires r1.written == |data| - k && r1.read == |data| - k && r1.err == end
    ensures var r := After(k, k, r1);
      && r.sink.data == st.data + data && r.sink.room == st.room - |data|
      && r.written == |data| && r.read == |data| && r.err == end
  {
    assert data[..k] + data[k..] == data;
  }

  /** When the sink has room for everything: all of it is read and written, the count is
      exact, and the copy ends with the final read's error. */
  lemma {:induction false} CopyFits(data: seq<byte>, size: nat, st: SinkState, o: Overflow, end: Option<Error>)
    requires size > 0 && |data| <= st.room
    ensures var r := Copy(data, size, st, o, end);
      && r.sink.data == st.data + data && r.sink.room == st.room - |data|
      && r.written == |data| && r.read == |data| && r.err == end
    decreases |data|
  {
    if data != [] {
      var chunk := data[..Min(size, |data|)];
      var st' := SinkState(st.data + chunk, st.room - |chunk|, st.writes + 1);
      CopyChunkFits(data, size, st, o, end);
      CopyFits(data[|chunk|..], size, st', o, end);
      FitsJoin(data, |chunk|, st, Copy(data[|chunk|..], size, st', o, end), end);
    }
  }

  /** When the sink runs out of room: it ends up full with the data's first bytes, the copy
      stops with the sink's overflow error after reading past what fit, and no more is
      counted than was taken (exactly that for a sink that reports its count truthfully). */
  lemma {:induction false} CopyOverflows(data: seq<byte>, size: nat, st: SinkState, o: Overflow, end: Option<Error>)
    requires size > 0 && st.room < |data|
    ensures var r := Copy(data, size, st, o, end);
      && r.sink.data == st.data + data[..st.room] && r.sink.room == 0
      && r.err == Some(OverflowError(o))
      && st.room < r.read <= |data|
      && r.written <= st.room
      && (o == Fail || o == Short ==> r.written == st.room)
    decreases |data|
  {
    var chunk := data[..Min(size, |data|)];
    if |chunk| <= st.room {
      var st' := SinkState(st.data + chunk, st.room - |chunk|, st.writes + 1);
      var r1 := Copy(data[|chunk|..], size, st', o, end);
      assert Copy(data, size, st, o, end) == After(|chunk|, |chunk|, r1) by {
        CopyChunkFits(data, size, st, o, end);
      }
      CopyOverflows(data[|chunk|..], size, st', o, end);
      assert r1.sink.data == st.data + data[..st.room] by {
        PrefixJoin(st.data, data, |chunk|, st.room);
      }
    } else {
      CopyChunkOverflows(data, size, st, o, end);
    }
  }

  /** A chunk the sink has no room for: the sink takes what fits and the loop stops with
      the overflow's error. */
  lemma CopyChunkOverflows(data: seq<byte>, size: nat, st: SinkState, o: Overflow, end: Option<Error>)
    requires size > 0 && st.room < Min(size, |data|)
    ensures var r := Copy(data, size, st, o, end);
      && r.sink == SinkState(st.data + data[..st.room], 0, st.writes + 1)
      && r.err == Some(OverflowError(o)) && r.read == Min(size, |data|)
      && r.written <= st.room && (o == Fail || o == Short ==> r.written == st.room)
  {
    var chunk := data[..Min(size, |data|)];
    var p := Put(st.room, o, chunk);
    assert p.0 == st.room;
    assert chunk[..st.room] == data[..st.room];
    assert Round(st, o, chunk).2 == Some(OverflowError(o));
    CopyStops(data, size, st, o, end);
  }

  /** Whatever the sink does, the loop reads no more than the data and counts no more than
      it read, and the sink only ever gains a prefix of the data. */
  lemma {:induction false} CopyBounds(data: seq<byte>, size: nat, st: SinkState, o: Overflow, end: Option<Error>)
    requires size > 0
    ensures var r := Copy(data, size, st, o, end);
      && r.written <= r.read <= |data|
      && |st.data| <= |r.sink.data| <= |st.data| + |data| && r.sink.data == st.data + data[..|r.sink.data| - |st.data|]
  {
    if |data| <= st.room {
      CopyFits(data, size, st, o, end);
    } else {
      CopyOverflows(data, size, st, o, end);
    }
  }

  /** One write of a chunk read, checked as both copyBuffers check it: a count below zero or
      above the chunk is replaced by zero and, without an error of the sink's own, becomes
      "invalid write result". */
  method WriteChecked(dst: Sink, chunk: seq<byte>) returns (nw: nat, ew: Option<Error>)
    modifies dst
    ensures var r := Round(old(dst.State()), dst.overflow, chunk);
      && dst.State() == r.0 && nw == r.1 && (ew.Some? ==> r.2 == ew)
      && (ew.None? ==> r.2 == if nw != |chunk| then Some(ShortWrite) else None)
  {
    var n;
    n, ew := dst.Write(chunk);
    if n < 0 || |chunk| < n {
      n := 0;
      if ew.None? {
        ew := Some(InvalidWrite);
      }
    }
    nw := n;
  }

  /** One round's write of the `chunk` just read from the front of `data`, with its checks:
      either the loop stops with the error `stop` and what the round left, or it goes on
      with the rest of the data. */
  method WriteRound(dst: Sink, ghost data: seq<byte>, size: nat, chunk: seq<byte>, ghost end: Option<Error>)
    returns (nw: nat, stop: Option<Error>)
    requires size > 0 && data != [] && chunk == data[..Min(size, |data|)]
    modifies dst
    ensures stop.Some? ==> Copy(data, size, old(dst.State()), dst.overflow, end) == Outcome(dst.State(), nw, |chunk|, stop)
    ensures stop.None? ==> nw == |chunk|
    ensures stop.None? ==>
      Copy(data, size, old(dst.State()), dst.overflow, end) == After(nw, nw, Copy(data[nw..], size, dst.State(), dst.overflow, end))
  {
    ghost var st := dst.State();
    var ew;
    nw, ew := WriteChecked(dst, chunk);
    if ew.Some? {
      CopyStops(data, size, st, dst.overflow, end);
      stop := ew;
    } else if nw != |chunk| {
      CopyStops(data, size, st, dst.overflow, end);
      stop := Some(ShortWrite);
    } else {
      CopyGoesOn(data, size, st, dst.overflow, end, dst.State());
      stop := None;
    }
  }
}
