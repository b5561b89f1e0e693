/** cmd/rpk/common.go: the helpers of the newer command-line revision — recognising the name
    that stands for standard input or output, and copyBuffer, which copies one file's bytes
    through a buffer and stops at the file's recorded size (regexFromPattern is in Glob). */
module Common {
  import opened Streams
  import opened CopyLoop

  /** isStdIOFile: the empty name and `-` stand for standard input or output, every other
      name for a file. */
  function IsStdIOFile(name: string): (b: bool)
    ensures b <==> |name| <= 1 && (name == [] || name[0] == '-')
  {
    |name| == 0 || name == "-"
  }

  /** What io.LimitReader(src, n) lets through of the bytes `rest` left in the source:
      nothing when n is not positive, the first n bytes (or all there are) otherwise. */
  function Limit(rest: seq<byte>, n: int): seq<byte>
  {
    if n <= 0 then [] else rest[..Min(n, |rest|)]
  }

  /** The error the last read behind the limit reports, as copyBuffer passes it on: when
      the limit is reached first it is end-of-file, otherwise it is the source's own. */
  function LimitEnd(rest: seq<byte>, n: int, endError: Error): Option<Error>
  {
    if |rest| < n then Reported(endError) else None
  }

  lemma LimitAdvance(rest: seq<byte>, n: int, k: nat)
    requires 0 < n && k <= Min(n, |rest|)
    ensures Limit(rest[k..], n - k) == Limit(rest, n)[k..]
  {
  }

  /** io.LimitedReader.Read with `left` bytes still allowed: with none left it reports
      end-of-file; otherwise it reads into a buffer cut down to what is allowed and takes
      what was read off the allowance. */
  method LimitedRead(src: Source, buf: array<byte>, left: int) returns (nr: nat, er: Option<Error>, left': int)
    requires src.Valid() && buf.Length > 0
    modifies src, buf
    ensures src.Valid() && src.pos == old(src.pos) + nr && left' == left - nr
    ensures var data := Limit(old(src.Rest()), left);
      && nr == Min(buf.Length, |data|) && buf[..nr] == data[..nr]
      && (nr == 0 ==> er.Some? && Reported(er.value) == LimitEnd(old(src.Rest()), left, src.EndError()))
      && (nr > 0 ==> er.None?)
      && Limit(src.Rest(), left') == data[nr..]
      && LimitEnd(src.Rest(), left', src.EndError()) == LimitEnd(old(src.Rest()), left, src.EndError())
  {
    if left <= 0 {
      return 0, Some(EOF), left;
    }
    ghost var rest := src.Rest();
    nr, er := src.Read(buf, 0, Min(buf.Length, left));
    left' := left - nr;
    assert buf[..nr] == buf[0..nr];
    if nr > 0 {
      LimitAdvance(rest, left, nr);
    }
  }

  /** copyBuffer (common.go).  The source is read through io.LimitReader(src, int64(size))
      into `buf`, each chunk read is written to `dst` and checked, and the loop stops at the
      first error, at a short or invalid write, or when the limited source is exhausted. */
  method CopyBuffer(dst: Sink, src: Source, size: u64, buf: array<byte>) returns (written: nat, err: Option<Error>)
    requires src.Valid() && buf.Length > 0
    modifies dst, src, buf
    ensures src.Valid()
    ensures var n := Int64(size);
      var r := Copy(Limit(old(src.Rest()), n), buf.Length, old(dst.State()), dst.overflow,
                    LimitEnd(old(src.Rest()), n, src.EndError()));
      dst.State() == r.sink && src.pos == old(src.pos) + r.read && written == r.written && err == r.err
  {
    ghost var p0 := src.pos;
    var left := Int64(size);
    ghost var remaining := Limit(src.Rest(), left);
    ghost var end := LimitEnd(src.Rest(), left, src.EndError());
    ghost var goal := Copy(remaining, buf.Length, dst.State(), dst.overflow, end);
    written := 0;
    while true
      invariant src.Valid() && p0 <= src.pos
      invariant remaining == Limit(src.Rest(), left) && end == LimitEnd(src.Rest(), left, src.EndError())
      invariant goal == After(written, src.pos - p0, Copy(remaining, buf.Length, dst.State(), dst.overflow, end))
      decreases |src.data| - src.pos
    {
      var nr, er;
      nr, er, left := LimitedRead(src, buf, left);
      if nr > 0 {
        assert remaining != [] && remaining[..Min(buf.Length, |remaining|)] == buf[..nr];
        var nw, stop := WriteRound(dst, remaining, buf.Length, buf[..nr], end);
        written := written + nw;
        if stop.Some? {
          err := stop;
          break;
        }
        remaining := remaining[nr..];
      }
      if er.Some? {
        err := if er.value != EOF then er else None;
        break;
      }
    }
  }

  /** copyBuffer never reads more than `size` bytes from the source, nor more than it has. */
  lemma ReadsAtMostSize(rest: seq<byte>, size: u64, bufSize: nat, st: SinkState, o: Overflow, e: Error)
    requires bufSize > 0
    ensures var r := Copy(Limit(rest, Int64(size)), bufSize, st, o, LimitEnd(rest, Int64(size), e));
      r.read <= size && r.read <= |rest|
  {
    CopyBounds(Limit(rest, Int64(size)), bufSize, st, o, LimitEnd(rest, Int64(size), e));
  }

  /** A size of 2^63 or more turns negative as an int64, so the limited source is empty from
      the start: nothing is read or written and no error is returned. */
  lemma HugeSizeCopiesNothing(rest: seq<byte>, size: u64, bufSize: nat, st: SinkState, o: Overflow, e: Error)
    requires bufSize > 0 && size >= 0x8000_0000_0000_0000
    ensures Copy(Limit(rest, Int64(size)), bufSize, st, o, LimitEnd(rest, Int64(size), e)) == Outcome(st, 0, 0, None)
  {
    assert Limit(rest, Int64(size)) == [];
  }

  /** The usual case: the source holds at least `size` bytes and the sink has room for them.
      Exactly the first `size` bytes are copied, `written` is `size`, and there is no error. */
  lemma CopiesExactlySize(rest: seq<byte>, size: u64, bufSize: nat, st: SinkState, o: Overflow, e: Error)
    requires bufSize > 0 && size < 0x8000_0000_0000_0000 && size <= |rest| && size <= st.room
    ensures var r := Copy(Limit(rest, Int64(size)), bufSize, st, o, LimitEnd(rest, Int64(size), e));
      && r.sink.data == st.data + rest[..size] && r.written == size && r.read == size && r.err == None
  {
    assert size == 0 || Limit(rest, Int64(size)) == rest[..size];
    CopyFits(Limit(rest, Int64(size)), bufSize, st, o, LimitEnd(rest, Int64(size), e));
  }

  /** A source that ends at end-of-file before `size` bytes is not an error: the bytes it had
      are copied, `written` counts them, and the shortfall is reported only by `written`. */
  lemma EarlyEndIsNotAnError(rest: seq<byte>, size: u64, bufSize: nat, st: SinkState, o: Overflow)
    requires bufSize > 0 && size < 0x8000_0000_0000_0000 && |rest| < size && |rest| <= st.room
    ensures var r := Copy(Limit(rest, Int64(size)), bufSize, st, o, LimitEnd(rest, Int64(size), EOF));
      && r.sink.data == st.data + rest && r.written == |rest| < size && r.err == None
  {
    assert Limit(rest, Int64(size)) == rest;
    CopyFits(rest, bufSize, st, o, LimitEnd(rest, Int64(size), EOF));
  }
}
