/** Byte sinks and sources as the archive code sees them (Go's io.Writer and io.Reader),
    the errors they produce, and io.CopyN.  A sink and a source are concrete, deterministic
    stand-ins whose parameters reach every branch the callers handle. */
module Streams {

  /** 2^64: every Go `uint64` is below it. */
  const U64_LIMIT: int := 0x1_0000_0000_0000_0000

  type u64 = x: int | 0 <= x < 0x1_0000_0000_0000_0000

  /** Go's `byte`. */
  type byte = x: int | 0 <= x < 256

  datatype Option<T> = None | Some(value: T)

  function Min(a: int, b: int): int { if a <= b then a else b }
  function Max(a: int, b: int): int { if a <= b then b else a }

  /** 2^n, for shifts and bit widths. */
  function Pow2(n: nat): (p: nat)
    ensures p >= 1
  {
    if n == 0 then 1 else 2 * Pow2(n - 1)
  }

  datatype Error =
    | EOF                              // io.EOF
    | UnexpectedEOF                    // io.ErrUnexpectedEOF
    | ShortWrite                       // io.ErrShortWrite
    | InvalidWrite                     // "invalid write result" (and io.Copy's errInvalidWrite)
    | DeviceFull                       // a sink's own error for a write it cannot take whole
    | SourceFailure                    // a source's own error, reported where it would report EOF
    | ProbeFailure                     // the system-memory query failed
    | NoSignature                      // "cannot detect rawpack or ZSTD signature"
    | Expected(what: string, after: string)  // "expected <what> after <after>"

  /** What a sink reports for a write that does not fit in its remaining room. */
  datatype Overflow =
    | Fail       // takes what fits and reports DeviceFull with the count taken
    | Short      // takes what fits and reports that count without an error
    | Negative   // takes what fits and reports the count -1 without an error
    | Overcount  // takes what fits and reports one more than it was offered, without an error

  /** The observable state of a sink. */
  datatype SinkState = SinkState(data: seq<byte>, room: nat, writes: nat)

  /** One write of `b` to a sink with `room` bytes left: how many bytes it takes,
      and the count and error it reports. */
  function Put(room: nat, overflow: Overflow, b: seq<byte>): (r: (nat, int, Option<Error>))
    ensures r.0 == Min(|b|, room)
    ensures |b| <= room ==> r.1 == |b| && r.2 == None
  {
    if |b| <= room then (|b|, |b|, None)
    else match overflow
      case Fail => (room, room, Some(DeviceFull))
      case Short => (room, room, None)
      case Negative => (room, -1, None)
      case Overcount => (room, |b| + 1, None)
  }

  /** A byte sink (io.Writer). */
  class Sink {
    var data: seq<byte>
    var room: nat
    var writes: nat
    const overflow: Overflow

    constructor (room: nat, overflow: Overflow)
      ensures data == [] && this.room == room && writes == 0 && this.overflow == overflow
    {
      this.data := [];
      this.room := room;
      this.writes := 0;
      this.overflow := overflow;
    }

    function State(): SinkState
      reads this
    {
      SinkState(data, room, writes)
    }

    method Write(b: seq<byte>) returns (n: int, err: Option<Error>)
      modifies this
      ensures var (taken, count, e) := Put(old(room), overflow, b);
        && data == old(data) + b[..taken]
        && room == old(room) - taken
        && writes == old(writes) + 1
        && n == count && err == e
    {
      var (taken, count, e) := Put(room, overflow, b);
      data := data + b[..taken];
      room := room - taken;
      writes := writes + 1;
      n, err := count, e;
    }
  }

  /** A byte source (io.Reader) over fixed data, served as bytes.Reader serves it:
      a read returns what is asked for or what is left, whichever is less,
      and a read at the end returns no bytes and EOF (SourceFailure if `broken`). */
  class Source {
    const data: seq<byte>
    var pos: nat
    const broken: bool

    constructor (data: seq<byte>, broken: bool)
      ensures this.data == data && pos == 0 && this.broken == broken && Valid()
    {
      this.data := data;
      this.pos := 0;
      this.broken := broken;
    }

    ghost predicate Valid()
      reads this
    {
      pos <= |data|
    }

    /** The bytes not yet read. */
    function Rest(): seq<byte>
      reads this
      requires Valid()
    {
      data[pos..]
    }

    /** The error this source reports once its data is exhausted. */
    function EndError(): Error
    {
      if broken then SourceFailure else EOF
    }

    /** A read into `b[from..to]` (the Go slice `b[from:to]`). */
    method Read(b: array<byte>, from: nat, to: nat) returns (n: nat, err: Option<Error>)
      requires Valid() && from <= to <= b.Length
      modifies this, b
      ensures Valid()
      ensures old(pos) == |data| ==> n == 0 && err == Some(EndError()) && pos == old(pos)
      ensures old(pos) < |data| ==> n == Min(to - from, |data| - old(pos)) && err == None
      ensures pos == old(pos) + n && from + n <= to
      ensures b[from..from + n] == data[old(pos)..pos]
      ensures b[..from] == old(b[..from]) && b[from + n..] == old(b[from + n..])
    {
      if pos == |data| {
        return 0, Some(EndError());
      }
      var start := pos;
      n := Min(to - from, |data| - start);
      var i := 0;
      while i < n
        invariant 0 <= i <= n
        invariant b[from..from + i] == data[start..start + i]
        invariant b[..from] == old(b[..from]) && b[from + n..] == old(b[from + n..])
      {
        b[from + i] := data[start + i];
        i := i + 1;
      }
      pos := start + n;
      err := None;
    }
  }

  /** The error io.Copy reports for a write that a sink of this kind cannot take whole: the
      sink's own error, ErrShortWrite for a short count, and errInvalidWrite for a count
      below zero or above what was offered. */
  function CopyWriteError(o: Overflow): (e: Error)
    ensures o == Fail <==> e == DeviceFull
    ensures e != EOF && e != SourceFailure
  {
    match o
    case Fail => DeviceFull
    case Short => ShortWrite
    case Negative => InvalidWrite
    case Overcount => InvalidWrite
  }

  /** Go's int64(v) for a uint64 `v`: values of 2^63 and above become negative. */
  function Int64(v: u64): (r: int)
    ensures v < 0x8000_0000_0000_0000 ==> r == v
    ensures v >= 0x8000_0000_0000_0000 ==> r < 0 && r == v - U64_LIMIT
  {
    if v < 0x8000_0000_0000_0000 then v else v - U64_LIMIT
  }

  /** Go's io.CopyN(dst, src, n): copies n bytes, or fewer when src runs out or dst fails.
      Modelled with a single read of everything it will copy and a single write of what
      was read (none when nothing was), checked the way io.Copy checks each write. */
  method CopyN(dst: Sink, src: Source, n: int) returns (written: int, err: Option<Error>)
    requires src.Valid()
    modifies dst, src
    ensures src.Valid()
    ensures n <= 0 ==> written == 0 && err == None && dst.State() == old(dst.State()) && src.pos == old(src.pos)
    ensures n > 0 ==> (err.None? <==> written == n)
    ensures n > 0 ==> var k := Min(n, |src.data| - old(src.pos));
      && src.pos == old(src.pos) + k
      && dst.data == old(dst.data) + src.data[old(src.pos)..old(src.pos) + Min(k, old(dst.room))]
      && (k <= old(dst.room) ==> written == k && err == (if k == n then None else Some(src.EndError())))
      && (k > old(dst.room) ==> 0 <= written <= old(dst.room) && err == Some(CopyWriteError(dst.overflow)))
      && dst.room == old(dst.room) - Min(k, old(dst.room))
      && dst.writes == old(dst.writes) + (if k > 0 then 1 else 0)
  {
    if n <= 0 {
      return 0, None;
    }
    ghost var p0 := src.pos;
    var k := Min(n, |src.data| - src.pos);
    var buf := new byte[k];
    var got, _ := src.Read(buf, 0, k);
    assert got == k;
    assert buf[..got] == buf[0..got] == src.data[p0..p0 + k];
    var nw, werr := 0, None;
    if got > 0 {
      nw, werr := dst.Write(buf[..got]);
      assert dst.data == old(dst.data) + src.data[p0..p0 + Min(k, old(dst.room))];
    } else {
      assert src.data[p0..p0 + Min(k, old(dst.room))] == [];
    }
    if nw < 0 || got < nw {
      written := 0;
      err := if werr.Some? then werr else Some(InvalidWrite);
    } else {
      written := nw;
      if werr.Some? {
        err := werr;
      } else if nw != got {
        err := Some(ShortWrite);
      } else if got < n {
        err := Some(src.EndError());
      } else {
        err := None;
      }
    }
  }
}
