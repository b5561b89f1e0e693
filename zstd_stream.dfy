/** cmd/rpk/zstd.go, the stream side: zstdReadWrapper, which replays the bytes read ahead
    before the rest of the input, and wrapReader/wrapWriter, which sniff the Zstandard magic
    number (section 3.1.1 of RFC 8878) and settle the decoder's or encoder's settings.  The
    zstd engine itself is not modelled: its construction is recorded as the settings it is
    given. */
module ZstdStream {
  import opened Streams
  import opened Directive
  import opened Tuning

  /** The Zstandard frame magic number 0xFD2FB528, little-endian, as it opens a frame. */
  const MAGIC: seq<byte> := [0x28, 0xb5, 0x2f, 0xfd]

  /** Go's copy(b, src) for a `src` that fits in `b`. */
  method CopyTo(b: array<byte>, src: seq<byte>)
    requires |src| <= b.Length
    modifies b
    ensures b[..|src|] == src && b[|src|..] == old(b[|src|..])
  {
    var i := 0;
    while i < |src|
      invariant 0 <= i <= |src|
      invariant b[..i] == src[..i] && b[|src|..] == old(b[|src|..])
    {
      b[i] := src[i];
      i := i + 1;
    }
  }

  /** zstdReadWrapper: a source with some bytes already read from it, kept in `tmp` (the
      empty sequence stands for Go's nil slice, which is what an emptied buffer becomes). */
  class ReadWrapper {
    const r: Source
    var tmp: seq<byte>

    constructor (r: Source, tmp: seq<byte>)
      requires r.Valid()
      ensures this.r == r && this.tmp == tmp && Valid()
    {
      this.r := r;
      this.tmp := tmp;
    }

    ghost predicate Valid()
      reads this, r
    {
      r.Valid()
    }

    /** What the wrapper has yet to give: the buffered bytes, then what the source has left. */
    ghost function Pending(): seq<byte>
      reads this, r
      requires Valid()
    {
      tmp + r.Rest()
    }

    /** zstdReadWrapper.Read.  A request the buffer covers is served from it alone; a larger
        one takes the whole buffer and reads the remainder from the source; with no buffer
        left the source is read directly.  Either way the bytes given are the next ones of
        `Pending()`, as many as asked for or as remain, and nothing is lost or repeated. */
    method Read(b: array<byte>) returns (n: nat, err: Option<Error>)
      requires Valid()
      modifies this, r, b
      ensures Valid()
      ensures n == Min(b.Length, |old(Pending())|)
      ensures b[..n] + Pending() == old(Pending())
      ensures b[n..] == old(b[n..])
      ensures 0 < |old(tmp)| && b.Length <= |old(tmp)| ==>
        err == None && r.pos == old(r.pos) && tmp == old(tmp)[b.Length..]
      ensures |old(tmp)| < b.Length ==> tmp == []
      ensures |old(tmp)| < b.Length || |old(tmp)| == 0 ==>
        (err == None <==> old(r.pos) < |r.data|) && (err.Some? ==> err == Some(r.EndError()))
    {
      if |tmp| == 0 {
        n, err := ReadDirect(b);
      } else if b.Length <= |tmp| {
        n := Replay(b);
        err := None;
      } else {
        n, err := ReplayThenRead(b);
      }
    }

    /** With the buffer empty: a read from the source. */
    method ReadDirect(b: array<byte>) returns (n: nat, err: Option<Error>)
      requires Valid() && tmp == []
      modifies r, b
      ensures Valid()
      ensures n == Min(b.Length, |old(Pending())|)
      ensures b[..n] + Pending() == old(Pending()) && b[n..] == old(b[n..])
      ensures (err == None <==> old(r.pos) < |r.data|) && (err.Some? ==> err == Some(r.EndError()))
    {
      ghost var rest := r.Rest();
      assert Pending() == rest;
      n, err := r.Read(b, 0, b.Length);
      assert rest == rest[..n] + r.Rest();
    }

    /** A request the buffer covers: copied from the front of the buffer, which keeps the
        rest (and becomes nil when nothing is left). */
    method Replay(b: array<byte>) returns (n: nat)
      requires Valid() && b.Length <= |tmp|
      modifies this, b
      ensures Valid() && r.pos == old(r.pos)
      ensures n == b.Length && b[..] == old(tmp)[..n] && tmp == old(tmp)[n..]
      ensures n == Min(b.Length, |old(Pending())|)
      ensures b[..n] + Pending() == old(Pending()) && b[n..] == old(b[n..])
    {
      ghost var pending := Pending();
      CopyTo(b, tmp[..b.Length]);
      tmp := tmp[b.Length..];
      assert b[..b.Length] == b[..];
      assert pending == old(tmp)[..b.Length] + old(tmp)[b.Length..] + r.Rest();
      return b.Length;
    }

    /** A request larger than the buffer: the whole buffer, then a read of the remainder
        from the source; the buffer becomes nil. */
    method ReplayThenRead(b: array<byte>) returns (n: nat, err: Option<Error>)
      requires Valid() && 0 < |tmp| < b.Length
      modifies this, r, b
      ensures Valid() && tmp == []
      ensures n == Min(b.Length, |old(Pending())|)
      ensures b[..n] + r.Rest() == old(Pending()) && b[n..] == old(b[n..])
      ensures (err == None <==> old(r.pos) < |r.data|) && (err.Some? ==> err == Some(r.EndError()))
    {
      var avail := |tmp|;
      ghost var b0 := b[..];
      ghost var rest := r.Rest();
      CopyTo(b, tmp);
      ghost var b1 := b[..];
      assert b1[..avail] == tmp && b1[avail..] == b0[avail..];
      var m;
      m, err := r.Read(b, avail, b.Length);
      assert b[..avail + m] == tmp + rest[..m] by {
        assert b[..avail] == b1[..avail];
        assert b[avail..avail + m] == rest[..m];
        assert b[..avail + m] == b[..avail] + b[avail..avail + m];
      }
      assert b[avail + m..] == b0[avail + m..] by {
        assert b[avail + m..] == b1[avail + m..];
        assert b1[avail + m..] == b1[avail..][m..] == b0[avail..][m..];
      }
      assert rest == rest[..m] + r.Rest();
      n := avail + m;
      tmp := [];
    }
  }

  function Sum(sizes: seq<nat>): nat
  {
    if sizes == [] then 0 else Sum(sizes[..|sizes| - 1]) + sizes[|sizes| - 1]
  }

  /** One read through the wrapper into a new buffer of `size` bytes; the bytes it fills. */
  method ReadOnce(w: ReadWrapper, size: nat) returns (chunk: seq<byte>)
    requires w.Valid()
    modifies w, w.r
    ensures w.Valid()
    ensures chunk + w.Pending() == old(w.Pending())
    ensures |chunk| == Min(size, |old(w.Pending())|)
  {
    var b := new byte[size];
    var n, err := w.Read(b);
    chunk := b[..n];
  }

  /** A caller reading through the wrapper with buffers of the given sizes, in order: what it
      gets is a prefix of what was pending, as long as the buffers and the input allow, and
      the wrapper still holds exactly the rest. */
  method ReadThrough(w: ReadWrapper, sizes: seq<nat>) returns (got: seq<byte>)
    requires w.Valid()
    modifies w, w.r
    ensures w.Valid()
    ensures got + w.Pending() == old(w.Pending())
    ensures |got| == Min(Sum(sizes), |old(w.Pending())|)
  {
    got := [];
    var k := 0;
    while k < |sizes|
      invariant 0 <= k <= |sizes| && w.Valid()
      invariant got + w.Pending() == old(w.Pending())
      invariant |got| == Min(Sum(sizes[..k]), |old(w.Pending())|)
    {
      ghost var pending := w.Pending();
      var chunk := ReadOnce(w, sizes[k]);
      assert sizes[..k + 1][..k] == sizes[..k];
      assert Sum(sizes[..k + 1]) == Sum(sizes[..k]) + sizes[k];
      assert (got + chunk) + w.Pending() == got + pending;
      got := got + chunk;
      k := k + 1;
    }
    assert sizes[..k] == sizes;
  }

  /** Where the decoder reads from: the caller's source as is, or the wrapper that replays
      the sniffed bytes first. */
  datatype Input = Direct(src: Source) | Replayed(wrapper: ReadWrapper)

  /** What wrapReader hands back: a decoder with its settings, or, when the input is not
      Zstandard, the input itself with the sniffed bytes put back. */
  datatype Reading = Decoder(input: Input, concurrency: byte, maxMemory: u64) | Raw(wrapper: ReadWrapper)

  /** wrapReader.  Without compression settings the first four bytes are read ahead: a read
      error is returned, fewer than four bytes is "cannot detect rawpack or ZSTD signature",
      anything but the magic number gives back the replaying input undecoded, and the magic
      number turns on automatic tuning.  The settings are then validated for reading. */
  method WrapReader(i: ZstdInfo?, r: Source, probe: Option<u64>, cpus: nat, speed: real, w: Window)
    returns (out: Option<Reading>, err: Option<Error>)
    requires r.Valid()
    requires i != null ==> PercentHasValue(i.Value())
    modifies r, i
    ensures r.Valid()
    ensures out.None? <==> err.Some?
    ensures i == null && |old(r.Rest())| == 0 ==> err == Some(r.EndError())
    ensures i == null && 0 < |old(r.Rest())| < 4 ==> err == Some(NoSignature)
    ensures i == null && |old(r.Rest())| >= 4 && old(r.Rest())[..4] != MAGIC ==>
      out.Some? && out.value.Raw? && out.value.wrapper.Valid() &&
      out.value.wrapper.r == r && out.value.wrapper.Pending() == old(r.Rest())
    ensures i == null && |old(r.Rest())| >= 4 && old(r.Rest())[..4] == MAGIC ==>
      if probe.None? then err == Some(ProbeFailure)
      else
        var v := Validated(AUTO_INFO, cpus, probe.value, speed, 0, false, w);
        out.Some? && out.value.Decoder? && out.value.input.Replayed? &&
        out.value.input.wrapper.Valid() && out.value.input.wrapper.r == r &&
        out.value.input.wrapper.Pending() == old(r.Rest()) &&
        out.value.concurrency == v.threads && Some(out.value.maxMemory) == v.memory
    ensures i != null ==>
      (r.pos == old(r.pos) &&
       if probe.None? then err == Some(ProbeFailure)
       else
         var v := Validated(old(i.Value()), cpus, probe.value, speed, 0, false, w);
         out == Some(Decoder(Direct(r), v.threads, v.memory.value)) && i.Value() == v)
  {
    var info := i;
    var input := Direct(r);
    if info == null {
      var buf := new byte[8];
      buf[0], buf[1], buf[2], buf[3] := MAGIC[0], MAGIC[1], MAGIC[2], MAGIC[3];
      ghost var rest := r.Rest();
      var n, e := r.Read(buf, 4, 8);
      if e.Some? {
        return None, e;
      }
      if n < 4 {
        return None, Some(NoSignature);
      }
      assert n == 4 && buf[4..] == buf[4..4 + n];
      assert buf[4..] == rest[..4] && rest == buf[4..] + r.Rest();
      var wrapper := new ReadWrapper(r, buf[4..]);
      if buf[..4] != buf[4..] {
        return Some(Raw(wrapper)), None;
      }
      info := new ZstdInfo(AUTO_INFO);
      input := Replayed(wrapper);
    }
    err := ValidateParameters(info, probe, cpus, speed, 0, false, w);
    if err.Some? {
      return None, err;
    }
    out := Some(Decoder(input, info.threads, info.memory.value));
  }

  /** What wrapWriter hands back: the caller's writer as is, an encoder with its settings,
      or nothing after an error. */
  datatype Writing = Unwrapped | Encoder(windowSize: u64, level: Level, concurrency: byte) | Failed

  /** wrapWriter: no settings leave the writer as it is; otherwise they are validated for
      writing, which puts the window inside zstd's bounds. */
  method WrapWriter(i: ZstdInfo?, probe: Option<u64>, cpus: nat, speed: real, size: u64, w: Window)
    returns (out: Writing, err: Option<Error>)
    requires i != null ==> PercentHasValue(i.Value())
    requires w.min <= w.max
    modifies i
    ensures i == null ==> out == Unwrapped && err == None
    ensures i != null && probe.None? ==> out == Failed && err == Some(ProbeFailure)
    ensures i != null && probe.Some? ==>
      var v := Validated(old(i.Value()), cpus, probe.value, speed, size, true, w);
      err == None && i.Value() == v &&
      out == Encoder(v.memory.value, v.level, v.threads) && w.min <= out.windowSize <= w.max
  {
    if i == null {
      return Unwrapped, None;
    }
    if i.memoryPercent {
      assert i.memory.Some?;
    }
    ghost var before := i.Value();
    err := ValidateParameters(i, probe, cpus, speed, size, true, w);
    if err.Some? {
      return Failed, err;
    }
    ValidatedWriter(before, cpus, probe.value, speed, size, w);
    out := Encoder(i.memory.value, i.level, i.threads);
  }
}
