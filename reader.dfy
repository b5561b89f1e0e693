/** reader.go: the archive reader, which takes the signature, the file table and the
    payloads from a byte source.  Every operation is specified by the reference decoders
    of `Encoding` applied to what the source had left, and by the error it then reports. */
module ArchiveReader {
  import opened Streams
  import opened Encoding
  import opened Signatures

  /** The error of a fixed-size read that found only `avail` bytes: the source's end-of-data
      error when it found none, io.ErrUnexpectedEOF when it found some. */
  function FixedError(avail: nat, end: Error): (r: Error)
    ensures avail > 0 ==> r == UnexpectedEOF
  {
    if avail == 0 then end else UnexpectedEOF
  }

  /** The error `readString` reports on `s` when `DecodeString(s)` fails.  The name is read in
      chunks of 256 bytes, so the source's end-of-data error comes through exactly when the
      bytes after the length run out on a chunk boundary. */
  function StringError(s: seq<byte>, end: Error): Error
  {
    if |s| < 8 then FixedError(|s|, end)
    else if (|s| - 8) % 256 == 0 then end
    else UnexpectedEOF
  }

  /** The error `readFileInfo` reports on `s` when `DecodeFileInfo(s)` fails. */
  function FileInfoError(s: seq<byte>, end: Error): Error
  {
    var name := DecodeString(s);
    if name.None? then StringError(s, end)
    else FixedError(|s| - name.value.1, end)
  }

  /** The error of the first of `count` records that fails. */
  function RecordsError(s: seq<byte>, count: nat, end: Error): Error
    requires DecodeRecords(s, count).None?
  {
    var prev := DecodeRecords(s, count - 1);
    if prev.None? then RecordsError(s, count - 1, end)
    else FileInfoError(s[prev.value.1..], end)
  }

  /** Past a record that failed, the first failure stays the same. */
  lemma RecordsErrorSkip(s: seq<byte>, j: nat, end: Error)
    requires j > 0 && DecodeRecords(s, j - 1).None?
    ensures DecodeRecords(s, j).None? && RecordsError(s, j, end) == RecordsError(s, j - 1, end)
  {
  }

  /** Once record `i + 1` fails, reading any `j` records from `i + 1` on fails as reading
      `i + 1` did. */
  lemma {:induction false} RecordsErrorSame(s: seq<byte>, i: nat, j: nat, end: Error)
    requires DecodeRecords(s, i + 1).None? && i < j
    ensures DecodeRecords(s, j).None?
    ensures RecordsError(s, j, end) == RecordsError(s, i + 1, end)
  {
    if j > i + 1 {
      RecordsErrorSame(s, i, j - 1, end);
      RecordsErrorSkip(s, j, end);
    }
  }

  /** When record `i + 1` is the first to fail, reading any `j` records from `i + 1` on fails
      with that record's error. */
  lemma RecordsErrorFirst(s: seq<byte>, i: nat, j: nat, end: Error)
    requires DecodeRecords(s, i).Some? && DecodeRecords(s, i + 1).None? && i < j
    ensures DecodeRecords(s, j).None?
    ensures RecordsError(s, j, end) == FileInfoError(s[DecodeRecords(s, i).value.1..], end)
  {
    RecordsErrorSame(s, i, j, end);
    RecordsErrorAt(s, i, end);
  }

  lemma RecordsErrorAt(s: seq<byte>, i: nat, end: Error)
    requires DecodeRecords(s, i).Some? && DecodeRecords(s, i + 1).None?
    ensures RecordsError(s, i + 1, end) == FileInfoError(s[DecodeRecords(s, i).value.1..], end)
  {
  }

  /** Reading `i` records from `s` gave `done` and used its first `used` bytes. */
  predicate RecordsRead(s: seq<byte>, i: nat, done: seq<File>, used: nat)
  {
    var r := DecodeRecords(s, i);
    r.Some? && r.value.0 == done && r.value.1 == used
  }

  lemma RecordsReadNext(s: seq<byte>, i: nat, done: seq<File>, used: nat)
    requires RecordsRead(s, i, done, used)
    requires used <= |s| && DecodeFileInfo(s[used..]).Some?
    ensures var next := DecodeFileInfo(s[used..]).value;
      RecordsRead(s, i + 1, done + [next.0], used + next.1)
  {
  }

  lemma ChunkSplit(a: nat, r: nat)
    requires a % 256 == 0 && r < 256
    ensures (a + r) % 256 == r && 256 * ((a + r) / 256) == a
  {
  }

  class Reader {
    const src: Source

    constructor (src: Source)
      ensures this.src == src
    {
      this.src := src;
    }

    /** `read`: one read into `b[..len]`, with a short read that reports no error turned
        into io.ErrUnexpectedEOF. */
    method ReadBytes(b: array<byte>, len: nat) returns (n: nat, err: Option<Error>)
      requires src.Valid() && len <= b.Length
      modifies src, b
      ensures src.Valid()
      ensures var avail := |src.data| - old(src.pos);
        && n == Min(len, avail) && src.pos == old(src.pos) + n
        && b[..n] == src.data[old(src.pos)..src.pos] && b[n..] == old(b[n..])
        && err == (if 0 < avail && len <= avail then None else Some(FixedError(avail, src.EndError())))
    {
      n, err := src.Read(b, 0, len);
      if err == None && n < len {
        err := Some(UnexpectedEOF);
      }
    }

    /** `readUint64`: eight little-endian bytes; zero when they cannot all be read. */
    method ReadUint64() returns (v: u64, err: Option<Error>)
      requires src.Valid()
      modifies src
      ensures src.Valid()
      ensures var rest := old(src.Rest()); var r := DecodeUint64(rest);
        && (err.None? <==> r.Some?)
        && (r.Some? ==> v == r.value && src.pos == old(src.pos) + 8)
        && (r.None? ==> v == 0 && err == Some(FixedError(|rest|, src.EndError())) && src.pos == |src.data|)
    {
      ghost var rest := src.Rest();
      var buf := new byte[8];
      var _, e := ReadBytes(buf, 8);
      err := e;
      v := 0;
      if err == None {
        assert buf[..] == buf[..8] == rest[..8];
        Pow256Eight();
        v := LeValue(buf[..]);
      }
    }

    /** `readString`: a length, then that many bytes read in chunks of at most 256.  On an
        error the bytes of the chunks read whole so far come back with it. */
    method ReadString() returns (s: seq<byte>, err: Option<Error>)
      requires src.Valid()
      modifies src
      ensures src.Valid()
      ensures var rest := old(src.Rest()); var r := DecodeString(rest);
        && (err.None? <==> r.Some?)
        && (r.Some? ==> s == r.value.0 && src.pos == old(src.pos) + r.value.1)
        && (r.None? ==> err == Some(StringError(rest, src.EndError())) && src.pos == |src.data|)
        && (r.None? && |rest| >= 8 ==> s == rest[8..8 + 256 * ((|rest| - 8) / 256)])
        && (|rest| < 8 ==> s == [])
    {
      ghost var rest := src.Rest();
      var l;
      l, err := ReadUint64();
      s := [];
      if err.None? {
        assert src.Rest() == rest[8..];
        s, err := ReadChunks(l);
      }
    }

    /** The loop of `readString`: `l` bytes in chunks of at most 256, each appended only when
        it was read whole. */
    method ReadChunks(l: u64) returns (s: seq<byte>, err: Option<Error>)
      requires src.Valid()
      modifies src
      ensures src.Valid()
      ensures var rest := old(src.Rest());
        && (err.None? <==> l <= |rest|)
        && (l <= |rest| ==> s == rest[..l] && src.pos == old(src.pos) + l)
        && (l > |rest| ==>
              && err == Some(if |rest| % 256 == 0 then src.EndError() else UnexpectedEOF)
              && s == rest[..256 * (|rest| / 256)]
              && src.pos == |src.data|)
    {
      var buf := new byte[256];
      ghost var start := src.pos;
      var left := l;
      s := [];
      err := None;
      while err == None && left > 0
        invariant src.Valid() && start <= |src.data|
        invariant start + |s| <= |src.data| && s == src.data[start..start + |s|]
        invariant err.None? ==> src.pos == start + |s| && |s| + left == l && (left == 0 || |s| % 256 == 0)
        invariant err.Some? ==>
          && src.pos == |src.data| && l > |src.data| - start
          && |s| == 256 * ((|src.data| - start) / 256)
          && err == Some(if (|src.data| - start) % 256 == 0 then src.EndError() else UnexpectedEOF)
        decreases if err.None? then left + 1 else 0
      {
        ghost var before := src.pos;
        var n, e := ReadBytes(buf, Min(256, left));
        err := e;
        if err == None {
          s := s + buf[..n];
          left := left - n;
        } else {
          ChunkSplit(|s|, |src.data| - before);
        }
      }
    }

    /** `readFileInfo`: a name and a size, stored in `ft[i]` only when both were read. */
    method ReadFileInfo(ft: array<File>, i: nat) returns (err: Option<Error>)
      requires src.Valid() && i < ft.Length
      modifies src, ft
      ensures src.Valid()
      ensures var rest := old(src.Rest()); var r := DecodeFileInfo(rest);
        && (err.None? <==> r.Some?)
        && (r.Some? ==> ft[..] == old(ft[..])[i := r.value.0] && src.pos == old(src.pos) + r.value.1)
        && (r.None? ==>
              && ft[..] == old(ft[..])
              && err == Some(FileInfoError(rest, src.EndError()))
              && src.pos == |src.data|)
    {
      ghost var rest := src.Rest();
      var name;
      name, err := ReadString();
      if err.Some? {
        return;
      }
      ghost var k := DecodeString(rest).value.1;
      assert src.Rest() == rest[k..];
      var size;
      size, err := ReadUint64();
      if err.Some? {
        return;
      }
      ft[i] := File(name, size);
    }

    /** `ReadSignature`: sixteen bytes into a zeroed signature, returned even when the read
        falls short. */
    method ReadSignature() returns (sig: Signature, err: Option<Error>)
      requires src.Valid()
      modifies src
      ensures src.Valid()
      ensures var rest := old(src.Rest());
        && (|rest| >= 16 ==> sig == rest[..16] && err == None && src.pos == old(src.pos) + 16)
        && (|rest| < 16 ==>
              && sig == rest + seq(16 - |rest|, _ => 0)
              && err == Some(FixedError(|rest|, src.EndError()))
              && src.pos == |src.data|)
    {
      ghost var rest := src.Rest();
      var buf := new byte[SIGNATURE_SIZE](_ => 0);
      var n;
      n, err := ReadBytes(buf, SIGNATURE_SIZE);
      assert buf[..] == buf[..n] + buf[n..];
      sig := buf[..];
    }

    /** `ReadFileTable`: a count, then that many records into a table of that size.  A record
        that fails discards the table and reports its error; a count that cannot be read
        reports no table and no error.  Go's `make` panics for a count whose table is beyond
        its allocation limit; here any count is allocated, and the records that are not
        there are reported as a record error. */
    method ReadFileTable() returns (ft: Option<seq<File>>, err: Option<Error>)
      requires src.Valid()
      modifies src
      ensures src.Valid()
      ensures var rest := old(src.Rest()); var count := DecodeUint64(rest); var t := DecodeTable(rest);
        && (count.None? ==> ft == None && err == None && src.pos == |src.data|)
        && (count.Some? && t.None? ==>
              && ft == None && src.pos == |src.data|
              && err == Some(RecordsError(rest[8..], count.value, src.EndError())))
        && (t.Some? ==> ft == Some(t.value.0) && err == None && src.pos == old(src.pos) + t.value.1)
    {
      ghost var rest := src.Rest();
      var l, e := ReadUint64();
      if e.Some? {
        return None, None;
      }
      assert src.Rest() == rest[8..];
      var table := new File[l];
      err := ReadRecords(table);
      if err.Some? {
        return None, err;
      }
      return Some(table[..]), None;
    }

    /** The loop of `ReadFileTable`: each slot of `table` in turn, returning at the first
        record that fails. */
    method ReadRecords(table: array<File>) returns (err: Option<Error>)
      requires src.Valid()
      modifies src, table
      ensures src.Valid()
      ensures var rest := old(src.Rest()); var r := DecodeRecords(rest, table.Length);
        && (err.None? <==> r.Some?)
        && (r.Some? ==> table[..] == r.value.0 && src.pos == old(src.pos) + r.value.1)
        && (r.None? ==>
              && err == Some(RecordsError(rest, table.Length, src.EndError()))
              && src.pos == |src.data|)
    {
      ghost var rest := src.Rest();
      ghost var start := src.pos;
      var i := 0;
      while i < table.Length
        invariant src.Valid() && i <= table.Length && start <= src.pos
        invariant rest == src.data[start..]
        invariant RecordsRead(rest, i, table[..i], src.pos - start)
      {
        ghost var used := src.pos - start;
        assert src.Rest() == rest[used..];
        err := ReadFileInfo(table, i);
        if err.Some? {
          RecordsErrorFirst(rest, i, table.Length, src.EndError());
          return;
        }
        RecordsReadNext(rest, i, table[..i], used);
        assert table[..i + 1] == table[..i] + [table[i]];
        i := i + 1;
      }
      assert table[..] == table[..i];
      err := None;
    }

    /** `ReadFileTo`: io.CopyN of `size` bytes to `out`, with a short copy that reports no error
        turned into ErrShortWrite.  io.CopyN reports an error for every short copy (the
        source's end error when the source runs out, the write's error when the sink is
        full), so that branch is never taken and ErrShortWrite comes only from a sink that
        reports a short count.  Go converts `size` to int64 first, so a size of 2^63 or more
        copies nothing and reports no error. */
    method ReadFileTo(out: Sink, size: u64) returns (err: Option<Error>)
      requires src.Valid()
      modifies out, src
      ensures src.Valid()
      ensures size >= 0x8000_0000_0000_0000 ==>
        err == None && out.State() == old(out.State()) && src.pos == old(src.pos)
      ensures size < 0x8000_0000_0000_0000 ==>
        (err.None? <==> size <= |src.data| - old(src.pos) && size <= old(out.room))
      ensures err.None? ==> old(src.pos) <= src.pos && out.data == old(out.data) + src.data[old(src.pos)..src.pos]
      ensures out.room + |out.data| == old(out.room) + |old(out.data)|
      ensures err.None? && size < 0x8000_0000_0000_0000 ==> src.pos == old(src.pos) + size
      ensures size < 0x8000_0000_0000_0000 && |src.data| - old(src.pos) < size && |src.data| - old(src.pos) <= old(out.room) ==>
        err == Some(src.EndError())
      ensures size < 0x8000_0000_0000_0000 && old(out.room) < Min(size, |src.data| - old(src.pos)) ==>
        err == Some(CopyWriteError(out.overflow))
      ensures err != Some(ShortWrite) || out.overflow == Short
    {
      var n, e := CopyN(out, src, Int64(size));
      if e == None && n < Int64(size) {
        err := Some(ShortWrite);
      } else {
        err := e;
      }
    }
  }
}
