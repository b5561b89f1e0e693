/** cmd/rpk/crypto.go: the password cipher.  A 16-byte key (the MD5 digest of the password)
    is XORed onto the stream byte by byte, its cursor wrapping around the key; the writer
    and the reader wrap a sink and a source with a key each. */
module Cipher {
  import opened Streams

  /** md5.Size */
  const KEY_SIZE: nat := 16

  /** An MD5 digest; how it is computed from the password is not part of this model. */
  type Digest = s: seq<byte> | |s| == KEY_SIZE witness seq(KEY_SIZE, _ => 0)

  /** Bitwise exclusive or of the `n` low-order bits of `a` and `b`. */
  function XorBits(a: nat, b: nat, n: nat): (r: nat)
    ensures r < Pow2(n)
  {
    if n == 0 then 0 else XorBit(a % 2, b % 2) + 2 * XorBits(a / 2, b / 2, n - 1)
  }

  function XorBit(x: nat, y: nat): (r: nat)
    ensures r < 2
  {
    if x == y then 0 else 1
  }

  lemma SplitLowBit(bit: nat, high: nat)
    requires bit < 2
    ensures (bit + 2 * high) % 2 == bit && (bit + 2 * high) / 2 == high
  {
  }

  /** Go's `^` on two bytes. */
  function Xor(a: byte, b: byte): byte
  {
    XorBits(a, b, 8)
  }

  lemma {:induction false} XorBitsTwice(a: nat, b: nat, n: nat)
    requires a < Pow2(n)
    ensures XorBits(XorBits(a, b, n), b, n) == a
  {
    if n > 0 {
      var rest := XorBits(a / 2, b / 2, n - 1);
      var c := XorBit(a % 2, b % 2) + 2 * rest;
      SplitLowBit(XorBit(a % 2, b % 2), rest);
      assert a / 2 < Pow2(n - 1);
      XorBitsTwice(a / 2, b / 2, n - 1);
      assert XorBit(c % 2, b % 2) == a % 2;
    }
  }

  lemma XorTwice(a: byte, k: byte)
    ensures Xor(Xor(a, k), k) == a
  {
    XorBitsTwice(a, k, 8);
  }

  lemma AdvanceAdd(index: nat, a: nat, b: nat)
    ensures Advance(Advance(index, a), b) == Advance(index, a + b)
  {
  }

  /** The cursor after `n` more bytes. */
  function Advance(index: nat, n: nat): (r: nat)
    ensures r < KEY_SIZE
  {
    (index + n) % KEY_SIZE
  }

  /** What `apply` makes of `data` with key `hash` and cursor `index`: each byte XORed with
      the key byte under the cursor, the cursor moving on by one, modulo 16. */
  function Keystream(hash: Digest, index: nat, data: seq<byte>): (r: seq<byte>)
    requires index < KEY_SIZE
    ensures |r| == |data|
    decreases |data|
  {
    if data == [] then []
    else [Xor(data[0], hash[index])] + Keystream(hash, Advance(index, 1), data[1..])
  }

  /** Byte `i` of the result is byte `i` of the input XORed with key byte `(index + i) % 16`. */
  lemma {:induction false} KeystreamAt(hash: Digest, index: nat, data: seq<byte>, i: nat)
    requires index < KEY_SIZE && i < |data|
    ensures Keystream(hash, index, data)[i] == Xor(data[i], hash[Advance(index, i)])
    decreases i
  {
    if i > 0 {
      KeystreamAt(hash, Advance(index, 1), data[1..], i - 1);
      AdvanceAdd(index, 1, i - 1);
    }
  }

  /** A sequence that agrees with the keystream byte by byte is the keystream. */
  lemma KeystreamPointwise(hash: Digest, index: nat, data: seq<byte>, r: seq<byte>)
    requires index < KEY_SIZE && |r| == |data|
    requires forall j :: 0 <= j < |data| ==> r[j] == Xor(data[j], hash[Advance(index, j)])
    ensures r == Keystream(hash, index, data)
  {
    forall j | 0 <= j < |data|
      ensures r[j] == Keystream(hash, index, data)[j]
    {
      KeystreamAt(hash, index, data, j);
    }
  }

  /** Applying the key twice from the same cursor gives the data back. */
  lemma {:induction false} KeystreamInvolution(hash: Digest, index: nat, data: seq<byte>)
    requires index < KEY_SIZE
    ensures Keystream(hash, index, Keystream(hash, index, data)) == data
    decreases |data|
  {
    if data != [] {
      var once := Keystream(hash, index, data);
      assert once[1..] == Keystream(hash, Advance(index, 1), data[1..]);
      KeystreamInvolution(hash, Advance(index, 1), data[1..]);
      XorTwice(data[0], hash[index]);
    }
  }

  /** Applying the key to `a` and then to `b` is applying it to `a + b`. */
  lemma {:induction false} KeystreamAppend(hash: Digest, index: nat, a: seq<byte>, b: seq<byte>)
    requires index < KEY_SIZE
    ensures Keystream(hash, index, a + b) ==
      Keystream(hash, index, a) + Keystream(hash, Advance(index, |a|), b)
    decreases |a|
  {
    if a == [] {
      assert a + b == b;
      assert Advance(index, 0) == index;
    } else {
      assert (a + b)[0] == a[0];
      assert (a + b)[1..] == a[1..] + b;
      KeystreamAppend(hash, Advance(index, 1), a[1..], b);
      AdvanceAdd(index, 1, |a| - 1);
    }
  }

  /** A stream cut into `chunks`, each applied in turn with the cursor carried over. */
  function ApplyChunks(hash: Digest, index: nat, chunks: seq<seq<byte>>): seq<byte>
    requires index < KEY_SIZE
    decreases |chunks|
  {
    if chunks == [] then []
    else Keystream(hash, index, chunks[0]) + ApplyChunks(hash, Advance(index, |chunks[0]|), chunks[1..])
  }

  function Concat(chunks: seq<seq<byte>>): seq<byte>
  {
    if chunks == [] then [] else chunks[0] + Concat(chunks[1..])
  }

  /** However a stream is cut into writes or reads, the cipher produces the same bytes. */
  lemma {:induction false} ApplyChunksIsKeystream(hash: Digest, index: nat, chunks: seq<seq<byte>>)
    requires index < KEY_SIZE
    ensures ApplyChunks(hash, index, chunks) == Keystream(hash, index, Concat(chunks))
    decreases |chunks|
  {
    if chunks != [] {
      ApplyChunksIsKeystream(hash, Advance(index, |chunks[0]|), chunks[1..]);
      KeystreamAppend(hash, index, chunks[0], Concat(chunks[1..]));
    }
  }

  /** Data enciphered in one cutting into chunks and deciphered in another comes back. */
  lemma StreamRoundTrip(hash: Digest, written: seq<seq<byte>>, read: seq<seq<byte>>)
    requires Concat(read) == ApplyChunks(hash, 0, written)
    ensures ApplyChunks(hash, 0, read) == Concat(written)
  {
    ApplyChunksIsKeystream(hash, 0, written);
    ApplyChunksIsKeystream(hash, 0, read);
    KeystreamInvolution(hash, 0, Concat(written));
  }

  /** cryptoKey: the key and the cursor into it. */
  class CryptoKey {
    var hash: Digest
    var index: nat

    ghost predicate Valid()
      reads this
    {
      index < KEY_SIZE
    }

    constructor ()
      ensures Valid() && index == 0
    {
      hash := seq(KEY_SIZE, _ => 0);
      index := 0;
    }

    /** `reset`: the key becomes the digest of the password (`md5` stands for md5.Sum), the
        cursor goes back to the start. */
    method Reset(password: seq<byte>, md5: seq<byte> -> Digest)
      modifies this
      ensures Valid() && hash == md5(password) && index == 0
    {
      index := 0;
      hash := md5(password);
    }

    /** `apply` on the slice `data[..n]`, in place. */
    method Apply(data: array<byte>, n: nat)
      requires Valid() && n <= data.Length
      modifies this, data
      ensures Valid() && hash == old(hash) && index == Advance(old(index), n)
      ensures data[..n] == Keystream(hash, old(index), old(data[..n]))
      ensures data[n..] == old(data[n..])
    {
      ghost var start := index;
      ghost var original := data[..];
      var i := 0;
      while i < n
        invariant i <= n && Valid() && hash == old(hash)
        invariant index == Advance(start, i)
        invariant forall j :: 0 <= j < i ==> data[j] == Xor(original[j], hash[Advance(start, j)])
        invariant forall j :: i <= j < data.Length ==> data[j] == original[j]
      {
        AdvanceAdd(start, i, 1);
        data[i] := Xor(data[i], hash[index]);
        index := (index + 1) % KEY_SIZE;
        i := i + 1;
      }
      KeystreamPointwise(hash, start, original[..n], data[..n]);
    }
  }

  /** cryptoWriter: enciphers each buffer in place, then writes it to the sink. */
  class CryptoWriter {
    const w: Sink
    const k: CryptoKey

    constructor (out: Sink, password: seq<byte>, md5: seq<byte> -> Digest)
      ensures w == out && k.Valid() && k.hash == md5(password) && k.index == 0 && fresh(k)
    {
      w := out;
      var key := new CryptoKey();
      key.Reset(password, md5);
      k := key;
    }

    method Write(data: array<byte>) returns (n: int, err: Option<Error>)
      requires k.Valid()
      modifies w, k, data
      ensures k.Valid() && k.hash == old(k.hash) && k.index == Advance(old(k.index), data.Length)
      ensures data[..] == Keystream(k.hash, old(k.index), old(data[..]))
      ensures var (taken, count, e) := Put(old(w.room), w.overflow, data[..]);
        && w.data == old(w.data) + data[..taken]
        && w.room == old(w.room) - taken
        && n == count && err == e
    {
      ghost var plain := data[..];
      assert plain == data[..data.Length];
      k.Apply(data, data.Length);
      assert data[..] == data[..data.Length] == Keystream(k.hash, old(k.index), plain);
      n, err := w.Write(data[..]);
    }
  }

  /** cryptoReader: reads from the source, then deciphers in place the bytes it got. */
  class CryptoReader {
    const r: Source
    const k: CryptoKey

    constructor (src: Source, password: seq<byte>, md5: seq<byte> -> Digest)
      ensures r == src && k.Valid() && k.hash == md5(password) && k.index == 0 && fresh(k)
    {
      r := src;
      var key := new CryptoKey();
      key.Reset(password, md5);
      k := key;
    }

    method Read(data: array<byte>) returns (n: nat, err: Option<Error>)
      requires k.Valid() && r.Valid()
      modifies r, k, data
      ensures k.Valid() && r.Valid() && k.hash == old(k.hash)
      ensures k.index == Advance(old(k.index), n)
      ensures r.pos == old(r.pos) + n && n == Min(data.Length, |r.data| - old(r.pos))
      ensures err == (if old(r.pos) == |r.data| then Some(r.EndError()) else None)
      ensures data[..n] == Keystream(k.hash, old(k.index), r.data[old(r.pos)..r.pos])
      ensures data[n..] == old(data[n..])
    {
      n, err := r.Read(data, 0, data.Length);
      if n > 0 {
        k.Apply(data, n);
      } else {
        assert Advance(k.index, 0) == k.index;
      }
    }
  }

  /** Resetting with the same password and applying the key twice gives the data back. */
  method ApplyTwice(password: seq<byte>, md5: seq<byte> -> Digest, data: seq<byte>) returns (result: seq<byte>)
    ensures result == data
  {
    var buf := new byte[|data|](i requires 0 <= i < |data| => data[i]);
    assert buf[..] == data;
    var key := new CryptoKey();
    key.Reset(password, md5);
    assert buf[..buf.Length] == data;
    key.Apply(buf, buf.Length);
    assert buf[..] == buf[..buf.Length];
    assert buf[..] == Keystream(md5(password), 0, data);
    key.Reset(password, md5);
    key.Apply(buf, buf.Length);
    assert buf[..] == buf[..buf.Length] == Keystream(md5(password), 0, Keystream(md5(password), 0, data));
    KeystreamInvolution(md5(password), 0, data);
    result := buf[..];
  }
}
