/** The 16-byte signature that opens every container (signature.go). */
module Signatures {
  import opened Streams

  const SIGNATURE_SIZE: nat := 16

  /** Go's `[16]byte`. */
  type Signature = s: seq<byte> | |s| == 16
    witness [0, 0, 0, 0, 0, 0, 0, 0, 0, 0, 0, 0, 0, 0, 0, 0]

  /** `signaturePrefix`: the ASCII bytes of "RAW PACK FORMAT" followed by one NUL byte. */
  const SignaturePrefix: seq<byte> :=
    [ 0x52, 0x41, 0x57, 0x20, 0x50, 0x41, 0x43, 0x4B,    // R A W _ P A C K
      0x20, 0x46, 0x4F, 0x52, 0x4D, 0x41, 0x54, 0x00 ]   // _ F O R M A T NUL

  /** Go's `copy(dst, src)` into a fixed array: the first min(|dst|, |src|) bytes come from src. */
  function CopyInto(dst: seq<byte>, src: seq<byte>): (r: seq<byte>)
    ensures |r| == |dst|
    ensures forall i :: 0 <= i < |r| ==> r[i] == (if i < |src| then src[i] else dst[i])
  {
    if |src| < |dst| then src + dst[|src|..] else src[..|dst|]
  }

  predicate IsValid(s: Signature)
  {
    s == SignaturePrefix
  }

  /** The zero signature with the prefix copied over it. */
  function NewSignature(): (s: Signature)
    ensures IsValid(s)
  {
    PrefixIsSixteenBytes();
    CopyInto([0, 0, 0, 0, 0, 0, 0, 0, 0, 0, 0, 0, 0, 0, 0, 0], SignaturePrefix)
  }

  lemma PrefixIsSixteenBytes()
    ensures |SignaturePrefix| == SIGNATURE_SIZE
    ensures SignaturePrefix[15] == 0
  {
  }

  /** Exactly one signature is valid. */
  lemma ValidIsUnique(s: Signature, t: Signature)
    requires IsValid(s) && IsValid(t)
    ensures s == t
  {
  }

  /** Changing any one byte of a valid signature, the final NUL included, makes it invalid. */
  lemma CorruptedByteIsInvalid(s: Signature, i: nat, b: byte)
    requires IsValid(s) && i < 16 && b != s[i]
    ensures !IsValid(s[i := b])
  {
    assert s[i := b][i] != SignaturePrefix[i];
  }
}
