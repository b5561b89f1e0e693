/** The errors handleZstd reports for a malformed first item, and what its cursor does with
    runes a failed `consume` chain has already matched. */
module DirectiveErrors {
  import opened Streams
  import opened Decimal
  import opened Directive
  import opened DirectiveFacts

  /** The message naming key `k`, `'k'`, and the one naming `k=`, `'k='`. */
  function Quoted(k: char): string
  {
    "'" + [k] + "'"
  }

  function QuotedEquals(k: char): string
  {
    "'" + [k] + "='"
  }

  lemma QuotedKeys()
    ensures Quoted('l') == "'l'" && Quoted('t') == "'t'" && Quoted('m') == "'m'"
    ensures QuotedEquals('t') == "'t='" && QuotedEquals('m') == "'m='"
  {
    assert Quoted('l') == "'l'";
    assert Quoted('t') == "'t'";
    assert Quoted('m') == "'m'";
    assert QuotedEquals('t') == "'t='";
    assert QuotedEquals('m') == "'m='";
  }

  /** A first rune that starts no key and not `auto`: the error, with the defaults. */
  lemma UnknownKey(c: char, tail: string)
    requires c != 'l' && c != 't' && c != 'm' && c != 'a'
    ensures Parse([c] + tail) == (DEFAULT_INFO, Some(Expected("'l', 't', 'm' or 'auto'", "'--zstd='")))
  {
    var s := [c] + tail;
    MatchedNone(s[0..], "auto");
  }

  /** A key that `=` does not follow. */
  lemma MissingEquals(k: char, tail: string)
    requires k == 'l' || k == 't' || k == 'm'
    requires tail == [] || tail[0] != '='
    ensures Parse([k] + tail) == (DEFAULT_INFO, Some(Expected("'='", Quoted(k))))
  {
    var s := [k] + tail;
    QuotedKeys();
    MatchedNone(s[0..], "auto");
    assert !At(s, 1, '=');
  }

  /** `t=` or `m=` without a digit after it. */
  lemma MissingNumber(k: char, tail: string)
    requires k == 't' || k == 'm'
    requires StartsNonDigit(tail)
    ensures Parse([k, '='] + tail) == (DEFAULT_INFO, Some(Expected("number", QuotedEquals(k))))
  {
    var s := [k, '='] + tail;
    QuotedKeys();
    MatchedNone(s[0..], "auto");
    assert s[2..] == tail;
    assert Number(s, 2).1 == 2;
  }

  /** `t=` or `m=` with a number that does not fit in 64 bits: strconv.ParseUint fails. */
  lemma NumberOverflow(k: char, n: nat, tail: string)
    requires k == 't' || k == 'm'
    requires n >= U64_LIMIT && StartsNonDigit(tail)
    ensures Parse([k, '='] + Digits(n) + tail) == (DEFAULT_INFO, Some(Expected("number", QuotedEquals(k))))
  {
    var s := [k, '='] + Digits(n) + tail;
    var e := 2 + |Digits(n)|;
    QuotedKeys();
    MatchedNone(s[0..], "auto");
    assert s[2..][..|Digits(n)|] == Digits(n) == s[2..e];
    if e < |s| {
      assert s[2..][|Digits(n)|] == tail[0];
    }
    DigitRunUnique(s[2..], |Digits(n)|);
    ValueOfDigits(n);
    assert Number(s, 2).0 == None;
  }

  /** `l=` followed by a rune that starts none of `low`, `mid`, `high`. */
  lemma BadLevel(tail: string)
    requires tail == [] || (tail[0] != 'l' && tail[0] != 'm' && tail[0] != 'h')
    ensures Parse("l=" + tail) == (DEFAULT_INFO, Some(Expected("'low', 'mid' or 'high'", "'l='")))
  {
    var s := "l=" + tail;
    MatchedNone(s[0..], "auto");
    assert s[2..] == tail;
    if tail != [] {
      MatchedNone(s[2..], "low");
      MatchedNone(s[2..], "mid");
      MatchedNone(s[2..], "high");
    }
  }

  /** A failed `auto` keeps the `a` it matched and the key is read after it: `at=3` sets
      three threads without error. */
  lemma PartialAuto()
    ensures Parse("at=3") == (DEFAULT_INFO.(threads := 3), None)
  {
    var s := "at=3";
    assert Matched(s[0..], "auto") == 1;
    assert s[3..][..1] == "3";
    DigitRunUnique(s[3..], 1);
    assert Value("3") == 3;
  }

  /** Each failed level word keeps the runes it matched: `l=lmhigh` selects the best
      compression. */
  lemma PartialLevelWords()
    ensures Parse("l=lmhigh") == (DEFAULT_INFO.(level := SpeedBetterCompression), None)
  {
    var s := "l=lmhigh";
    MatchedNone(s[0..], "auto");
    assert Matched(s[2..], "low") == 1;
    assert Matched(s[3..], "mid") == 1;
    MatchedWhole(s[4..], "high");
  }

  lemma {:induction false} Pow2Add(a: nat, b: nat)
    ensures Pow2(a + b) == Pow2(a) * Pow2(b)
    decreases a
  {
    if a > 0 {
      Pow2Add(a - 1, b);
    }
  }

  lemma Pow2Values()
    ensures Pow2(34) * Pow2(30) == U64_LIMIT && Pow2(34) < U64_LIMIT
  {
    Pow2Add(34, 30);
    Pow2Sixteen();
    Pow2Add(16, 16);
    Pow2Add(32, 32);
  }

  lemma Pow2Sixteen()
    ensures Pow2(16) == 65536
  {
    assert Pow2(2) == 4;
    Pow2Add(2, 2);
    Pow2Add(4, 4);
    Pow2Add(8, 8);
  }

  /** The text of a `G` item without `B`, alone in a list. */
  lemma GigaText(n: nat, tail: string)
    ensures |[SetMemory(n, Giga, false)]| == 1
    ensures "m=" + Digits(n) + "G" + tail == RenderAll([SetMemory(n, Giga, false)]) + tail
  {
    var x := SetMemory(n, Giga, false);
    assert RenderAll([x]) == Render(x) == "m=" + Digits(n) + "G" + "";
  }

  lemma ApplyOne(info: Info, x: Setting)
    requires Fits(x)
    ensures AllFit([x]) && Apply(info, [x]) == Effect(info, x)
  {
    assert [x][1..] == [];
  }

  /** 2^34 shifted left by 30 bits is 2^64, which wraps to 0. */
  lemma GigaShiftWraps()
    ensures Pow2(34) < U64_LIMIT && Shl(Pow2(34), 30) == 0
  {
    Pow2Values();
  }

  /** A `G` item records the amount shifted left by 30 bits, modulo 2^64, without error: 2^34
      gigabytes, 2^64 bytes, is recorded as 0 memory. */
  lemma GigaWraps(n: nat, tail: string)
    requires n < U64_LIMIT && Ends(tail)
    ensures Parse("m=" + Digits(n) + "G" + tail) == (DEFAULT_INFO.(memory := Some(Shl(n, 30))), None)
    ensures n == Pow2(34) ==> Parse("m=" + Digits(n) + "G" + tail).0.memory == Some(0)
  {
    var x := SetMemory(n, Giga, false);
    GigaText(n, tail);
    ApplyOne(DEFAULT_INFO, x);
    MemoryParts(DEFAULT_INFO, n, Giga, false, tail);
    ParseSettings([x], tail);
    if n == Pow2(34) {
      GigaShiftWraps();
    }
  }
}
