/** cmd/rpk/zstd.go, handleZstd: the `--zstd=` directive, a comma-separated list of
    `auto`, `l=low|mid|high`, `t=<threads>` and `m=<memory>[%|G|M|K][B]` items read with a
    cursor over the directive's runes. */
module Directive {
  import opened Streams
  import opened Decimal

  /** zstd.EncoderLevel: the zero value (no level chosen) and the three levels used here. */
  datatype Level = SpeedNotSet | SpeedFastest | SpeedDefault | SpeedBetterCompression

  /** The fields of a zstdInfo; `memory` is the *uint64 (None for nil). */
  datatype Info = Info(memory: Option<u64>, level: Level, threads: byte, memoryPercent: bool, forceAuto: bool)

  /** What an empty directive gives: everything left to the tuner. */
  const AUTO_INFO: Info := Info(None, SpeedNotSet, 0, false, true)

  /** Where a non-empty directive starts from. */
  const DEFAULT_INFO: Info := Info(None, SpeedDefault, 1, false, false)

  /** Go's `x << k` on a uint64: the bits shifted past bit 63 are lost. */
  function Shl(x: u64, k: nat): (r: u64)
    ensures x * Pow2(k) < U64_LIMIT ==> r == x * Pow2(k)
  {
    (x * Pow2(k)) % U64_LIMIT
  }

  /** The length of the longest common prefix of `t` and `w`: how far a chain
      `consume(w[0]) && consume(w[1]) && ...` moves the cursor over `t`. */
  function Matched(t: seq<char>, w: seq<char>): (n: nat)
    ensures n <= |t| && n <= |w|
  {
    if w == [] || t == [] || t[0] != w[0] then 0 else 1 + Matched(t[1..], w[1..])
  }

  /** `Matched` is the length of the longest common prefix. */
  lemma {:induction false} MatchedPrefix(t: seq<char>, w: seq<char>)
    ensures var n := Matched(t, w);
      && t[..n] == w[..n]
      && (n < |w| && n < |t| ==> t[n] != w[n])
  {
    if w != [] && t != [] && t[0] == w[0] {
      MatchedPrefix(t[1..], w[1..]);
      var rest := Matched(t[1..], w[1..]);
      assert t[..1 + rest] == [t[0]] + t[1..][..rest];
      assert w[..1 + rest] == [w[0]] + w[1..][..rest];
    }
  }

  /** A chain of `consume` calls for the runes of `w` at cursor `p`: whether all of `w` is
      there, and where the cursor is left. */
  function Attempt(s: seq<char>, p: nat, w: seq<char>): (r: (bool, nat))
    requires p <= |s|
    ensures r.0 ==> r.1 == p + |w|
    ensures p <= r.1 <= |s|
  {
    var n := Matched(s[p..], w);
    (n == |w|, p + n)
  }

  /** Whether the rune under cursor `p` is `c`. */
  predicate At(s: seq<char>, p: nat, c: char)
  {
    p < |s| && s[p] == c
  }

  /** strconv.ParseUint(digits, 10, 64): the value, unless it does not fit in 64 bits. */
  function ParseUint(digits: seq<char>): (r: Option<u64>)
    requires AllDigits(digits)
    ensures r.Some? <==> Value(digits) < U64_LIMIT
    ensures r.Some? ==> r.value == Value(digits)
  {
    var v := Value(digits);
    if v < U64_LIMIT then Some(v) else None
  }

  /** consumeInt at cursor `p`: the run of digits there, and its value when it is non-empty
      and fits in 64 bits. */
  function Number(s: seq<char>, p: nat): (r: (Option<u64>, nat))
    requires p <= |s|
    ensures p <= r.1 <= |s| && AllDigits(s[p..r.1])
    ensures r.1 < |s| ==> !IsDigit(s[r.1])
    ensures r.0.Some? <==> r.1 > p && Value(s[p..r.1]) < U64_LIMIT
    ensures r.0.Some? ==> r.0.value == Value(s[p..r.1])
  {
    var l := DigitRun(s[p..]);
    assert s[p..][..l] == s[p..p + l];
    if l == 0 then (None, p) else (ParseUint(s[p..p + l]), p + l)
  }

  /** How one item ends: the parse stops (with or without an error), or goes on at `pos`. */
  datatype Step = Stop(info: Info, err: Option<Error>) | Next(info: Info, pos: nat)

  /** After an item: a `,` continues the list; anything else ends the parse without error. */
  function Separator(s: seq<char>, p: nat, info: Info): (r: Step)
    ensures r.Next? ==> r.pos == p + 1 && r.info == info
    ensures r.Stop? ==> r.info == info && r.err == None
  {
    if At(s, p, ',') then Next(info, p + 1) else Stop(info, None)
  }

  /** The value of an `l` item, after its key: `=` and one of the level words.  `Next` leaves
      the cursor after the value. */
  function LevelValue(s: seq<char>, p: nat, info: Info): (r: Step)
    requires p <= |s|
    ensures r.Stop? ==> r.info == info && r.err.Some?
    ensures r.Next? ==> p < r.pos <= |s|
  {
    if !At(s, p, '=') then Stop(info, Some(Expected("'='", "'l'")))
    else LevelWord(s, p + 1, info)
  }

  /** The level word of an `l` item.  Each failed word keeps the runes it matched, and the
      next word is tried from there. */
  function LevelWord(s: seq<char>, p: nat, info: Info): (r: Step)
    requires p <= |s|
    ensures r.Stop? ==> r.info == info && r.err.Some?
    ensures r.Next? ==> p < r.pos <= |s|
  {
    var (low, p) := Attempt(s, p, "low");
    if low then Next(info.(level := SpeedFastest), p)
    else
      var (mid, p) := Attempt(s, p, "mid");
      if mid then Next(info.(level := SpeedDefault), p)
      else
        var (high, p) := Attempt(s, p, "high");
        if high then Next(info.(level := SpeedBetterCompression), p)
        else Stop(info, Some(Expected("'low', 'mid' or 'high'", "'l='")))
  }

  /** The value of a `t` item, after its key: `=` and a number, kept as at most 255. */
  function ThreadsValue(s: seq<char>, p: nat, info: Info): (r: Step)
    requires p <= |s|
    ensures r.Stop? ==> r.info == info && r.err.Some?
    ensures r.Next? ==> p < r.pos <= |s|
  {
    if !At(s, p, '=') then Stop(info, Some(Expected("'='", "'t'")))
    else
      var (v, q) := Number(s, p + 1);
      if v.None? then Stop(info, Some(Expected("number", "'t='")))
      else Next(info.(threads := Min(255, v.value)), q)
  }

  /** The memory an `m=<v>` item records, given the unit rune after the number. */
  function Scaled(v: u64, unit: char): u64
  {
    if unit == 'G' then Shl(v, 30)
    else if unit == 'M' then Shl(v, 20)
    else if unit == 'K' then Shl(v, 10)
    else v
  }

  predicate IsUnit(c: char)
  {
    c == '%' || c == 'G' || c == 'M' || c == 'K'
  }

  /** The value of an `m` item, after its key: `=`, a number, an optional unit (`%`, `G`, `M`,
      `K`), an optional `B`. */
  function MemoryValue(s: seq<char>, p: nat, info: Info): (r: Step)
    requires p <= |s|
    ensures r.Stop? ==> r.info == info && r.err.Some?
    ensures r.Next? ==> p < r.pos <= |s|
  {
    if !At(s, p, '=') then Stop(info, Some(Expected("'='", "'m'")))
    else
      var (v, q) := Number(s, p + 1);
      if v.None? then Stop(info, Some(Expected("number", "'m='")))
      else MemoryUnit(s, q, v.value, info)
  }

  /** What follows the number of an `m` item: the unit, then an optional `B`. */
  function MemoryUnit(s: seq<char>, q: nat, v: u64, info: Info): (r: Step)
    requires q <= |s|
    ensures r.Next? && q <= r.pos <= |s|
  {
    var unit := if q < |s| && IsUnit(s[q]) then s[q] else ' ';
    var q := if unit == ' ' then q else q + 1;
    var info := info.(memory := Some(Scaled(v, unit)),
                      memoryPercent := info.memoryPercent || unit == '%');
    var q := if At(s, q, 'B') then q + 1 else q;
    Next(info, q)
  }

  /** One item at cursor `pos`, with the separator after it.  The `auto` test consumes the
      runes it matches even when it fails, and the keys are then tried from there. */
  function Item(s: seq<char>, pos: nat, info: Info): (r: Step)
    requires pos < |s|
    ensures r.Next? ==> pos < r.pos <= |s|
  {
    var (auto, p) := Attempt(s, pos, "auto");
    if auto then Stop(info.(forceAuto := true), None)
    else
      var value := KeyValue(s, p, info);
      if value.Stop? then value else Separator(s, value.pos, value.info)
  }

  /** A key and its value. */
  function KeyValue(s: seq<char>, p: nat, info: Info): (r: Step)
    requires p <= |s|
    ensures r.Stop? ==> r.info == info && r.err.Some?
    ensures r.Next? ==> p < r.pos <= |s|
  {
    if At(s, p, 'l') then LevelValue(s, p + 1, info)
    else if At(s, p, 't') then ThreadsValue(s, p + 1, info)
    else if At(s, p, 'm') then MemoryValue(s, p + 1, info)
    else Stop(info, Some(Expected("'l', 't', 'm' or 'auto'", "'--zstd='")))
  }

  /** The items from cursor `pos` on, until one stops the parse or the runes run out. */
  function Items(s: seq<char>, pos: nat, info: Info): (r: (Info, Option<Error>))
    decreases |s| - pos
  {
    if pos >= |s| then (info, None)
    else match Item(s, pos, info)
      case Stop(i, e) => (i, e)
      case Next(i, p) => Items(s, p, i)
  }

  /** handleZstd's result: the zstdInfo it fills and its error. */
  function Parse(s: seq<char>): (r: (Info, Option<Error>))
  {
    if |s| == 0 then (AUTO_INFO, None) else Items(s, 0, DEFAULT_INFO)
  }

  /** A matched prefix is the longest one: the cursor position a chain of `consume` calls
      stops at is determined by the runes alone. */
  lemma MatchedUnique(t: seq<char>, w: seq<char>, i: nat)
    requires i <= |t| && i <= |w| && t[..i] == w[..i]
    requires i < |w| && i < |t| ==> t[i] != w[i]
    ensures Matched(t, w) == i
  {
    MatchedPrefix(t, w);
    assert forall j :: 0 <= j < i ==> t[j] == w[j] by {
      forall j | 0 <= j < i
        ensures t[j] == w[j]
      {
        assert t[..i][j] == w[..i][j];
      }
    }
  }

  lemma DigitRunUnique(t: seq<char>, l: nat)
    requires l <= |t| && AllDigits(t[..l])
    requires l < |t| ==> !IsDigit(t[l])
    ensures DigitRun(t) == l
  {
    assert forall j :: 0 <= j < l ==> IsDigit(t[j]) by {
      forall j | 0 <= j < l
        ensures IsDigit(t[j])
      {
        assert IsDigit(t[..l][j]);
      }
    }
  }

  /** A zstdInfo: the tuning handleZstd reads from the directive and validateParameters
      completes. */
  class ZstdInfo {
    var memory: Option<u64>
    var level: Level
    var threads: byte
    var memoryPercent: bool
    var forceAuto: bool

    constructor (v: Info)
      ensures Value() == v
    {
      memory := v.memory;
      level := v.level;
      threads := v.threads;
      memoryPercent := v.memoryPercent;
      forceAuto := v.forceAuto;
    }

    function Value(): Info
      reads this
    {
      Info(memory, level, threads, memoryPercent, forceAuto)
    }
  }

  /** The state handleZstd's closures share: the runes, the cursor, the zstdInfo being filled. */
  class DirectiveParser {
    const runes: seq<char>
    var pos: nat
    const info: ZstdInfo

    ghost predicate Valid()
      reads this
    {
      pos <= |runes|
    }

    constructor (s: seq<char>, info: ZstdInfo)
      ensures runes == s && pos == 0 && this.info == info && Valid()
    {
      runes := s;
      pos := 0;
      this.info := info;
    }

    /** The outcome of a parsing method as a `Step`: a stop with the error reported, or the
        cursor where parsing goes on; with the zstdInfo as it now is. */
    ghost function Stepped(stop: bool, err: Option<Error>): Step
      reads this, info
    {
      if stop then Stop(info.Value(), err) else Next(info.Value(), pos)
    }

    /** consume: at the end of the runes only the rune 0 "matches" (and nothing moves);
        otherwise the cursor moves past `r` if it is under it. */
    method Consume(r: char) returns (ok: bool)
      requires Valid()
      modifies this
      ensures Valid()
      ensures old(pos) >= |runes| ==> ok == (r == 0 as char) && pos == old(pos)
      ensures old(pos) < |runes| ==> ok == At(runes, old(pos), r)
      ensures old(pos) < |runes| ==> pos == old(pos) + (if ok then 1 else 0)
    {
      if pos >= |runes| {
        return r == 0 as char;
      }
      if runes[pos] == r {
        pos := pos + 1;
        return true;
      }
      return false;
    }

    /** A chain `consume(w[0]) && consume(w[1]) && ...`: it stops at the first rune that does
        not match, keeping the runes matched before it consumed. */
    method ConsumeWord(w: seq<char>) returns (ok: bool)
      requires Valid() && 0 as char !in w
      modifies this
      ensures Valid()
      ensures ok == Attempt(runes, old(pos), w).0 && pos == Attempt(runes, old(pos), w).1
    {
      ghost var start := pos;
      var i := 0;
      ok := true;
      while i < |w| && ok
        invariant Valid() && i <= |w| && pos == start + i
        invariant runes[start..pos] == w[..i]
        invariant !ok ==> i < |w| && !At(runes, pos, w[i])
        decreases |w| - i, ok
      {
        ok := Consume(w[i]);
        if ok {
          assert runes[start..pos] == runes[start..pos - 1] + [w[i]];
          i := i + 1;
        }
      }
      MatchedUnique(runes[start..], w, i);
    }

    /** consumeDigit */
    method ConsumeDigit() returns (ok: bool)
      requires Valid()
      modifies this
      ensures Valid()
      ensures ok == (old(pos) < |runes| && IsDigit(runes[old(pos)]))
      ensures pos == old(pos) + (if ok then 1 else 0)
    {
      if pos < |runes| && '0' <= runes[pos] <= '9' {
        pos := pos + 1;
        return true;
      }
      return false;
    }

    /** consumeInt: the run of digits under the cursor, read as a uint64 (None when there are
        no digits or their value does not fit). */
    method ConsumeInt() returns (v: Option<u64>)
      requires Valid()
      modifies this
      ensures Valid()
      ensures v == Number(runes, old(pos)).0 && pos == Number(runes, old(pos)).1
    {
      ghost var start := pos;
      var l := 0;
      var more := ConsumeDigit();
      while more
        invariant Valid() && start <= pos
        invariant AllDigits(runes[start..pos])
        invariant pos == start + l + (if more then 1 else 0)
        invariant !more ==> !(pos < |runes| && IsDigit(runes[pos]))
        decreases |runes| - pos + (if more then 1 else 0)
      {
        l := l + 1;
        more := ConsumeDigit();
        assert more ==> runes[start..pos] == runes[start..pos - 1] + [runes[pos - 1]];
      }
      assert runes[start..][..l] == runes[start..pos];
      DigitRunUnique(runes[start..], l);
      if l == 0 {
        v := None;
      } else {
        v := ParseUint(runes[pos - l..pos]);
      }
    }

    /** The value of an `l` item. */
    method ParseLevel() returns (failed: bool, err: Option<Error>)
      requires Valid()
      modifies this, info
      ensures Valid()
      ensures Stepped(failed, err) == LevelValue(runes, old(pos), old(info.Value()))
    {
      var eq := Consume('=');
      if !eq {
        return true, Some(Expected("'='", "'l'"));
      }
      failed, err := ParseLevelWord();
    }

    method ParseLevelWord() returns (failed: bool, err: Option<Error>)
      requires Valid()
      modifies this, info
      ensures Valid()
      ensures Stepped(failed, err) == LevelWord(runes, old(pos), old(info.Value()))
    {
      var low := ConsumeWord("low");
      if low {
        info.level := SpeedFastest;
        return false, None;
      }
      var mid := ConsumeWord("mid");
      if mid {
        info.level := SpeedDefault;
        return false, None;
      }
      var high := ConsumeWord("high");
      if high {
        info.level := SpeedBetterCompression;
        return false, None;
      }
      return true, Some(Expected("'low', 'mid' or 'high'", "'l='"));
    }

    /** The value of a `t` item. */
    method ParseThreads() returns (failed: bool, err: Option<Error>)
      requires Valid()
      modifies this, info
      ensures Valid()
      ensures Stepped(failed, err) == ThreadsValue(runes, old(pos), old(info.Value()))
    {
      var eq := Consume('=');
      if !eq {
        return true, Some(Expected("'='", "'t'"));
      }
      var v := ConsumeInt();
      if v.None? {
        return true, Some(Expected("number", "'t='"));
      }
      info.threads := Min(255, v.value);
      return false, None;
    }

    /** The value of an `m` item. */
    method ParseMemory() returns (failed: bool, err: Option<Error>)
      requires Valid()
      modifies this, info
      ensures Valid()
      ensures Stepped(failed, err) == MemoryValue(runes, old(pos), old(info.Value()))
    {
      var eq := Consume('=');
      if !eq {
        return true, Some(Expected("'='", "'m'"));
      }
      var v := ConsumeInt();
      if v.None? {
        return true, Some(Expected("number", "'m='"));
      }
      ParseMemoryUnit(v.value);
      return false, None;
    }

    /** The unit and the optional `B` after the number `v` of an `m` item. */
    method ParseMemoryUnit(v: u64)
      requires Valid()
      modifies this, info
      ensures Valid()
      ensures Stepped(false, None) == MemoryUnit(runes, old(pos), v, old(info.Value()))
    {
      info.memory := Some(v);
      var percent := Consume('%');
      if percent {
        info.memoryPercent := true;
      } else {
        var g := Consume('G');
        if g {
          info.memory := Some(Shl(v, 30));
        } else {
          var m := Consume('M');
          if m {
            info.memory := Some(Shl(v, 20));
          } else {
            var k := Consume('K');
            if k {
              info.memory := Some(Shl(v, 10));
            }
          }
        }
      }
      var _ := Consume('B');
    }

    /** One pass of handleZstd's loop: an item, then the separator test. */
    method ParseItem() returns (stop: bool, err: Option<Error>)
      requires Valid() && pos < |runes|
      modifies this, info
      ensures Valid()
      ensures Stepped(stop, err) == Item(runes, old(pos), old(info.Value()))
    {
      ghost var p0, i0 := pos, info.Value();
      var auto := ConsumeWord("auto");
      if auto {
        info.forceAuto := true;
        return true, None;
      }
      ghost var p1 := pos;
      var failed;
      failed, err := ParseKeyValue();
      if failed {
        assert Item(runes, p0, i0) == KeyValue(runes, p1, i0);
        return true, err;
      }
      assert Item(runes, p0, i0) == Separator(runes, pos, info.Value());
      var comma := Consume(',');
      return !comma, None;
    }

    /** A key and its value. */
    method ParseKeyValue() returns (failed: bool, err: Option<Error>)
      requires Valid()
      modifies this, info
      ensures Valid()
      ensures Stepped(failed, err) == KeyValue(runes, old(pos), old(info.Value()))
    {
      ghost var p0, i0 := pos, info.Value();
      var l := Consume('l');
      if l {
        assert KeyValue(runes, p0, i0) == LevelValue(runes, p0 + 1, i0);
        failed, err := ParseLevel();
        return;
      }
      var t := Consume('t');
      if t {
        assert KeyValue(runes, p0, i0) == ThreadsValue(runes, p0 + 1, i0);
        failed, err := ParseThreads();
        return;
      }
      var m := Consume('m');
      if m {
        assert KeyValue(runes, p0, i0) == MemoryValue(runes, p0 + 1, i0);
        failed, err := ParseMemory();
        return;
      }
      return true, Some(Expected("'l', 't', 'm' or 'auto'", "'--zstd='"));
    }
  }

  /** handleZstd: an empty directive asks for automatic tuning; otherwise the items are read
      one by one from the defaults. */
  method HandleZstd(s: seq<char>) returns (i: ZstdInfo, err: Option<Error>)
    ensures fresh(i) && i.Value() == Parse(s).0 && err == Parse(s).1
  {
    if |s| == 0 {
      i := new ZstdInfo(AUTO_INFO);
      return i, None;
    }
    i := new ZstdInfo(DEFAULT_INFO);
    var p := new DirectiveParser(s, i);
    err := None;
    while p.pos < |s|
      invariant fresh(p) && p.Valid() && p.runes == s && p.info == i
      invariant Items(s, p.pos, i.Value()) == Items(s, 0, DEFAULT_INFO)
      decreases |s| - p.pos
    {
      var stop, e := p.ParseItem();
      if stop {
        return i, e;
      }
    }
  }
}
