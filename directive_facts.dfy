/** What a `--zstd=` directive means: the settings a well-formed directive lists are applied
    in order, `auto` ends the list, and each malformed item is reported with its message. */
module DirectiveFacts {
  import opened Streams
  import opened Decimal
  import opened Directive

  datatype LevelName = Low | Mid | High

  datatype Unit = NoUnit | Percent | Giga | Mega | Kilo

  /** One item of a directive, as a user writes it. */
  datatype Setting =
    | SetLevel(name: LevelName)
    | SetThreads(threads: nat)
    | SetMemory(amount: nat, unit: Unit, bytes: bool)

  /** The numbers fit in a uint64. */
  predicate Fits(x: Setting)
  {
    match x
    case SetLevel(_) => true
    case SetThreads(n) => n < U64_LIMIT
    case SetMemory(n, _, _) => n < U64_LIMIT
  }

  function LevelText(name: LevelName): string
  {
    match name
    case Low => "low"
    case Mid => "mid"
    case High => "high"
  }

  function LevelOf(name: LevelName): Level
  {
    match name
    case Low => SpeedFastest
    case Mid => SpeedDefault
    case High => SpeedBetterCompression
  }

  function UnitText(u: Unit): string
  {
    match u
    case NoUnit => ""
    case Percent => "%"
    case Giga => "G"
    case Mega => "M"
    case Kilo => "K"
  }

  /** How much a unit multiplies the amount by (a left shift). */
  function UnitShift(u: Unit): nat
  {
    match u
    case Giga => 30
    case Mega => 20
    case Kilo => 10
    case _ => 0
  }

  /** The text of one setting. */
  function Render(x: Setting): string
  {
    match x
    case SetLevel(name) => "l=" + LevelText(name)
    case SetThreads(n) => "t=" + Digits(n)
    case SetMemory(n, u, b) => "m=" + Digits(n) + UnitText(u) + BText(b)
  }

  /** The text of a list of settings, separated by commas. */
  function RenderAll(xs: seq<Setting>): string
    requires |xs| > 0
  {
    if |xs| == 1 then Render(xs[0]) else Render(xs[0]) + "," + RenderAll(xs[1..])
  }

  /** What one setting does to the zstdInfo. */
  function Effect(info: Info, x: Setting): Info
    requires Fits(x)
  {
    match x
    case SetLevel(name) => info.(level := LevelOf(name))
    case SetThreads(n) => info.(threads := Min(255, n))
    case SetMemory(n, u, _) =>
      info.(memory := Some(Shl(n, UnitShift(u))), memoryPercent := info.memoryPercent || u == Percent)
  }

  /** The settings applied from first to last. */
  function Apply(info: Info, xs: seq<Setting>): Info
    requires forall i :: 0 <= i < |xs| ==> Fits(xs[i])
    decreases |xs|
  {
    if xs == [] then info else Apply(Effect(info, xs[0]), xs[1..])
  }

  /** Text that cannot be read as part of the value before it. */
  predicate Boundary(tail: string)
  {
    tail == [] || (!IsDigit(tail[0]) && !IsUnit(tail[0]) && tail[0] != 'B')
  }

  /** Text that ends the list after the item before it: the parse stops there, without error. */
  predicate Ends(tail: string)
  {
    Boundary(tail) && (tail == [] || tail[0] != ',')
  }

  /** A comma and `auto` follow. */
  predicate AutoNext(tail: string)
  {
    |tail| >= 5 && tail[..5] == ",auto"
  }

  lemma MatchedWhole(t: seq<char>, w: seq<char>)
    requires |w| <= |t| && t[..|w|] == w
    ensures Matched(t, w) == |w|
  {
    MatchedUnique(t, w, |w|);
  }

  lemma MatchedNone(t: seq<char>, w: seq<char>)
    requires |w| > 0 && |t| > 0 && t[0] != w[0]
    ensures Matched(t, w) == 0
  {
  }

  /** The number written in decimal at `p`, followed by a non-digit or the end. */
  lemma NumberOfDigits(s: seq<char>, p: nat, n: nat)
    requires n < U64_LIMIT
    requires p + |Digits(n)| <= |s| && s[p..p + |Digits(n)|] == Digits(n)
    requires p + |Digits(n)| < |s| ==> !IsDigit(s[p + |Digits(n)|])
    ensures Number(s, p).0 == Some(n) && Number(s, p).1 == p + |Digits(n)|
  {
    var k := |Digits(n)|;
    assert s[p..][..k] == Digits(n);
    DigitRunUnique(s[p..], k);
    ValueOfDigits(n);
  }

  /** An item that begins with `auto` sets forceAuto and ends the parse. */
  lemma AutoItem(s: seq<char>, pos: nat, info: Info)
    requires pos + 4 <= |s| && s[pos..pos + 4] == "auto"
    ensures Item(s, pos, info) == Stop(info.(forceAuto := true), None)
  {
    assert s[pos..][..4] == "auto";
    MatchedWhole(s[pos..], "auto");
  }

  /** The level word `name` at `p`. */
  lemma LevelWordOf(s: seq<char>, p: nat, info: Info, name: LevelName)
    requires p + |LevelText(name)| <= |s| && s[p..p + |LevelText(name)|] == LevelText(name)
    ensures LevelWord(s, p, info) == Next(info.(level := LevelOf(name)), p + |LevelText(name)|)
  {
    var w := LevelText(name);
    assert s[p..][..|w|] == w;
    assert s[p..][0] == w[0];
    MatchedWhole(s[p..], w);
    if name != Low {
      MatchedNone(s[p..], "low");
    }
    if name == High {
      MatchedNone(s[p..], "mid");
    }
  }

  /** A piece of what stands at `pos`. */
  lemma Piece(s: seq<char>, pos: nat, t: seq<char>, rest: seq<char>, a: nat, b: nat)
    requires pos <= |s| && s[pos..] == t + rest && a <= b <= |t|
    ensures pos + b <= |s| && s[pos + a..pos + b] == t[a..b]
  {
    assert |s[pos..]| == |t| + |rest|;
    assert s[pos..][a..b] == (t + rest)[a..b] == t[a..b];
    assert s[pos..][a..b] == s[pos + a..pos + b];
  }

  /** What follows a piece at `pos`. */
  lemma After(s: seq<char>, pos: nat, t: seq<char>, rest: seq<char>)
    requires pos <= |s| && s[pos..] == t + rest
    ensures pos + |t| <= |s| && s[pos + |t|..] == rest
  {
    assert |s[pos..]| == |t| + |rest|;
    assert s[pos..][|t|..] == rest;
    assert s[pos..][|t|..] == s[pos + |t|..];
  }

  /** The optional `B` of a memory setting. */
  function BText(b: bool): string
  {
    if b then "B" else ""
  }

  /** The unit and `B` of a memory setting at `q`, then text that cannot continue them. */
  lemma MemoryUnitOf(s: seq<char>, q: nat, info: Info, n: u64, u: Unit, b: bool, tail: string)
    requires q <= |s| && s[q..] == UnitText(u) + BText(b) + tail && Boundary(tail)
    ensures MemoryUnit(s, q, n, info) ==
      Next(info.(memory := Some(Shl(n, UnitShift(u))), memoryPercent := info.memoryPercent || u == Percent),
           q + |UnitText(u)| + |BText(b)|)
  {
    var q1 := q + |UnitText(u)|;
    assert s[q1..] == BText(b) + tail;
    if u != NoUnit {
      assert s[q] == UnitText(u)[0];
    } else if q < |s| {
      assert s[q] == (if b then 'B' else tail[0]);
    }
    if b {
      assert s[q1] == 'B';
      assert s[q1 + 1..] == tail;
    } else if q1 < |s| {
      assert s[q1] == tail[0];
    }
  }

  /** `=`, the decimal digits of `n` and text that is not a digit, at `p`. */
  lemma ThreadsValueOf(s: seq<char>, p: nat, info: Info, n: nat)
    requires n < U64_LIMIT && At(s, p, '=')
    requires p + 1 + |Digits(n)| <= |s| && s[p + 1..p + 1 + |Digits(n)|] == Digits(n)
    requires Boundary(s[p + 1 + |Digits(n)|..])
    ensures ThreadsValue(s, p, info) == Next(info.(threads := Min(255, n)), p + 1 + |Digits(n)|)
  {
    var e := p + 1 + |Digits(n)|;
    if e < |s| {
      assert s[e] == s[e..][0];
    }
    NumberOfDigits(s, p + 1, n);
  }

  /** `=` and the decimal digits of `n` at `p`, then a non-digit: what follows is the unit. */
  lemma MemoryValueOf(s: seq<char>, p: nat, info: Info, n: nat, e: nat)
    requires n < U64_LIMIT && At(s, p, '=') && e == p + 1 + |Digits(n)|
    requires e <= |s| && s[p + 1..e] == Digits(n) && StartsNonDigit(s[e..])
    ensures MemoryValue(s, p, info) == MemoryUnit(s, e, n, info)
  {
    if e < |s| {
      assert s[e] == s[e..][0];
    }
    NumberOfDigits(s, p + 1, n);
  }

  /** Text that is empty or does not start with a digit. */
  predicate StartsNonDigit(t: string)
  {
    t == [] || !IsDigit(t[0])
  }

  lemma UnitStartsNonDigit(u: Unit, b: bool, tail: string)
    requires Boundary(tail)
    ensures StartsNonDigit(UnitText(u) + BText(b) + tail)
  {
    var t := UnitText(u) + BText(b) + tail;
    if u != NoUnit {
      assert t[0] == UnitText(u)[0];
    } else if b {
      assert t[0] == 'B';
    } else {
      assert t == tail;
    }
  }

  /** The key and value of a rendered setting at `pos`, then text that cannot continue it. */
  lemma KeyValueOfSetting(s: seq<char>, pos: nat, info: Info, x: Setting, tail: string)
    requires Fits(x) && pos <= |s| && s[pos..] == Render(x) + tail && Boundary(tail)
    ensures KeyValue(s, pos, info) == Next(Effect(info, x), pos + |Render(x)|)
  {
    var r := Render(x);
    After(s, pos, r, tail);
    Piece(s, pos, r, tail, 0, 2);
    assert s[pos] == s[pos..pos + 2][0] && s[pos + 1] == s[pos..pos + 2][1];
    match x {
      case SetLevel(name) => LevelSettingAt(s, pos, info, name, tail);
      case SetThreads(n) => ThreadsSettingAt(s, pos, info, n, tail);
      case SetMemory(n, u, b) =>
        MemoryParts(info, n, u, b, tail);
        MemorySettingAt(s, pos, info, n, u, b, tail, pos + |r|, Effect(info, x));
    }
  }

  lemma LevelSettingAt(s: seq<char>, pos: nat, info: Info, name: LevelName, tail: string)
    requires pos <= |s| && s[pos..] == Render(SetLevel(name)) + tail
    ensures pos + 2 <= |s| && s[pos] == 'l' && s[pos + 1] == '='
    ensures LevelWord(s, pos + 2, info) == Next(info.(level := LevelOf(name)), pos + |Render(SetLevel(name))|)
  {
    var r := Render(SetLevel(name));
    Piece(s, pos, r, tail, 0, 2);
    assert s[pos] == s[pos..pos + 2][0] && s[pos + 1] == s[pos..pos + 2][1];
    Piece(s, pos, r, tail, 2, |r|);
    assert r[2..] == LevelText(name);
    LevelWordOf(s, pos + 2, info, name);
  }

  lemma ThreadsSettingAt(s: seq<char>, pos: nat, info: Info, n: nat, tail: string)
    requires n < U64_LIMIT && pos <= |s| && s[pos..] == Render(SetThreads(n)) + tail && Boundary(tail)
    ensures pos + 2 <= |s| && s[pos] == 't'
    ensures ThreadsValue(s, pos + 1, info) == Next(info.(threads := Min(255, n)), pos + |Render(SetThreads(n))|)
  {
    var r := Render(SetThreads(n));
    Piece(s, pos, r, tail, 0, 2);
    assert s[pos] == s[pos..pos + 2][0] && s[pos + 1] == s[pos..pos + 2][1];
    Piece(s, pos, r, tail, 2, |r|);
    assert r[2..] == Digits(n);
    After(s, pos, r, tail);
    ThreadsValueOf(s, pos + 1, info, n);
  }

  /** The first two of five pieces standing at `pos`, and what follows them. */
  lemma Layout(s: seq<char>, pos: nat, a: seq<char>, b: seq<char>, c: seq<char>, d: seq<char>, t: seq<char>)
    requires pos <= |s| && s[pos..] == a + b + c + d + t
    ensures pos + |a| + |b| <= |s|
    ensures s[pos..pos + |a|] == a && s[pos + |a|..pos + |a| + |b|] == b
    ensures s[pos + |a| + |b|..] == c + d + t
  {
    var r := s[pos..];
    assert r[..|a|] == a;
    assert r[|a|..|a| + |b|] == b;
    assert r[|a| + |b|..] == c + d + t;
    assert s[pos..pos + |a|] == r[..|a|];
    assert s[pos + |a|..pos + |a| + |b|] == r[|a|..|a| + |b|];
    assert s[pos + |a| + |b|..] == r[|a| + |b|..];
  }

  /** Where the parts of a memory setting at `pos` sit: the digits end at `q`, the setting
      at `e`. */
  lemma MemoryLayout(s: seq<char>, pos: nat, n: nat, u: Unit, b: bool, tail: string, q: nat, e: nat)
    requires pos <= |s| && s[pos..] == "m=" + Digits(n) + UnitText(u) + BText(b) + tail
    requires q == pos + 2 + |Digits(n)| && e == q + |UnitText(u)| + |BText(b)|
    ensures q <= |s| && s[pos] == 'm' && At(s, pos + 1, '=')
    ensures s[pos + 1 + 1..q] == Digits(n)
    ensures s[q..] == UnitText(u) + BText(b) + tail
  {
    Layout(s, pos, "m=", Digits(n), UnitText(u), BText(b), tail);
    assert s[pos] == s[pos..pos + 2][0] && s[pos + 1] == s[pos..pos + 2][1];
  }

  /** The text, length and effect of a memory setting. */
  lemma MemoryParts(info: Info, n: nat, u: Unit, b: bool, tail: string)
    requires n < U64_LIMIT
    ensures Render(SetMemory(n, u, b)) + tail == "m=" + Digits(n) + UnitText(u) + BText(b) + tail
    ensures |Render(SetMemory(n, u, b))| == 2 + |Digits(n)| + |UnitText(u)| + |BText(b)|
    ensures Effect(info, SetMemory(n, u, b)) ==
      info.(memory := Some(Shl(n, UnitShift(u))), memoryPercent := info.memoryPercent || u == Percent)
  {
  }

  /** `=`, the digits of `n`, then the unit and `B` at `q`: the memory value they make, which
      ends at `e` and gives `out`. */
  lemma MemoryPartsAt(s: seq<char>, p: nat, info: Info, n: nat, u: Unit, b: bool, tail: string, q: nat,
                      e: nat, out: Info)
    requires n < U64_LIMIT && Boundary(tail) && q == p + 1 + |Digits(n)| && q <= |s| && At(s, p, '=')
    requires s[p + 1..q] == Digits(n) && s[q..] == UnitText(u) + BText(b) + tail
    requires e == q + |UnitText(u)| + |BText(b)|
    requires out == info.(memory := Some(Shl(n, UnitShift(u))), memoryPercent := info.memoryPercent || u == Percent)
    ensures MemoryValue(s, p, info) == Next(out, e)
  {
    UnitStartsNonDigit(u, b, tail);
    MemoryValueOf(s, p, info, n, q);
    MemoryUnitOf(s, q, info, n, u, b, tail);
  }

  /** A memory setting at `pos`: its value ends at `e` and gives `out`. */
  lemma MemorySettingAt(s: seq<char>, pos: nat, info: Info, n: nat, u: Unit, b: bool, tail: string, e: nat,
                        out: Info)
    requires n < U64_LIMIT && pos <= |s| && s[pos..] == "m=" + Digits(n) + UnitText(u) + BText(b) + tail
    requires Boundary(tail) && e == pos + 2 + |Digits(n)| + |UnitText(u)| + |BText(b)|
    requires out == info.(memory := Some(Shl(n, UnitShift(u))), memoryPercent := info.memoryPercent || u == Percent)
    ensures pos + 2 <= |s| && s[pos] == 'm'
    ensures MemoryValue(s, pos + 1, info) == Next(out, e)
  {
    var q := pos + 2 + |Digits(n)|;
    MemoryLayout(s, pos, n, u, b, tail, q, e);
    MemoryPartsAt(s, pos + 1, info, n, u, b, tail, q, e, out);
  }

  /** A rendered setting starts with its key, never with the `a` of `auto`. */
  lemma RenderStart(x: Setting)
    ensures |Render(x)| >= 2 && Render(x)[0] in {'l', 't', 'm'}
  {
  }

  /** At a rune other than `a`, the attempt at `auto` fails without moving the cursor. */
  lemma NotAuto(s: seq<char>, pos: nat)
    requires pos < |s| && s[pos] != 'a'
    ensures Attempt(s, pos, "auto") == (false, pos)
  {
    assert s[pos..][0] == s[pos];
    MatchedNone(s[pos..], "auto");
  }

  /** The first rune of what `tail` stands for at `e`. */
  lemma FirstOf(s: seq<char>, e: nat, tail: string)
    requires e <= |s| && s[e..] == tail
    ensures e < |s| ==> s[e] == tail[0]
  {
    if e < |s| {
      assert s[e] == s[e..][0];
    }
  }

  /** One rendered setting at `pos`, then a comma (the list goes on) or text that ends it. */
  lemma ItemOfSetting(s: seq<char>, pos: nat, info: Info, x: Setting, tail: string)
    requires Fits(x) && pos <= |s| && s[pos..] == Render(x) + tail
    requires Boundary(tail)
    ensures Item(s, pos, info) ==
      if tail != [] && tail[0] == ',' then Next(Effect(info, x), pos + |Render(x)| + 1)
      else Stop(Effect(info, x), None)
  {
    var r := Render(x);
    RenderStart(x);
    Piece(s, pos, r, tail, 0, 1);
    assert s[pos] == s[pos..pos + 1][0];
    NotAuto(s, pos);
    KeyValueOfSetting(s, pos, info, x, tail);
    After(s, pos, r, tail);
    FirstOf(s, pos + |r|, tail);
  }

  predicate AllFit(xs: seq<Setting>)
  {
    forall i :: 0 <= i < |xs| ==> Fits(xs[i])
  }

  /** The parse loop at an item that moves on. */
  lemma ItemsNext(s: seq<char>, pos: nat, info: Info, next: Info, p: nat)
    requires pos < |s| && Item(s, pos, info) == Next(next, p)
    ensures Items(s, pos, info) == Items(s, p, next)
  {
  }

  /** The parse loop at an item that stops. */
  lemma ItemsStop(s: seq<char>, pos: nat, info: Info, out: Info)
    requires pos < |s| && Item(s, pos, info) == Stop(out, None)
    ensures Items(s, pos, info) == (out, None)
  {
  }

  /** One rendered setting at `pos`, as the parse loop sees it: it gives `out`, and a comma
      after it sends the loop on to `after`. */
  lemma ItemsOne(s: seq<char>, pos: nat, info: Info, x: Setting, tail: string, after: nat, out: Info)
    requires Fits(x) && pos <= |s| && s[pos..] == Render(x) + tail && Boundary(tail)
    requires after == pos + |Render(x)| + 1 && out == Effect(info, x)
    ensures after <= |s| + 1
    ensures tail != [] && tail[0] == ',' ==> Items(s, pos, info) == Items(s, after, out)
    ensures !(tail != [] && tail[0] == ',') ==> Items(s, pos, info) == (out, None)
  {
    RenderStart(x);
    After(s, pos, Render(x), tail);
    ItemOfSetting(s, pos, info, x, tail);
    if tail != [] && tail[0] == ',' {
      ItemsNext(s, pos, info, out, after);
    } else {
      ItemsStop(s, pos, info, out);
    }
  }

  /** Text `r,more` at `pos`: the comma sits at `p1 - 1`, and `more` starts at `p1`. */
  lemma CommaText(s: seq<char>, pos: nat, r: string, more: string, tail: string, p1: nat)
    requires pos <= |s| && s[pos..] == r + "," + more + tail && p1 == pos + |r| + 1
    ensures s[pos..] == r + ("," + more + tail)
    ensures Boundary("," + more + tail) && ("," + more + tail)[0] == ','
    ensures p1 <= |s| && s[p1..] == more + tail
  {
    assert r + "," + more + tail == (r + ",") + (more + tail);
    After(s, pos, r + ",", more + tail);
  }

  /** The text of a list of several settings at `pos`: the first, a comma at `p1 - 1`, the
      others. */
  lemma ListCons(s: seq<char>, pos: nat, xs: seq<Setting>, tail: string, p1: nat)
    requires |xs| > 1 && pos <= |s| && s[pos..] == RenderAll(xs) + tail
    requires p1 == pos + |Render(xs[0])| + 1
    ensures |RenderAll(xs)| == |Render(xs[0])| + 1 + |RenderAll(xs[1..])|
    ensures s[pos..] == Render(xs[0]) + ("," + RenderAll(xs[1..]) + tail)
    ensures Boundary("," + RenderAll(xs[1..]) + tail) && ("," + RenderAll(xs[1..]) + tail)[0] == ','
    ensures p1 <= |s| && s[p1..] == RenderAll(xs[1..]) + tail
  {
    assert RenderAll(xs) == Render(xs[0]) + "," + RenderAll(xs[1..]);
    CommaText(s, pos, Render(xs[0]), RenderAll(xs[1..]), tail, p1);
  }

  /** The settings of a list after its first one. */
  lemma ListRest(info: Info, xs: seq<Setting>)
    requires |xs| > 0 && AllFit(xs)
    ensures Fits(xs[0]) && AllFit(xs[1..])
    ensures Apply(info, xs) == Apply(Effect(info, xs[0]), xs[1..])
    ensures |xs| == 1 ==> RenderAll(xs) == Render(xs[0]) && Apply(info, xs) == Effect(info, xs[0])
  {
    assert forall i :: 0 <= i < |xs[1..]| ==> xs[1..][i] == xs[i + 1];
  }

  /** A list of rendered settings at `pos`: the items apply the settings in order, giving
      `out`; then the parse stops at the end of the list, or a comma after it sends the loop
      on to `after`. */
  lemma {:induction false} ItemsOfList(s: seq<char>, pos: nat, info: Info, xs: seq<Setting>, tail: string,
                                       after: nat, out: Info)
    requires |xs| > 0 && AllFit(xs)
    requires pos <= |s| && s[pos..] == RenderAll(xs) + tail && Boundary(tail)
    requires after == pos + |RenderAll(xs)| + 1 && out == Apply(info, xs)
    ensures after <= |s| + 1
    ensures tail != [] && tail[0] == ',' ==> Items(s, pos, info) == Items(s, after, out)
    ensures !(tail != [] && tail[0] == ',') ==> Items(s, pos, info) == (out, None)
    decreases |xs|, 1
  {
    ListRest(info, xs);
    if |xs| == 1 {
      ItemsOne(s, pos, info, xs[0], tail, after, out);
    } else {
      ItemsOfSeveral(s, pos, info, xs, tail, after, out);
    }
  }

  /** The step of the induction: the first setting, then the others. */
  lemma {:induction false} ItemsOfSeveral(s: seq<char>, pos: nat, info: Info, xs: seq<Setting>, tail: string,
                                          after: nat, out: Info)
    requires |xs| > 1 && AllFit(xs)
    requires pos <= |s| && s[pos..] == RenderAll(xs) + tail && Boundary(tail)
    requires after == pos + |RenderAll(xs)| + 1 && out == Apply(info, xs)
    ensures after <= |s| + 1
    ensures tail != [] && tail[0] == ',' ==> Items(s, pos, info) == Items(s, after, out)
    ensures !(tail != [] && tail[0] == ',') ==> Items(s, pos, info) == (out, None)
    decreases |xs|, 0
  {
    ListRest(info, xs);
    var p1 := pos + |Render(xs[0])| + 1;
    var next := Effect(info, xs[0]);
    ListCons(s, pos, xs, tail, p1);
    ItemsOne(s, pos, info, xs[0], "," + RenderAll(xs[1..]) + tail, p1, next);
    ItemsOfList(s, p1, next, xs[1..], tail, after, out);
  }

  /** A well-formed directive: its settings are applied in order to the defaults, without
      error. */
  lemma ParseSettings(xs: seq<Setting>, tail: string)
    requires |xs| > 0 && AllFit(xs) && Ends(tail)
    ensures Parse(RenderAll(xs) + tail) == (Apply(DEFAULT_INFO, xs), None)
  {
    var s := RenderAll(xs) + tail;
    assert s[0..] == s;
    ItemsOfList(s, 0, DEFAULT_INFO, xs, tail, |RenderAll(xs)| + 1, Apply(DEFAULT_INFO, xs));
  }

  /** `auto` as the first item: the defaults with forceAuto set, whatever follows. */
  lemma ParseAuto(tail: string)
    ensures Parse("auto" + tail) == (DEFAULT_INFO.(forceAuto := true), None)
  {
    var s := "auto" + tail;
    assert s[0..4] == "auto";
    AutoItem(s, 0, DEFAULT_INFO);
  }

  /** Settings, then `,auto`: they are applied, then forceAuto is set and the rest ignored. */
  lemma ParseSettingsThenAuto(xs: seq<Setting>, tail: string)
    requires |xs| > 0 && AllFit(xs)
    ensures Parse(RenderAll(xs) + ",auto" + tail) ==
      (Apply(DEFAULT_INFO, xs).(forceAuto := true), None)
  {
    var s := RenderAll(xs) + ",auto" + tail;
    var k := |RenderAll(xs)|;
    var out := Apply(DEFAULT_INFO, xs);
    AutoAfter(s, xs, tail, k, out);
    ItemsOfList(s, 0, DEFAULT_INFO, xs, ",auto" + tail, k + 1, out);
  }

  /** Where the `auto` after a list stands, and what the loop does there. */
  lemma AutoAfter(s: seq<char>, xs: seq<Setting>, tail: string, k: nat, out: Info)
    requires |xs| > 0 && s == RenderAll(xs) + ",auto" + tail && k == |RenderAll(xs)|
    ensures s[0..] == RenderAll(xs) + (",auto" + tail) && Boundary(",auto" + tail)
    ensures Items(s, k + 1, out) == (out.(forceAuto := true), None)
  {
    assert s[k + 1..k + 5] == "auto";
    AutoItem(s, k + 1, out);
  }
}
