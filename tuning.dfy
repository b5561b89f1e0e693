/** cmd/rpk/zstd.go, validateParameters: completing a zstdInfo from what the machine offers.
    Automatic tuning picks the threads from the CPUs, the free memory and the disk speed,
    the level from the payload size and the memory from the free memory; explicit settings
    are capped by the CPUs and a percentage is turned into bytes.  A writer then rounds the
    memory down to a power of two inside the window bounds; a reader caps threads and memory.

    The system-memory probe, runtime.NumCPU and the measured write speed are parameters;
    zstd.MinWindowSize and zstd.MaxWindowSize are parameters too. */
module Tuning {
  import opened Streams
  import opened Directive

  /** 1 << 20 */
  const MIB: nat := 0x10_0000

  /** 10 << 20: the free memory one thread is given. */
  const THREAD_MEMORY: nat := 10 * MIB

  /** 4 << 30: the memory when neither the directive nor the tuner gave one. */
  const DEFAULT_MEMORY: u64 := 0x1_0000_0000

  /** 1 << 10 and 1 << 63: the bounds a reader's memory is clamped to. */
  const READ_MEMORY_MIN: u64 := 0x400
  const READ_MEMORY_MAX: u64 := 0x8000_0000_0000_0000

  /** The readers' thread cap. */
  const READ_THREADS_MAX: byte := 4

  /** zstd.MinWindowSize and zstd.MaxWindowSize. */
  datatype Window = Window(min: u64, max: u64)

  /** Go's conversion of a non-negative float64 to uint64, on exact reals: the integer part.
      Go leaves an out-of-range conversion to the implementation; here it saturates. */
  function ToU64(r: real): (v: u64)
    requires r >= 0.0
    ensures r < U64_LIMIT as real ==> v == r.Floor
  {
    if r < U64_LIMIT as real then r.Floor else U64_LIMIT - 1
  }

  function MaxReal(a: real, b: real): real
  {
    if a <= b then b else a
  }

  function MinReal(a: real, b: real): real
  {
    if a <= b then a else b
  }

  /** The thread cap the write speed (MB/s) allows. */
  function SpeedThreads(speed: real): (n: nat)
    ensures 2 <= n <= 8
  {
    if speed > 300.0 then 8
    else if speed > 150.0 then 6
    else if speed > 50.0 then 4
    else 2
  }

  /** The thread cap the free memory allows: 10 MiB per thread, at least one. */
  function MemoryThreads(available: u64): (n: nat)
    ensures n >= 1
  {
    Max(1, available / THREAD_MEMORY)
  }

  /** Automatic threads: the least of the CPUs, the memory cap, the speed cap and 255; at
      least one on a machine with a CPU. */
  function AutoThreads(cpus: nat, available: u64, speed: real): (t: byte)
    ensures t <= cpus && t <= MemoryThreads(available) && t <= SpeedThreads(speed)
    ensures t == cpus || t == MemoryThreads(available) || t == SpeedThreads(speed)
    ensures cpus >= 1 ==> t >= 1
  {
    Min(Min(Min(cpus, MemoryThreads(available)), SpeedThreads(speed)), 255)
  }

  /** Automatic level for a payload of `size` bytes. */
  function SizeLevel(size: u64): Level
  {
    if size < MIB then SpeedFastest
    else if size < 10 * MIB then SpeedDefault
    else SpeedBetterCompression
  }

  /** zstd.EncoderLevel's numbering. */
  function Rank(l: Level): nat
  {
    match l
    case SpeedNotSet => 0
    case SpeedFastest => 1
    case SpeedDefault => 2
    case SpeedBetterCompression => 3
  }

  /** Automatic memory: 70% of the free memory, rounded down. */
  function AutoMemory(available: u64): (m: u64)
    ensures m <= available && 10 * m <= 7 * available < 10 * m + 10
  {
    var x := available as real * 0.7;
    assert 10.0 * x == (7 * available) as real;
    ScaledFloor(7 * available, 10, x);
    ToU64(x)
  }

  /** Explicit threads: 0 means one per CPU (kept in a byte), otherwise at most one per CPU. */
  function ExplicitThreads(cpus: nat, threads: byte): (t: byte)
    ensures threads == 0 ==> t == cpus % 256
    ensures threads != 0 ==> t <= threads && t <= cpus && (threads <= cpus ==> t == threads)
  {
    if threads == 0 then cpus % 256 else Min(cpus, threads)
  }

  /** The percentage conversion as the source writes it: `max(percent, 100)` percent of the
      free memory. */
  function PercentMemoryAsWritten(available: u64, percent: u64): u64
  {
    ToU64(available as real / 100.0 * MaxReal(percent as real, 100.0))
  }

  /** The percentage conversion as intended: `percent` percent of the free memory, rounded
      down, and never more than all of it. */
  function PercentMemory(available: u64, percent: u64): (m: u64)
    ensures m <= available
    ensures percent >= 100 ==> m == available
    ensures percent <= 100 ==> 100 * m <= available * percent < 100 * m + 100
  {
    var x := available as real / 100.0 * MinReal(percent as real, 100.0);
    PercentScaled(available, percent, x);
    ToU64(x)
  }

  lemma PercentScaled(available: u64, percent: u64, x: real)
    requires x == available as real / 100.0 * MinReal(percent as real, 100.0)
    ensures 0.0 <= x < U64_LIMIT as real && x.Floor <= available
    ensures percent >= 100 ==> x.Floor == available
    ensures percent <= 100 ==> 100 * x.Floor <= available * percent < 100 * x.Floor + 100
  {
    if percent >= 100 {
      assert x == available as real;
    } else {
      PercentOfReal(available, percent);
      PercentBelow(available, percent, x);
    }
  }

  lemma PercentOfReal(a: nat, p: nat)
    ensures 100.0 * (a as real / 100.0 * p as real) == (a * p) as real
  {
    assert (a * p) as real == a as real * p as real;
  }

  lemma PercentBelow(a: nat, p: nat, x: real)
    requires p < 100 && 100.0 * x == (a * p) as real
    ensures 100 * x.Floor <= a * p < 100 * x.Floor + 100
    ensures 0.0 <= x <= a as real && x.Floor <= a
  {
    ScaledFloor(a * p, 100, x);
    assert a * p <= a * 100;
    assert (a * p) as real <= (a * 100) as real;
  }

  /** The integer part of `x`, where `d * x == a`, is `a / d` rounded down. */
  lemma ScaledFloor(a: nat, d: nat, x: real)
    requires d > 0 && d as real * x == a as real
    ensures d * x.Floor <= a < d * x.Floor + d
  {
    ScaledBelow(a, d, x.Floor, x);
    ScaledAbove(a, d, x.Floor + 1, x);
  }

  lemma ScaledBelow(a: int, d: int, m: int, x: real)
    requires d > 0 && d as real * x == a as real && m as real <= x
    ensures d * m <= a
  {
    assert d as real * m as real <= d as real * x;
    assert (d * m) as real == d as real * m as real;
  }

  lemma ScaledAbove(a: int, d: int, m: int, x: real)
    requires d > 0 && d as real * x == a as real && x < m as real
    ensures a < d * m
  {
    assert d as real * x < d as real * m as real;
    assert (d * m) as real == d as real * m as real;
  }

  /** The automatic branch. */
  function Auto(info: Info, cpus: nat, available: u64, speed: real, size: u64, isWrite: bool): Info
  {
    info.(threads := AutoThreads(cpus, available, speed),
          level := if isWrite then SizeLevel(size) else info.level,
          memory := Some(AutoMemory(available)))
  }

  /** The explicit branch; a percentage always comes with a memory value. */
  function Explicit(info: Info, cpus: nat, available: u64): Info
    requires info.memoryPercent ==> info.memory.Some?
  {
    var info := info.(threads := ExplicitThreads(cpus, info.threads));
    if info.memoryPercent
    then info.(memoryPercent := false, memory := Some(PercentMemory(available, info.memory.value)))
    else info
  }

  /** The top bit of `n` and every bit below it set, by six steps that each OR the value
      with itself shifted right by 1, 2, 4, 8, 16 and 32. */
  function Smear(n: bv64): bv64
  {
    var n := n | (n >> 1);
    var n := n | (n >> 2);
    var n := n | (n >> 4);
    var n := n | (n >> 8);
    var n := n | (n >> 16);
    n | (n >> 32)
  }

  predicate IsPowerOfTwo(x: bv64)
  {
    x != 0 && x & (x - 1) == 0
  }

  /** The top bit of a run of ones. */
  function TopBit(m: bv64): bv64
  {
    m - (m >> 1)
  }

  /** The largest power of two not above `n`, by smearing its top bit downwards. */
  function RoundDown(n: bv64): bv64
  {
    TopBit(Smear(n))
  }

  /** A uint64 as its 64 bits, and back. */
  function Bits(v: u64): bv64
  {
    v as bv64
  }

  function Unsigned(b: bv64): u64
  {
    b as int
  }

  /** A nonzero memory rounded down to a power of two, on its bits; 0 stays 0. */
  function Rounded(memory: u64): u64
  {
    if memory != 0 then Unsigned(RoundDown(Bits(memory))) else 0
  }

  /** A writer's window: the rounded memory clamped to the window bounds. */
  function WindowSize(memory: u64, w: Window): u64
  {
    Min(w.max, Max(w.min, Rounded(memory)))
  }

  /** A reader's memory: clamped to [1 << 10, 1 << 63]. */
  function ReadMemory(memory: u64): u64
  {
    Min(READ_MEMORY_MAX, Max(READ_MEMORY_MIN, memory))
  }

  /** The tuned settings before a writer's window or a reader's caps: the automatic or the
      explicit branch, then 4 GiB when no memory was set. */
  function Tuned(info: Info, cpus: nat, available: u64, speed: real, size: u64, isWrite: bool): (t: Info)
    requires info.memoryPercent ==> info.memory.Some?
    ensures t.memory.Some?
  {
    var info := if info.forceAuto then Auto(info, cpus, available, speed, size, isWrite)
                else Explicit(info, cpus, available);
    if info.memory.None? then info.(memory := Some(DEFAULT_MEMORY)) else info
  }

  /** What validateParameters makes of `info` when the memory probe reports `available`. */
  function Validated(info: Info, cpus: nat, available: u64, speed: real, size: u64, isWrite: bool, w: Window): Info
    requires info.memoryPercent ==> info.memory.Some?
  {
    var t := Tuned(info, cpus, available, speed, size, isWrite);
    if isWrite then t.(memory := Some(WindowSize(t.memory.value, w)))
    else t.(threads := Min(t.threads, READ_THREADS_MAX), memory := Some(ReadMemory(t.memory.value)))
  }

  /** validateParameters.  `probe` is what mem.VirtualMemory reports: the available memory,
      or None when it fails.  A percentage without a memory value is the nil dereference
      the source would panic on, so the caller must not pass one. */
  method ValidateParameters(i: ZstdInfo, probe: Option<u64>, cpus: nat, speed: real, size: u64,
                            isWrite: bool, w: Window) returns (err: Option<Error>)
    requires i.memoryPercent ==> i.memory.Some?
    modifies i
    ensures probe.None? ==> err == Some(ProbeFailure) && i.Value() == old(i.Value())
    ensures probe.Some? ==>
      (err == None && i.Value() == Validated(old(i.Value()), cpus, probe.value, speed, size, isWrite, w))
  {
    if probe.None? {
      return Some(ProbeFailure);
    }
    var available := probe.value;
    if i.forceAuto {
      TuneAuto(i, cpus, available, speed, size, isWrite);
    } else {
      TuneExplicit(i, cpus, available);
    }
    if i.memory.None? {
      i.memory := Some(DEFAULT_MEMORY);
    }
    if isWrite {
      FitWindow(i, w);
    } else {
      i.threads := Min(i.threads, READ_THREADS_MAX);
      i.memory := Some(Min(READ_MEMORY_MAX, Max(READ_MEMORY_MIN, i.memory.value)));
    }
    return None;
  }

  /** The automatic branch of validateParameters. */
  method TuneAuto(i: ZstdInfo, cpus: nat, available: u64, speed: real, size: u64, isWrite: bool)
    modifies i
    ensures i.Value() == Auto(old(i.Value()), cpus, available, speed, size, isWrite)
  {
    var byMemory := Max(1, available / THREAD_MEMORY);
    var bySpeed := 1;
    if speed > 300.0 {
      bySpeed := 8;
    } else if speed > 150.0 {
      bySpeed := 6;
    } else if speed > 50.0 {
      bySpeed := 4;
    } else {
      bySpeed := 2;
    }
    i.threads := Min(Min(Min(cpus, byMemory), bySpeed), 255);
    if isWrite {
      if size < MIB {
        i.level := SpeedFastest;
      } else if size < 10 * MIB {
        i.level := SpeedDefault;
      } else {
        i.level := SpeedBetterCompression;
      }
    }
    i.memory := Some(AutoMemory(available));
  }

  /** The explicit branch of validateParameters. */
  method TuneExplicit(i: ZstdInfo, cpus: nat, available: u64)
    requires i.memoryPercent ==> i.memory.Some?
    modifies i
    ensures i.Value() == Explicit(old(i.Value()), cpus, available)
  {
    if i.threads == 0 {
      i.threads := cpus % 256;
    } else {
      i.threads := Min(cpus, i.threads);
    }
    if i.memoryPercent {
      i.memoryPercent := false;
      i.memory := Some(PercentMemory(available, i.memory.value));
    }
  }

  /** A writer's window: the power-of-two round-down, then the clamp. */
  method FitWindow(i: ZstdInfo, w: Window)
    requires i.memory.Some?
    modifies i
    ensures i.Value() == old(i.Value()).(memory := Some(WindowSize(old(i.memory.value), w)))
  {
    var n := i.memory.value;
    if n != 0 {
      n := Unsigned(RoundDown(Bits(n)));
    }
    i.memory := Some(Min(w.max, Max(w.min, n)));
  }

  /** The automatic level grows with the payload size. */
  lemma SizeLevelMonotone(a: u64, b: u64)
    requires a <= b
    ensures Rank(SizeLevel(a)) <= Rank(SizeLevel(b))
  {
  }

  /** Smearing keeps every bit of `n`, and its top bit is the top bit of `n`. */
  lemma SmearBounds(n: bv64)
    requires n != 0
    ensures Smear(n) >> 1 < n <= Smear(n)
  {
    SmearKeeps(n);
  }

  lemma SmearKeeps(n: bv64)
    ensures n <= Smear(n)
  {
  }

  /** Smearing leaves no gap below its top bit. */
  lemma SmearClosed(n: bv64)
    ensures Smear(n) | (Smear(n) >> 1) == Smear(n)
  {
  }

  /** A power of two above half of `n` is the largest power of two not above `n`. */
  lemma LargestPowerOfTwo(p: bv64, r: bv64, n: bv64)
    requires IsPowerOfTwo(p) && IsPowerOfTwo(r) && p <= n && n >> 1 < r
    ensures p <= r
  {
  }

  /** RoundDown gives a power of two not above a nonzero `n` and above its half. */
  lemma RoundDownIsLargestPowerOfTwo(n: bv64)
    requires n != 0
    ensures IsPowerOfTwo(RoundDown(n)) && RoundDown(n) <= n && n >> 1 < RoundDown(n)
  {
    SmearBounds(n);
    SmearClosed(n);
    RoundDownPower(n);
    RoundDownBelow(n);
    RoundDownAboveHalf(n);
  }

  lemma RoundDownPower(n: bv64)
    requires Smear(n) != 0
    requires Smear(n) | (Smear(n) >> 1) == Smear(n)
    ensures IsPowerOfTwo(RoundDown(n))
  {
  }

  lemma RoundDownBelow(n: bv64)
    requires n != 0
    requires Smear(n) >> 1 < n <= Smear(n)
    requires Smear(n) | (Smear(n) >> 1) == Smear(n)
    ensures RoundDown(n) <= n
  {
  }

  lemma RoundDownAboveHalf(n: bv64)
    requires n != 0
    requires Smear(n) >> 1 < n <= Smear(n)
    requires Smear(n) | (Smear(n) >> 1) == Smear(n)
    ensures n >> 1 < RoundDown(n)
  {
  }

  /** No power of two between RoundDown(n) and `n` is missed. */
  lemma RoundDownIsLargest(n: bv64, p: bv64)
    requires n != 0 && IsPowerOfTwo(p) && p <= n
    ensures p <= RoundDown(n)
  {
    RoundDownIsLargestPowerOfTwo(n);
    LargestPowerOfTwo(p, RoundDown(n), n);
  }

  lemma BitsOfUnsigned(b: bv64)
    ensures Bits(Unsigned(b)) == b
  {
  }

  /** A nonzero memory rounds down to a power of two that is not above it and above its
      half; zero stays zero. */
  lemma RoundedFacts(memory: u64)
    ensures memory == 0 ==> Rounded(memory) == 0
    ensures memory != 0 ==>
      (IsPowerOfTwo(Bits(Rounded(memory))) &&
       Bits(Rounded(memory)) <= Bits(memory) && Bits(memory) >> 1 < Bits(Rounded(memory)))
  {
    if memory != 0 {
      RoundDownIsLargestPowerOfTwo(Bits(memory));
      BitsOfUnsigned(RoundDown(Bits(memory)));
    }
  }

  /** The clamp picks one of its three inputs and stays inside the bounds. */
  lemma ClampOneOf(lo: u64, hi: u64, v: u64)
    requires lo <= hi
    ensures lo <= Min(hi, Max(lo, v)) <= hi
    ensures Min(hi, Max(lo, v)) in {lo, hi, v}
    ensures lo <= v <= hi ==> Min(hi, Max(lo, v)) == v
  {
  }

  /** A writer's window lies within the bounds; it is the rounded memory when that already
      fits; with power-of-two bounds (as zstd's are) it is a power of two. */
  lemma {:induction false} WindowSizeFacts(memory: u64, w: Window)
    requires w.min <= w.max
    ensures w.min <= WindowSize(memory, w) <= w.max
    ensures w.min <= Rounded(memory) <= w.max ==> WindowSize(memory, w) == Rounded(memory)
    ensures memory != 0 && IsPowerOfTwo(Bits(w.min)) && IsPowerOfTwo(Bits(w.max)) ==>
      IsPowerOfTwo(Bits(WindowSize(memory, w)))
  {
    RoundedFacts(memory);
    ClampOneOf(w.min, w.max, Rounded(memory));
  }

  /** A reader's memory stays within [1 << 10, 1 << 63] and is kept when it already fits. */
  lemma ReadMemoryFacts(memory: u64)
    ensures READ_MEMORY_MIN <= ReadMemory(memory) <= READ_MEMORY_MAX
    ensures READ_MEMORY_MIN <= memory <= READ_MEMORY_MAX ==> ReadMemory(memory) == memory
  {
    ClampOneOf(READ_MEMORY_MIN, READ_MEMORY_MAX, memory);
  }

  /** The tuned settings: automatic tuning sets the threads, the memory and, for a writer, the
      level from the machine; explicit settings keep their level, cap their threads and turn
      a percentage into bytes; a missing memory becomes 4 GiB. */
  lemma TunedFacts(info: Info, cpus: nat, available: u64, speed: real, size: u64, isWrite: bool)
    requires info.memoryPercent ==> info.memory.Some?
    ensures var t := Tuned(info, cpus, available, speed, size, isWrite);
      t.forceAuto == info.forceAuto &&
      (info.forceAuto ==>
        t.threads == AutoThreads(cpus, available, speed) && t.memory == Some(AutoMemory(available)) &&
        t.level == (if isWrite then SizeLevel(size) else info.level)) &&
      (!info.forceAuto ==>
        t.threads == ExplicitThreads(cpus, info.threads) && t.level == info.level && !t.memoryPercent &&
        t.memory == Some(if info.memoryPercent then PercentMemory(available, info.memory.value)
                         else if info.memory.Some? then info.memory.value else DEFAULT_MEMORY))
  {
  }

  /** A writer's validated settings are the tuned ones with the memory fitted to the window:
      inside the bounds, and a power of two for power-of-two bounds. */
  lemma {:induction false} ValidatedWriter(info: Info, cpus: nat, available: u64, speed: real, size: u64, w: Window)
    requires info.memoryPercent ==> info.memory.Some?
    requires w.min <= w.max
    ensures var t := Tuned(info, cpus, available, speed, size, true);
      var r := Validated(info, cpus, available, speed, size, true, w);
      r == t.(memory := r.memory) && r.memory.Some? && w.min <= r.memory.value <= w.max &&
      (IsPowerOfTwo(Bits(w.min)) && IsPowerOfTwo(Bits(w.max)) ==> IsPowerOfTwo(Bits(r.memory.value)))
  {
    var t := Tuned(info, cpus, available, speed, size, true);
    WindowSizeFacts(t.memory.value, w);
    if t.memory.value == 0 {
      ClampOneOf(w.min, w.max, 0);
    }
  }

  /** A reader's validated settings are the tuned ones with at most four threads and a
      memory within [1 << 10, 1 << 63]. */
  lemma ValidatedReader(info: Info, cpus: nat, available: u64, speed: real, size: u64, w: Window)
    requires info.memoryPercent ==> info.memory.Some?
    ensures var t := Tuned(info, cpus, available, speed, size, false);
      var r := Validated(info, cpus, available, speed, size, false, w);
      r == t.(threads := r.threads, memory := r.memory) &&
      r.threads <= READ_THREADS_MAX && (t.threads <= READ_THREADS_MAX ==> r.threads == t.threads) &&
      r.memory.Some? && READ_MEMORY_MIN <= r.memory.value <= READ_MEMORY_MAX &&
      (READ_MEMORY_MIN <= t.memory.value <= READ_MEMORY_MAX ==> r.memory == t.memory)
  {
    ReadMemoryFacts(Tuned(info, cpus, available, speed, size, false).memory.value);
  }

  /** The as-written percentage ignores every percentage up to 100: it always grants all of
      the free memory. */
  lemma PercentAsWrittenIgnoresPercent(available: u64, percent: u64)
    requires percent <= 100
    ensures PercentMemoryAsWritten(available, percent) == available
  {
    assert available as real / 100.0 * MaxReal(percent as real, 100.0) == available as real;
  }

  /** `m=50%` with 1000 bytes free: the source grants all 1000 bytes, the intended reading
      grants 500; `m=200%` grants 2000 bytes, twice what is free. */
  lemma PercentAsWrittenExamples()
    ensures PercentMemoryAsWritten(1000, 50) == 1000 && PercentMemory(1000, 50) == 500
    ensures PercentMemoryAsWritten(1000, 200) == 2000 && PercentMemory(1000, 200) == 1000
  {
    PercentAsWrittenIgnoresPercent(1000, 50);
    assert 1000 as real / 100.0 * MaxReal(200 as real, 100.0) == 2000.0;
  }

  /** The settings validateParameters may be given: a percentage always comes with a value. */
  predicate PercentHasValue(info: Info)
  {
    info.memoryPercent ==> info.memory.Some?
  }

  /** One item keeps a percentage paired with its value. */
  lemma ItemKeepsPercentValue(s: seq<char>, pos: nat, info: Info)
    requires pos < |s| && PercentHasValue(info)
    ensures PercentHasValue(Item(s, pos, info).info)
  {
  }

  /** Every directive handleZstd accepts or rejects leaves a percentage paired with its value,
      so its result can always be handed to validateParameters. */
  lemma {:induction false} ItemsKeepPercentValue(s: seq<char>, pos: nat, info: Info)
    requires PercentHasValue(info)
    ensures PercentHasValue(Items(s, pos, info).0)
    decreases |s| - pos
  {
    if pos < |s| {
      ItemKeepsPercentValue(s, pos, info);
      match Item(s, pos, info)
      case Stop(i, e) =>
      case Next(i, p) => ItemsKeepPercentValue(s, p, i);
    }
  }

  lemma ParseKeepsPercentValue(s: seq<char>)
    ensures PercentHasValue(Parse(s).0)
  {
    if |s| > 0 {
      ItemsKeepPercentValue(s, 0, DEFAULT_INFO);
    }
  }
}
