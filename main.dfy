/** cmd/rpk/main.go, the older command-line revision: its copyBuffer, which has no limit, and
    the argument loop of `main`, in which the options -f, -d and -e each queue a slot (a
    "waiter") that the next free positional argument fills, first queued first filled.
    The mode flags then pick the command.  Output, the version and help texts, and the
    commands themselves are not modelled: the outcome is the command chosen, with its
    arguments. */
module CommandLine {
  import opened Streams
  import opened CopyLoop

  /** copyBuffer (main.go).  Reads the source into `buf` until it reports an error, writing
      and checking each chunk as it goes; `size` is only shown as progress, so the whole
      source is copied whatever it says. */
  method CopyBuffer(dst: Sink, src: Source, size: u64, buf: array<byte>) returns (written: nat, err: Option<Error>)
    requires src.Valid() && buf.Length > 0
    modifies dst, src, buf
    ensures src.Valid()
    ensures var r := Copy(old(src.Rest()), buf.Length, old(dst.State()), dst.overflow, Reported(src.EndError()));
      dst.State() == r.sink && src.pos == old(src.pos) + r.read && written == r.written && err == r.err
  {
    ghost var p0 := src.pos;
    ghost var remaining := src.Rest();
    ghost var end := Reported(src.EndError());
    ghost var goal := Copy(remaining, buf.Length, dst.State(), dst.overflow, end);
    written := 0;
    while true
      invariant src.Valid() && p0 <= src.pos && remaining == src.Rest()
      invariant goal == After(written, src.pos - p0, Copy(remaining, buf.Length, dst.State(), dst.overflow, end))
      decreases |src.data| - src.pos
    {
      var nr, er := src.Read(buf, 0, buf.Length);
      if nr > 0 {
        assert remaining != [] && remaining[..Min(buf.Length, |remaining|)] == buf[..nr];
        var nw, stop := WriteRound(dst, remaining, buf.Length, buf[..nr], end);
        written := written + nw;
        if stop.Some? {
          err := stop;
          break;
        }
        remaining := remaining[nr..];
      }
      if er.Some? {
        err := if er.value != EOF then er else None;
        break;
      }
    }
  }

  /** Whatever `size` says, a sink with room for the whole source receives all of it, and the
      copy ends with no error at end-of-file or with the source's own error. */
  lemma CopiesWholeSource(rest: seq<byte>, bufSize: nat, st: SinkState, o: Overflow, e: Error)
    requires bufSize > 0 && |rest| <= st.room
    ensures var r := Copy(rest, bufSize, st, o, Reported(e));
      && r.sink.data == st.data + rest && r.written == |rest| && r.read == |rest|
      && (r.err == None <==> e == EOF)
  {
    CopyFits(rest, bufSize, st, o, Reported(e));
  }

  // ---------------------------------------------------------------------------------------
  // The argument loop

  /** Where a positional argument goes when a slot is waiting for one: the archive name
      (-f), the working directory (-d), or entry `index` of the exclude patterns (-e). */
  datatype Slot = NameSlot | DirSlot | ExcludeSlot(index: nat)

  /** How the loop can end the process early: -V prints the version, -h the help, and an
      empty argument panics. */
  datatype Exit = ShowVersion | ShowHelp | EmptyArgument

  /** The variables of `main` the loop sets. */
  datatype Options = Options(
    list: bool, create: bool, extract: bool, verbose: bool,
    name: string, dir: string,
    excludes: seq<string>, files: seq<string>,
    waiters: seq<Slot>, filled: nat)

  /** Before the first argument: no modes, nothing queued, the working directory as the
      process found it. */
  function Start(wd: string): Options
  {
    Options(false, false, false, false, "", wd, [], [], [], 0)
  }

  /** Every exclude slot in `w` names an entry below `n`, and the entries they name increase
      along `w`. */
  predicate ExcludesBelow(w: seq<Slot>, n: nat)
    decreases |w|
  {
    if w == [] then true
    else
      var last := w[|w| - 1];
      if last.ExcludeSlot? then last.index < n && ExcludesBelow(w[..|w| - 1], last.index)
      else ExcludesBelow(w[..|w| - 1], n)
  }

  /** No more slots filled than queued, and each -e slot names an entry of `excludes` of its
      own, later slots later entries. */
  predicate WellFormed(o: Options)
  {
    o.filled <= |o.waiters| && ExcludesBelow(o.waiters, |o.excludes|)
  }

  lemma {:induction false} ExcludesBelowWeaker(w: seq<Slot>, n: nat, m: nat)
    requires ExcludesBelow(w, n) && n <= m
    ensures ExcludesBelow(w, m)
    decreases |w|
  {
    if w != [] && !w[|w| - 1].ExcludeSlot? {
      ExcludesBelowWeaker(w[..|w| - 1], n, m);
    }
  }

  /** The entry an exclude slot names is below the bound, and below that of any later one. */
  lemma {:induction false} ExcludesIncrease(w: seq<Slot>, n: nat, k: nat, l: nat)
    requires ExcludesBelow(w, n) && k <= l < |w| && w[k].ExcludeSlot? && w[l].ExcludeSlot?
    ensures w[l].index < n && (k < l ==> w[k].index < w[l].index)
    decreases |w|
  {
    var init := w[..|w| - 1];
    var last := w[|w| - 1];
    if l == |w| - 1 {
      if k < l {
        assert init[k] == w[k];
        ExcludesIncrease(init, last.index, k, k);
      }
    } else {
      assert init[k] == w[k] && init[l] == w[l];
      if last.ExcludeSlot? {
        ExcludesIncrease(init, last.index, k, l);
      } else {
        ExcludesIncrease(init, n, k, l);
      }
    }
  }

  /** The next slot to fill, if an exclude slot, names an existing entry. */
  lemma NextSlotFits(o: Options)
    requires WellFormed(o) && o.filled < |o.waiters|
    ensures o.waiters[o.filled].ExcludeSlot? ==> o.waiters[o.filled].index < |o.excludes|
  {
    if o.waiters[o.filled].ExcludeSlot? {
      ExcludesIncrease(o.waiters, |o.excludes|, o.filled, o.filled);
    }
  }

  lemma ExcludesBelowAppend(w: seq<Slot>, n: nat, s: Slot, m: nat)
    requires ExcludesBelow(w, n)
    requires s.ExcludeSlot? ==> s.index == n && m == n + 1
    requires !s.ExcludeSlot? ==> m == n
    ensures ExcludesBelow(w + [s], m)
  {
    assert (w + [s])[..|w|] == w;
  }

  /** The runes handleArg knows. */
  const HANDLED: set<char> := {'l', 'c', 'x', 'f', 'd', 'e', 'v', 'V', 'h'}

  /** The arguments `main` matches whole, each with its long form and the rune both stand
      for. */
  const NAMED: seq<(string, string, char)> := [
    ("-l", "--list", 'l'), ("-c", "--create", 'c'), ("-x", "--extract", 'x'),
    ("-f", "--file", 'f'), ("-d", "--dir", 'd'), ("-e", "--exclude", 'e'),
    ("-v", "--verbose", 'v'), ("-V", "--version", 'V'), ("-h", "--help", 'h')]

  /** The rune `arg` stands for when `main` matches it whole. */
  function Named(arg: string): (r: Option<char>)
    ensures r.Some? ==> |arg| >= 2 && arg[0] == '-'
  {
    Lookup(arg, NAMED)
  }

  function Lookup(arg: string, table: seq<(string, string, char)>): (r: Option<char>)
    requires forall i :: 0 <= i < |table| ==> |table[i].0| >= 2 && table[i].0[0] == '-' && |table[i].1| >= 2 && table[i].1[0] == '-'
    ensures r.Some? ==> |arg| >= 2 && arg[0] == '-'
  {
    if table == [] then None
    else if arg == table[0].0 || arg == table[0].1 then Some(table[0].2)
    else Lookup(arg, table[1..])
  }

  /** A named argument is a dash and one rune, or starts with two dashes. */
  lemma {:induction false} LookupShape(arg: string, table: seq<(string, string, char)>)
    requires forall i :: 0 <= i < |table| ==> |table[i].0| >= 2 && table[i].0[0] == '-' && |table[i].1| >= 2 && table[i].1[0] == '-'
    requires forall i :: 0 <= i < |table| ==> |table[i].0| == 2 && table[i].1[1] == '-'
    ensures Lookup(arg, table).Some? ==> |arg| == 2 || (|arg| >= 2 && arg[1] == '-')
  {
    if table != [] && arg != table[0].0 && arg != table[0].1 {
      LookupShape(arg, table[1..]);
    }
  }

  lemma NamedShape(arg: string)
    ensures Named(arg).Some? ==> |arg| == 2 || (|arg| >= 2 && arg[1] == '-')
  {
    LookupShape(arg, NAMED);
  }

  lemma NamedC()
    ensures Named("-c") == Some('c')
  {
    assert NAMED[1..][0] == ("-c", "--create", 'c');
  }

  lemma NamedE()
    ensures Named("-e") == Some('e')
  {
    assert NAMED[5].0 == "-e";
    assert "-e" != "-l" && "-e" != "-c" && "-e" != "-x" && "-e" != "-f" && "-e" != "-d";
  }

  /** handleArg for a rune that does not end the process: a mode or verbosity flag is set, a
      slot is queued (for -e after appending an empty pattern for it to fill), and an
      unknown rune changes nothing. */
  function Flag(o: Options, r: char): Options
  {
    if r == 'l' then o.(list := true)
    else if r == 'c' then o.(create := true)
    else if r == 'x' then o.(extract := true)
    else if r == 'f' then o.(waiters := o.waiters + [NameSlot])
    else if r == 'd' then o.(waiters := o.waiters + [DirSlot])
    else if r == 'e' then o.(excludes := o.excludes + [""], waiters := o.waiters + [ExcludeSlot(|o.excludes|)])
    else if r == 'v' then o.(verbose := true)
    else o
  }

  /** A value stored where a slot points (an exclude slot past the entries, which
      well-formed options never hold, stores nothing). */
  function Fill(o: Options, s: Slot, arg: string): Options
  {
    match s
    case NameSlot => o.(name := arg)
    case DirSlot => o.(dir := arg)
    case ExcludeSlot(i) => if i < |o.excludes| then o.(excludes := o.excludes[i := arg]) else o
  }

  /** A positional argument fills the oldest unfilled slot, or else becomes a file pattern. */
  function Positional(o: Options, arg: string): Options
  {
    if o.filled < |o.waiters| then Fill(o, o.waiters[o.filled], arg).(filled := o.filled + 1)
    else o.(files := o.files + [arg])
  }

  /** The runes of a flag argument handled in order, up to one that ends the process. */
  function Runes(o: Options, rs: string): (r: (Options, Option<Exit>))
    ensures r.1.Some? <==> 'V' in rs || 'h' in rs
    decreases |rs|
  {
    if rs == [] then (o, None)
    else if rs[0] == 'V' then (o, Some(ShowVersion))
    else if rs[0] == 'h' then (o, Some(ShowHelp))
    else Runes(Flag(o, rs[0]), rs[1..])
  }

  /** One argument: a named option, an empty argument, a group of flag runes after `-`, or
      a positional argument. */
  function Argument(o: Options, arg: string): (r: (Options, Option<Exit>))
    ensures r.1.Some? ==> arg == [] || (|arg| >= 2 && arg[0] == '-')
  {
    if Named(arg).Some? then Runes(o, [Named(arg).value])
    else if arg == [] then (o, Some(EmptyArgument))
    else if arg[0] == '-' then Runes(o, arg[1..])
    else (Positional(o, arg), None)
  }

  /** The argument loop, up to the end of the arguments or an early exit. */
  function Scan(o: Options, args: seq<string>): (r: (Options, Option<Exit>))
    decreases |args|
  {
    if args == [] then (o, None)
    else
      var a := Argument(o, args[0]);
      if a.1.Some? then a else Scan(a.0, args[1..])
  }

  lemma FlagKeeps(o: Options, r: char)
    requires WellFormed(o)
    ensures WellFormed(Flag(o, r))
  {
    var n := |o.excludes|;
    var o1 := Flag(o, r);
    if r == 'f' || r == 'd' || r == 'e' {
      var s := if r == 'f' then NameSlot else if r == 'd' then DirSlot else ExcludeSlot(n);
      var m := if r == 'e' then n + 1 else n;
      assert o1.waiters == o.waiters + [s] && |o1.excludes| == m && o1.filled == o.filled;
      ExcludesBelowAppend(o.waiters, n, s, m);
    } else {
      assert o1.waiters == o.waiters && o1.excludes == o.excludes && o1.filled == o.filled;
    }
  }

  lemma {:induction false} RunesKeeps(o: Options, rs: string)
    requires WellFormed(o)
    ensures WellFormed(Runes(o, rs).0)
    decreases |rs|
  {
    if rs != [] && rs[0] != 'V' && rs[0] != 'h' {
      FlagKeeps(o, rs[0]);
      RunesKeeps(Flag(o, rs[0]), rs[1..]);
    }
  }

  /** Every step of the loop keeps the options well formed, so every -e slot it fills names
      an entry of its own. */
  lemma ArgumentKeeps(o: Options, arg: string)
    requires WellFormed(o)
    ensures WellFormed(Argument(o, arg).0)
  {
    if Named(arg).Some? {
      RunesKeeps(o, [Named(arg).value]);
    } else if arg == [] {
    } else if arg[0] == '-' {
      RunesKeeps(o, arg[1..]);
    } else {
      PositionalKeeps(o, arg);
    }
  }

  lemma {:induction false} ScanKeeps(o: Options, args: seq<string>)
    requires WellFormed(o)
    ensures WellFormed(Scan(o, args).0)
    decreases |args|
  {
    if args != [] {
      ArgumentKeeps(o, args[0]);
      if Argument(o, args[0]).1.None? {
        ScanKeeps(Argument(o, args[0]).0, args[1..]);
      }
    }
  }

  /** What `main` does after the loop. */
  datatype Command =
    | NoMode                 // "mode not specified", exit status 1
    | NotEnoughArguments     // "not enough arguments for provided options", exit status 1
    | List(name: string, verbose: bool)
    | Extract(name: string, dir: string, verbose: bool)
    | Pack(name: string, dir: string, files: seq<string>, excludes: seq<string>, verbose: bool)

  /** The choice after the loop: unfilled slots are an error; then list wins over extract,
      extract over create, and no mode is an error; packing with no patterns packs `*`. */
  function Decide(o: Options): (c: Command)
    ensures c == NotEnoughArguments <==> o.filled < |o.waiters|
    ensures c.List? <==> o.filled >= |o.waiters| && o.list
    ensures c.Extract? <==> o.filled >= |o.waiters| && !o.list && o.extract
    ensures c == NoMode <==> o.filled >= |o.waiters| && !o.list && !o.extract && !o.create
    ensures c.Pack? ==> c.files != [] && (o.files != [] ==> c.files == o.files) && c.excludes == o.excludes
  {
    if o.filled < |o.waiters| then NotEnoughArguments
    else if o.list then List(o.name, o.verbose)
    else if o.extract then Extract(o.name, o.dir, o.verbose)
    else if !o.create then NoMode
    else Pack(o.name, o.dir, if o.files == [] then ["*"] else o.files, o.excludes, o.verbose)
  }

  /** How a run ends: the process stopped during the loop, or the command chosen after it. */
  datatype Invocation = Stopped(exit: Exit) | Chosen(command: Command)

  /** `main` from its arguments (those after the program name) and the working directory
      it starts in. */
  function Invoke(args: seq<string>, wd: string): Invocation
  {
    if args == [] then Chosen(NoMode)
    else
      var s := Scan(Start(wd), args);
      if s.1.Some? then Stopped(s.1.value) else Chosen(Decide(s.0))
  }

  /** A positional argument: not empty and not starting with `-`. */
  predicate Plain(arg: string)
  {
    arg != [] && arg[0] != '-'
  }

  /** The slot one flag rune queues, if any, when `n` exclude patterns exist. */
  function SlotOf(r: char, n: nat): seq<Slot>
  {
    if r == 'f' then [NameSlot]
    else if r == 'd' then [DirSlot]
    else if r == 'e' then [ExcludeSlot(n)]
    else []
  }

  /** The slots a group of flag runes queues, in order, when `n` exclude patterns exist. */
  function SlotsFor(rs: string, n: nat): seq<Slot>
    decreases |rs|
  {
    if rs == [] then [] else SlotOf(rs[0], n) + SlotsFor(rs[1..], n + Count('e', rs[..1]))
  }

  /** How many times `c` occurs in `rs`. */
  function Count(c: char, rs: string): nat
  {
    if rs == [] then 0 else (if rs[0] == c then 1 else 0) + Count(c, rs[1..])
  }

  /** `n` empty patterns. */
  function Blanks(n: nat): seq<string>
  {
    if n == 0 then [] else [""] + Blanks(n - 1)
  }

  /** One flag rune other than V and h, field by field. */
  lemma FlagStep(o: Options, r: char)
    requires r != 'V' && r != 'h'
    ensures var o1 := Flag(o, r);
      && o1.list == (o.list || r == 'l') && o1.create == (o.create || r == 'c')
      && o1.extract == (o.extract || r == 'x') && o1.verbose == (o.verbose || r == 'v')
      && o1.waiters == o.waiters + SlotOf(r, |o.excludes|)
      && o1.excludes == o.excludes + Blanks(Count('e', [r]))
      && o1.name == o.name && o1.dir == o.dir && o1.files == o.files && o1.filled == o.filled
  {
    assert Count('e', [r]) == (if r == 'e' then 1 else 0) by {
      assert [r][1..] == [];
    }
    assert Blanks(0) == [] && Blanks(1) == [""];
  }

  /** The first rune of a group, when it is not V or h, is handled and the rest follow. */
  lemma RunesStep(o: Options, rs: string)
    requires rs != [] && rs[0] != 'V' && rs[0] != 'h'
    ensures Runes(o, rs) == Runes(Flag(o, rs[0]), rs[1..])
  {
  }

  lemma CountSplit(c: char, rs: string)
    requires rs != []
    ensures Count(c, rs) == Count(c, rs[..1]) + Count(c, rs[1..])
  {
    assert rs[..1][1..] == [];
  }

  lemma {:induction false} BlanksAdd(a: nat, b: nat)
    ensures Blanks(a) + Blanks(b) == Blanks(a + b)
  {
    if a > 0 {
      BlanksAdd(a - 1, b);
    }
  }

  /** A group of flag runes without V or h changes the modes it names and nothing else. */
  lemma {:induction false} FlagGroupModes(o: Options, rs: string)
    requires 'V' !in rs && 'h' !in rs
    ensures var r := Runes(o, rs);
      && r.1 == None
      && r.0.list == (o.list || 'l' in rs) && r.0.create == (o.create || 'c' in rs)
      && r.0.extract == (o.extract || 'x' in rs) && r.0.verbose == (o.verbose || 'v' in rs)
      && r.0.name == o.name && r.0.dir == o.dir && r.0.files == o.files && r.0.filled == o.filled
    decreases |rs|
  {
    if rs != [] {
      assert rs == [rs[0]] + rs[1..];
      RunesStep(o, rs);
      FlagStep(o, rs[0]);
      FlagGroupModes(Flag(o, rs[0]), rs[1..]);
    }
  }

  /** The options `r` hold the slots `rs` queues after those of `o`, and one more empty
      exclude pattern for each e in `rs`. */
  predicate SlotsQueued(o: Options, rs: string, r: Options)
  {
    && r.waiters == o.waiters + SlotsFor(rs, |o.excludes|)
    && r.excludes == o.excludes + Blanks(Count('e', rs))
  }

  /** The first rune of a group, taking the options from `o` to `o1`, then the rest. */
  lemma SlotsQueuedStep(o: Options, o1: Options, rs: string, r: Options)
    requires rs != []
    requires o1.waiters == o.waiters + SlotOf(rs[0], |o.excludes|)
    requires o1.excludes == o.excludes + Blanks(Count('e', [rs[0]]))
    requires SlotsQueued(o1, rs[1..], r)
    ensures SlotsQueued(o, rs, r)
  {
    var n := |o.excludes|;
    assert [rs[0]] == rs[..1];
    var c0, c1 := Count('e', rs[..1]), Count('e', rs[1..]);
    assert |o1.excludes| == n + c0 by {
      assert |Blanks(c0)| == c0 by {
        assert c0 == 0 || c0 == 1;
        assert Blanks(0) == [] && Blanks(1) == [""];
      }
    }
    assert r.waiters == o.waiters + SlotsFor(rs, n) by {
      assert SlotsFor(rs, n) == SlotOf(rs[0], n) + SlotsFor(rs[1..], n + c0);
      SeqAssoc(o.waiters, SlotOf(rs[0], n), SlotsFor(rs[1..], n + c0));
    }
    assert r.excludes == o.excludes + Blanks(Count('e', rs)) by {
      CountSplit('e', rs);
      BlanksAdd(c0, c1);
      SeqAssoc(o.excludes, Blanks(c0), Blanks(c1));
    }
  }

  lemma {:induction false} RunesQueue(o: Options, rs: string)
    requires 'V' !in rs && 'h' !in rs
    ensures SlotsQueued(o, rs, Runes(o, rs).0)
    decreases |rs|
  {
    if rs != [] {
      assert rs[0] in rs;
      assert forall c :: c in rs[1..] ==> c in rs;
      var o1 := Flag(o, rs[0]);
      RunesStep(o, rs);
      FlagStep(o, rs[0]);
      RunesQueue(o1, rs[1..]);
      SlotsQueuedStep(o, o1, rs, Runes(o1, rs[1..]).0);
    } else {
      assert o.waiters + [] == o.waiters && o.excludes + [] == o.excludes;
    }
  }

  /** A group of flag runes without V or h queues the slots its f, d and e runes stand for,
      in the order written, and adds one empty exclude pattern for each e. */
  lemma FlagGroupSlots(o: Options, rs: string)
    requires 'V' !in rs && 'h' !in rs
    ensures var r := Runes(o, rs);
      && r.0.waiters == o.waiters + SlotsFor(rs, |o.excludes|)
      && r.0.excludes == o.excludes + Blanks(Count('e', rs))
  {
    RunesQueue(o, rs);
  }

  lemma SeqAssoc<T>(a: seq<T>, b: seq<T>, c: seq<T>)
    ensures (a + b) + c == a + (b + c)
  {
  }

  /** The slots still waiting, oldest first. */
  function Queue(o: Options): seq<Slot>
    requires o.filled <= |o.waiters|
  {
    o.waiters[o.filled..]
  }

  /** A single rune, as a named argument gives it. */
  lemma RunesOfOne(o: Options, c: char)
    ensures Runes(o, [c]) == if c == 'V' then (o, Some(ShowVersion))
      else if c == 'h' then (o, Some(ShowHelp))
      else (Flag(o, c), None)
  {
    assert [c][1..] == [];
  }

  /** Positional arguments handled one after another. */
  function Fills(o: Options, values: seq<string>): Options
    decreases |values|
  {
    if values == [] then o else Fills(Positional(o, values[0]), values[1..])
  }

  lemma ArgumentPlain(o: Options, arg: string)
    requires Plain(arg)
    ensures Argument(o, arg) == (Positional(o, arg), None)
  {
    assert Named(arg).None?;
  }

  /** Arguments that are all positional never end the loop early, and are handled one
      after another as positional arguments. */
  lemma {:induction false} ScanPlain(o: Options, values: seq<string>)
    requires forall k :: 0 <= k < |values| ==> Plain(values[k])
    ensures Scan(o, values) == (Fills(o, values), None)
    decreases |values|
  {
    if values != [] {
      ArgumentPlain(o, values[0]);
      ScanPlain(Positional(o, values[0]), values[1..]);
    }
  }

  lemma PositionalKeeps(o: Options, arg: string)
    requires WellFormed(o)
    ensures WellFormed(Positional(o, arg))
  {
  }

  /** A positional argument that fills a slot: only the slot's target and the count of
      filled slots change. */
  lemma PositionalFills(o: Options, arg: string)
    requires o.filled < |o.waiters|
    ensures var o1 := Positional(o, arg);
      && o1.waiters == o.waiters && o1.filled == o.filled + 1 && o1.files == o.files
      && |o1.excludes| == |o.excludes| && o1.list == o.list && o1.create == o.create
      && o1.extract == o.extract && o1.verbose == o.verbose
  {
  }

  /** A positional argument that fills a slot stores itself where the slot points. */
  lemma PositionalTarget(o: Options, arg: string)
    requires o.filled < |o.waiters|
    ensures var s := o.waiters[o.filled];
      var o1 := Positional(o, arg);
      && o1.name == (if s == NameSlot then arg else o.name)
      && o1.dir == (if s == DirSlot then arg else o.dir)
      && o1.excludes == (if s.ExcludeSlot? && s.index < |o.excludes| then o.excludes[s.index := arg] else o.excludes)
  {
  }

  /** With no slot waiting, every positional argument becomes a file pattern. */
  lemma {:induction false} FillsFiles(o: Options, values: seq<string>)
    requires o.filled == |o.waiters|
    ensures Fills(o, values) == o.(files := o.files + values)
    decreases |values|
  {
    if values != [] {
      var o1 := o.(files := o.files + [values[0]]);
      assert Positional(o, values[0]) == o1;
      FillsFiles(o1, values[1..]);
      SeqAssoc(o.files, [values[0]], values[1..]);
      assert [values[0]] + values[1..] == values;
    }
  }

  /** After positional `values` turn the options `o` into `r`: the first `n` of them filled
      the waiting slots and the rest became file patterns; nothing else changed but what the
      slots point at. */
  predicate Shaped(o: Options, values: seq<string>, r: Options)
    requires o.filled <= |o.waiters|
  {
    var n := Min(|Queue(o)|, |values|);
    && r.waiters == o.waiters && r.filled == o.filled + n
    && r.files == o.files + values[n..]
    && |r.excludes| == |o.excludes|
    && r.list == o.list && r.create == o.create && r.extract == o.extract && r.verbose == o.verbose
  }

  /** A positional argument that fills the first waiting slot, taking the options from `o`
      to `o1`, then the rest. */
  lemma ShapedStep(o: Options, o1: Options, values: seq<string>, r: Options)
    requires values != [] && o.filled < |o.waiters|
    requires o1.waiters == o.waiters && o1.filled == o.filled + 1 && o1.files == o.files
    requires |o1.excludes| == |o.excludes| && o1.list == o.list && o1.create == o.create
    requires o1.extract == o.extract && o1.verbose == o.verbose
    requires Shaped(o1, values[1..], r)
    ensures Shaped(o, values, r)
  {
    var n1 := Min(|Queue(o1)|, |values| - 1);
    assert Min(|Queue(o)|, |values|) == n1 + 1;
    assert values[1..][n1..] == values[n1 + 1..];
  }

  lemma {:induction false} FillsShaped(o: Options, values: seq<string>)
    requires o.filled <= |o.waiters|
    ensures Shaped(o, values, Fills(o, values))
    decreases |values|
  {
    if o.filled == |o.waiters| {
      FillsFiles(o, values);
      assert values[0..] == values;
    } else if values == [] {
      assert o.files + values[0..] == o.files;
    } else {
      var o1 := Positional(o, values[0]);
      var r := Fills(o1, values[1..]);
      assert Fills(o, values) == r;
      PositionalFills(o, values[0]);
      FillsShaped(o1, values[1..]);
      ShapedStep(o, o1, values, r);
    }
  }

  /** Positional arguments fill the waiting slots, first queued first filled, and those left
      over become file patterns, in order; nothing else changes but what the slots point at. */
  lemma FillShape(o: Options, values: seq<string>)
    requires o.filled <= |o.waiters|
    ensures var r := Fills(o, values);
      var n := Min(|Queue(o)|, |values|);
      && r.waiters == o.waiters && r.filled == o.filled + n
      && r.files == o.files + values[n..]
      && |r.excludes| == |o.excludes|
      && r.list == o.list && r.create == o.create && r.extract == o.extract && r.verbose == o.verbose
  {
    FillsShaped(o, values);
  }

  /** An exclude slot waiting first names an entry no slot behind it names. */
  lemma FilledOnce(o: Options)
    requires WellFormed(o) && o.filled < |o.waiters| && o.waiters[o.filled].ExcludeSlot?
    ensures ExcludeSlot(o.waiters[o.filled].index) !in Queue(o)[1..]
  {
    var i := o.waiters[o.filled].index;
    var rest := Queue(o)[1..];
    forall k | 0 <= k < |rest| && rest[k].ExcludeSlot?
      ensures i < rest[k].index
    {
      assert rest[k] == o.waiters[o.filled + 1 + k];
      ExcludesIncrease(o.waiters, |o.excludes|, o.filled, o.filled + 1 + k);
    }
  }

  /** Filling the slots `q` with `values` took the exclude entries from `before` to `after`:
      each exclude slot filled holds the value meant for it, and the entries no filled slot
      points at are as they were. */
  predicate ExcludesSet(q: seq<Slot>, values: seq<string>, before: seq<string>, after: seq<string>)
    requires |q| <= |values|
  {
    && |after| == |before|
    && (forall k :: 0 <= k < |q| && q[k].ExcludeSlot? ==>
          q[k].index < |after| && after[q[k].index] == values[k])
    && (forall j :: 0 <= j < |before| && ExcludeSlot(j) !in q ==> after[j] == before[j])
  }

  /** Filling the first slot, then the rest. */
  lemma ExcludesSetStep(q: seq<Slot>, values: seq<string>, before: seq<string>, mid: seq<string>, after: seq<string>)
    requires 0 < |q| <= |values|
    requires mid == if q[0].ExcludeSlot? && q[0].index < |before| then before[q[0].index := values[0]] else before
    requires q[0].ExcludeSlot? ==> q[0].index < |before| && ExcludeSlot(q[0].index) !in q[1..]
    requires ExcludesSet(q[1..], values[1..], mid, after)
    ensures ExcludesSet(q, values, before, after)
  {
    forall k | 0 <= k < |q| && q[k].ExcludeSlot?
      ensures q[k].index < |after| && after[q[k].index] == values[k]
    {
      if k > 0 {
        assert q[1..][k - 1] == q[k];
      } else {
        assert q[0] !in q[1..];
      }
    }
    forall j | 0 <= j < |before| && ExcludeSlot(j) !in q
      ensures after[j] == before[j]
    {
      assert q[0] != ExcludeSlot(j);
      assert ExcludeSlot(j) !in q[1..] by {
        forall k | 0 <= k < |q| - 1 ensures q[1..][k] != ExcludeSlot(j) { assert q[1..][k] == q[k + 1]; }
      }
    }
  }

  /** After positional `values` turn the options `o` into `r`: the exclude entries are filled
      as ExcludesSet says. */
  predicate ExcludesFilled(o: Options, values: seq<string>, r: Options)
    requires o.filled <= |o.waiters|
  {
    ExcludesSet(Queue(o)[..Min(|Queue(o)|, |values|)], values, o.excludes, r.excludes)
  }

  /** A positional argument that fills the first waiting slot, taking the options from `o`
      to `o1`, then the rest. */
  lemma ExcludesFilledStep(o: Options, o1: Options, values: seq<string>, r: Options)
    requires WellFormed(o) && values != [] && o.filled < |o.waiters|
    requires o1.waiters == o.waiters && o1.filled == o.filled + 1
    requires var s := o.waiters[o.filled];
      o1.excludes == if s.ExcludeSlot? && s.index < |o.excludes| then o.excludes[s.index := values[0]] else o.excludes
    requires ExcludesFilled(o1, values[1..], r)
    ensures ExcludesFilled(o, values, r)
  {
    var q := Queue(o)[..Min(|Queue(o)|, |values|)];
    assert 0 < |q| && Queue(o1)[..Min(|Queue(o1)|, |values| - 1)] == q[1..] && q[0] == o.waiters[o.filled];
    assert q[0].ExcludeSlot? ==> q[0].index < |o.excludes| && ExcludeSlot(q[0].index) !in q[1..] by {
      if q[0].ExcludeSlot? {
        NextSlotFits(o);
        FilledOnce(o);
        assert q[1..] <= Queue(o)[1..];
      }
    }
    ExcludesSetStep(q, values, o.excludes, o1.excludes, r.excludes);
  }

  lemma {:induction false} FillsExcludes(o: Options, values: seq<string>)
    requires WellFormed(o)
    ensures ExcludesFilled(o, values, Fills(o, values))
    decreases |values|
  {
    if values != [] {
      var o1 := Positional(o, values[0]);
      var r := Fills(o1, values[1..]);
      assert Fills(o, values) == r;
      PositionalKeeps(o, values[0]);
      FillsExcludes(o1, values[1..]);
      if o.filled < |o.waiters| {
        PositionalFills(o, values[0]);
        PositionalTarget(o, values[0]);
        ExcludesFilledStep(o, o1, values, r);
      } else {
        assert o1 == o.(files := o.files + [values[0]]);
      }
    }
  }

  /** Each exclude slot filled receives the value meant for it, and an exclude entry no filled
      slot points at keeps its value. */
  lemma FillExcludes(o: Options, values: seq<string>)
    requires WellFormed(o)
    ensures var r := Fills(o, values);
      var q := Queue(o)[..Min(|Queue(o)|, |values|)];
      && |r.excludes| == |o.excludes|
      && (forall k :: 0 <= k < |q| && q[k].ExcludeSlot? ==>
            q[k].index < |r.excludes| && r.excludes[q[k].index] == values[k])
      && (forall j :: 0 <= j < |o.excludes| && ExcludeSlot(j) !in q ==> r.excludes[j] == o.excludes[j])
  {
    FillsExcludes(o, values);
  }

  /** Filling the slots `q` with `values` took the archive name from `before` to `after`:
      it is the value of the last name slot filled, or as it was when none is. */
  predicate NameSet(q: seq<Slot>, values: seq<string>, before: string, after: string)
    requires |q| <= |values|
  {
    && (NameSlot !in q ==> after == before)
    && (forall k :: 0 <= k < |q| && q[k] == NameSlot && NameSlot !in q[k + 1..] ==> after == values[k])
  }

  /** Filling the first slot, then the rest. */
  lemma NameSetStep(q: seq<Slot>, values: seq<string>, before: string, mid: string, after: string)
    requires 0 < |q| <= |values|
    requires mid == if q[0] == NameSlot then values[0] else before
    requires NameSet(q[1..], values[1..], mid, after)
    ensures NameSet(q, values, before, after)
  {
    var q1 := q[1..];
    assert q == [q[0]] + q1;
    forall k | 0 <= k < |q| && q[k] == NameSlot && NameSlot !in q[k + 1..]
      ensures after == values[k]
    {
      if k > 0 {
        assert q1[k - 1] == q[k] && q1[k..] == q[k + 1..];
      }
    }
  }

  /** After positional `values` turn the options `o` into `r`: the archive name is set as
      NameSet says. */
  predicate NameFilled(o: Options, values: seq<string>, r: Options)
    requires o.filled <= |o.waiters|
  {
    NameSet(Queue(o)[..Min(|Queue(o)|, |values|)], values, o.name, r.name)
  }

  /** A positional argument that fills the first waiting slot, taking the options from `o`
      to `o1`, then the rest. */
  lemma NameFilledStep(o: Options, o1: Options, values: seq<string>, r: Options)
    requires values != [] && o.filled < |o.waiters|
    requires o1.waiters == o.waiters && o1.filled == o.filled + 1
    requires o1.name == if o.waiters[o.filled] == NameSlot then values[0] else o.name
    requires NameFilled(o1, values[1..], r)
    ensures NameFilled(o, values, r)
  {
    var q := Queue(o)[..Min(|Queue(o)|, |values|)];
    assert 0 < |q| && Queue(o1)[..Min(|Queue(o1)|, |values| - 1)] == q[1..] && q[0] == o.waiters[o.filled];
    NameSetStep(q, values, o.name, o1.name, r.name);
  }

  lemma {:induction false} FillsName(o: Options, values: seq<string>)
    requires o.filled <= |o.waiters|
    ensures NameFilled(o, values, Fills(o, values))
    decreases |values|
  {
    if values != [] {
      var o1 := Positional(o, values[0]);
      var r := Fills(o1, values[1..]);
      assert Fills(o, values) == r;
      if o.filled < |o.waiters| {
        PositionalFills(o, values[0]);
        PositionalTarget(o, values[0]);
        FillsName(o1, values[1..]);
        NameFilledStep(o, o1, values, r);
      } else {
        assert o1 == o.(files := o.files + [values[0]]);
        FillsName(o1, values[1..]);
      }
    }
  }

  /** The archive name is the value of the last name slot filled, and is kept when no name
      slot is filled. */
  lemma FillName(o: Options, values: seq<string>)
    requires o.filled <= |o.waiters|
    ensures var r := Fills(o, values);
      var q := Queue(o)[..Min(|Queue(o)|, |values|)];
      && (NameSlot !in q ==> r.name == o.name)
      && (forall k :: 0 <= k < |q| && q[k] == NameSlot && NameSlot !in q[k + 1..] ==> r.name == values[k])
  {
    FillsName(o, values);
  }

  /** A run of steps, each argument taking the options from one state to the next. */
  lemma {:induction false} ScanSteps(os: seq<Options>, args: seq<string>)
    requires |os| == |args| + 1
    requires forall k :: 0 <= k < |args| ==> Argument(os[k], args[k]) == (os[k + 1], None)
    ensures Scan(os[0], args) == (os[|args|], None)
    decreases |args|
  {
    if args != [] {
      ScanSteps(os[1..], args[1..]);
    }
  }

  /** The options after each argument of `rpk -c -e -e -e a b c`. */
  function IntendedStates(wd: string): seq<Options>
  {
    var o0 := Start(wd);
    var o1 := o0.(create := true);
    var o2 := o1.(excludes := [""], waiters := [ExcludeSlot(0)]);
    var o3 := o2.(excludes := ["", ""], waiters := [ExcludeSlot(0), ExcludeSlot(1)]);
    var o4 := o3.(excludes := ["", "", ""], waiters := [ExcludeSlot(0), ExcludeSlot(1), ExcludeSlot(2)]);
    var o5 := o4.(excludes := ["a", "", ""], filled := 1);
    var o6 := o5.(excludes := ["a", "b", ""], filled := 2);
    var o7 := o6.(excludes := ["a", "b", "c"], filled := 3);
    [o0, o1, o2, o3, o4, o5, o6, o7]
  }

  lemma IntendedStatesQueue(wd: string)
    ensures var os := IntendedStates(wd);
      && Argument(os[0], "-c") == (os[1], None)
      && Argument(os[1], "-e") == (os[2], None)
      && Argument(os[2], "-e") == (os[3], None)
      && Argument(os[3], "-e") == (os[4], None)
  {
    var os := IntendedStates(wd);
    NamedC();
    NamedE();
    RunesOfOne(os[0], 'c');
    RunesOfOne(os[1], 'e');
    RunesOfOne(os[2], 'e');
    RunesOfOne(os[3], 'e');
    assert [] + [""] == [""] && [""] + [""] == ["", ""] && ["", ""] + [""] == ["", "", ""];
    assert Flag(os[1], 'e') == os[2];
    assert [ExcludeSlot(0)] + [ExcludeSlot(1)] == [ExcludeSlot(0), ExcludeSlot(1)];
    assert Flag(os[2], 'e') == os[3];
    assert [ExcludeSlot(0), ExcludeSlot(1)] + [ExcludeSlot(2)] == [ExcludeSlot(0), ExcludeSlot(1), ExcludeSlot(2)];
    assert Flag(os[3], 'e') == os[4];
  }

  lemma IntendedStatesFill(wd: string)
    ensures var os := IntendedStates(wd);
      && Argument(os[4], "a") == (os[5], None)
      && Argument(os[5], "b") == (os[6], None)
      && Argument(os[6], "c") == (os[7], None)
  {
    var os := IntendedStates(wd);
    assert Named("a").None? && Named("b").None? && Named("c").None?;
    assert os[4].excludes[0 := "a"] == ["a", "", ""];
    assert os[5].excludes[1 := "b"] == ["a", "b", ""];
    assert os[6].excludes[2 := "c"] == ["a", "b", "c"];
  }

  /** `rpk -c -e -e -e a b c` packs `*` excluding "a", "b" and "c": each exclude pattern
      queued receives its value, although all three are queued before any is given. */
  lemma IntendedExcludes(wd: string)
    ensures Invoke(["-c", "-e", "-e", "-e", "a", "b", "c"], wd) == Chosen(Pack("", wd, ["*"], ["a", "b", "c"], false))
  {
    IntendedStatesQueue(wd);
    IntendedStatesFill(wd);
    ScanSteps(IntendedStates(wd), ["-c", "-e", "-e", "-e", "a", "b", "c"]);
  }

  /** The options after each argument of `rpk -cvf out.rpk -e *.tmp src`. */
  function PackStates(wd: string): seq<Options>
  {
    var o0 := Start(wd);
    var o1 := o0.(create := true, verbose := true, waiters := [NameSlot]);
    var o2 := o1.(name := "out.rpk", filled := 1);
    var o3 := o2.(excludes := [""], waiters := [NameSlot, ExcludeSlot(0)]);
    var o4 := o3.(excludes := ["*.tmp"], filled := 2);
    var o5 := o4.(files := ["src"]);
    [o0, o1, o2, o3, o4, o5]
  }

  lemma PackStatesGroup(wd: string)
    ensures var os := PackStates(wd);
      Argument(os[0], "-cvf") == (os[1], None)
  {
    var os := PackStates(wd);
    assert Argument(os[0], "-cvf") == Runes(os[0], "cvf") by {
      NamedShape("-cvf");
      assert "-cvf"[1..] == "cvf";
    }
    GroupCvf(os[0]);
    assert os[0].waiters + [NameSlot] == [NameSlot];
  }

  /** The group `cvf`: create mode, verbose, and a name slot queued. */
  lemma GroupCvf(o: Options)
    ensures Runes(o, "cvf") == (o.(create := true, verbose := true, waiters := o.waiters + [NameSlot]), None)
  {
    var c := Flag(o, 'c');
    var v := Flag(c, 'v');
    assert Runes(o, "cvf") == Runes(c, "vf") by {
      RunesStep(o, "cvf");
      assert "cvf"[1..] == "vf";
    }
    assert Runes(c, "vf") == Runes(v, "f") by {
      RunesStep(c, "vf");
      assert "vf"[1..] == "f";
    }
    assert Runes(v, "f") == (Flag(v, 'f'), None) by {
      assert "f" == ['f'];
      RunesOfOne(v, 'f');
    }
  }

  lemma PackStatesExclude(wd: string)
    ensures var os := PackStates(wd);
      Argument(os[2], "-e") == (os[3], None)
  {
    var os := PackStates(wd);
    NamedE();
    RunesOfOne(os[2], 'e');
    assert [NameSlot] + [ExcludeSlot(0)] == [NameSlot, ExcludeSlot(0)];
    assert Flag(os[2], 'e') == os[3];
  }

  lemma PackStatesName(wd: string)
    ensures var os := PackStates(wd);
      Argument(os[1], "out.rpk") == (os[2], None)
  {
    assert "out.rpk"[0] == 'o';
  }

  lemma PackStatesPattern(wd: string)
    ensures var os := PackStates(wd);
      Argument(os[3], "*.tmp") == (os[4], None)
  {
    var os := PackStates(wd);
    assert "*.tmp"[0] == '*';
    assert os[3].excludes[0 := "*.tmp"] == ["*.tmp"];
  }

  lemma PackStatesFile(wd: string)
    ensures var os := PackStates(wd);
      Argument(os[4], "src") == (os[5], None)
  {
    assert "src"[0] == 's';
    assert [] + ["src"] == ["src"];
  }

  /** A flag group, its name slot's value, an exclude pattern and a file pattern:
      `rpk -cvf out.rpk -e *.tmp src` packs `src` into out.rpk, verbosely, in the working
      directory, excluding `*.tmp`. */
  lemma PackExample(wd: string)
    ensures Invoke(["-cvf", "out.rpk", "-e", "*.tmp", "src"], wd)
      == Chosen(Pack("out.rpk", wd, ["src"], ["*.tmp"], true))
  {
    PackStatesGroup(wd);
    PackStatesExclude(wd);
    PackStatesName(wd);
    PackStatesPattern(wd);
    PackStatesFile(wd);
    ScanSteps(PackStates(wd), ["-cvf", "out.rpk", "-e", "*.tmp", "src"]);
  }

  /** The variables of `main` the argument loop updates. */
  class Arguments {
    var list: bool
    var create: bool
    var extract: bool
    var verbose: bool
    var name: string
    var dir: string
    var excludes: seq<string>
    var files: seq<string>
    var waiters: seq<Slot>
    var filled: nat

    constructor (wd: string)
      ensures Current() == Start(wd)
    {
      list, create, extract, verbose := false, false, false, false;
      name, dir := "", wd;
      excludes, files := [], [];
      waiters, filled := [], 0;
    }

    function Current(): Options
      reads this
    {
      Options(list, create, extract, verbose, name, dir, excludes, files, waiters, filled)
    }

    /** handleArg: reports whether it knows the rune; -V and -h end the process. */
    method HandleArg(r: char) returns (handled: bool, exit: Option<Exit>)
      modifies this
      ensures handled <==> r in HANDLED
      ensures exit == (if r == 'V' then Some(ShowVersion) else if r == 'h' then Some(ShowHelp) else None)
      ensures Current() == if exit.Some? then old(Current()) else Flag(old(Current()), r)
    {
      handled, exit := true, None;
      match r {
        case 'l' => list := true;
        case 'c' => create := true;
        case 'x' => extract := true;
        case 'f' => waiters := waiters + [NameSlot];
        case 'd' => waiters := waiters + [DirSlot];
        case 'e' =>
          var l := |excludes|;
          excludes := excludes + [""];
          waiters := waiters + [ExcludeSlot(l)];
        case 'v' => verbose := true;
        case 'V' => exit := Some(ShowVersion);
        case 'h' => exit := Some(ShowHelp);
        case _ => handled := false;
      }
    }

    /** One pass of the loop: the switch on one argument. */
    method HandleArgument(arg: string) returns (exit: Option<Exit>)
      requires WellFormed(Current())
      modifies this
      ensures (Current(), exit) == Argument(old(Current()), arg)
    {
      var named := Named(arg);
      if named.Some? {
        var handled;
        handled, exit := HandleArg(named.value);
        RunesOfOne(old(Current()), named.value);
      } else if |arg| == 0 {
        exit := Some(EmptyArgument);
      } else if arg[0] == '-' {
        ghost var before := Current();
        var j := 1;
        while j < |arg|
          invariant 1 <= j <= |arg|
          invariant Runes(before, arg[1..]) == Runes(Current(), arg[j..])
        {
          assert arg[j..][1..] == arg[j + 1..];
          var handled, e := HandleArg(arg[j]);
          if e.Some? {
            assert (Current(), e) == Argument(old(Current()), arg);
            return e;
          }
          j := j + 1;
        }
        exit := None;
        assert (Current(), exit) == Argument(old(Current()), arg);
      } else {
        if filled < |waiters| {
          NextSlotFits(Current());
          match waiters[filled] {
            case NameSlot => name := arg;
            case DirSlot => dir := arg;
            case ExcludeSlot(k) => excludes := excludes[k := arg];
          }
          filled := filled + 1;
        } else {
          files := files + [arg];
        }
        exit := None;
      }
    }

    /** The loop over the arguments: the variables end as Scan says, and an early exit is
        reported. */
    method Parse(args: seq<string>) returns (exit: Option<Exit>)
      requires WellFormed(Current())
      modifies this
      ensures (Current(), exit) == Scan(old(Current()), args)
    {
      var i := 0;
      while i < |args|
        invariant 0 <= i <= |args| && WellFormed(Current())
        invariant Scan(old(Current()), args) == Scan(Current(), args[i..])
      {
        assert args[i..][1..] == args[i + 1..];
        ArgumentKeeps(Current(), args[i]);
        exit := HandleArgument(args[i]);
        if exit.Some? {
          return;
        }
        i := i + 1;
      }
      return None;
    }
  }

  /** `main` up to the choice of command. */
  method Run(args: seq<string>, wd: string) returns (result: Invocation)
    ensures result == Invoke(args, wd)
  {
    if |args| < 1 {
      return Chosen(NoMode);
    }
    var a := new Arguments(wd);
    var exit := a.Parse(args);
    if exit.Some? {
      return Stopped(exit.value);
    }
    if a.filled < |a.waiters| {
      return Chosen(NotEnoughArguments);
    }
    if a.list {
      return Chosen(List(a.name, a.verbose));
    }
    if a.extract {
      return Chosen(Extract(a.name, a.dir, a.verbose));
    }
    if !a.create {
      return Chosen(NoMode);
    }
    var files := a.files;
    if |files| == 0 {
      files := files + ["*"];
    }
    return Chosen(Pack(a.name, a.dir, files, a.excludes, a.verbose));
  }
}
