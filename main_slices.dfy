/** The argument loop of cmd/rpk/main.go as written, down to Go's slices: `excludes` is a
    slice over a backing array of capacity 2, `append` writes in place while there is room and
    otherwise moves the entries to a new array of twice the capacity, and -e queues a pointer
    to the new entry's element of the array in use at that moment.  A pointer taken before
    the array was replaced still points into the old one, so a value stored through it after
    the move is lost.  CommandLine models what the loop evidently intends: each -e slot names
    its entry of `excludes`, wherever that entry lives. */
module ArgumentSlices {
  import opened Streams
  import opened CommandLine

  /** What an element of `waiters` points at: `name`, `wd`, or element `index` of the
      backing array number `array` (0 for the first one `make` allocated, then in order of
      allocation). */
  datatype Pointer = ToName | ToDir | ToElement(array: nat, index: nat)

  /** The variables of `main` the loop sets, with `excludes` as Go keeps it: the arrays
      replaced so far, the array in use and the slice's length. */
  datatype Vars = Vars(
    list: bool, create: bool, extract: bool, verbose: bool,
    name: string, dir: string,
    retired: seq<seq<string>>, current: seq<string>, length: nat,
    files: seq<string>, waiters: seq<Pointer>, filled: nat)

  /** `make([]string, 0, 2)` and the rest before the first argument. */
  function Begin(wd: string): Vars
  {
    Vars(false, false, false, false, "", wd, [], ["", ""], 0, [], [], 0)
  }

  /** The slice `excludes` as `main` passes it on: the first `length` elements of the array
      in use. */
  function Excludes(v: Vars): seq<string>
  {
    v.current[..Min(v.length, |v.current|)]
  }

  /** `l := len(excludes); excludes = append(excludes, ""); &excludes[l]`: in place while the
      array has room, otherwise into a new array of twice the capacity holding a copy of the
      entries. */
  function AppendBlank(v: Vars): (r: (Vars, Pointer))
    ensures Excludes(r.0) == Excludes(v) + [""] || v.length > |v.current|
  {
    if v.length < |v.current| then
      (v.(current := v.current[v.length := ""], length := v.length + 1), ToElement(|v.retired|, v.length))
    else if v.length == |v.current| then
      (v.(retired := v.retired + [v.current], current := v.current + Blanks(Max(|v.current|, 1)),
          length := v.length + 1),
       ToElement(|v.retired| + 1, v.length))
    else (v, ToName)
  }

  /** `*p = arg`.  (Every pointer the loop queues points inside its array, so the last
      branch, which stores nothing, is never taken.) */
  function Store(v: Vars, p: Pointer, arg: string): Vars
  {
    match p
    case ToName => v.(name := arg)
    case ToDir => v.(dir := arg)
    case ToElement(i, k) =>
      if i < |v.retired| && k < |v.retired[i]| then v.(retired := v.retired[i := v.retired[i][k := arg]])
      else if i == |v.retired| && k < |v.current| then v.(current := v.current[k := arg])
      else v
  }

  /** handleArg as written, for a rune that does not end the process. */
  function FlagAsWritten(v: Vars, r: char): Vars
  {
    if r == 'l' then v.(list := true)
    else if r == 'c' then v.(create := true)
    else if r == 'x' then v.(extract := true)
    else if r == 'f' then v.(waiters := v.waiters + [ToName])
    else if r == 'd' then v.(waiters := v.waiters + [ToDir])
    else if r == 'e' then
      var a := AppendBlank(v);
      a.0.(waiters := a.0.waiters + [a.1])
    else if r == 'v' then v.(verbose := true)
    else v
  }

  function PositionalAsWritten(v: Vars, arg: string): Vars
  {
    if v.filled < |v.waiters| then Store(v, v.waiters[v.filled], arg).(filled := v.filled + 1)
    else v.(files := v.files + [arg])
  }

  function RunesAsWritten(v: Vars, rs: string): (Vars, Option<Exit>)
    decreases |rs|
  {
    if rs == [] then (v, None)
    else if rs[0] == 'V' then (v, Some(ShowVersion))
    else if rs[0] == 'h' then (v, Some(ShowHelp))
    else RunesAsWritten(FlagAsWritten(v, rs[0]), rs[1..])
  }

  function ArgumentAsWritten(v: Vars, arg: string): (Vars, Option<Exit>)
  {
    if Named(arg).Some? then RunesAsWritten(v, [Named(arg).value])
    else if arg == [] then (v, Some(EmptyArgument))
    else if arg[0] == '-' then RunesAsWritten(v, arg[1..])
    else (PositionalAsWritten(v, arg), None)
  }

  /** The argument loop as written. */
  function ScanAsWritten(v: Vars, args: seq<string>): (Vars, Option<Exit>)
    decreases |args|
  {
    if args == [] then (v, None)
    else
      var a := ArgumentAsWritten(v, args[0]);
      if a.1.Some? then a else ScanAsWritten(a.0, args[1..])
  }

  /** A group of one rune other than V and h applies its flag. */
  lemma RunesAsWrittenOne(v: Vars, r: char)
    requires r != 'V' && r != 'h'
    ensures RunesAsWritten(v, [r]) == (FlagAsWritten(v, r), None)
  {
    assert [r][1..] == [];
  }

  lemma ScanAsWrittenStep(v: Vars, args: seq<string>)
    requires args != [] && ArgumentAsWritten(v, args[0]).1 == None
    ensures ScanAsWritten(v, args) == ScanAsWritten(ArgumentAsWritten(v, args[0]).0, args[1..])
  {
  }

  /** The variables after each argument of `rpk -c -e -e -e a b c`, as written. */
  function LostStates(wd: string): seq<Vars>
  {
    var v0 := Begin(wd);
    var v1 := v0.(create := true);
    var v2 := v1.(length := 1, waiters := [ToElement(0, 0)]);
    var v3 := v2.(length := 2, waiters := [ToElement(0, 0), ToElement(0, 1)]);
    var v4 := v3.(retired := [["", ""]], current := ["", "", "", ""], length := 3,
      waiters := [ToElement(0, 0), ToElement(0, 1), ToElement(1, 2)]);
    var v5 := v4.(retired := [["a", ""]], filled := 1);
    var v6 := v5.(retired := [["a", "b"]], filled := 2);
    var v7 := v6.(current := ["", "", "c", ""], filled := 3);
    [v0, v1, v2, v3, v4, v5, v6, v7]
  }

  /** -c sets the mode. */
  lemma LostFlagC(wd: string)
    ensures ArgumentAsWritten(LostStates(wd)[0], "-c") == (LostStates(wd)[1], None)
  {
    NamedC();
    RunesAsWrittenOne(LostStates(wd)[0], 'c');
  }

  /** The first -e appends in place. */
  lemma LostFirstE(wd: string)
    ensures ArgumentAsWritten(LostStates(wd)[1], "-e") == (LostStates(wd)[2], None)
  {
    var vs := LostStates(wd);
    NamedE();
    RunesAsWrittenOne(vs[1], 'e');
    assert FlagAsWritten(vs[1], 'e') == vs[2];
  }

  /** The second -e fills the array of capacity 2. */
  lemma LostSecondE(wd: string)
    ensures ArgumentAsWritten(LostStates(wd)[2], "-e") == (LostStates(wd)[3], None)
  {
    var vs := LostStates(wd);
    NamedE();
    RunesAsWrittenOne(vs[2], 'e');
    assert FlagAsWritten(vs[2], 'e') == vs[3];
  }

  /** The third -e moves the entries to a new array of capacity 4. */
  lemma LostThirdE(wd: string)
    ensures ArgumentAsWritten(LostStates(wd)[3], "-e") == (LostStates(wd)[4], None)
  {
    var vs := LostStates(wd);
    NamedE();
    RunesAsWrittenOne(vs[3], 'e');
    assert AppendBlank(vs[3]).0.current == ["", "", "", ""] by {
      assert Blanks(2) == ["", ""];
    }
    assert FlagAsWritten(vs[3], 'e') == vs[4];
  }

  /** The values: "a" and "b" go to the array that was replaced, "c" to the one in use. */
  lemma LostStatesFill(wd: string)
    ensures var vs := LostStates(wd);
      && ArgumentAsWritten(vs[4], "a") == (vs[5], None)
      && ArgumentAsWritten(vs[5], "b") == (vs[6], None)
      && ArgumentAsWritten(vs[6], "c") == (vs[7], None)
  {
    var vs := LostStates(wd);
    assert Named("a").None? && Named("b").None? && Named("c").None?;
    assert vs[4].retired[0][0 := "a"] == ["a", ""];
    assert vs[4].retired[0 := ["a", ""]] == [["a", ""]];
    assert vs[5].retired[0][1 := "b"] == ["a", "b"];
    assert vs[5].retired[0 := ["a", "b"]] == [["a", "b"]];
    assert vs[6].current[2 := "c"] == ["", "", "c", ""];
  }

  /** `rpk -c -e -e -e a b c`: three exclude patterns queued before their values.  The third
      -e outgrows the array of capacity 2, so the values for the first two are stored in the
      array `excludes` no longer uses and the archive is packed excluding "", "" and "c"
      (the intended loop, CommandLine.IntendedExcludes, excludes "a", "b" and "c"). */
  lemma LostExcludes(wd: string)
    ensures var r := ScanAsWritten(Begin(wd), ["-c", "-e", "-e", "-e", "a", "b", "c"]);
      r.1 == None && r.0.create && Excludes(r.0) == ["", "", "c"]
  {
    var args := ["-c", "-e", "-e", "-e", "a", "b", "c"];
    LostFlagC(wd);
    LostFirstE(wd);
    LostSecondE(wd);
    LostThirdE(wd);
    LostStatesFill(wd);
    ScanAsWrittenSteps(LostStates(wd), args);
    assert Excludes(LostStates(wd)[7]) == ["", "", "c"];
  }

  /** A run of steps, each argument taking the variables from one state to the next. */
  lemma {:induction false} ScanAsWrittenSteps(vs: seq<Vars>, args: seq<string>)
    requires |vs| == |args| + 1
    requires forall k :: 0 <= k < |args| ==> ArgumentAsWritten(vs[k], args[k]) == (vs[k + 1], None)
    ensures ScanAsWritten(vs[0], args) == (vs[|args|], None)
    decreases |args|
  {
    if args != [] {
      ScanAsWrittenSteps(vs[1..], args[1..]);
    }
  }
}
