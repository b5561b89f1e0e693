/** cmd/rpk/version.go: the program's version and how it is printed. */
module Version {
  import opened Decimal

  datatype VersionType = VersionType(major: int, minor: int, patch: int, prefix: string, suffix: string)

  const PRIVATE_DEV: string := "private-dev"

  /** The unset version, as a build without generated version data has it. */
  predicate IsUnset(v: VersionType)
  {
    v.major == 0 && v.minor == 0 && v.patch == 0 && |v.prefix| == 0 && |v.suffix| == 0
  }

  /** versionType.String: `private-dev` for the unset version, otherwise
      prefix, major.minor.patch in decimal, suffix. */
  function String(v: VersionType): (s: string)
    ensures IsUnset(v) ==> s == PRIVATE_DEV
    ensures !IsUnset(v) ==> |s| >= |v.prefix| + 5 + |v.suffix|
  {
    if IsUnset(v) then PRIVATE_DEV
    else v.prefix + Numbers(v) + v.suffix
  }

  /** The numbers part of a printed version, between the prefix and the suffix. */
  function Numbers(v: VersionType): string
  {
    Format(v.major) + "." + Format(v.minor) + "." + Format(v.patch)
  }

  lemma DigitsHaveNoDot(n: nat)
    ensures '.' !in Digits(n)
  {
    var s := Digits(n);
    assert forall i :: 0 <= i < |s| ==> s[i] != '.';
  }

  lemma FormatHasNoDot(i: int)
    ensures '.' !in Format(i)
  {
    if i < 0 {
      DigitsHaveNoDot(-i);
    } else {
      DigitsHaveNoDot(i);
    }
  }

  /** A set version prints as its prefix, the three numbers joined by dots, its suffix;
      the dots sit right after the major and the minor numbers. */
  lemma SetVersionLayout(v: VersionType)
    requires !IsUnset(v)
    ensures String(v) == v.prefix + Numbers(v) + v.suffix
    ensures String(v)[|v.prefix| + |Format(v.major)|] == '.'
    ensures String(v)[|v.prefix| + |Format(v.major)| + 1 + |Format(v.minor)|] == '.'
  {
    var n := Numbers(v);
    var a, b := |Format(v.major)|, |Format(v.minor)|;
    assert n == Format(v.major) + ("." + (Format(v.minor) + ("." + Format(v.patch))));
    assert n[a] == '.';
    assert n[a + 1 + b] == '.';
    var s := String(v);
    assert s[|v.prefix| + a] == n[a];
    assert s[|v.prefix| + a + 1 + b] == n[a + 1 + b];
  }

  /** The output is `private-dev` exactly when the version is unset: a set version always
      prints the dot after its major number, and `private-dev` has none. */
  lemma {:induction false} PrivateDevIff(v: VersionType)
    ensures String(v) == PRIVATE_DEV <==> IsUnset(v)
  {
    if !IsUnset(v) {
      SetVersionLayout(v);
      var k := |v.prefix| + |Format(v.major)|;
      assert forall j :: 0 <= j < |PRIVATE_DEV| ==> PRIVATE_DEV[j] != '.';
      assert String(v)[k] == '.';
    }
  }

  /** A set version's output begins with its prefix and ends with its suffix. */
  lemma {:induction false} PrefixAndSuffix(v: VersionType)
    requires !IsUnset(v)
    ensures String(v)[..|v.prefix|] == v.prefix
    ensures String(v)[|String(v)| - |v.suffix|..] == v.suffix
  {
    SetVersionLayout(v);
    var s := String(v);
    assert s == v.prefix + (Numbers(v) + v.suffix);
  }

  /** How many dots `s` holds. */
  function CountDots(s: string): nat
  {
    if s == [] then 0 else (if s[0] == '.' then 1 else 0) + CountDots(s[1..])
  }

  lemma {:induction false} CountDotsAppend(a: string, b: string)
    ensures CountDots(a + b) == CountDots(a) + CountDots(b)
    decreases |a|
  {
    if a == [] {
      assert a + b == b;
    } else {
      assert (a + b)[1..] == a[1..] + b;
      CountDotsAppend(a[1..], b);
    }
  }

  lemma {:induction false} NoDotCountsZero(s: string)
    requires '.' !in s
    ensures CountDots(s) == 0
    decreases |s|
  {
    if s != [] {
      assert forall i :: 0 <= i < |s[1..]| ==> s[1..][i] == s[i + 1];
      NoDotCountsZero(s[1..]);
    }
  }

  /** With a dot-free prefix and suffix the output holds exactly the two dots that separate
      the numbers. */
  lemma TwoDots(v: VersionType)
    requires !IsUnset(v) && '.' !in v.prefix && '.' !in v.suffix
    ensures CountDots(String(v)) == 2
  {
    NumbersHoldTwoDots(v);
    NoDotCountsZero(v.prefix);
    NoDotCountsZero(v.suffix);
    CountDotsAppend(v.prefix, Numbers(v));
    CountDotsAppend(v.prefix + Numbers(v), v.suffix);
  }

  lemma NumbersHoldTwoDots(v: VersionType)
    ensures CountDots(Numbers(v)) == 2
  {
    var a, b, c := Format(v.major), Format(v.minor), Format(v.patch);
    FormatHasNoDot(v.major);
    FormatHasNoDot(v.minor);
    FormatHasNoDot(v.patch);
    NoDotCountsZero(a);
    NoDotCountsZero(b);
    NoDotCountsZero(c);
    assert CountDots(".") == 1;
    CountDotsAppend(a, ".");
    CountDotsAppend(a + ".", b);
    CountDotsAppend(a + "." + b, ".");
    CountDotsAppend(a + "." + b + ".", c);
  }
}
