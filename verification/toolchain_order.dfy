/** In which order the toolchain file looks for an NDK or a standalone toolchain (cmake/android.toolchain.cmake:83-89,
    202-214, 366-436). */
module ToolchainOrder {
  import opened ToolchainLists
  import opened ToolchainSearch

  const NDK := "ANDROID_NDK"
  const STANDALONE := "ANDROID_STANDALONE_TOOLCHAIN"
  const ROOT := "ANDROID_NDK_TOOLCHAIN_ROOT"
  const DEFAULT := "ANDROID_STANDALONE_TOOLCHAIN_SEARCH_PATH"

  // ---------------------------------------------------------------------------------------------------------
  // The default places of an NDK, lines 373 to 378

  function Suffixed(dir: string, suffixes: seq<string>): seq<string> {
    if suffixes == [] then []
    else if suffixes[|suffixes| - 1] == "" then Suffixed(dir, suffixes[..|suffixes| - 1])
    else Suffixed(dir, suffixes[..|suffixes| - 1]) + [dir + suffixes[|suffixes| - 1]]
  }

  /** Every directory with every suffix. An unquoted list loses its empty elements before foreach sees them. */
  function SearchPaths(dirs: seq<string>, suffixes: seq<string>): seq<string> {
    if dirs == [] then []
    else if dirs[|dirs| - 1] == "" then SearchPaths(dirs[..|dirs| - 1], suffixes)
    else SearchPaths(dirs[..|dirs| - 1], suffixes) + Suffixed(dirs[|dirs| - 1], suffixes)
  }

  /** What foreach sees of an unquoted list. */
  function NonEmpty(items: seq<string>): seq<string> {
    if items == [] then []
    else if items[|items| - 1] == "" then NonEmpty(items[..|items| - 1])
    else NonEmpty(items[..|items| - 1]) + [items[|items| - 1]]
  }

  lemma {:induction false} SuffixedAt(dir: string, suffixes: seq<string>)
    ensures var some := NonEmpty(suffixes);
            |Suffixed(dir, suffixes)| == |some|
            && forall j :: 0 <= j < |some| ==> Suffixed(dir, suffixes)[j] == dir + some[j]
  {
    if suffixes != [] { SuffixedAt(dir, suffixes[..|suffixes| - 1]); }
  }

  lemma NextRow(n: nat, width: nat)
    ensures (n + 1) * width == n * width + width
  {}

  lemma {:induction false} SearchLength(dirs: seq<string>, suffixes: seq<string>)
    ensures |SearchPaths(dirs, suffixes)| == |NonEmpty(dirs)| * |NonEmpty(suffixes)|
  {
    if dirs != [] {
      SearchLength(dirs[..|dirs| - 1], suffixes);
      SuffixedAt(dirs[|dirs| - 1], suffixes);
      NextRow(|NonEmpty(dirs[..|dirs| - 1])|, |NonEmpty(suffixes)|);
    }
  }

  lemma InRow(i: nat, n: nat, width: nat, j: nat)
    requires j < width
    ensures i < n ==> 0 <= i * width + j < n * width
  {
    if i < n {
      NextRow(i, width);
      Rows(i + 1, n, width);
    }
  }

  lemma Rows(a: nat, b: nat, width: nat)
    requires a <= b
    ensures a * width <= b * width
  {}

  /** Directory i with suffix j, of those that are not empty, stands at place i times the number of suffixes plus j. */
  lemma {:induction false} SearchPathAt(dirs: seq<string>, suffixes: seq<string>, i: nat, j: nat)
    requires i < |NonEmpty(dirs)| && j < |NonEmpty(suffixes)|
    ensures |SearchPaths(dirs, suffixes)| == |NonEmpty(dirs)| * |NonEmpty(suffixes)|
    ensures 0 <= i * |NonEmpty(suffixes)| + j < |SearchPaths(dirs, suffixes)|
    ensures SearchPaths(dirs, suffixes)[i * |NonEmpty(suffixes)| + j] == NonEmpty(dirs)[i] + NonEmpty(suffixes)[j]
  {
    var front, last, width := dirs[..|dirs| - 1], dirs[|dirs| - 1], |NonEmpty(suffixes)|;
    SearchLength(dirs, suffixes);
    InRow(i, |NonEmpty(dirs)|, width, j);
    if last == "" || i < |NonEmpty(front)| {
      SearchPathAt(front, suffixes, i, j);
    } else {
      SearchLength(front, suffixes);
      SuffixedAt(last, suffixes);
      EntryOfLast(SearchPaths(front, suffixes), Suffixed(last, suffixes), i * width, j);
    }
  }

  lemma EntryOfLast(a: seq<string>, b: seq<string>, n: nat, j: nat)
    requires |a| == n && j < |b|
    ensures (a + b)[n + j] == b[j]
  {}

  lemma {:induction false} NonEmptyHas(items: seq<string>, x: string)
    ensures x in NonEmpty(items) <==> x in items && x != ""
  {
    if items != [] {
      NonEmptyHas(items[..|items| - 1], x);
      assert items == items[..|items| - 1] + [items[|items| - 1]];
    }
  }

  /** A path is searched if and only if it is one of the directories with a suffix that is not empty. So the empty
      suffix at the end of the list of NDK versions adds nothing, and a directory itself is not searched. */
  lemma {:induction false} SearchedExactly(dirs: seq<string>, suffixes: seq<string>, path: string)
    ensures path in SearchPaths(dirs, suffixes) <==>
              exists d, x :: d in dirs && d != "" && x in suffixes && x != "" && path == d + x
  {
    if dirs != [] {
      var front, last := dirs[..|dirs| - 1], dirs[|dirs| - 1];
      SearchedExactly(front, suffixes, path);
      assert dirs == front + [last];
      SuffixedExactly(last, suffixes, path);
    }
  }

  lemma {:induction false} SuffixedExactly(dir: string, suffixes: seq<string>, path: string)
    ensures path in Suffixed(dir, suffixes) <==> exists x :: x in suffixes && x != "" && path == dir + x
  {
    if suffixes != [] {
      SuffixedExactly(dir, suffixes[..|suffixes| - 1], path);
      assert suffixes == suffixes[..|suffixes| - 1] + [suffixes[|suffixes| - 1]];
    }
  }

  method FindSearchPaths(dirs: seq<string>, suffixes: seq<string>) returns (paths: seq<string>)
    ensures paths == SearchPaths(dirs, suffixes)
  {
    paths := [];
    for i := 0 to |dirs|
      invariant paths == SearchPaths(dirs[..i], suffixes)
    {
      assert dirs[..i + 1][..i] == dirs[..i];
      if dirs[i] != "" {
        var before := paths;
        for j := 0 to |suffixes|
          invariant paths == before + Suffixed(dirs[i], suffixes[..j])
        {
          assert suffixes[..j + 1][..j] == suffixes[..j];
          if suffixes[j] != "" { paths := paths + [dirs[i] + suffixes[j]]; }
        }
        assert suffixes[..|suffixes|] == suffixes;
      }
    }
    assert dirs[..|dirs|] == dirs;
  }

  // ---------------------------------------------------------------------------------------------------------
  // The search, lines 366 to 395

  datatype Found = Ndk(path: string) | Standalone(path: string) | Nothing

  const NDK_ARGS: seq<string> := [PATH, ENV + NDK]
  const STANDALONE_ARGS: seq<string> := [PATH, ENV + STANDALONE, OBSOLETE + ROOT, OBSOLETE + (ENV + ROOT)]
  const DEFAULT_ARGS: seq<string> := [PATH, DEFAULT]

  predicate On(s: Scope, name: string) {
    !IsOff(Value(s, name))
  }

  function Search(s: Scope, paths: seq<string>): Scope {
    var a := Init(s, NDK, NDK_ARGS);
    if On(a, NDK) then a
    else
      var b := Init(a, STANDALONE, STANDALONE_ARGS);
      if On(b, STANDALONE) then b
      else
        var c := Init(b, NDK, [PATH, VALUES] + paths);
        if On(c, NDK) then c else Init(c, STANDALONE, DEFAULT_ARGS)
  }

  /** Lines 398 to 436. */
  function Outcome(s: Scope): Found {
    if On(s, NDK) then Ndk(Value(s, NDK))
    else if On(s, STANDALONE) then Standalone(Value(s, STANDALONE))
    else Nothing
  }

  method FindToolchain(v: Variables, dirs: seq<string>, suffixes: seq<string>) returns (found: Found)
    modifies v
    ensures v.State() == Search(old(v.State()), SearchPaths(dirs, suffixes))
    ensures found == Outcome(v.State())
  {
    v.InitVariable(NDK, NDK_ARGS);
    if !On(v.State(), NDK) {
      v.InitVariable(STANDALONE, STANDALONE_ARGS);
      if !On(v.State(), STANDALONE) {
        var paths := FindSearchPaths(dirs, suffixes);
        v.InitVariable(NDK, [PATH, VALUES] + paths);
        if !On(v.State(), NDK) { v.InitVariable(STANDALONE, DEFAULT_ARGS); }
      }
    }
    if On(v.State(), NDK) { return Ndk(Value(v.State(), NDK)); }
    if On(v.State(), STANDALONE) { return Standalone(Value(v.State(), STANDALONE)); }
    found := Nothing;
  }

  // ---------------------------------------------------------------------------------------------------------
  // The documented order

  function Ndks(paths: seq<string>): seq<Found> {
    if paths == [] then [] else [Ndk(paths[0])] + Ndks(paths[1..])
  }

  function Standalones(paths: seq<string>): seq<Found> {
    if paths == [] then [] else [Standalone(paths[0])] + Standalones(paths[1..])
  }

  /** The parameter and the environment variable. */
  function NdkGiven(s: Scope): seq<string> {
    [Value(s, "ANDROID_NDK"), Env(s, "ANDROID_NDK")]
  }

  /** The same, then the obsolete names. */
  function StandaloneGiven(s: Scope): seq<string> {
    [Value(s, "ANDROID_STANDALONE_TOOLCHAIN"), Env(s, "ANDROID_STANDALONE_TOOLCHAIN"),
     Value(s, "ANDROID_NDK_TOOLCHAIN_ROOT"), Env(s, "ANDROID_NDK_TOOLCHAIN_ROOT")]
  }

  /** NDK before standalone toolchain, and the default places last, in the order given. */
  function Documented(s: Scope, paths: seq<string>): seq<Found> {
    Ndks(NdkGiven(s)) + Standalones(StandaloneGiven(s)) + Ndks(paths)
    + Standalones([Value(s, "ANDROID_STANDALONE_TOOLCHAIN_SEARCH_PATH")])
  }

  /** The first that is there. */
  function FirstThere(s: Scope, places: seq<Found>): Found {
    if places == [] then Nothing
    else if places[0] != Nothing && Exists(s, places[0].path) then places[0]
    else FirstThere(s, places[1..])
  }

  /** Search paths are just paths: no variables, no prefixes, no keywords. */
  predicate Plain(s: Scope, path: string) {
    && path != PATH && path != VALUES && path != NDK && path != STANDALONE
    && !StartsWith(path, OBSOLETE) && !StartsWith(path, ENV) && !Defined(s, path)
  }

  predicate AllPlain(s: Scope, paths: seq<string>) {
    forall i :: 0 <= i < |paths| ==> Plain(s, paths[i])
  }

  /** The first path that exists, group by group. */
  function Grouped(s: Scope, paths: seq<string>): Found {
    if First(s, NdkGiven(s), true) != "" then Ndk(First(s, NdkGiven(s), true))
    else if First(s, StandaloneGiven(s), true) != "" then Standalone(First(s, StandaloneGiven(s), true))
    else if First(s, paths, true) != "" then Ndk(First(s, paths, true))
    else if Exists(s, Value(s, DEFAULT)) then Standalone(Value(s, DEFAULT))
    else Nothing
  }

  lemma {:induction false} FirstOfTwo(s: Scope, a: seq<Found>, b: seq<Found>)
    ensures FirstThere(s, a + b) == if FirstThere(s, a) != Nothing then FirstThere(s, a) else FirstThere(s, b)
  {
    if a == [] {
      assert a + b == b;
    } else {
      FirstOfTwo(s, a[1..], b);
      assert (a + b)[1..] == a[1..] + b;
    }
  }

  lemma {:induction false} FirstOfNdks(s: Scope, paths: seq<string>)
    ensures FirstThere(s, Ndks(paths)) == if First(s, paths, true) == "" then Nothing else Ndk(First(s, paths, true))
  {
    if paths != [] {
      FirstOfNdks(s, paths[1..]);
      assert Ndks(paths)[1..] == Ndks(paths[1..]);
    }
  }

  lemma {:induction false} FirstOfStandalones(s: Scope, paths: seq<string>)
    ensures FirstThere(s, Standalones(paths))
            == if First(s, paths, true) == "" then Nothing else Standalone(First(s, paths, true))
  {
    if paths != [] {
      FirstOfStandalones(s, paths[1..]);
      assert Standalones(paths)[1..] == Standalones(paths[1..]);
    }
  }

  lemma DocumentedIsGrouped(s: Scope, paths: seq<string>)
    ensures FirstThere(s, Documented(s, paths)) == Grouped(s, paths)
  {
    var a, b, c, d := Ndks(NdkGiven(s)), Standalones(StandaloneGiven(s)), Ndks(paths), Standalones([Value(s, DEFAULT)]);
    FirstOfTwo(s, a, b);
    FirstOfTwo(s, a + b, c);
    FirstOfTwo(s, a + b + c, d);
    FirstOfNdks(s, NdkGiven(s));
    FirstOfStandalones(s, StandaloneGiven(s));
    FirstOfNdks(s, paths);
    FirstOfStandalones(s, [Value(s, DEFAULT)]);
    FirstCons(s, Value(s, DEFAULT), []);
  }

  lemma FirstCons(s: Scope, v: string, rest: seq<string>)
    ensures First(s, [v] + rest, true) == if Exists(s, v) then v else First(s, rest, true)
    ensures rest == [] ==> First(s, [v], true) == if Exists(s, v) then v else ""
  {
    assert ([v] + rest)[1..] == rest;
  }

  // ---------------------------------------------------------------------------------------------------------
  // What the arguments evaluate to

  lemma {:induction false} RemoveNothing(s: string, part: string, c: char)
    requires c in part && c !in s
    ensures Remove(s, part) == s
  {
    if |s| >= |part| {
      assert s[..|part|] != part;
      RemoveNothing(s[1..], part, c);
    }
  }

  lemma RemovePrefix(s: string, part: string, c: char)
    requires c in part && c !in s
    ensures StartsWith(part + s, part) && Remove(part + s, part) == s
  {
    assert (part + s)[..|part|] == part && (part + s)[|part|..] == s;
    RemoveNothing(s, part, c);
  }

  /** An argument of the form ENV_x. */
  lemma EnvCandidate(s: Scope, x: string)
    requires 'V' !in x
    ensures Candidate(s, ENV + x, false) == Env(s, x)
  {
    assert (ENV + x)[0] == 'E';
    assert OBSOLETE[0] == 'O';
    RemovePrefix(x, ENV, 'V');
  }

  /** OBSOLETE_x, and OBSOLETE_ENV_x. */
  lemma ObsoleteCandidates(s: Scope, x: string)
    requires 'B' !in x && 'V' !in x && x != ""
    ensures Candidate(s, OBSOLETE + x, false) == Value(s, x)
    ensures Candidate(s, OBSOLETE + (ENV + x), false) == Env(s, x)
  {
    RemovePrefix(x, OBSOLETE, 'B');
    assert ENV[2] == 'V' && !StartsWith(x, ENV);
    RemovePrefix(ENV + x, OBSOLETE, 'B');
    RemovePrefix(x, ENV, 'V');
  }

  /** Every form of argument. A name that is neither prefixed nor defined stands for itself once VALUES has been seen,
      and for nothing before. */
  lemma CandidateForms(s: Scope, x: string, values: bool)
    ensures 'V' !in x ==> Candidate(s, "ENV_" + x, values) == if x in s.env then s.env[x] else ""
    ensures 'B' !in x && 'V' !in x ==>
              Candidate(s, "OBSOLETE_ENV_" + x, values) == if x in s.env then s.env[x] else ""
    ensures 'B' !in x && !StartsWith(x, "ENV_") ==>
              Candidate(s, "OBSOLETE_" + x, values) == if Defined(s, x) then Value(s, x) else if values then x else ""
    ensures !StartsWith(x, "OBSOLETE_") && !StartsWith(x, "ENV_") ==>
              Candidate(s, x, values) == if Defined(s, x) then Value(s, x) else if values then x else ""
  {
    assert (ENV + x)[0] == 'E' && OBSOLETE[0] == 'O';
    if 'V' !in x { RemovePrefix(x, ENV, 'V'); }
    if 'B' !in x {
      RemovePrefix(x, OBSOLETE, 'B');
      RemovePrefix(ENV + x, OBSOLETE, 'B');
      assert OBSOLETE + (ENV + x) == "OBSOLETE_ENV_" + x;
    }
  }

  // ---------------------------------------------------------------------------------------------------------
  // The four steps of the search

  lemma {:induction false} FirstSame(s: Scope, t: Scope, values: seq<string>)
    requires s.paths == t.paths
    ensures First(s, values, true) == First(t, values, true)
  {
    if values != [] { FirstSame(s, t, values[1..]); }
  }

  /** The value a variable has after __INIT_VARIABLE with PATH, given the first candidate that exists. */
  function Settled(s: Scope, name: string, first: string): string {
    if Stale(s, name) || Exists(s, Value(s, name)) then Value(s, name) else first
  }

  /** t is s but for the variable `name`. */
  ghost predicate OnlyChanged(s: Scope, t: Scope, name: string) {
    && t.env == s.env && t.paths == s.paths
    && (forall n :: n != name ==> Value(t, n) == Value(s, n) && (Defined(t, n) <==> Defined(s, n)))
    && forall n :: Stale(t, n) <==> Stale(s, n)
  }

  /** A step whose arguments evaluate to `values`. */
  lemma Step(s: Scope, name: string, args: seq<string>, values: seq<string>)
    requires PATH in args && Candidates(Checked(s, name, args), args, false) == values
    ensures Value(Init(s, name, args), name) == Settled(s, name, First(s, values, true))
    ensures OnlyChanged(s, Init(s, name, args), name)
  {
    InitWithPath(s, name, args);
    FirstSame(s, Checked(s, name, args), values);
  }

  lemma NdkStep(s: Scope)
    ensures Value(Init(s, NDK, NDK_ARGS), NDK) == Settled(s, NDK, First(s, [Env(s, NDK)], true))
    ensures OnlyChanged(s, Init(s, NDK, NDK_ARGS), NDK)
  {
    var t, none: seq<string> := Checked(s, NDK, NDK_ARGS), [];
    EnvCandidate(t, NDK);
    assert (ENV + NDK)[0] == 'E' && PATH[0] == 'P' && VALUES[0] == 'V' && NDK_ARGS[0] == PATH;
    CandidatesOf(t, ENV + NDK, none);
    assert NDK_ARGS[1..] == [ENV + NDK] + none;
    Step(s, NDK, NDK_ARGS, [Env(s, NDK)]);
  }

  lemma DefaultStep(s: Scope)
    ensures Value(Init(s, STANDALONE, DEFAULT_ARGS), STANDALONE)
            == Settled(s, STANDALONE, First(s, [Value(s, DEFAULT)], true))
    ensures OnlyChanged(s, Init(s, STANDALONE, DEFAULT_ARGS), STANDALONE)
  {
    var t, none: seq<string> := Checked(s, STANDALONE, DEFAULT_ARGS), [];
    assert DEFAULT[0] == 'A' && OBSOLETE[0] == 'O' && ENV[0] == 'E' && PATH[0] == 'P' && VALUES[0] == 'V';
    CandidatesOf(t, DEFAULT, none);
    assert DEFAULT_ARGS[1..] == [DEFAULT] + none && DEFAULT_ARGS[0] == PATH;
    NamesDiffer();
    Step(s, STANDALONE, DEFAULT_ARGS, [Value(s, DEFAULT)]);
  }

  lemma NamesDiffer()
    ensures |NDK| < |ROOT| < |STANDALONE| < |DEFAULT|
  {}

  lemma StandaloneStep(s: Scope)
    ensures Value(Init(s, STANDALONE, STANDALONE_ARGS), STANDALONE)
            == Settled(s, STANDALONE, First(s, [Env(s, STANDALONE), Value(s, ROOT), Env(s, ROOT)], true))
    ensures OnlyChanged(s, Init(s, STANDALONE, STANDALONE_ARGS), STANDALONE)
  {
    var t := Checked(s, STANDALONE, STANDALONE_ARGS);
    StandaloneCandidates(t);
    NamesDiffer();
    assert STANDALONE_ARGS[0] == PATH && Value(t, ROOT) == Value(s, ROOT);
    Step(s, STANDALONE, STANDALONE_ARGS, [Env(s, STANDALONE), Value(s, ROOT), Env(s, ROOT)]);
  }

  lemma CandidatesOf(s: Scope, arg: string, rest: seq<string>)
    requires arg != PATH && arg != VALUES
    ensures Candidates(s, [arg] + rest, false) == [Candidate(s, arg, false)] + Candidates(s, rest, false)
  {
    assert ([arg] + rest)[1..] == rest;
  }

  lemma NoKeywords(x: string)
    ensures ENV + x != PATH && ENV + x != VALUES && OBSOLETE + x != PATH && OBSOLETE + x != VALUES
  {
    assert (ENV + x)[0] == 'E' && (OBSOLETE + x)[0] == 'O' && PATH[0] == 'P' && VALUES[0] == 'V';
  }

  lemma PathSkipped(t: Scope, args: seq<string>)
    ensures Candidates(t, [PATH] + args, false) == Candidates(t, args, false)
  {
    assert ([PATH] + args)[1..] == args && PATH[0] == 'P' && VALUES[0] == 'V';
  }

  lemma StandaloneCandidates(t: Scope)
    ensures Candidates(t, STANDALONE_ARGS, false) == [Env(t, STANDALONE), Value(t, ROOT), Env(t, ROOT)]
  {
    var a, b, c := ENV + STANDALONE, OBSOLETE + ROOT, OBSOLETE + (ENV + ROOT);
    var r3: seq<string> := [];
    var r2 := [c] + r3;
    var r1 := [b] + r2;
    assert STANDALONE_ARGS == [PATH] + ([a] + r1);
    PathSkipped(t, [a] + r1);
    StandaloneOf(t, r1, r2, r3);
  }

  lemma StandaloneOf(t: Scope, r1: seq<string>, r2: seq<string>, r3: seq<string>)
    requires r3 == [] && r2 == [OBSOLETE + (ENV + ROOT)] + r3 && r1 == [OBSOLETE + ROOT] + r2
    ensures Candidates(t, [ENV + STANDALONE] + r1, false) == [Env(t, STANDALONE), Value(t, ROOT), Env(t, ROOT)]
  {
    EnvCandidate(t, STANDALONE);
    ObsoleteCandidates(t, ROOT);
    NoKeywords(STANDALONE);
    NoKeywords(ROOT);
    NoKeywords(ENV + ROOT);
    CandidatesOf(t, ENV + STANDALONE, r1);
    CandidatesOf(t, OBSOLETE + ROOT, r2);
    CandidatesOf(t, OBSOLETE + (ENV + ROOT), r3);
  }

  lemma {:induction false} PlainCandidates(s: Scope, paths: seq<string>)
    requires AllPlain(s, paths)
    ensures Candidates(s, paths, true) == paths
  {
    if paths != [] {
      assert Plain(s, paths[0]);
      forall i | 0 <= i < |paths[1..]| ensures Plain(s, paths[1..][i]) { assert paths[1..][i] == paths[i + 1]; }
      PlainCandidates(s, paths[1..]);
    }
  }

  lemma SearchStep(s: Scope, paths: seq<string>)
    requires AllPlain(s, paths)
    ensures Value(Init(s, NDK, [PATH, VALUES] + paths), NDK) == Settled(s, NDK, First(s, paths, true))
    ensures OnlyChanged(s, Init(s, NDK, [PATH, VALUES] + paths), NDK)
  {
    var args := [PATH, VALUES] + paths;
    var t := Checked(s, NDK, args);
    assert args[0] == PATH && args[1..] == [VALUES] + paths && args[1..][1..] == paths;
    assert PATH[0] == 'P' && VALUES[0] == 'V';
    assert AllPlain(t, paths) by {
      forall i | 0 <= i < |paths| ensures Plain(t, paths[i]) { assert Plain(s, paths[i]); }
    }
    PlainCandidates(t, paths);
    Step(s, NDK, args, paths);
  }

  // ---------------------------------------------------------------------------------------------------------
  // The order of the search

  lemma {:induction false} FirstExists(s: Scope, values: seq<string>)
    ensures First(s, values, true) == "" || Exists(s, First(s, values, true))
  {
    if values != [] { FirstExists(s, values[1..]); }
  }

  /** The value a variable has: its own if it is stale, or the first of its own and `more` that exists. */
  lemma SettledIs(s: Scope, name: string, more: seq<string>)
    ensures Settled(s, name, First(s, more, true))
            == if Stale(s, name) then Value(s, name) else First(s, [Value(s, name)] + more, true)
  {
    FirstCons(s, Value(s, name), more);
  }

  // The scopes after the four steps, were they all taken.

  function After1(s: Scope): Scope { Init(s, NDK, NDK_ARGS) }
  function After2(s: Scope): Scope { Init(After1(s), STANDALONE, STANDALONE_ARGS) }
  function After3(s: Scope, paths: seq<string>): Scope { Init(After2(s), NDK, [PATH, VALUES] + paths) }
  function After4(s: Scope, paths: seq<string>): Scope { Init(After3(s, paths), STANDALONE, DEFAULT_ARGS) }

  lemma Ndk1(s: Scope)
    ensures OnlyChanged(s, After1(s), NDK)
    ensures Value(After1(s), NDK) == if Stale(s, NDK) then Value(s, NDK) else First(s, NdkGiven(s), true)
  {
    NdkStep(s);
    SettledIs(s, NDK, [Env(s, NDK)]);
  }

  lemma Standalone2(s: Scope)
    ensures OnlyChanged(After1(s), After2(s), STANDALONE)
    ensures Value(After2(s), STANDALONE)
            == if Stale(s, STANDALONE) then Value(s, STANDALONE) else First(s, StandaloneGiven(s), true)
  {
    var a := After1(s);
    Ndk1(s);
    NamesDiffer();
    StandaloneStep(a);
    assert StandaloneGiven(a) == [Value(a, STANDALONE)] + [Env(a, STANDALONE), Value(a, ROOT), Env(a, ROOT)];
    SettledIs(a, STANDALONE, [Env(a, STANDALONE), Value(a, ROOT), Env(a, ROOT)]);
    FirstSame(a, s, StandaloneGiven(s));
  }

  lemma Ndk3(s: Scope, paths: seq<string>)
    requires AllPlain(s, paths)
    ensures OnlyChanged(After2(s), After3(s, paths), NDK)
    ensures Value(After3(s, paths), NDK)
            == if Stale(s, NDK) || Value(After1(s), NDK) != "" then Value(After1(s), NDK) else First(s, paths, true)
  {
    var b := After2(s);
    Ndk1(s);
    Standalone2(s);
    NamesDiffer();
    assert AllPlain(b, paths) by {
      forall i | 0 <= i < |paths| ensures Plain(b, paths[i]) { assert Plain(s, paths[i]); }
    }
    SearchStep(b, paths);
    FirstSame(b, s, paths);
    FirstExists(s, NdkGiven(s));
  }

  lemma Standalone4(s: Scope, paths: seq<string>)
    requires AllPlain(s, paths)
    ensures OnlyChanged(After3(s, paths), After4(s, paths), STANDALONE)
    ensures Value(After4(s, paths), STANDALONE)
            == if Stale(s, STANDALONE) || Value(After2(s), STANDALONE) != "" then Value(After2(s), STANDALONE)
               else First(s, [Value(s, DEFAULT)], true)
  {
    var c := After3(s, paths);
    Ndk1(s);
    Standalone2(s);
    Ndk3(s, paths);
    NamesDiffer();
    DefaultStep(c);
    FirstSame(c, s, [Value(s, DEFAULT)]);
    FirstExists(s, StandaloneGiven(s));
  }

  /** What the search finds, from the values the two variables have after each of its steps. */
  function Picked(off: string -> bool, n1: string, s2: string, n3: string, s4: string): Found {
    if !off(n1) then Ndk(n1)
    else if !off(s2) then Standalone(s2)
    else if !off(n3) then Ndk(n3)
    else if !off(s4) then Standalone(s4)
    else Nothing
  }

  lemma PickedFrom(a: Scope, b: Scope, c: Scope, d: Scope)
    requires Value(b, NDK) == Value(a, NDK) && Value(d, NDK) == Value(c, NDK)
    ensures Outcome(if On(a, NDK) then a else if On(b, STANDALONE) then b else if On(c, NDK) then c else d)
            == Picked(IsOff, Value(a, NDK), Value(b, STANDALONE), Value(c, NDK), Value(d, STANDALONE))
  {}

  lemma OthersStay(s: Scope, t: Scope, name: string, other: string)
    requires OnlyChanged(s, t, name) && |name| != |other|
    ensures Value(t, other) == Value(s, other)
  {}

  lemma SearchPicks(s: Scope, paths: seq<string>)
    requires AllPlain(s, paths)
    ensures Outcome(Search(s, paths))
            == Picked(IsOff, Value(After1(s), NDK), Value(After2(s), STANDALONE),
                      Value(After3(s, paths), NDK), Value(After4(s, paths), STANDALONE))
  {
    Standalone2(s);
    Standalone4(s, paths);
    NamesDiffer();
    OthersStay(After1(s), After2(s), STANDALONE, NDK);
    OthersStay(After3(s, paths), After4(s, paths), STANDALONE, NDK);
    PickedFrom(After1(s), After2(s), After3(s, paths), After4(s, paths));
  }

  /** A normal variable whose path does not exist is in the way: it is never replaced, and unless it is a false constant
      it counts as found. n and t are the stale values of the two variables, or empty; g1 is the NDK that is given. */
  predicate Blocked(off: string -> bool, n: string, t: string, g1: string, place: Found) {
    || (n != "" && (!off(n) || place.Ndk?))
    || (t != "" && (place.Standalone? || (!off(t) && g1 == "")))
  }

  /** The first of four values that is not empty. */
  function FirstGroup(g1: string, g2: string, g3: string, g4: string): Found {
    if g1 != "" then Ndk(g1)
    else if g2 != "" then Standalone(g2)
    else if g3 != "" then Ndk(g3)
    else if g4 != "" then Standalone(g4)
    else Nothing
  }

  /** The same question about values only: n and t are stale values, or empty, and nothing that exists is stale. */
  lemma Decide(off: string -> bool, there: set<string>, n: string, t: string,
               g1: string, g2: string, g3: string, g4: string)
    requires off("") && n !in there && t !in there
    requires {g1, g2, g3, g4} - {""} <= there
    ensures var place := FirstGroup(g1, g2, g3, g4);
            var n1, s2 := Or(n, g1), Or(t, g2);
            var n3, s4 := Or(n1, g3), Or(s2, g4);
            Picked(off, n1, s2, n3, s4) == place
            <==> !Blocked(off, n, t, g1, place) && (place.Nothing? || !off(place.path))
  {}

  function StaleValue(s: Scope, name: string): string {
    if Stale(s, name) then Value(s, name) else ""
  }

  function Or(v: string, other: string): string {
    if v != "" then v else other
  }

  // The first path that exists in each group.

  function Group1(s: Scope): string { First(s, NdkGiven(s), true) }
  function Group2(s: Scope): string { First(s, StandaloneGiven(s), true) }
  function Group3(s: Scope, paths: seq<string>): string { First(s, paths, true) }
  function Group4(s: Scope): string { First(s, [Value(s, DEFAULT)], true) }

  lemma GroupsExist(s: Scope, paths: seq<string>)
    ensures {Group1(s), Group2(s), Group3(s, paths), Group4(s)} - {""} <= s.paths
  {
    FirstExists(s, NdkGiven(s));
    FirstExists(s, StandaloneGiven(s));
    FirstExists(s, paths);
    FirstExists(s, [Value(s, DEFAULT)]);
  }

  lemma GroupedIsFirst(s: Scope, paths: seq<string>)
    ensures FirstThere(s, Documented(s, paths)) == FirstGroup(Group1(s), Group2(s), Group3(s, paths), Group4(s))
  {
    DocumentedIsGrouped(s, paths);
    FirstCons(s, Value(s, DEFAULT), []);
  }

  lemma SearchValues(s: Scope, paths: seq<string>)
    requires AllPlain(s, paths)
    ensures var n1, s2 := Or(StaleValue(s, NDK), Group1(s)), Or(StaleValue(s, STANDALONE), Group2(s));
            Outcome(Search(s, paths)) == Picked(IsOff, n1, s2, Or(n1, Group3(s, paths)), Or(s2, Group4(s)))
  {
    SearchPicks(s, paths);
    Ndk1(s);
    Standalone2(s);
    Ndk3(s, paths);
    Standalone4(s, paths);
  }

  predicate InTheWay(s: Scope, place: Found) {
    Blocked(IsOff, StaleValue(s, NDK), StaleValue(s, STANDALONE), Group1(s), place)
  }

  lemma StaleIsNotThere(s: Scope, name: string)
    ensures StaleValue(s, name) == "" || StaleValue(s, name) !in s.paths
  {}

  /** The search finds what the documented order says, the first place that is there, if and only if no stale normal
      variable is in the way and the path of that place does not count as false. */
  lemma SearchFollowsTheOrder(s: Scope, paths: seq<string>)
    requires AllPlain(s, paths)
    ensures var place := FirstThere(s, Documented(s, paths));
            Outcome(Search(s, paths)) == place <==> !InTheWay(s, place) && (place.Nothing? || !IsOff(place.path))
  {
    SearchValues(s, paths);
    GroupedIsFirst(s, paths);
    GroupsExist(s, paths);
    StaleIsNotThere(s, NDK);
    StaleIsNotThere(s, STANDALONE);
    assert IsOff("");
    Decide(IsOff, s.paths - {""}, StaleValue(s, NDK), StaleValue(s, STANDALONE),
           Group1(s), Group2(s), Group3(s, paths), Group4(s));
  }

  /** A project sets the NDK to a false value that is no path, and the environment names a standalone toolchain that is
      there: that toolchain is found, whatever places the NDK would be searched in. */
  lemma FalseNdkIsSkipped(s: Scope, paths: seq<string>)
    requires NDK in s.vars && IsOff(s.vars[NDK]) && !Exists(s, s.vars[NDK]) && s.vars[NDK] != ""
    requires Value(s, STANDALONE) == "" && Exists(s, Env(s, STANDALONE)) && !IsOff(Env(s, STANDALONE))
    ensures Outcome(Search(s, paths)) == Standalone(Env(s, STANDALONE))
  {
    Ndk1(s);
    Standalone2(s);
    NamesDiffer();
    OthersStay(After1(s), After2(s), STANDALONE, NDK);
    FirstCons(s, Value(s, STANDALONE), StandaloneGiven(s)[1..]);
    FirstCons(s, Env(s, STANDALONE), StandaloneGiven(s)[2..]);
    assert StandaloneGiven(s) == [Value(s, STANDALONE)] + StandaloneGiven(s)[1..];
    assert StandaloneGiven(s)[1..] == [Env(s, STANDALONE)] + StandaloneGiven(s)[2..];
  }

  lemma FalseByName(paths: seq<string>)
    ensures var s := Scope(map["ANDROID_NDK" := "FALSE"], map[], map["ANDROID_STANDALONE_TOOLCHAIN" := "/tc"], {"/tc"});
            Outcome(Search(s, paths)) == Standalone("/tc")
  {
    var s := Scope(map["ANDROID_NDK" := "FALSE"], map[], map["ANDROID_STANDALONE_TOOLCHAIN" := "/tc"], {"/tc"});
    OffExactly("FALSE");
    OffExactly("/tc");
    assert |"FALSE"| != |"/tc"| && "/tc"[0] == '/' && "OFF"[0] == 'O';
    NamesDiffer();
    FalseNdkIsSkipped(s, paths);
  }

  /** A normal variable ANDROID_NDK whose directory is gone wins over an environment variable whose directory exists. */
  lemma StaleVariableWins()
    ensures var s := Scope(map[NDK := "/gone"], map[], map[NDK := "/ndk"], {"/ndk"});
            FirstThere(s, Documented(s, [])) == Ndk("/ndk") && Outcome(Search(s, [])) == Ndk("/gone")
  {
    var s := Scope(map[NDK := "/gone"], map[], map[NDK := "/ndk"], {"/ndk"});
    assert "/gone"[1] == 'g' && "/ndk"[1] == 'n';
    NotOff("/gone");
    SearchValues(s, []);
    GroupedIsFirst(s, []);
    FirstCons(s, Value(s, NDK), [Env(s, NDK)]);
    FirstCons(s, Env(s, NDK), []);
  }

  lemma NotOff(path: string)
    requires 0 < |path| < 9 && path[0] == '/'
    ensures !IsOff(path)
  {
    assert Upper(path)[0] == '/';
  }

  /** An existing directory whose name ends in -NOTFOUND is passed over. */
  lemma NotFoundPathIsMissed()
    ensures var path := "/ndk" + NOT_FOUND;
            var s := Scope(map[], map[], map[NDK := path], {path});
            FirstThere(s, Documented(s, [])) == Ndk(path) && Outcome(Search(s, [])) != Ndk(path)
  {
    var path := "/ndk" + NOT_FOUND;
    var s := Scope(map[], map[], map[NDK := path], {path});
    NotFoundIsOff("/ndk");
    GroupedIsFirst(s, []);
    FirstCons(s, Value(s, NDK), [Env(s, NDK)]);
    FirstCons(s, Env(s, NDK), []);
    SearchFollowsTheOrder(s, []);
  }
}
