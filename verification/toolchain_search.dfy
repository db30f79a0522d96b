/**
 __INIT_VARIABLE and the search for an NDK or a standalone toolchain (cmake/android.toolchain.cmake:235-293).
 No variable is called PATH, VALUES or like a macro's own variables, and none is called like a path or a value.
*/
module ToolchainSearch {
  import opened ToolchainLists

  /** Normal variables, cache entries (what -D sets), environment variables, and the paths that exist. */
  datatype Scope = Scope(vars: map<string, string>, cache: map<string, string>, env: map<string, string>,
                         paths: set<string>)

  predicate Exists(s: Scope, path: string) {
    path != "" && path in s.paths
  }

  predicate Defined(s: Scope, name: string) {
    name in s.vars || name in s.cache
  }

  /** A normal variable hides the cache entry. */
  function Value(s: Scope, name: string): string {
    if name in s.vars then s.vars[name] else if name in s.cache then s.cache[name] else ""
  }

  function Env(s: Scope, name: string): string {
    if name in s.env then s.env[name] else ""
  }

  predicate StartsWith(s: string, prefix: string) {
    |prefix| <= |s| && s[..|prefix|] == prefix
  }

  /** string( REPLACE part "" ): every occurrence goes. */
  function Remove(s: string, part: string): string
    requires part != ""
  {
    if |s| < |part| then s
    else if s[..|part|] == part then Remove(s[|part|..], part)
    else [s[0]] + Remove(s[1..], part)
  }

  /** The part stands in s from i on. */
  predicate OccursAt(s: string, part: string, i: int) {
    0 <= i <= |s| - |part| && s[i..i + |part|] == part
  }

  lemma OccursInTail(s: string, part: string, j: int)
    requires s != [] && part != "" && 0 <= j
    ensures OccursAt(s[1..], part, j) <==> OccursAt(s, part, j + 1)
  {
    if j + 1 <= |s| - |part| { assert s[1..][j..j + |part|] == s[j + 1..j + 1 + |part|]; }
  }

  lemma NoneInTail(s: string, part: string, n: nat)
    requires s != [] && part != "" && n > 0 && forall j :: 0 <= j < n ==> !OccursAt(s, part, j)
    ensures forall j :: 0 <= j < n - 1 ==> !OccursAt(s[1..], part, j)
  {
    forall j | 0 <= j < n - 1 ensures !OccursAt(s[1..], part, j) { OccursInTail(s, part, j); }
  }

  lemma RemoveHead(s: string, part: string)
    requires |part| <= |s| && part != "" && !OccursAt(s, part, 0)
    ensures Remove(s, part) == [s[0]] + Remove(s[1..], part)
  {}

  /** Without an occurrence nothing changes. */
  lemma {:induction false} RemoveNone(s: string, part: string)
    requires part != "" && forall j :: !OccursAt(s, part, j)
    ensures Remove(s, part) == s
  {
    if |s| >= |part| {
      assert !OccursAt(s, part, 0) && s == [s[0]] + s[1..];
      forall j ensures !OccursAt(s[1..], part, j) {
        if j >= 0 { OccursInTail(s, part, j); }
      }
      RemoveNone(s[1..], part);
    }
  }

  /** The first occurrence goes, and what follows it is treated alike. */
  lemma {:induction false} RemoveFirst(s: string, part: string, a: string, b: string)
    requires part != "" && s == a + part + b && forall j :: 0 <= j < |a| ==> !OccursAt(s, part, j)
    ensures Remove(s, part) == a + Remove(b, part)
  {
    if a == "" {
      assert s[..|part|] == part && s[|part|..] == b;
      assert a + Remove(b, part) == Remove(b, part);
    } else {
      assert s[1..] == a[1..] + part + b;
      NoneInTail(s, part, |a|);
      RemoveFirst(s[1..], part, a[1..], b);
      RemoveHead(s, part);
      assert [s[0]] + (a[1..] + Remove(b, part)) == a + Remove(b, part);
    }
  }

  const OBSOLETE := "OBSOLETE_"
  const ENV := "ENV_"
  const PATH := "PATH"
  const VALUES := "VALUES"

  /** What one argument of __INIT_VARIABLE evaluates to; `values` once VALUES has been seen. */
  function Candidate(s: Scope, arg: string, values: bool): string {
    var v := if StartsWith(arg, OBSOLETE) then Remove(arg, OBSOLETE) else arg;
    if StartsWith(v, ENV) then Env(s, Remove(v, ENV))
    else if Defined(s, v) then Value(s, v)
    else if values then v
    else ""
  }

  /** Every argument's candidate, in order. */
  function Candidates(s: Scope, args: seq<string>, values: bool): seq<string> {
    if args == [] then []
    else if args[0] == VALUES then Candidates(s, args[1..], true)
    else if args[0] == PATH then Candidates(s, args[1..], values)
    else [Candidate(s, args[0], values)] + Candidates(s, args[1..], values)
  }

  /** Candidates come in the order of the arguments, and VALUES holds for all that follow it. */
  lemma {:induction false} CandidatesInOrder(s: Scope, a: seq<string>, b: seq<string>, values: bool)
    ensures Candidates(s, a + b, values) == Candidates(s, a, values) + Candidates(s, b, values || VALUES in a)
  {
    if a == [] {
      assert a + b == b;
    } else {
      assert (a + b)[1..] == a[1..] + b && a == [a[0]] + a[1..];
      CandidatesInOrder(s, a[1..], b, values || a[0] == VALUES);
    }
  }

  predicate Acceptable(s: Scope, value: string, testPath: bool) {
    value != "" && (testPath ==> Exists(s, value))
  }

  /** The first acceptable candidate, or empty. */
  function First(s: Scope, candidates: seq<string>, testPath: bool): string {
    if candidates == [] then ""
    else if Acceptable(s, candidates[0], testPath) then candidates[0]
    else First(s, candidates[1..], testPath)
  }

  /** A value that is passed over: empty, or a path that is asked for and not there. */
  lemma {:induction false} FirstIs(s: Scope, candidates: seq<string>, testPath: bool)
    ensures var v := First(s, candidates, testPath);
            || (v == "" && forall i :: 0 <= i < |candidates| ==>
                  candidates[i] == "" || (testPath && candidates[i] !in s.paths))
            || exists k :: 0 <= k < |candidates| && v == candidates[k] && v != "" && (testPath ==> v in s.paths)
                 && forall i :: 0 <= i < k ==> candidates[i] == "" || (testPath && candidates[i] !in s.paths)
  {
    if candidates != [] && !Acceptable(s, candidates[0], testPath) {
      var rest := candidates[1..];
      FirstIs(s, rest, testPath);
      var v := First(s, candidates, testPath);
      if v != "" {
        var k :| 0 <= k < |rest| && v == rest[k] && v != "" && (testPath ==> v in s.paths)
                 && forall i :: 0 <= i < k ==> rest[i] == "" || (testPath && rest[i] !in s.paths);
        assert v == candidates[k + 1];
      }
    }
  }

  /** After the stale check: only the cache entry can go. */
  function Checked(s: Scope, name: string, args: seq<string>): Scope {
    if PATH in args && !Exists(s, Value(s, name)) then s.(cache := s.cache - {name}) else s
  }

  /** __INIT_VARIABLE */
  function Init(s: Scope, name: string, args: seq<string>): Scope {
    var t := Checked(s, name, args);
    if Value(t, name) != "" then t
    else
      var v := First(t, Candidates(t, args, false), PATH in args);
      if v == "" then t else t.(vars := t.vars[name := v])
  }

  /** A normal variable with a path that is not there. */
  predicate Stale(s: Scope, name: string) {
    name in s.vars && s.vars[name] != "" && !Exists(s, s.vars[name])
  }

  /** With PATH: a value that exists is kept; a stale normal variable is kept too, although it does not exist; in every
      other case the variable ends up with the first candidate that exists, or empty. Nothing else changes. */
  lemma InitWithPath(s: Scope, name: string, args: seq<string>)
    requires PATH in args
    ensures var t, r := Checked(s, name, args), Init(s, name, args);
            && (Exists(s, Value(s, name)) ==> r == s)
            && (Stale(s, name) ==> Value(r, name) == s.vars[name])
            && (!Exists(s, Value(s, name)) && !Stale(s, name) ==>
                 Value(r, name) == First(t, Candidates(t, args, false), true))
            && (Value(r, name) != "" && !Exists(r, Value(r, name)) <==> Stale(s, name))
            && r.env == s.env && r.paths == s.paths
            && (forall n :: n != name ==> Value(r, n) == Value(s, n) && (Defined(r, n) <==> Defined(s, n)))
            && forall n :: Stale(r, n) <==> Stale(s, n)
  {
    var t := Checked(s, name, args);
    FirstIs(t, Candidates(t, args, false), true);
  }

  /** Without PATH: a value is kept, and an empty variable takes the first candidate that is not empty, if there is
      one. Nothing else changes. */
  lemma InitWithoutPath(s: Scope, name: string, args: seq<string>)
    requires PATH !in args
    ensures var c, r := Candidates(s, args, false), Init(s, name, args);
            && (Value(s, name) != "" ==> r == s)
            && (Value(s, name) == "" && (forall i :: 0 <= i < |c| ==> c[i] == "") ==> r == s)
            && (Value(s, name) == "" ==>
                 forall k :: 0 <= k < |c| && c[k] != "" && (forall i :: 0 <= i < k ==> c[i] == "") ==>
                   r == s.(vars := s.vars[name := c[k]]))
  {
    InitUntested(s, name, args);
    FirstNonEmpty(s, Candidates(s, args, false));
  }

  lemma InitUntested(s: Scope, name: string, args: seq<string>)
    requires PATH !in args
    ensures var v := First(s, Candidates(s, args, false), false);
            Init(s, name, args)
            == if Value(s, name) != "" || v == "" then s else s.(vars := s.vars[name := v])
  {}

  lemma {:induction false} FirstNonEmpty(s: Scope, c: seq<string>)
    ensures (forall i :: 0 <= i < |c| ==> c[i] == "") ==> First(s, c, false) == ""
    ensures forall k :: 0 <= k < |c| && c[k] != "" && (forall i :: 0 <= i < k ==> c[i] == "") ==>
              First(s, c, false) == c[k]
  {
    if c != [] && c[0] == "" {
      FirstNonEmpty(s, c[1..]);
      forall k | 0 <= k < |c| && c[k] != "" && (forall i :: 0 <= i < k ==> c[i] == "")
        ensures First(s, c[1..], false) == c[k]
      {
        assert c[1..][k - 1] == c[k];
      }
    }
  }

  /** CMake's variables. */
  class Variables {
    var vars: map<string, string>
    var cache: map<string, string>
    const env: map<string, string>
    const paths: set<string>

    constructor (s: Scope)
      ensures State() == s
    {
      vars, cache, env, paths := s.vars, s.cache, s.env, s.paths;
    }

    function State(): Scope
      reads this
    {
      Scope(vars, cache, env, paths)
    }

    /** The loop over the arguments, lines 247 to 287. */
    method SetFirst(name: string, args: seq<string>, testPath: bool)
      modifies this`vars
      ensures var v := First(old(State()), Candidates(old(State()), args, false), testPath);
              vars == if v == "" then old(vars) else old(vars)[name := v]
    {
      var values := false;
      ghost var s := State();
      assert args[0..] == args;
      for i := 0 to |args|
        invariant State() == s
        invariant First(s, Candidates(s, args, false), testPath) == First(s, Candidates(s, args[i..], values), testPath)
      {
        var arg := args[i];
        assert args[i..][1..] == args[i + 1..];
        if arg == VALUES {
          values := true;
        } else if arg != PATH {
          var value := Candidate(State(), arg, values);
          StepOver(s, args[i..], values, testPath);
          if value != "" {
            if testPath {
              if Exists(State(), value) {
                vars := vars[name := value];
                return;
              }
            } else {
              vars := vars[name := value];
              return;
            }
          }
        }
      }
      assert args[|args|..] == [];
    }

    method InitVariable(name: string, args: seq<string>)
      modifies this
      ensures State() == Init(old(State()), name, args)
    {
      var testPath := false;
      for i := 0 to |args|
        invariant PATH !in args[..i] && !testPath
      {
        assert args[..i + 1] == args[..i] + [args[i]];
        if args[i] == PATH {
          testPath := true;
          break;
        }
      }
      assert args[..|args|] == args;
      if testPath && !Exists(State(), Value(State(), name)) { cache := cache - {name}; }
      if Value(State(), name) == "" { SetFirst(name, args, testPath); }
    }
  }

  lemma StepOver(s: Scope, args: seq<string>, values: bool, testPath: bool)
    requires args != [] && args[0] != VALUES && args[0] != PATH
    ensures var v := Candidate(s, args[0], values);
            First(s, Candidates(s, args, values), testPath)
            == if Acceptable(s, v, testPath) then v else First(s, Candidates(s, args[1..], values), testPath)
  {
    var v, rest := Candidate(s, args[0], values), Candidates(s, args[1..], values);
    assert ([v] + rest)[1..] == rest;
  }
}
