/** The toolchains of an NDK in four parallel lists, and the choice among them (cmake/android.toolchain.cmake:465-488
    and 602-628). */
module ToolchainChoice {
  import opened ToolchainLists
  import opened ToolchainVersions

  /** "^[.]" */
  predicate IsHidden(name: string) {
    name != "" && name[0] == '.'
  }

  /** The directories whose compiler cannot be determined. */
  ghost function Broken(names: seq<string>, machine: string -> string): set<string> {
    set x | x in names && IsOff(machine(x))
  }

  /** What stays in the list of toolchains. */
  ghost function Working(found: seq<string>, machine: string -> string): seq<string> {
    Without(Filtered(found, IsHidden), Broken(Filtered(found, IsHidden), machine))
  }

  /** Appending f of every name, unquoted. */
  function Collect(f: string -> string, names: seq<string>): seq<string> {
    if names == [] then [] else Put(Collect(f, names[..|names| - 1]), f(names[|names| - 1]))
  }

  lemma CollectOne(f: string -> string, names: seq<string>, x: string)
    ensures Collect(f, names + [x]) == Put(Collect(f, names), f(x))
  {
    assert (names + [x])[..|names|] == names;
  }

  /** f gives something for every name. */
  ghost predicate Total(f: string -> string, names: seq<string>) {
    forall i :: 0 <= i < |names| ==> f(names[i]) != ""
  }

  ghost predicate Aligned(list: seq<string>, f: string -> string, names: seq<string>) {
    |list| == |names| && forall i :: 0 <= i < |names| ==> list[i] == f(names[i])
  }

  lemma {:induction false} CollectAligned(f: string -> string, names: seq<string>)
    ensures |Collect(f, names)| <= |names|
    ensures |Collect(f, names)| == |names| <==> Total(f, names)
    ensures Total(f, names) ==> Aligned(Collect(f, names), f, names)
  {
    if names != [] {
      var front, last := names[..|names| - 1], names[|names| - 1];
      CollectAligned(f, front);
      assert names == front + [last];
      if Total(f, names) { assert Total(f, front); }
      if Total(f, front) && f(last) != "" { assert Total(f, names); }
    }
  }

  lemma BrokenMore(names: seq<string>, machine: string -> string, x: string)
    ensures var all := names + [x];
            && Without(names, Broken(all, machine)) == Without(names, Broken(names, machine))
            && Without(all, Broken(all, machine))
               == (if IsOff(machine(x)) then Without(names, Broken(names, machine))
                   else Without(names, Broken(names, machine)) + [x])
            && Broken(all, machine)
               == (if IsOff(machine(x)) then Broken(names, machine) + {x} else Broken(names, machine))
  {
    var all := names + [x];
    assert all[..|names|] == names;
    WithoutAgrees(names, Broken(all, machine), Broken(names, machine));
    assert x in all;
  }

  lemma BrokenEnds(names: seq<string>, machine: string -> string)
    ensures names[..|names|] == names
    ensures Broken(names[..0], machine) == {} && Without(names, {}) == names && Without(names[..0], {}) == []
  {
    WithoutNone(names, {});
  }

  /** The four lists after the names in `seen`, of `all`. */
  ghost predicate After(machine: string -> string, all: seq<string>, seen: seq<string>,
                        names: seq<string>, machines: seq<string>, archs: seq<string>, versions: seq<string>)
  {
    var kept := Without(seen, Broken(seen, machine));
    && names == Without(all, Broken(seen, machine))
    && machines == Collect(machine, kept) && archs == Collect(Arch, kept) && versions == Collect(Version, kept)
  }

  lemma AfterWorking(machine: string -> string, all: seq<string>, seen: seq<string>, x: string,
                     n: seq<string>, m: seq<string>, a: seq<string>, v: seq<string>)
    requires After(machine, all, seen, n, m, a, v) && !IsOff(machine(x))
    ensures After(machine, all, seen + [x], n, Put(m, machine(x)), Put(a, Arch(x)), Put(v, Version(x)))
  {
    var kept := Without(seen, Broken(seen, machine));
    BrokenMore(seen, machine, x);
    CollectOne(machine, kept, x);
    CollectOne(Arch, kept, x);
    CollectOne(Version, kept, x);
  }

  lemma AfterBroken(machine: string -> string, all: seq<string>, seen: seq<string>, x: string,
                    n: seq<string>, m: seq<string>, a: seq<string>, v: seq<string>)
    requires After(machine, all, seen, n, m, a, v) && IsOff(machine(x))
    ensures After(machine, all, seen + [x], Without(n, {x}), m, a, v)
  {
    BrokenMore(seen, machine, x);
    WithoutTwice(all, Broken(seen, machine), {x});
  }

  class Toolchains {
    const names: List
    const machines: List
    const archs: List
    const versions: List

    ghost predicate Valid() {
      names != machines && names != archs && names != versions && machines != archs && machines != versions
      && archs != versions
    }

    /** `found` are the directories below toolchains/. */
    constructor (found: seq<string>)
      ensures Valid() && fresh(names) && fresh(machines) && fresh(archs) && fresh(versions)
      ensures names.items == found && machines.items == archs.items == versions.items == []
    {
      names := new List(found);
      machines := new List([]);
      archs := new List([]);
      versions := new List([]);
    }

    /** One pass of the loop. */
    method Visit(machine: string -> string, toolchain: string, ghost all: seq<string>, ghost seen: seq<string>)
      requires Valid() && After(machine, all, seen, names.items, machines.items, archs.items, versions.items)
      modifies names, machines, archs, versions
      ensures After(machine, all, seen + [toolchain], names.items, machines.items, archs.items, versions.items)
    {
      ghost var n, m, a, v := names.items, machines.items, archs.items, versions.items;
      if !IsOff(machine(toolchain)) {
        AfterWorking(machine, all, seen, toolchain, n, m, a, v);
        machines.Append(machine(toolchain));
        archs.Append(Arch(toolchain));
        versions.Append(Version(toolchain));
      } else {
        AfterBroken(machine, all, seen, toolchain, n, m, a, v);
        names.RemoveItem(toolchain);
      }
    }

    /** Lines 469 to 484: names are removed from the list that the loop runs over. `machine` is what
        __DETECT_TOOLCHAIN_MACHINE_NAME finds for a directory. No directory has an empty name. */
    method Build(machine: string -> string)
      requires Valid() && machines.items == archs.items == versions.items == [] && "" !in names.items
      modifies names, machines, archs, versions
      ensures names.items == Working(old(names.items), machine)
      ensures machines.items == Collect(machine, names.items)
      ensures archs.items == Collect(Arch, names.items)
      ensures versions.items == Collect(Version, names.items)
    {
      ListFilter(names, IsHidden);
      var all := names.items;
      BrokenEnds(all, machine);
      for i := 0 to |all|
        invariant After(machine, all, all[..i], names.items, machines.items, archs.items, versions.items)
      {
        Visit(machine, all[i], all, all[..i]);
        assert all[..i + 1] == all[..i] + [all[i]];
      }
    }
  }

  /** No toolchain starts with a dash and every one ends in a version. */
  ghost predicate WellNamed(names: seq<string>) {
    Total(Arch, names) && Total(Version, names)
  }

  lemma WorkingAre(found: seq<string>, machine: string -> string)
    ensures Total(machine, Working(found, machine))
  {
    var names := Working(found, machine);
    forall i | 0 <= i < |names| ensures machine(names[i]) != "" {
      WithoutHas(Filtered(found, IsHidden), Broken(Filtered(found, IsHidden), machine), names[i]);
      assert IsOff("");
    }
  }

  /** Which toolchains stay: those with a machine, and of a list that does not count as false not the hidden ones. */
  lemma WorkingExactly(found: seq<string>, machine: string -> string, x: string)
    ensures x in Working(found, machine) <==>
              x in found && !IsOff(machine(x)) && (IsOff(Join(found)) || x == "" || x[0] != '.')
  {
    var shown := Filtered(found, IsHidden);
    WithoutHas(found, Matching(found, IsHidden), x);
    WithoutHas(shown, Broken(shown, machine), x);
  }

  /** For any list of directories, repeated names included: the machines always stay aligned with the toolchains, and
      all four lists do exactly when every toolchain that stays is well named; otherwise one of them is shorter. */
  lemma ListsStayAligned(found: seq<string>, machine: string -> string)
    ensures var names := Working(found, machine);
            && Aligned(Collect(machine, names), machine, names)
            && (|Collect(Arch, names)| == |Collect(Version, names)| == |names| <==> WellNamed(names))
            && (WellNamed(names) ==>
                 Aligned(Collect(Arch, names), Arch, names) && Aligned(Collect(Version, names), Version, names))
  {
    var names := Working(found, machine);
    WorkingAre(found, machine);
    CollectAligned(machine, names);
    CollectAligned(Arch, names);
    CollectAligned(Version, names);
  }

  // ---------------------------------------------------------------------------------------------------------
  // The choice, lines 603 to 617

  const NO_VERSION := "0.0.0"

  predicate Candidate(archs: seq<string>, versions: seq<string>, wanted: string, i: int) {
    0 <= i < |archs| && archs[i] == wanted && i < |versions|
  }

  /** idx is the first of the greatest versions for the wanted architecture, or -1 if none is above 0.0.0. */
  ghost predicate Best(archs: seq<string>, versions: seq<string>, count: nat, wanted: string, idx: int) {
    && -1 <= idx < count
    && (idx == -1 ==> forall i :: Candidate(archs, versions, wanted, i) && i < count ==>
                        !VersionGreater(versions[i], NO_VERSION))
    && (idx != -1 ==>
         && Candidate(archs, versions, wanted, idx) && VersionGreater(versions[idx], NO_VERSION)
         && forall i :: Candidate(archs, versions, wanted, i) && i < count ==>
              && !VersionGreater(versions[i], versions[idx])
              && (i < idx ==> VersionGreater(versions[idx], versions[i])))
  }

  lemma BestIsUnique(archs: seq<string>, versions: seq<string>, count: nat, wanted: string, x: int, y: int)
    requires Best(archs, versions, count, wanted, x) && Best(archs, versions, count, wanted, y)
    ensures x == y
  {
    if 0 <= x && 0 <= y {
      assert Candidate(archs, versions, wanted, x) && Candidate(archs, versions, wanted, y);
    }
  }

  /** Version a beats the best one so far: it beats all that came before. */
  lemma NewBest(archs: seq<string>, versions: seq<string>, count: nat, wanted: string, idx: int)
    requires Best(archs, versions, count, wanted, idx) && Candidate(archs, versions, wanted, count)
    requires VersionGreater(versions[count], if idx == -1 then NO_VERSION else versions[idx])
    ensures Best(archs, versions, count + 1, wanted, count)
  {
    var best := if idx == -1 then NO_VERSION else versions[idx];
    var u := Numbers(versions[count], 4);
    NotItself(u);
    if idx != -1 {
      NotBoth(Numbers(best, 4), Numbers(NO_VERSION, 4));
      BeatsAll(u, Numbers(best, 4), Numbers(NO_VERSION, 4));
    }
    forall i | Candidate(archs, versions, wanted, i) && i < count
      ensures VersionGreater(versions[count], versions[i]) && !VersionGreater(versions[i], versions[count])
    {
      BeatsAll(u, Numbers(best, 4), Numbers(versions[i], 4));
      NotBoth(u, Numbers(versions[i], 4));
    }
  }

  /** Another architecture, or a version that does not beat the best. */
  lemma SameBest(archs: seq<string>, versions: seq<string>, count: nat, wanted: string, idx: int)
    requires Best(archs, versions, count, wanted, idx)
    requires Candidate(archs, versions, wanted, count) ==>
               !VersionGreater(versions[count], if idx == -1 then NO_VERSION else versions[idx])
    ensures Best(archs, versions, count + 1, wanted, idx)
  {}

  predicate Readable(archs: seq<string>, versions: seq<string>, wanted: string, i: nat) {
    i < |archs| && (archs[i] == wanted ==> i < |versions|)
  }

  /** `ok` is false when list( GET ) runs out of range. */
  method Choose(archs: seq<string>, versions: seq<string>, count: nat, wanted: string) returns (idx: int, ok: bool)
    ensures ok <==> forall i: nat :: i < count ==> Readable(archs, versions, wanted, i)
    ensures ok ==> Best(archs, versions, count, wanted, idx)
  {
    idx, ok := -1, true;
    var max := NO_VERSION;
    for i := 0 to count
      invariant ok && forall j: nat :: j < i ==> Readable(archs, versions, wanted, j)
      invariant Best(archs, versions, i, wanted, idx)
      invariant max == if idx == -1 then NO_VERSION else versions[idx]
    {
      if i >= |archs| || (archs[i] == wanted && i >= |versions|) {
        assert !Readable(archs, versions, wanted, i);
        return idx, false;
      }
      if archs[i] == wanted {
        if VersionGreater(versions[i], max) {
          NewBest(archs, versions, i, wanted, idx);
          max, idx := versions[i], i;
        } else {
          SameBest(archs, versions, i, wanted, idx);
        }
      } else {
        SameBest(archs, versions, i, wanted, idx);
      }
    }
  }

  /** The same, of the names. */
  ghost predicate BestName(names: seq<string>, wanted: string, idx: int) {
    && -1 <= idx < |names|
    && (idx == -1 ==> forall i :: 0 <= i < |names| && Arch(names[i]) == wanted ==>
                        !VersionGreater(Version(names[i]), NO_VERSION))
    && (idx != -1 ==>
         && Arch(names[idx]) == wanted && VersionGreater(Version(names[idx]), NO_VERSION)
         && forall i :: 0 <= i < |names| && Arch(names[i]) == wanted ==>
              && !VersionGreater(Version(names[i]), Version(names[idx]))
              && (i < idx ==> VersionGreater(Version(names[idx]), Version(names[i]))))
  }

  /** On aligned lists the two agree. */
  lemma BestIsBestName(names: seq<string>, archs: seq<string>, versions: seq<string>, wanted: string, idx: int)
    requires Aligned(archs, Arch, names) && Aligned(versions, Version, names)
    ensures Best(archs, versions, |names|, wanted, idx) <==> BestName(names, wanted, idx)
  {
    assert forall i :: 0 <= i < |names| ==>
      (Candidate(archs, versions, wanted, i) <==> Arch(names[i]) == wanted) && versions[i] == Version(names[i]);
  }

  /** Every name has an architecture and ends in a three-part version of its own. */
  ghost predicate ProperlyNamed(names: seq<string>) {
    forall i :: 0 <= i < |names| ==> Arch(names[i]) != "" && HasVersion(names[i])
  }

  ghost predicate HasVersion(name: string) {
    exists k :: EndsInVersion(name, k)
  }

  lemma ProperIsWell(names: seq<string>)
    requires ProperlyNamed(names)
    ensures WellNamed(names)
  {
    forall i | 0 <= i < |names| ensures Version(names[i]) != "" {
      assert HasVersion(names[i]);
      VersionExactly(names[i]);
    }
  }

  /** name[k..] is the version that `name` ends in, and no version that a name of the wanted architecture ends in is
      greater. */
  ghost predicate Newest(names: seq<string>, wanted: string, name: string, k: int) {
    && EndsInVersion(name, k)
    && forall n, j :: n in names && Arch(n) == wanted && EndsInVersion(n, j) ==> !VersionGreater(n[j..], name[k..])
  }

  /** On properly named toolchains the best is the newest. */
  lemma BestIsNewest(names: seq<string>, wanted: string, idx: int)
    requires ProperlyNamed(names) && BestName(names, wanted, idx) && idx != -1
    ensures exists k :: Newest(names, wanted, names[idx], k) && Version(names[idx]) == names[idx][k..]
  {
    var name := names[idx];
    assert HasVersion(name);
    var k :| EndsInVersion(name, k);
    OwnVersion(name, k);
    forall n, j | n in names && Arch(n) == wanted && EndsInVersion(n, j)
      ensures !VersionGreater(n[j..], name[k..])
    {
      OwnVersion(n, j);
    }
    assert Newest(names, wanted, name, k);
  }

  datatype Selection =
    | Selected(index: nat, name: string, machine: string, version: string)
    | NoToolchain     // line 486
    | NoneForArch     // line 624
    | OutOfRange      // list( GET ) of an index that is not there

  /** Lines 468 to 628 for an NDK, with no toolchain selected by an earlier run. The loop of choice reads the names that
      work and what was appended for them: it fails exactly when an entry it needs is not there, and otherwise selects
      what is best by those lists. When the toolchains that work are well named, the one selected is the first of the
      greatest version for the architecture, with its own machine and version; when they all end in three-part versions,
      it ends in one that none of the architecture surpasses. */
  method Select(found: seq<string>, machine: string -> string, wanted: string) returns (r: Selection)
    requires "" !in found
    ensures r.NoToolchain? <==> IsOff(Join(Working(found, machine)))
    ensures var names := Working(found, machine);
            var archs, versions := Collect(Arch, names), Collect(Version, names);
            && (r.OutOfRange? <==>
                 !IsOff(Join(names)) && exists i: nat :: i < |names| && !Readable(archs, versions, wanted, i))
            && (r.NoneForArch? ==> Best(archs, versions, |names|, wanted, -1))
            && (r.Selected? ==>
                 && Best(archs, versions, |names|, wanted, r.index) && r.index < |names| && r.index < |versions|
                 && r.name == names[r.index] && r.machine == machine(r.name) && r.version == versions[r.index])
    ensures WellNamed(Working(found, machine)) ==>
              && !r.OutOfRange?
              && (r.NoneForArch? ==> BestName(Working(found, machine), wanted, -1))
              && (r.Selected? ==> BestName(Working(found, machine), wanted, r.index) && r.version == Version(r.name))
    ensures ProperlyNamed(Working(found, machine)) && r.Selected? ==>
              exists k :: Newest(Working(found, machine), wanted, r.name, k) && r.version == r.name[k..]
  {
    var t := new Toolchains(found);
    t.Build(machine);
    var names := t.names.items;
    ListsStayAligned(found, machine);
    if IsOff(Join(names)) { return NoToolchain; }
    var idx, ok := Choose(t.archs.items, t.versions.items, |names|, wanted);
    if ProperlyNamed(names) { ProperIsWell(names); }
    if WellNamed(names) { BestIsBestName(names, t.archs.items, t.versions.items, wanted, idx); }
    if !ok { return OutOfRange; }
    if idx == -1 { return NoneForArch; }
    if ProperlyNamed(names) { BestIsNewest(names, wanted, idx); }
    r := Selected(idx, names[idx], t.machines.items[idx], t.versions.items[idx]);
  }

  lemma {:induction false} CollectParts(f: string -> string, a: seq<string>, b: seq<string>)
    ensures Collect(f, a + b) == Collect(f, a) + Collect(f, b)
  {
    if b == [] {
      assert a + b == a && Collect(f, b) == [];
    } else {
      var front, x := b[..|b| - 1], b[|b| - 1];
      CollectParts(f, a, front);
      assert a + b == (a + front) + [x];
      CollectOne(f, a + front, x);
    }
  }

  lemma Missing(f: string -> string, front: seq<string>, bad: string, rest: seq<string>)
    requires f(bad) == ""
    ensures Collect(f, front + [bad] + rest) == Collect(f, front) + Collect(f, rest)
  {
    CollectParts(f, front + [bad], rest);
    CollectOne(f, front, bad);
  }

  /** One toolchain without a version: what is appended is one short. */
  lemma OneShort(f: string -> string, front: seq<string>, bad: string, rest: seq<string>)
    requires Total(f, front) && f(bad) == "" && Total(f, rest)
    ensures |Collect(f, front + [bad] + rest)| == |front| + |rest|
  {
    Missing(f, front, bad, rest);
    CollectAligned(f, front);
    CollectAligned(f, rest);
  }

  lemma SecondPart(a: seq<string>, b: seq<string>, j: nat)
    requires j < |b|
    ensures (a + b)[|a| + j] == b[j]
  {}

  /** Every later toolchain is listed with what its successor gives; what the last one gives is not in its place. */
  lemma OneMissingShiftsTheRest(f: string -> string, front: seq<string>, bad: string, rest: seq<string>, j: nat)
    requires Total(f, front) && f(bad) == "" && Total(f, rest) && j < |rest|
    ensures (front + [bad] + rest)[|front| + 1 + j] == rest[j]
    ensures |Collect(f, front + [bad] + rest)| == |front| + |rest|
    ensures j + 1 < |rest| ==> Collect(f, front + [bad] + rest)[|front| + 1 + j] == f(rest[j + 1])
  {
    OneShort(f, front, bad, rest);
    SecondPart(front + [bad], rest, j);
    if j + 1 < |rest| {
      Missing(f, front, bad, rest);
      CollectAligned(f, front);
      CollectAligned(f, rest);
      SecondPart(Collect(f, front), Collect(f, rest), j + 1);
    }
  }

  // ---------------------------------------------------------------------------------------------------------
  // Names for which it goes wrong

  // arm-linux-androideabi-4.7 and mipsel-linux-android-4.4.3
  const ARM_47 := "arm" + ['-'] + ("linux-androideab" + "i-4.7")
  const MIPS_443 := "mipsel" + ['-'] + ("linux-android-" + "4.4.3")

  lemma ArmHasNoVersion()
    ensures Arch(ARM_47) == "arm" && Version(ARM_47) == ""
  {
    TailWithoutVersion("arm", "linux-androideab", "i-4.7");
  }

  lemma MipsHasVersion()
    ensures Arch(MIPS_443) == "mipsel" && Version(MIPS_443) == "4.4.3"
  {
    assert DotsAt("4.4.3", 1, 3);
    TailWithVersion("mipsel", "linux-android-", "4.4.3");
  }

  /** A toolchain of a two-part version alone: its version cannot be read. */
  lemma TwoPartsCannotBeRead()
    ensures !Readable(Collect(Arch, [ARM_47]), Collect(Version, [ARM_47]), "arm", 0)
  {
    ArmHasNoVersion();
    var none: seq<string> := [];
    assert none + [ARM_47] == [ARM_47];
    CollectOne(Arch, none, ARM_47);
    CollectOne(Version, none, ARM_47);
  }

  /** Together with one for another architecture: it is selected, with the version of the other. */
  lemma TwoPartsGetAnothersVersion()
    ensures var names := [ARM_47, MIPS_443];
            var archs, versions := Collect(Arch, names), Collect(Version, names);
            && archs == ["arm", "mipsel"] && versions == ["4.4.3"]
            && (forall i: nat :: i < 2 ==> Readable(archs, versions, "arm", i))
            && Best(archs, versions, 2, "arm", 0)
  {
    ArmHasNoVersion();
    MipsHasVersion();
    var none: seq<string> := [];
    assert none + [ARM_47] == [ARM_47] && [ARM_47] + [MIPS_443] == [ARM_47, MIPS_443];
    CollectOne(Arch, none, ARM_47);
    CollectOne(Version, none, ARM_47);
    CollectOne(Arch, [ARM_47], MIPS_443);
    CollectOne(Version, [ARM_47], MIPS_443);
    AboveNone();
    NotItself(Numbers("4.4.3", 4));
  }

  lemma AboveNone()
    ensures VersionGreater("4.4.3", NO_VERSION)
  {
    assert "4.4.3" == "4" + ['.'] + ("4" + ['.'] + "3") && NO_VERSION == "0" + ['.'] + ("0" + ['.'] + "0");
    ThreeNumbers("4", "4", "3");
    ThreeNumbers("0", "0", "0");
    assert Value("4") == 4 && Value("0") == 0 by { assert "4"[..0] == "" && "0"[..0] == ""; }
  }

  /** A hidden directory that the filter leaves in the list. */
  lemma HiddenNotFoundStays()
    ensures var name := ".svn" + NOT_FOUND; IsHidden(name) && Filtered([name], IsHidden) == [name]
  {
    NotFoundIsOff(".svn");
  }
}
