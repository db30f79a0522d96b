/**
 CMake lists as the toolchain file uses them: truth values, __LIST_FILTER, and the four parallel lists that describe the
 toolchains of an NDK (cmake/android.toolchain.cmake). No element contains a semicolon.
*/
module ToolchainLists {
  // ---------------------------------------------------------------------------------------------------------
  // Truth values

  function UpperChar(c: char): char {
    if 'a' <= c <= 'z' then (c as int - 32) as char else c
  }

  function Upper(s: string): (r: string)
    ensures |r| == |s| && forall i :: 0 <= i < |s| ==> r[i] == UpperChar(s[i])
  {
    seq(|s|, i requires 0 <= i < |s| => UpperChar(s[i]))
  }

  predicate EndsWith(s: string, suffix: string) {
    |suffix| <= |s| && s[|s| - |suffix|..] == suffix
  }

  predicate IsConstant(v: string) {
    v == "" || v == "0" || v == "OFF" || v == "NO" || v == "FALSE" || v == "N" || v == "IGNORE" || v == "NOTFOUND"
  }

  /** What if( <variable> ) takes for false. */
  predicate IsOff(s: string) {
    IsConstant(Upper(s)) || EndsWith(Upper(s), "-NOTFOUND")
  }

  /** A letter may be small where the text has its capital. */
  predicate Spelled(s: string, text: string) {
    |s| == |text|
    && forall i :: 0 <= i < |s| ==> s[i] == text[i] || ('A' <= text[i] <= 'Z' && s[i] as int == text[i] as int + 32)
  }

  lemma UpperIs(s: string, text: string)
    requires forall i :: 0 <= i < |text| ==> !('a' <= text[i] <= 'z')
    ensures Upper(s) == text <==> Spelled(s, text)
  {
    if Spelled(s, text) { assert Upper(s) == text; }
    if Upper(s) == text {
      forall i | 0 <= i < |s|
        ensures s[i] == text[i] || ('A' <= text[i] <= 'Z' && s[i] as int == text[i] as int + 32)
      {
        assert UpperChar(s[i]) == text[i];
      }
    }
  }

  lemma UpperEndsWith(s: string, suffix: string)
    requires forall i :: 0 <= i < |suffix| ==> !('a' <= suffix[i] <= 'z')
    ensures EndsWith(Upper(s), suffix) <==> |suffix| <= |s| && Spelled(s[|s| - |suffix|..], suffix)
  {
    if |suffix| <= |s| {
      var tail := s[|s| - |suffix|..];
      UpperIs(tail, suffix);
      assert Upper(s)[|s| - |suffix|..] == Upper(tail);
    }
  }

  lemma ShortConstants(s: string)
    ensures Upper(s) == "" <==> s == ""
    ensures Upper(s) == "0" <==> Spelled(s, "0")
    ensures Upper(s) == "N" <==> Spelled(s, "N")
    ensures Upper(s) == "NO" <==> Spelled(s, "NO")
    ensures Upper(s) == "OFF" <==> Spelled(s, "OFF")
  {
    UpperIs(s, "0");
    UpperIs(s, "N");
    UpperIs(s, "NO");
    UpperIs(s, "OFF");
  }

  lemma LongConstants(s: string)
    ensures Upper(s) == "FALSE" <==> Spelled(s, "FALSE")
    ensures Upper(s) == "IGNORE" <==> Spelled(s, "IGNORE")
    ensures Upper(s) == "NOTFOUND" <==> Spelled(s, "NOTFOUND")
  {
    UpperIs(s, "FALSE");
    UpperIs(s, "IGNORE");
    UpperIs(s, "NOTFOUND");
  }

  lemma NotFoundSuffix(s: string)
    ensures EndsWith(Upper(s), "-NOTFOUND") <==> |s| >= 9 && Spelled(s[|s| - 9..], "-NOTFOUND")
  {
    UpperEndsWith(s, "-NOTFOUND");
  }

  /** The false values, letter by letter. */
  lemma OffExactly(s: string)
    ensures IsOff(s) <==>
              || s == "" || Spelled(s, "0") || Spelled(s, "OFF") || Spelled(s, "NO") || Spelled(s, "FALSE")
              || Spelled(s, "N") || Spelled(s, "IGNORE") || Spelled(s, "NOTFOUND")
              || (|s| >= 9 && Spelled(s[|s| - 9..], "-NOTFOUND"))
  {
    ShortConstants(s);
    LongConstants(s);
    NotFoundSuffix(s);
  }

  /** The value of a list variable. */
  function Join(items: seq<string>): string {
    if items == [] then ""
    else if |items| == 1 then items[0]
    else Join(items[..|items| - 1]) + ";" + items[|items| - 1]
  }

  lemma UpperJoined(front: string, last: string)
    ensures Upper(front + ";" + last) == Upper(front) + ";" + Upper(last)
  {}

  /** A suffix without a semicolon lies in the last element. */
  lemma SuffixStaysInLast(front: string, last: string, suffix: string)
    requires ';' !in suffix
    ensures EndsWith(front + ";" + last, suffix) <==> EndsWith(last, suffix)
  {
    var s, n := front + ";" + last, |suffix|;
    if n <= |last| {
      assert s[|s| - n..] == last[|last| - n..];
    } else if n <= |s| {
      assert s[|s| - n..][n - |last| - 1] == ';';
    }
  }

  lemma NoConstantHas(front: string, last: string)
    ensures !IsConstant(front + ";" + last)
  {
    assert (front + ";" + last)[|front|] == ';';
  }

  lemma ManyAreOff(front: string, last: string)
    ensures IsOff(front + ";" + last) <==> EndsWith(Upper(last), "-NOTFOUND")
  {
    UpperJoined(front, last);
    NoConstantHas(Upper(front), Upper(last));
    SuffixStaysInLast(Upper(front), Upper(last), "-NOTFOUND");
  }

  /** When a list counts as false: it is empty, its only element is a false constant, or its last element ends in
      -NOTFOUND. */
  lemma ListIsOff(items: seq<string>)
    ensures IsOff(Join(items)) <==>
              items == [] || (|items| == 1 && IsOff(items[0]))
              || EndsWith(Upper(items[|items| - 1]), "-NOTFOUND")
  {
    if |items| >= 2 {
      ManyAreOff(Join(items[..|items| - 1]), items[|items| - 1]);
    } else if items == [] {
      assert Upper("") == "";
    }
  }

  // ---------------------------------------------------------------------------------------------------------
  // Removing

  /** The items that are not in `gone`, in order. */
  function Without(items: seq<string>, gone: set<string>): seq<string> {
    if items == [] then []
    else if items[|items| - 1] in gone then Without(items[..|items| - 1], gone)
    else Without(items[..|items| - 1], gone) + [items[|items| - 1]]
  }

  /** Items go or stay one by one. */
  lemma {:induction false} WithoutParts(a: seq<string>, x: string, b: seq<string>, gone: set<string>)
    ensures Without(a + b, gone) == Without(a, gone) + Without(b, gone)
    ensures Without([x], gone) == if x in gone then [] else [x]
    ensures Without([], gone) == []
  {
    assert [x][..0] == [];
    if b == [] {
      assert a + b == a;
    } else {
      WithoutParts(a, x, b[..|b| - 1], gone);
      assert (a + b)[..|a + b| - 1] == a + b[..|b| - 1];
    }
  }

  lemma {:induction false} WithoutTwice(items: seq<string>, a: set<string>, b: set<string>)
    ensures Without(Without(items, a), b) == Without(items, a + b)
  {
    if items != [] {
      var front, last := items[..|items| - 1], items[|items| - 1];
      WithoutTwice(front, a, b);
      var kept := Without(front, a);
      if last !in a { assert (kept + [last])[..|kept|] == kept; }
    }
  }

  lemma {:induction false} WithoutNone(items: seq<string>, gone: set<string>)
    requires forall x :: x in items ==> x !in gone
    ensures Without(items, gone) == items
  {
    if items != [] {
      WithoutNone(items[..|items| - 1], gone);
      assert items == items[..|items| - 1] + [items[|items| - 1]];
    }
  }

  lemma {:induction false} WithoutHas(items: seq<string>, gone: set<string>, x: string)
    ensures x in Without(items, gone) <==> x in items && x !in gone
  {
    if items != [] {
      WithoutHas(items[..|items| - 1], gone, x);
      assert items == items[..|items| - 1] + [items[|items| - 1]];
    }
  }

  lemma {:induction false} WithoutAgrees(items: seq<string>, a: set<string>, b: set<string>)
    requires forall x :: x in items ==> (x in a <==> x in b)
    ensures Without(items, a) == Without(items, b)
  {
    if items != [] {
      WithoutAgrees(items[..|items| - 1], a, b);
    }
  }

  /** Appending an unquoted value: an empty one appends nothing. */
  function Put(items: seq<string>, value: string): seq<string> {
    if value == "" then items else items + [value]
  }

  /** A list variable. */
  class List {
    var items: seq<string>

    constructor (items: seq<string>)
      ensures this.items == items
    {
      this.items := items;
    }

    /** list( APPEND ) */
    method Append(value: string)
      modifies this
      ensures items == Put(old(items), value)
    {
      if value != "" { items := items + [value]; }
    }

    /** list( REMOVE_ITEM ) */
    method RemoveItem(value: string)
      modifies this
      ensures items == Without(old(items), {value})
    {
      var i, kept := 0, [];
      assert items[..0] == [];
      while i < |items|
        invariant 0 <= i <= |items| && kept == Without(items[..i], {value})
        invariant items == old(items)
      {
        assert items[..i + 1][..i] == items[..i];
        if items[i] != value { kept := kept + [items[i]]; }
        i := i + 1;
      }
      assert items[..i] == items;
      items := kept;
    }
  }

  // ---------------------------------------------------------------------------------------------------------
  // __LIST_FILTER

  /** The elements the filter removes. foreach skips empty elements. */
  ghost function Matching(items: seq<string>, matches: string -> bool): set<string> {
    set x | x in items && x != "" && matches(x)
  }

  ghost function Filtered(items: seq<string>, matches: string -> bool): seq<string> {
    if IsOff(Join(items)) then items else Without(items, Matching(items, matches))
  }

  /** `gone` are the matches among the elements already visited. */
  ghost predicate Seen(items: seq<string>, matches: string -> bool, gone: set<string>) {
    gone == Matching(items, matches)
  }

  lemma SeenMore(items: seq<string>, matches: string -> bool, gone: set<string>, x: string)
    requires Seen(items, matches, gone)
    ensures Seen(items + [x], matches, if x != "" && matches(x) then gone + {x} else gone)
  {}

  /** __LIST_FILTER removes from the list that it runs over. */
  method ListFilter(list: List, matches: string -> bool)
    modifies list
    ensures list.items == Filtered(old(list.items), matches)
  {
    if IsOff(Join(list.items)) { return; }
    var values := list.items;
    ghost var gone := {};
    WithoutNone(values, gone);
    for i := 0 to |values|
      invariant list.items == Without(values, gone) && Seen(values[..i], matches, gone)
    {
      SeenMore(values[..i], matches, gone, values[i]);
      assert values[..i + 1] == values[..i] + [values[i]];
      if values[i] != "" && matches(values[i]) {
        list.RemoveItem(values[i]);
        WithoutTwice(values, gone, {values[i]});
        gone := gone + {values[i]};
      }
    }
    assert values[..|values|] == values;
  }

  /** A match is left after filtering exactly when the list counted as false: when its only element is a match and a
      false constant, or it has a match and its last element ends in -NOTFOUND. Nothing else is ever removed. */
  lemma FilterLeavesMatch(items: seq<string>, matches: string -> bool)
    ensures (exists x :: x in Filtered(items, matches) && x != "" && matches(x)) <==>
              && (exists x :: x in items && x != "" && matches(x))
              && ((|items| == 1 && IsOff(items[0])) || EndsWith(Upper(items[|items| - 1]), "-NOTFOUND"))
    ensures forall x :: x in items && !matches(x) ==> x in Filtered(items, matches)
  {
    ListIsOff(items);
    forall x ensures x in Without(items, Matching(items, matches)) <==> x in items && (x == "" || !matches(x)) {
      WithoutHas(items, Matching(items, matches), x);
    }
  }

  const NOT_FOUND := "-NOTFOUND"

  lemma NotFoundIsOff(s: string)
    ensures IsOff(s + NOT_FOUND)
  {
    assert Upper(NOT_FOUND) == NOT_FOUND;
    var u := Upper(s + NOT_FOUND);
    assert forall i :: 0 <= i < |NOT_FOUND| ==>
             u[|s| + i] == UpperChar((s + NOT_FOUND)[|s| + i]) == Upper(NOT_FOUND)[i];
    assert u[|u| - |NOT_FOUND|..] == NOT_FOUND;
  }
}
