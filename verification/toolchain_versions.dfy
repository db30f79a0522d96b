/** What a toolchain's name says, and how CMake compares versions (cmake/android.toolchain.cmake:476-477, 612). */
module ToolchainVersions {
  predicate IsDigit(c: char) {
    '0' <= c <= '9'
  }

  /** "^[^-]+", or empty if the name starts with a dash. */
  function Arch(name: string): string {
    if name == "" || name[0] == '-' then "" else [name[0]] + Arch(name[1..])
  }

  /** The name without its architecture is empty or starts with a dash, and no dash is in the architecture. */
  lemma {:induction false} ArchIs(name: string)
    ensures Arch(name) <= name && '-' !in Arch(name)
    ensures Arch(name) == name || name[|Arch(name)|] == '-'
    ensures Arch(name) == "" <==> name == "" || name[0] == '-'
  {
    if name != "" && name[0] != '-' {
      ArchIs(name[1..]);
      assert name == [name[0]] + name[1..];
    }
  }

  /** Digits, but for the characters at a and b. */
  predicate Separated(s: string, a: int, b: int) {
    forall k :: 0 <= k < |s| && k != a && k != b ==> IsDigit(s[k])
  }

  /** "[0-9]+.[0-9]+.[0-9]+": the separators may be any character, digits included. */
  predicate IsVersion(s: string) {
    exists a, b :: 0 < a < |s| && a + 1 < b < |s| - 1 && Separated(s, a, b)
  }

  predicate DigitString(s: string) {
    s != "" && forall i :: 0 <= i < |s| ==> s[i] in "0123456789"
  }

  lemma DigitsAre(c: char)
    ensures IsDigit(c) <==> c in "0123456789"
  {
    var ten := "0123456789";
    if IsDigit(c) { assert ten[c as int - '0' as int] == c; }
  }

  ghost predicate InParts(s: string, a: string, x: char, b: string, y: char, c: string) {
    DigitString(a) && DigitString(b) && DigitString(c) && s == a + [x] + b + [y] + c
  }

  /** The expression, part by part: digits, any character, digits, any character, digits. */
  lemma VersionParts(s: string)
    ensures IsVersion(s) <==> exists a, x, b, y, c :: InParts(s, a, x, b, y, c)
  {
    forall c ensures IsDigit(c) <==> c in "0123456789" { DigitsAre(c); }
    if IsVersion(s) {
      var i, j :| 0 < i < |s| && i + 1 < j < |s| - 1 && Separated(s, i, j);
      assert InParts(s, s[..i], s[i], s[i + 1..j], s[j], s[j + 1..]);
    }
    if a, x, b, y, c :| InParts(s, a, x, b, y, c) {
      PartsSeparate(s, a, x, b, y, c);
    }
  }

  lemma PartsSeparate(s: string, a: string, x: char, b: string, y: char, c: string)
    requires InParts(s, a, x, b, y, c)
    ensures IsVersion(s)
  {
    var i, j := |a|, |a| + 1 + |b|;
    forall k | 0 <= k < |s| && k != i && k != j ensures IsDigit(s[k]) {
      DigitsAre(s[k]);
      assert s[k] == if k < i then a[k] else if k < j then b[k - i - 1] else c[k - j - 1];
    }
    assert Separated(s, i, j);
  }

  /** The leftmost match that runs to the end of the name, or empty. */
  function Version(name: string): string {
    if name == "" then "" else if IsVersion(name) then name else Version(name[1..])
  }

  /** The version is the longest suffix that matches. */
  lemma {:induction false} VersionIs(name: string)
    ensures |Version(name)| <= |name| && name[|name| - |Version(name)|..] == Version(name)
    ensures Version(name) == "" || IsVersion(Version(name))
    ensures forall i :: 0 <= i <= |name| && IsVersion(name[i..]) ==> |name| - i <= |Version(name)|
  {
    if name != "" && !IsVersion(name) {
      var rest := name[1..];
      VersionIs(rest);
      assert name[0..] == name;
      forall i | 0 <= i <= |name| && IsVersion(name[i..]) ensures |name| - i <= |Version(name)| {
        if i > 0 { assert rest[i - 1..] == name[i..]; }
      }
    }
  }

  // ---------------------------------------------------------------------------------------------------------
  // When the version is the name's own

  /** Three numbers with dots between them. */
  predicate DotsAt(s: string, a: int, b: int) {
    0 < a && a + 1 < b < |s| - 1 && Separated(s, a, b) && s[a] == '.' && s[b] == '.'
  }

  predicate Dotted(s: string) {
    exists a, b :: 0 < a < |s| && a + 1 < b < |s| && DotsAt(s, a, b)
  }

  /** From i on the name is a three-part version that no digit precedes. */
  predicate EndsInVersion(name: string, i: int) {
    0 <= i <= |name| && Dotted(name[i..]) && (i == 0 || !IsDigit(name[i - 1]))
  }

  lemma DottedIsVersion(s: string)
    requires Dotted(s)
    ensures IsVersion(s)
  {
    var a, b :| 0 < a < |s| && a + 1 < b < |s| && DotsAt(s, a, b);
    assert Separated(s, a, b);
  }

  /** One more digit in front of a match is a longer match. */
  lemma DigitInFront(s: string, c: char)
    requires IsVersion(s) && IsDigit(c)
    ensures IsVersion([c] + s)
  {
    var a, b :| 0 < a < |s| && a + 1 < b < |s| - 1 && Separated(s, a, b);
    var t := [c] + s;
    assert forall k :: 1 <= k < |t| ==> t[k] == s[k - 1];
    assert Separated(t, a + 1, b + 1);
  }

  lemma LongerMatch(name: string, v: int)
    requires 0 < v <= |name| && IsVersion(name[v..]) && IsDigit(name[v - 1])
    ensures IsVersion(name[v - 1..])
  {
    DigitInFront(name[v..], name[v - 1]);
    assert name[v - 1..] == [name[v - 1]] + name[v..];
  }

  /** A match has room for two characters that are not digits. */
  lemma ThreeSeparators(s: string, x: int, y: int, z: int)
    requires 0 <= x < y < z < |s| && !IsDigit(s[x]) && !IsDigit(s[y]) && !IsDigit(s[z])
    ensures !IsVersion(s)
  {
    forall a, b ensures !Separated(s, a, b) {
      if x != a && x != b {
        assert !IsDigit(s[x]);
      } else if y != a && y != b {
        assert !IsDigit(s[y]);
      } else {
        assert !IsDigit(s[z]);
      }
    }
  }

  /** No longer suffix matches: it has the two dots and the character before the version. */
  lemma NothingLonger(name: string, i: int, v: int)
    requires EndsInVersion(name, i) && 0 <= v < i
    ensures !IsVersion(name[v..])
  {
    var s, t := name[v..], name[i..];
    var c, d :| 0 < c < |t| && c + 1 < d < |t| && DotsAt(t, c, d);
    assert s[i - v + c] == t[c] && s[i - v + d] == t[d] && s[i - v - 1] == name[i - 1];
    ThreeSeparators(s, i - v - 1, i - v + c, i - v + d);
  }

  lemma OwnVersion(name: string, i: int)
    requires EndsInVersion(name, i)
    ensures Version(name) == name[i..]
  {
    var v := |name| - |Version(name)|;
    VersionIs(name);
    DottedIsVersion(name[i..]);
    if v < i { NothingLonger(name, i, v); }
  }

  /** What the expression catches is a three-part version if and only if the name ends in one that no digit precedes;
      and then it is that one. */
  lemma VersionExactly(name: string)
    ensures Dotted(Version(name)) <==> exists i :: EndsInVersion(name, i)
    ensures forall i :: EndsInVersion(name, i) ==> Version(name) == name[i..]
  {
    forall i | EndsInVersion(name, i) ensures Version(name) == name[i..] { OwnVersion(name, i); }
    if Dotted(Version(name)) {
      var v := |name| - |Version(name)|;
      VersionIs(name);
      if v > 0 && IsDigit(name[v - 1]) {
        DottedIsVersion(name[v..]);
        LongerMatch(name, v);
      }
      assert EndsInVersion(name, v);
    }
  }

  /** Three characters among the last five that are not digits: nothing matches. */
  lemma NoVersion(name: string, x: int, y: int, z: int)
    requires 0 <= |name| - 5 <= x < y < z < |name|
    requires !IsDigit(name[x]) && !IsDigit(name[y]) && !IsDigit(name[z])
    ensures Version(name) == ""
  {
    VersionIs(name);
    var v := |name| - |Version(name)|;
    if |Version(name)| >= 5 {
      ThreeSeparators(name[v..], x - v, y - v, z - v);
    }
  }

  lemma {:induction false} ArchBeforeDash(arch: string, rest: string)
    requires '-' !in arch
    ensures Arch(arch + ['-'] + rest) == arch
  {
    if arch != "" {
      assert (arch + ['-'] + rest)[1..] == arch[1..] + ['-'] + rest;
      ArchBeforeDash(arch[1..], rest);
      assert arch == [arch[0]] + arch[1..];
    }
  }

  /** Names of the form arch-middle with a tail of five characters that match nothing. */
  lemma TailWithoutVersion(arch: string, middle: string, tail: string)
    requires '-' !in arch && |tail| == 5 && !IsDigit(tail[0]) && !IsDigit(tail[1]) && !IsDigit(tail[3])
    ensures Arch(arch + ['-'] + (middle + tail)) == arch && Version(arch + ['-'] + (middle + tail)) == ""
  {
    var name := arch + ['-'] + (middle + tail);
    ArchBeforeDash(arch, middle + tail);
    assert name[|name| - 5] == tail[0] && name[|name| - 4] == tail[1] && name[|name| - 2] == tail[3];
    NoVersion(name, |name| - 5, |name| - 4, |name| - 2);
  }

  /** And with a tail that is a three-part version. */
  lemma TailWithVersion(arch: string, middle: string, tail: string)
    requires '-' !in arch && middle != "" && !IsDigit(middle[|middle| - 1]) && Dotted(tail)
    ensures Arch(arch + ['-'] + (middle + tail)) == arch && Version(arch + ['-'] + (middle + tail)) == tail
  {
    var name, i := arch + ['-'] + (middle + tail), |arch| + 1 + |middle|;
    ArchBeforeDash(arch, middle + tail);
    assert name[i..] == tail && name[i - 1] == middle[|middle| - 1];
    OwnVersion(name, i);
  }

  // ---------------------------------------------------------------------------------------------------------
  // VERSION_GREATER

  function LeadingDigits(s: string): (n: nat)
    ensures n <= |s|
  {
    if s == "" || !IsDigit(s[0]) then 0 else 1 + LeadingDigits(s[1..])
  }

  function Value(digits: string): int {
    if digits == "" then 0
    else 10 * Value(digits[..|digits| - 1]) + (digits[|digits| - 1] as int - '0' as int)
  }

  /** How a number is written. */
  function Decimal(n: nat): string {
    if n < 10 then [Digit(n)] else Decimal(n / 10) + [Digit(n % 10)]
  }

  function Digit(d: nat): char
    requires d < 10
  {
    "0123456789"[d]
  }

  /** A number in decimal counts as that number, leading zeros or not. */
  lemma {:induction false} ValueOfDecimal(n: nat, zeros: string)
    requires forall i :: 0 <= i < |zeros| ==> zeros[i] == '0'
    ensures Value(zeros + Decimal(n)) == n && AllDigits(zeros + Decimal(n))
  {
    var s := zeros + Decimal(n);
    assert s[|s| - 1] == Digit(n % 10);
    if n < 10 {
      ValueOfZeros(zeros);
      assert s[..|s| - 1] == zeros;
    } else {
      ValueOfDecimal(n / 10, zeros);
      assert s[..|s| - 1] == zeros + Decimal(n / 10);
    }
  }

  lemma {:induction false} ValueOfZeros(zeros: string)
    requires forall i :: 0 <= i < |zeros| ==> zeros[i] == '0'
    ensures Value(zeros) == 0
  {
    if zeros != "" { ValueOfZeros(zeros[..|zeros| - 1]); }
  }

  /** Up to n numbers with dots between them, padded with zeros: what does not parse counts as absent. */
  function Numbers(s: string, n: nat): (r: seq<int>)
    ensures |r| == n
    decreases |s|
  {
    if n == 0 then []
    else
      var d := LeadingDigits(s);
      if d == 0 then seq(n, i => 0)
      else if d < |s| && s[d] == '.' then [Value(s[..d])] + Numbers(s[d + 1..], n - 1)
      else [Value(s[..d])] + seq(n - 1, i => 0)
  }

  predicate AllDigits(s: string) {
    s != "" && forall i :: 0 <= i < |s| ==> IsDigit(s[i])
  }

  lemma {:induction false} LeadingDigitsAre(digits: string, rest: string)
    requires forall i :: 0 <= i < |digits| ==> IsDigit(digits[i])
    requires rest == "" || !IsDigit(rest[0])
    ensures LeadingDigits(digits + rest) == |digits|
  {
    if digits == "" {
      assert digits + rest == rest;
    } else {
      assert (digits + rest)[1..] == digits[1..] + rest;
      LeadingDigitsAre(digits[1..], rest);
    }
  }

  lemma LastNumber(a: string, n: nat)
    requires AllDigits(a) && n > 0
    ensures Numbers(a, n) == [Value(a)] + seq(n - 1, i => 0)
  {
    LeadingDigitsAre(a, "");
    assert a + "" == a && a[..|a|] == a;
  }

  lemma NumberBeforeDot(a: string, rest: string, n: nat)
    requires AllDigits(a) && n > 0
    ensures Numbers(a + ['.'] + rest, n) == [Value(a)] + Numbers(rest, n - 1)
  {
    var s := a + ['.'] + rest;
    assert s == a + (['.'] + rest);
    LeadingDigitsAre(a, ['.'] + rest);
    assert s[..|a|] == a && s[|a| + 1..] == rest;
  }

  /** The numbers end where the text does, and at any character but a dot; what does not begin with a digit has none. */
  lemma NumbersEnd(a: string, rest: string, n: nat)
    requires AllDigits(a) && n > 0 && (rest == "" || (rest[0] !in "0123456789" && rest[0] != '.'))
    ensures Numbers(a + rest, n) == [Value(a)] + seq(n - 1, i => 0)
    ensures Numbers(rest, n) == seq(n, i => 0)
  {
    if rest != "" { DigitsAre(rest[0]); }
    LeadingDigitsAre(a, rest);
    assert (a + rest)[..|a|] == a;
  }

  /** A three-part version counts as its three numbers. */
  lemma ThreeNumbers(a: string, b: string, c: string)
    requires AllDigits(a) && AllDigits(b) && AllDigits(c)
    ensures Numbers(a + ['.'] + (b + ['.'] + c), 4) == [Value(a), Value(b), Value(c), 0]
  {
    NumberBeforeDot(a, b + ['.'] + c, 4);
    NumberBeforeDot(b, c, 3);
    LastNumber(c, 2);
  }

  /** The three numbers of a three-part version. */
  lemma PartsOf(s: string) returns (a: string, b: string, c: string)
    requires Dotted(s)
    ensures AllDigits(a) && AllDigits(b) && AllDigits(c) && s == a + ['.'] + (b + ['.'] + c)
  {
    var x, y :| 0 < x < |s| && x + 1 < y < |s| && DotsAt(s, x, y);
    a, b, c := s[..x], s[x + 1..y], s[y + 1..];
  }

  predicate Greater(u: seq<int>, v: seq<int>)
    requires |u| == |v|
  {
    u != [] && (u[0] > v[0] || (u[0] == v[0] && Greater(u[1..], v[1..])))
  }

  predicate VersionGreater(a: string, b: string) {
    Greater(Numbers(a, 4), Numbers(b, 4))
  }

  /** Versions of three parts compare by their first, then their second, then their third number. */
  lemma ThreePartOrder(s: string, t: string) returns (x: seq<int>, y: seq<int>)
    requires Dotted(s) && Dotted(t)
    ensures |x| == |y| == 3 && Numbers(s, 4) == x + [0] && Numbers(t, 4) == y + [0]
    ensures VersionGreater(s, t) <==>
              x[0] > y[0] || (x[0] == y[0] && (x[1] > y[1] || (x[1] == y[1] && x[2] > y[2])))
  {
    var a, b, c := PartsOf(s);
    var d, e, f := PartsOf(t);
    ThreeNumbers(a, b, c);
    ThreeNumbers(d, e, f);
    x, y := [Value(a), Value(b), Value(c)], [Value(d), Value(e), Value(f)];
    GreaterOfFour(Value(a), Value(b), Value(c), Value(d), Value(e), Value(f));
  }

  lemma GreaterOfFour(a: int, b: int, c: int, d: int, e: int, f: int)
    ensures Greater([a, b, c, 0], [d, e, f, 0]) <==> a > d || (a == d && (b > e || (b == e && c > f)))
  {
    NotItself([0]);
    GreaterCons(c, [0], f, [0]);
    assert [c] + [0] == [c, 0] && [f] + [0] == [f, 0];
    GreaterCons(b, [c, 0], e, [f, 0]);
    assert [b] + [c, 0] == [b, c, 0] && [e] + [f, 0] == [e, f, 0];
    GreaterCons(a, [b, c, 0], d, [e, f, 0]);
    assert [a] + [b, c, 0] == [a, b, c, 0] && [d] + [e, f, 0] == [d, e, f, 0];
  }

  lemma GreaterCons(a: int, u: seq<int>, b: int, v: seq<int>)
    requires |u| == |v|
    ensures Greater([a] + u, [b] + v) <==> a > b || (a == b && Greater(u, v))
  {
    assert ([a] + u)[1..] == u && ([b] + v)[1..] == v;
  }

  /** What beats the best beats everything that does not beat the best. */
  lemma {:induction false} BeatsAll(u: seq<int>, best: seq<int>, v: seq<int>)
    requires |u| == |best| == |v| && Greater(u, best) && !Greater(v, best)
    ensures Greater(u, v)
  {
    if u[0] == best[0] == v[0] { BeatsAll(u[1..], best[1..], v[1..]); }
  }

  lemma {:induction false} NotBoth(u: seq<int>, v: seq<int>)
    requires |u| == |v| && Greater(u, v)
    ensures !Greater(v, u)
  {
    if u[0] == v[0] { NotBoth(u[1..], v[1..]); }
  }

  lemma {:induction false} NotItself(u: seq<int>)
    ensures !Greater(u, u)
  {
    if u != [] { NotItself(u[1..]); }
  }

  lemma VersionOfX86()
    ensures Version("x86-4.7") == "86-4.7"
  {
    var s, v := "x86-4.7", "86-4.7";
    assert !IsVersion(s) by {
      forall a, b | 0 < a < |s| && a + 1 < b < |s| - 1 ensures !Separated(s, a, b) {
        assert !IsDigit(s[0]);
      }
    }
    assert s[1..] == v && Separated(v, 2, 4);
  }

  lemma ArchOfX86()
    ensures Arch("x86-4.7") == "x86"
  {
    var s := "x86-4.7";
    assert s[1..] == "86-4.7" && s[1..][1..] == "6-4.7" && s[1..][1..][1..] == "-4.7";
  }

  lemma MajorOf86()
    ensures Numbers("86-4.7", 4)[0] == 86
  {
    var v := "86-4.7";
    assert v[1..] == "6-4.7" && v[1..][1..] == "-4.7";
    assert v[..2] == "86" && "86"[..1] == "8";
    assert Value("8") == 8;
  }

  /** A two-part version behind a digit counts as three parts: the 86 of x86 becomes the major version, greater than any
      the other names have. */
  lemma TwoPartsBehindX86(other: string)
    requires Numbers(other, 4)[0] < 86
    ensures Arch("x86-4.7") == "x86" && VersionGreater(Version("x86-4.7"), other)
  {
    VersionOfX86();
    ArchOfX86();
    MajorOf86();
  }
}
