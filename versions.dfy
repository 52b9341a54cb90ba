/**
 * Version strings made of decimal digits and dots ("5.3", "7.2.10"), and
 * the ordering PHP's `version_compare` gives them: components compared as
 * natural numbers from the left, the first difference deciding, and a
 * version that is a proper prefix of another ranked below it ("5.3" is
 * below "5.3.0"; no zero padding).
 */
module Versions {
  import opened Wrappers

  datatype Ordering = Less | Equal | Greater {
    function Flip(): Ordering {
      match this
      case Less => Greater
      case Equal => Equal
      case Greater => Less
    }
  }

  predicate IsDigit(c: char) {
    '0' <= c <= '9'
  }

  predicate AllDigits(s: string) {
    forall i :: 0 <= i < |s| ==> IsDigit(s[i])
  }

  /** The natural number a run of decimal digits denotes (leading zeros allowed). */
  function DigitsValue(s: string): nat
    requires AllDigits(s)
  {
    if s == [] then 0
    else DigitsValue(s[..|s| - 1]) * 10 + (s[|s| - 1] as int - '0' as int)
  }

  /** The pieces of `s` between dots; there is always one more piece than there are dots. */
  function Split(s: string): (parts: seq<string>)
    ensures |parts| >= 1
    ensures forall i :: 0 <= i < |parts| ==> '.' !in parts[i]
  {
    if s == [] then [[]]
    else
      var rest := Split(s[1..]);
      if s[0] == '.' then [[]] + rest else [[s[0]] + rest[0]] + rest[1..]
  }

  /** The pieces joined back with dots between them. */
  function Join(parts: seq<string>): string
    requires |parts| >= 1
  {
    if |parts| == 1 then parts[0] else parts[0] + "." + Join(parts[1..])
  }

  /** Splitting then joining gives the string back. */
  lemma {:induction false} JoinSplit(s: string)
    ensures Join(Split(s)) == s
  {
    if s != [] {
      JoinSplit(s[1..]);
      var rest := Split(s[1..]);
      if s[0] == '.' {
        assert Split(s)[1..] == rest;
      } else {
        if |rest| == 1 {
          assert Join(Split(s)) == [s[0]] + rest[0];
        } else {
          assert Split(s)[1..] == rest[1..];
          assert Join(rest) == rest[0] + "." + Join(rest[1..]);
        }
      }
    }
  }

  /** Joining dot-free pieces then splitting gives the pieces back. */
  lemma {:induction false} SplitJoin(parts: seq<string>)
    requires |parts| >= 1
    requires forall i :: 0 <= i < |parts| ==> '.' !in parts[i]
    ensures Split(Join(parts)) == parts
  {
    if |parts| == 1 {
      SplitDotFree(parts[0]);
    } else {
      SplitJoin(parts[1..]);
      SplitPrefix(parts[0], Join(parts[1..]));
      assert parts == [parts[0]] + parts[1..];
    }
  }

  lemma {:induction false} SplitDotFree(s: string)
    requires '.' !in s
    ensures Split(s) == [s]
  {
    if s != [] {
      assert '.' !in s[1..] by {
        forall i | 0 <= i < |s[1..]| ensures s[1..][i] != '.' { assert s[1..][i] == s[i + 1]; }
      }
      SplitDotFree(s[1..]);
      assert [s[0]] + s[1..] == s;
    }
  }

  lemma {:induction false} SplitPrefix(p: string, t: string)
    requires '.' !in p
    ensures Split(p + "." + t) == [p] + Split(t)
  {
    if p == [] {
      assert p + "." + t == ['.'] + t;
      assert (['.'] + t)[1..] == t;
    } else {
      var s := p + "." + t;
      assert s[0] == p[0];
      assert s[1..] == p[1..] + "." + t;
      assert '.' !in p[1..] by {
        forall i | 0 <= i < |p[1..]| ensures p[1..][i] != '.' { assert p[1..][i] == p[i + 1]; }
      }
      SplitPrefix(p[1..], t);
      assert [p[0]] + p[1..] == p;
    }
  }

  /** A digit-and-dot version: every piece between dots is a non-empty run of digits. */
  predicate IsNumericVersion(s: string) {
    forall i :: 0 <= i < |Split(s)| ==> Split(s)[i] != [] && AllDigits(Split(s)[i])
  }

  function ComponentValues(parts: seq<string>): (cs: seq<nat>)
    requires forall i :: 0 <= i < |parts| ==> AllDigits(parts[i])
    ensures |cs| == |parts|
    ensures forall i :: 0 <= i < |parts| ==> cs[i] == DigitsValue(parts[i])
  {
    if parts == [] then [] else [DigitsValue(parts[0])] + ComponentValues(parts[1..])
  }

  /** The numeric components of a digit-and-dot version, or None for any other string. */
  function Components(s: string): (r: Option<seq<nat>>)
    ensures r.Some? <==> IsNumericVersion(s)
    ensures r.Some? ==> |r.value| == |Split(s)| >= 1
  {
    if IsNumericVersion(s) then Some(ComponentValues(Split(s))) else None
  }

  /**
   * `a` is below `b` at position `k`: they agree on the first `k` components,
   * and there `a` has ended while `b` goes on, or `a`'s component is smaller.
   */
  predicate LexLessAt(a: seq<nat>, b: seq<nat>, k: nat) {
    k <= |a| && k <= |b| && a[..k] == b[..k] && (k == |a| < |b| || (k < |a| && k < |b| && a[k] < b[k]))
  }

  /** Lexicographic order in which a proper prefix is the smaller. */
  ghost predicate LexLess(a: seq<nat>, b: seq<nat>) {
    exists k: nat :: LexLessAt(a, b, k)
  }

  /** The cases in which the first components, or their absence, decide the order. */
  lemma LexLessHead(a: seq<nat>, b: seq<nat>)
    ensures a == [] ==> (LexLess(a, b) <==> b != [])
    ensures a != [] && b == [] ==> !LexLess(a, b)
    ensures a != [] && b != [] && a[0] != b[0] ==> (LexLess(a, b) <==> a[0] < b[0])
  {
    if (a == [] && b != []) || (a != [] && b != [] && a[0] < b[0]) {
      assert LexLessAt(a, b, 0);
    }
    if LexLess(a, b) {
      var k: nat :| LexLessAt(a, b, k);
      if k > 0 {
        assert a[0] == a[..k][0] == b[..k][0] == b[0];
      }
    }
  }

  /** Equal first components: the order is that of the rests. */
  lemma LexLessTail(a: seq<nat>, b: seq<nat>)
    requires a != [] && b != [] && a[0] == b[0]
    ensures LexLess(a, b) <==> LexLess(a[1..], b[1..])
  {
    if LexLess(a, b) {
      var k: nat :| LexLessAt(a, b, k);
      assert k > 0;
      assert a[1..][..k - 1] == a[..k][1..] == b[..k][1..] == b[1..][..k - 1];
      assert LexLessAt(a[1..], b[1..], k - 1);
    }
    if LexLess(a[1..], b[1..]) {
      var k: nat :| LexLessAt(a[1..], b[1..], k);
      assert a[..k + 1] == [a[0]] + a[1..][..k] == [b[0]] + b[1..][..k] == b[..k + 1];
      assert LexLessAt(a, b, k + 1);
    }
  }

  /**
   * Component-wise comparison, left to right; a proper prefix is the smaller.
   * "Less" is exactly lexicographic order with that prefix rule.
   */
  function Compare(a: seq<nat>, b: seq<nat>): (r: Ordering)
    ensures r == Less <==> LexLess(a, b)
  {
    if a == [] && b == [] then LexLessHead(a, b); Equal
    else if a == [] then LexLessHead(a, b); Less
    else if b == [] then LexLessHead(a, b); Greater
    else if a[0] < b[0] then LexLessHead(a, b); Less
    else if a[0] > b[0] then LexLessHead(a, b); Greater
    else LexLessTail(a, b); Compare(a[1..], b[1..])
  }

  lemma {:induction false} CompareEqualIff(a: seq<nat>, b: seq<nat>)
    ensures Compare(a, b) == Equal <==> a == b
  {
    if a != [] && b != [] && a[0] == b[0] {
      CompareEqualIff(a[1..], b[1..]);
      assert a == [a[0]] + a[1..] && b == [b[0]] + b[1..];
    }
  }

  lemma {:induction false} CompareFlip(a: seq<nat>, b: seq<nat>)
    ensures Compare(b, a) == Compare(a, b).Flip()
  {
    if a != [] && b != [] && a[0] == b[0] {
      CompareFlip(a[1..], b[1..]);
    }
  }

  lemma {:induction false} CompareLessTransitive(a: seq<nat>, b: seq<nat>, c: seq<nat>)
    requires Compare(a, b) == Less && Compare(b, c) == Less
    ensures Compare(a, c) == Less
  {
    if a != [] && b != [] && c != [] && a[0] == b[0] == c[0] {
      CompareLessTransitive(a[1..], b[1..], c[1..]);
    }
  }

  /** A proper prefix ranks below the longer sequence: [5, 3] is below [5, 3, 0]. */
  lemma {:induction false} ProperPrefixIsLess(a: seq<nat>, b: seq<nat>)
    requires |a| < |b| && a == b[..|a|]
    ensures Compare(a, b) == Less
  {
    if a != [] {
      assert a[0] == b[0];
      assert a[1..] == b[1..][..|a[1..]|];
      ProperPrefixIsLess(a[1..], b[1..]);
    }
  }

  /** Dot-joining non-empty digit runs gives a digit-and-dot version whose components are their values. */
  lemma ComponentsOfJoin(parts: seq<string>)
    requires |parts| >= 1
    requires forall i :: 0 <= i < |parts| ==> parts[i] != [] && AllDigits(parts[i])
    ensures IsNumericVersion(Join(parts))
    ensures Components(Join(parts)).value == ComponentValues(parts)
  {
    assert forall i :: 0 <= i < |parts| ==> '.' !in parts[i];
    SplitJoin(parts);
  }

  /** `version_compare(a, b, '>=')` on two digit-and-dot versions. */
  predicate AtLeast(a: string, b: string)
    requires IsNumericVersion(a) && IsNumericVersion(b)
    ensures AtLeast(a, b) <==> !LexLess(Components(a).value, Components(b).value)
  {
    Compare(Components(a).value, Components(b).value) != Less
  }

  /** On digit-and-dot versions `>=` is reflexive, transitive and total. */
  lemma AtLeastIsTotalPreorder(a: string, b: string, c: string)
    requires IsNumericVersion(a) && IsNumericVersion(b) && IsNumericVersion(c)
    ensures AtLeast(a, a)
    ensures AtLeast(a, b) || AtLeast(b, a)
    ensures AtLeast(a, b) && AtLeast(b, c) ==> AtLeast(a, c)
  {
    var x, y, z := Components(a).value, Components(b).value, Components(c).value;
    CompareEqualIff(x, x);
    CompareFlip(x, y);
    CompareFlip(y, z);
    CompareFlip(x, z);
    if Compare(x, y) != Less && Compare(y, z) != Less && Compare(x, z) == Less {
      CompareEqualIff(x, y);
      CompareEqualIff(y, z);
      if Compare(x, y) == Greater && Compare(y, z) == Greater {
        CompareLessTransitive(z, y, x);
      }
    }
  }

  /** `ge` is reflexive, transitive and total on all strings. */
  ghost predicate IsTotalPreorder(ge: (string, string) -> bool) {
    && (forall a :: ge(a, a))
    && (forall a, b, c :: ge(a, b) && ge(b, c) ==> ge(a, c))
    && (forall a, b :: ge(a, b) || ge(b, a))
  }

  /** `ge` is `version_compare(_, _, '>=')` wherever both arguments are digit-and-dot versions. */
  ghost predicate AgreesOnNumericVersions(ge: (string, string) -> bool) {
    forall a, b :: IsNumericVersion(a) && IsNumericVersion(b) ==> (ge(a, b) <==> AtLeast(a, b))
  }

  /** Two digit-and-dot versions compared by an agreeing `>=`. */
  lemma AgreesAt(ge: (string, string) -> bool, a: string, b: string)
    requires AgreesOnNumericVersions(ge) && IsNumericVersion(a) && IsNumericVersion(b)
    ensures ge(a, b) <==> AtLeast(a, b)
  {
  }

  /**
   * One total extension of AtLeast to every string: any other string ranks
   * below every digit-and-dot version, and all other strings tie. It is not
   * a claim about PHP's ranking of such strings; it only shows that the two
   * hypotheses above can hold together.
   */
  function ExtendedAtLeast(a: string, b: string): bool {
    if IsNumericVersion(a) && IsNumericVersion(b) then AtLeast(a, b)
    else !IsNumericVersion(a) ==> !IsNumericVersion(b)
  }

  lemma ExtendedAtLeastIsTotalPreorder()
    ensures IsTotalPreorder(ExtendedAtLeast)
    ensures AgreesOnNumericVersions(ExtendedAtLeast)
  {
    forall a, b, c ensures ExtendedAtLeast(a, a) && (ExtendedAtLeast(a, b) || ExtendedAtLeast(b, a))
                        && (ExtendedAtLeast(a, b) && ExtendedAtLeast(b, c) ==> ExtendedAtLeast(a, c))
    {
      if IsNumericVersion(a) && IsNumericVersion(b) && IsNumericVersion(c) {
        AtLeastIsTotalPreorder(a, b, c);
      } else if IsNumericVersion(a) && IsNumericVersion(b) {
        AtLeastIsTotalPreorder(a, b, b);
      } else if IsNumericVersion(a) {
        AtLeastIsTotalPreorder(a, a, a);
      }
    }
  }

  function DigitValue(c: char): nat
    requires IsDigit(c)
  {
    c as int - '0' as int
  }

  lemma SingleDigitValue(c: char)
    requires IsDigit(c)
    ensures DigitsValue([c]) == DigitValue(c)
  {
    assert [c][..0] == [];
  }

  /** A version "x.y" of two single digits. */
  lemma TwoDigitVersion(s: string, x: char, y: char)
    requires IsDigit(x) && IsDigit(y) && s == [x, '.', y]
    ensures IsNumericVersion(s) && Components(s).value == [DigitValue(x), DigitValue(y)]
  {
    assert Join([[x], [y]]) == s;
    ComponentsOfJoin([[x], [y]]);
    SingleDigitValue(x);
    SingleDigitValue(y);
  }

  /** A version "x.y.z" of three single digits. */
  lemma ThreeDigitVersion(s: string, x: char, y: char, z: char)
    requires IsDigit(x) && IsDigit(y) && IsDigit(z) && s == [x, '.', y, '.', z]
    ensures IsNumericVersion(s) && Components(s).value == [DigitValue(x), DigitValue(y), DigitValue(z)]
  {
    assert [[x], [y], [z]][1..] == [[y], [z]];
    assert Join([[y], [z]]) == [y, '.', z];
    assert Join([[x], [y], [z]]) == [x] + "." + [y, '.', z] == s;
    ComponentsOfJoin([[x], [y], [z]]);
    SingleDigitValue(x);
    SingleDigitValue(y);
    SingleDigitValue(z);
  }

  /** Worked comparisons: a later version, equality, and a lower version. */
  lemma CompareExamples()
    ensures IsNumericVersion("5.3") && IsNumericVersion("7.2")
    ensures AtLeast("7.2", "5.3") && !AtLeast("5.3", "7.2") && AtLeast("5.3", "5.3")
    ensures IsNumericVersion("5.2") && !AtLeast("5.2", "5.3")
  {
    TwoDigitVersion("5.3", '5', '3');
    TwoDigitVersion("7.2", '7', '2');
    TwoDigitVersion("5.2", '5', '2');
    assert Compare([5, 2], [5, 3]) == Less;
    CompareEqualIff([5, 3], [5, 3]);
  }

  /** No zero padding: "5.3" ranks below both "5.3.0" and "5.3.1". */
  lemma PrefixExamples()
    ensures IsNumericVersion("5.3") && IsNumericVersion("5.3.0") && IsNumericVersion("5.3.1")
    ensures !AtLeast("5.3", "5.3.0") && AtLeast("5.3.0", "5.3")
    ensures !AtLeast("5.3", "5.3.1")
  {
    TwoDigitVersion("5.3", '5', '3');
    ThreeDigitVersion("5.3.0", '5', '3', '0');
    ThreeDigitVersion("5.3.1", '5', '3', '1');
    ProperPrefixIsLess([5, 3], [5, 3, 0]);
    ProperPrefixIsLess([5, 3], [5, 3, 1]);
  }
}
