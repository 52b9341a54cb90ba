/**
 * The few PHP built-ins whose behaviour the plugin's decisions depend on:
 * truthiness of strings, `addslashes` (which `wp_slash` applies to every
 * string of an array), `array_filter` without a callback and `array_unique`.
 */
module Php {

  /** A PHP string is falsy exactly when it is "" or "0". */
  predicate Falsy(s: string) {
    s == "" || s == "0"
  }

  /** The characters `addslashes` escapes: single quote, double quote, backslash and NUL. */
  predicate NeedsSlash(c: char) {
    c == '\'' || c == '"' || c == '\\' || c == '\0'
  }

  /** `addslashes`: a backslash before every quote, backslash and NUL; a NUL itself becomes "\0". */
  function AddSlashes(s: string): (r: string)
    ensures |r| >= |s|
    ensures |r| == |s| <==> forall i :: 0 <= i < |s| ==> !NeedsSlash(s[i])
    ensures (forall i :: 0 <= i < |s| ==> !NeedsSlash(s[i])) ==> r == s
  {
    if s == [] then []
    else
      var c := s[0];
      (if c == '\0' then ['\\', '0'] else if NeedsSlash(c) then ['\\', c] else [c])
      + AddSlashes(s[1..])
  }

  /** `addslashes` never maps two different strings to the same one. */
  lemma {:induction false} AddSlashesInjective(a: string, b: string)
    requires AddSlashes(a) == AddSlashes(b)
    ensures a == b
  {
    if a != [] && b != [] {
      var ra, rb := AddSlashes(a[1..]), AddSlashes(b[1..]);
      var ha := if a[0] == '\0' then ['\\', '0'] else if NeedsSlash(a[0]) then ['\\', a[0]] else [a[0]];
      var hb := if b[0] == '\0' then ['\\', '0'] else if NeedsSlash(b[0]) then ['\\', b[0]] else [b[0]];
      assert AddSlashes(a) == ha + ra;
      assert AddSlashes(b) == hb + rb;
      assert ha[0] == (ha + ra)[0] == (hb + rb)[0] == hb[0];
      if |ha| == 2 && |hb| == 2 {
        assert ha[1] == (ha + ra)[1] == (hb + rb)[1] == hb[1];
        assert a[0] == b[0];
        assert ra == (ha + ra)[2..] == (hb + rb)[2..] == rb;
      } else if |ha| == 1 && |hb| == 1 {
        assert ra == (ha + ra)[1..] == (hb + rb)[1..] == rb;
      } else {
        assert false;
      }
      AddSlashesInjective(a[1..], b[1..]);
      assert a == [a[0]] + a[1..] && b == [b[0]] + b[1..];
    }
  }

  /** Slashing never turns a truthy string falsy or a falsy one truthy. */
  lemma AddSlashesKeepsTruthiness(s: string)
    ensures Falsy(AddSlashes(s)) <==> Falsy(s)
  {
    if s != [] && s != "0" {
      if !NeedsSlash(s[0]) && s[0] != '0' {
        assert AddSlashes(s)[0] == s[0];
      } else if NeedsSlash(s[0]) {
        assert AddSlashes(s)[0] == '\\';
      } else if |s| > 1 {
        assert |AddSlashes(s[1..])| >= 1;
      }
    } else if s == "0" {
      assert s[1..] == [];
    }
  }

  /** `wp_slash` on a list of strings: `addslashes` applied to each element, order kept. */
  function SlashAll(ss: seq<string>): (r: seq<string>)
    ensures |r| == |ss|
    ensures forall i :: 0 <= i < |ss| ==> r[i] == AddSlashes(ss[i])
  {
    if ss == [] then [] else [AddSlashes(ss[0])] + SlashAll(ss[1..])
  }

  /** A string is among the slashed ones exactly when it is the slashed form of one of the originals. */
  lemma SlashAllMembers(ss: seq<string>, k: string)
    ensures k in SlashAll(ss) <==> exists s :: s in ss && AddSlashes(s) == k
  {
    if k in SlashAll(ss) {
      var i :| 0 <= i < |ss| && SlashAll(ss)[i] == k;
      assert ss[i] in ss;
    }
  }

  /** `array_filter` without a callback: the truthy elements, in order. */
  function FilterFalsy(ss: seq<string>): (r: seq<string>)
    ensures forall x :: x in r <==> x in ss && !Falsy(x)
  {
    if ss == [] then []
    else if Falsy(ss[0]) then FilterFalsy(ss[1..])
    else [ss[0]] + FilterFalsy(ss[1..])
  }

  /** `array_unique`: the first occurrence of every element, in order. */
  function Unique(ss: seq<string>): (r: seq<string>)
    ensures forall x :: x in r <==> x in ss
    ensures forall i, j :: 0 <= i < j < |r| ==> r[i] != r[j]
  {
    if ss == [] then []
    else
      var rest := Unique(ss[..|ss| - 1]);
      if ss[|ss| - 1] in rest then rest else rest + [ss[|ss| - 1]]
  }
}
