/** String helpers. */
module Strings {

  /** `t` occurs in `s` starting at position `i`. */
  predicate OccursAt(s: string, t: string, i: int)
  {
    0 <= i <= |s| - |t| && s[i..i + |t|] == t
  }

  /** `t` occurs in `s` as a contiguous piece. */
  predicate Contains(s: string, t: string)
  {
    exists i :: 0 <= i <= |s| - |t| && OccursAt(s, t, i)
  }

  /** Whatever occurs in `b` still occurs after something is put in front of it. */
  lemma ContainsAfter(a: string, b: string, t: string)
    requires Contains(b, t)
    ensures Contains(a + b, t)
  {
    var i :| 0 <= i <= |b| - |t| && OccursAt(b, t, i);
    assert (a + b)[|a| + i..|a| + i + |t|] == t;
    assert OccursAt(a + b, t, |a| + i);
  }

  /** A string occurs where it is put between two others. */
  lemma ContainsMiddle(a: string, t: string, b: string)
    ensures Contains(a + t + b, t)
  {
    assert (a + t + b)[|a|..|a| + |t|] == t;
    assert OccursAt(a + t + b, t, |a|);
  }

  /** The same for every string of a list. */
  lemma ContainsAllAfter(a: string, b: string, ts: seq<string>)
    requires forall i :: 0 <= i < |ts| ==> Contains(b, ts[i])
    ensures forall i :: 0 <= i < |ts| ==> Contains(a + b, ts[i])
  {
    forall i | 0 <= i < |ts| ensures Contains(a + b, ts[i]) {
      ContainsAfter(a, b, ts[i]);
    }
  }

  /** `parts.join(sep)`: every part occurs in the result. */
  function Join(parts: seq<string>, sep: string): (r: string)
    ensures |parts| == 0 ==> r == ""
    ensures forall i :: 0 <= i < |parts| ==> Contains(r, parts[i])
  {
    if |parts| == 0 then ""
    else if |parts| == 1 then
      assert parts[0][0..|parts[0]|] == parts[0];
      assert OccursAt(parts[0], parts[0], 0);
      parts[0]
    else
      var rest := Join(parts[1..], sep);
      assert forall i :: 1 <= i < |parts| ==> parts[i] == parts[1..][i - 1];
      ContainsAllAfter(parts[0] + sep, rest, parts[1..]);
      assert (parts[0] + sep + rest)[0..|parts[0]|] == parts[0];
      assert OccursAt(parts[0] + sep + rest, parts[0], 0);
      parts[0] + sep + rest
  }

  predicate Excludes(s: string, c: char)
  {
    forall i :: 0 <= i < |s| ==> s[i] != c
  }

  /** The first part of a comma-joined list runs up to the first comma. */
  lemma {:induction false} JoinHead(parts: seq<string>)
    requires |parts| > 0 && Excludes(parts[0], ',')
    ensures |parts[0]| <= |Join(parts, ",")|
    ensures Join(parts, ",")[..|parts[0]|] == parts[0]
    ensures Excludes(Join(parts, ",")[..|parts[0]|], ',')
    ensures |parts| == 1 ==> Join(parts, ",") == parts[0]
    ensures |parts| > 1 ==> |parts[0]| < |Join(parts, ",")| && Join(parts, ",")[|parts[0]|] == ','
    ensures |parts| > 1 ==> Join(parts, ",")[|parts[0]| + 1..] == Join(parts[1..], ",")
  {
    if |parts| > 1 {
      var rest := Join(parts[1..], ",");
      assert Join(parts, ",") == parts[0] + "," + rest;
      assert (parts[0] + "," + rest)[..|parts[0]|] == parts[0];
      assert (parts[0] + "," + rest)[|parts[0]| + 1..] == rest;
    }
  }

  /** `parts.join(",")` can be split back when no part contains a comma. */
  lemma {:induction false} JoinInjective(a: seq<string>, b: seq<string>)
    requires |a| > 0 && |b| > 0
    requires forall i :: 0 <= i < |a| ==> Excludes(a[i], ',')
    requires forall i :: 0 <= i < |b| ==> Excludes(b[i], ',')
    requires Join(a, ",") == Join(b, ",")
    ensures a == b
  {
    var s := Join(a, ",");
    JoinHead(a);
    JoinHead(b);
    assert |a[0]| == |b[0]| by {
      assert forall i :: 0 <= i < |a[0]| ==> s[..|a[0]|][i] == s[i];
      assert forall i :: 0 <= i < |b[0]| ==> s[..|b[0]|][i] == s[i];
    }
    assert a[0] == b[0];
    assert (|a| == 1) == (|b| == 1);
    if |a| > 1 {
      JoinInjective(a[1..], b[1..]);
      assert a == [a[0]] + a[1..];
      assert b == [b[0]] + b[1..];
    }
  }
}
