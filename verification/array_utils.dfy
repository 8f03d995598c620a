/** `safePush` and `unique`. */
module ArrayUtils {
  import opened Wrappers

  /** `arr ? [...arr, value] : [value]`: a new sequence; the argument, a value, is not altered. */
  function SafePush<T>(arr: Option<seq<T>>, value: T): (r: seq<T>)
    ensures arr.None? ==> r == [value]
    ensures arr.Some? ==> |r| == |arr.value| + 1 && r[..|arr.value|] == arr.value
    ensures r[|r| - 1] == value
  {
    if arr.Some? then arr.value + [value] else [value]
  }

  predicate NoDuplicates<T(==)>(s: seq<T>)
  {
    forall i, j :: 0 <= i < j < |s| ==> s[i] != s[j]
  }

  /** `Array.from(new Set(arr))`: each element once, in the order a `Set` keeps, which is the order of
      first insertion. Defined as the elements inserted one by one into a duplicate-free sequence. */
  function Unique<T(==)>(arr: seq<T>): (r: seq<T>)
    ensures NoDuplicates(r)
    ensures forall i :: 0 <= i < |r| ==> r[i] in arr
    ensures forall i :: 0 <= i < |arr| ==> arr[i] in r
    ensures |r| <= |arr|
  {
    if |arr| == 0 then []
    else
      var init := Unique(arr[..|arr| - 1]);
      assert forall i :: 0 <= i < |arr| - 1 ==> arr[i] == arr[..|arr| - 1][i];
      if arr[|arr| - 1] in init then init else init + [arr[|arr| - 1]]
  }

  /** Index of the first occurrence of `x` in `s`. */
  function FirstIndex<T(==)>(s: seq<T>, x: T): (i: nat)
    requires x in s
    ensures i < |s| && s[i] == x && x !in s[..i]
  {
    if s[0] == x then 0 else 1 + FirstIndex(s[1..], x)
  }

  /** `unique` lists the elements in the order of their first occurrence in the input. */
  lemma {:induction false} UniqueFirstOccurrenceOrder<T>(arr: seq<T>, i: nat, j: nat)
    requires i < j < |Unique(arr)|
    ensures FirstIndex(arr, Unique(arr)[i]) < FirstIndex(arr, Unique(arr)[j])
  {
    var init := arr[..|arr| - 1];
    var last := arr[|arr| - 1];
    var u := Unique(arr);
    var ui := Unique(init);
    assert arr == init + [last];
    FirstIndexPrefix(init, last, u[i]);
    if last in ui {
      UniqueFirstOccurrenceOrder(init, i, j);
      FirstIndexPrefix(init, last, u[j]);
    } else if j < |ui| {
      UniqueFirstOccurrenceOrder(init, i, j);
      FirstIndexPrefix(init, last, u[j]);
    } else {
      // u[j] is the last element, seen for the first time at the end
      assert u[j] == last && last !in init;
      assert u[i] in init;
      assert FirstIndex(arr, last) == |init| by { FirstIndexNew(init, last); }
    }
  }

  /** Appending an element does not move the first occurrence of one already present. */
  lemma {:induction false} FirstIndexPrefix<T>(init: seq<T>, last: T, x: T)
    requires x in init
    ensures FirstIndex(init + [last], x) == FirstIndex(init, x)
    ensures FirstIndex(init, x) < |init|
  {
    if init[0] != x {
      assert (init + [last])[1..] == init[1..] + [last];
      FirstIndexPrefix(init[1..], last, x);
    }
  }

  /** An element absent from the prefix first occurs where it is appended. */
  lemma {:induction false} FirstIndexNew<T>(init: seq<T>, last: T)
    requires last !in init
    ensures FirstIndex(init + [last], last) == |init|
  {
    if |init| > 0 {
      assert (init + [last])[1..] == init[1..] + [last];
      FirstIndexNew(init[1..], last);
    }
  }

  /** A sequence without duplicates is its own `unique`. */
  lemma {:induction false} UniqueOfDistinct<T>(s: seq<T>)
    requires NoDuplicates(s)
    ensures Unique(s) == s
  {
    if |s| > 0 {
      var init := s[..|s| - 1];
      assert NoDuplicates(init);
      UniqueOfDistinct(init);
      assert s[|s| - 1] !in init;
      assert init + [s[|s| - 1]] == s;
    }
  }

  /** `unique(unique(a)) == unique(a)` */
  lemma UniqueIdempotent<T>(arr: seq<T>)
    ensures Unique(Unique(arr)) == Unique(arr)
  {
    UniqueOfDistinct(Unique(arr));
  }
}
