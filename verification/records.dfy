/** JavaScript plain objects used as tables. Where the source observes insertion order (iteration with
    `Object.entries`, `Object.values`, `Object.keys`) a table is an ordered record: a sequence of
    (key, value) entries with distinct keys. Elsewhere a table is a Dafny `map`. */
module Records {

  type Entries<V> = seq<(string, V)>

  predicate DistinctKeys<V>(e: Entries<V>)
  {
    forall i, j :: 0 <= i < j < |e| ==> e[i].0 != e[j].0
  }

  /** An object's own properties in insertion order. */
  type Record<V> = e: Entries<V> | DistinctKeys(e)

  /** `Object.keys(r)` */
  function KeySeq<V>(e: Entries<V>): (ks: seq<string>)
    ensures |ks| == |e| && forall i :: 0 <= i < |e| ==> ks[i] == e[i].0
  {
    seq(|e|, i requires 0 <= i < |e| => e[i].0)
  }

  /** `Object.values(r)` */
  function Values<V>(e: Entries<V>): (vs: seq<V>)
    ensures |vs| == |e| && forall i :: 0 <= i < |e| ==> vs[i] == e[i].1
  {
    seq(|e|, i requires 0 <= i < |e| => e[i].1)
  }

  function Keys<V>(e: Entries<V>): set<string>
  {
    set i | 0 <= i < |e| :: e[i].0
  }

  /** The same table, forgetting the order. */
  function ToMap<V>(r: Record<V>): (m: map<string, V>)
    ensures m.Keys == Keys(r)
    ensures forall i :: 0 <= i < |r| ==> m[r[i].0] == r[i].1
  {
    if r == [] then map[]
    else
      var m := ToMap(r[1..]);
      assert Keys(r) == Keys(r[1..]) + {r[0].0};
      assert forall i :: 1 <= i < |r| ==> r[i] == r[1..][i - 1];
      m[r[0].0 := r[0].1]
  }

  /** The position of a key in a record. */
  function IndexOf<V>(r: Record<V>, k: string): (i: nat)
    requires k in Keys(r)
    ensures i < |r| && r[i].0 == k
  {
    if r[0].0 == k then 0
    else
      assert k in Keys(r[1..]) by {
        var j :| 0 <= j < |r| && r[j].0 == k;
        assert r[1..][j - 1].0 == k;
      }
      1 + IndexOf(r[1..], k)
  }

  /** Past the first entry, positions shift by one. */
  lemma IndexOfTail<V>(r: Record<V>)
    requires |r| > 0
    ensures Keys(r) == {r[0].0} + Keys(r[1..])
    ensures r[0].0 in Keys(r) && IndexOf(r, r[0].0) == 0
    ensures forall k :: k in Keys(r[1..]) ==> k in Keys(r) && IndexOf(r, k) == 1 + IndexOf(r[1..], k)
  {
    assert r[0].0 in Keys(r);
    forall x | x in Keys(r) ensures x in {r[0].0} + Keys(r[1..]) {
      var i :| 0 <= i < |r| && r[i].0 == x;
      if i > 0 { assert r[1..][i - 1].0 == x; }
    }
    forall k | k in Keys(r[1..]) ensures k in Keys(r) && IndexOf(r, k) == 1 + IndexOf(r[1..], k) {
      var j :| 0 <= j < |r[1..]| && r[1..][j].0 == k;
      assert r[j + 1].0 == k;
    }
  }

  /** Past the first entry, the position of one key shifts by one. */
  lemma IndexOfTailAt<V>(r: Record<V>, k: string)
    requires |r| > 0 && k in Keys(r[1..])
    ensures k in Keys(r) && IndexOf(r, k) == 1 + IndexOf(r[1..], k)
  {
    var j :| 0 <= j < |r[1..]| && r[1..][j].0 == k;
    assert r[j + 1].0 == k;
  }

  /** `r[k] = v`: an existing key keeps its position and takes the new value, a new key is appended. */
  function Put<V>(r: Record<V>, k: string, v: V): (r': Record<V>)
    ensures k in Keys(r) ==> KeySeq(r') == KeySeq(r)
    ensures k !in Keys(r) ==> KeySeq(r') == KeySeq(r) + [k]
    ensures ToMap(r') == ToMap(r)[k := v]
  {
    if k in Keys(r) then PutExisting(r, k, v) else PutNew(r, k, v)
  }

  function PutExisting<V>(r: Record<V>, k: string, v: V): (r': Record<V>)
    requires k in Keys(r)
    ensures KeySeq(r') == KeySeq(r)
    ensures ToMap(r') == ToMap(r)[k := v]
  {
    var i := IndexOf(r, k);
    var r' := r[i := (k, v)];
    assert forall j :: 0 <= j < |r| ==> r'[j].0 == r[j].0;
    assert KeySeq(r') == KeySeq(r);
    assert Keys(r') == Keys(r) by {
      forall x | x in Keys(r) ensures x in Keys(r') {
        var j :| 0 <= j < |r| && r[j].0 == x;
        assert r'[j].0 == x;
      }
    }
    MapOfEntries(r', ToMap(r)[k := v]);
    r'
  }

  function PutNew<V>(r: Record<V>, k: string, v: V): (r': Record<V>)
    requires k !in Keys(r)
    ensures KeySeq(r') == KeySeq(r) + [k]
    ensures ToMap(r') == ToMap(r)[k := v]
  {
    var r' := r + [(k, v)];
    assert forall i :: 0 <= i < |r| ==> r[i].0 != k;
    assert KeySeq(r') == KeySeq(r) + [k];
    assert Keys(r') == Keys(r) + {k} by {
      assert r'[|r|].0 == k;
      forall x | x in Keys(r) ensures x in Keys(r') {
        var i :| 0 <= i < |r| && r[i].0 == x;
        assert r'[i].0 == x;
      }
    }
    MapOfEntries(r', ToMap(r)[k := v]);
    r'
  }

  /** A map with the record's keys and the record's values is the record's map. */
  lemma MapOfEntries<V>(r: Record<V>, m: map<string, V>)
    requires m.Keys == Keys(r)
    requires forall i :: 0 <= i < |r| ==> m[r[i].0] == r[i].1
    ensures ToMap(r) == m
  {
    forall x | x in m ensures ToMap(r)[x] == m[x] {
      var i :| 0 <= i < |r| && r[i].0 == x;
    }
  }

  /** `utils.records.mergeRecords(a, b, f)`, whose source is not part of this model, with the
      semantics the engine relies on: the union of the keys, a value present on one side only taken
      unchanged, and `f(a[k], b[k])` where both sides have `k`. */
  function MergeRecords<V>(a: map<string, V>, b: map<string, V>, f: (V, V) -> V): (r: map<string, V>)
    ensures r.Keys == a.Keys + b.Keys
    ensures forall k :: k in a && k in b ==> r[k] == f(a[k], b[k])
    ensures forall k :: k in a && k !in b ==> r[k] == a[k]
    ensures forall k :: k !in a && k in b ==> r[k] == b[k]
  {
    map k | k in a.Keys + b.Keys ::
      if k in a && k in b then f(a[k], b[k])
      else if k in a then a[k]
      else b[k]
  }
}
