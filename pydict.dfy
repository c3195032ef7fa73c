/** A Python `dict[str, str]` as the script uses it: a sequence of
    (key, value) items in insertion order, no key twice. Assigning
    `d[k] = v` keeps the position of an existing key and appends a new one. */
module PyDict {

  type Item = (string, string)
  type Dict = seq<Item>

  predicate DistinctKeys(d: Dict)
  {
    forall i, j :: 0 <= i < j < |d| ==> d[i].0 != d[j].0
  }

  function Keys(d: Dict): set<string>
  {
    if d == [] then {} else {d[0].0} + Keys(d[1..])
  }

  lemma {:induction false} KeyAt(d: Dict, i: nat)
    requires i < |d|
    ensures d[i].0 in Keys(d)
  {
    if i > 0 {
      KeyAt(d[1..], i - 1);
    }
  }

  lemma {:induction false} KeyWitness(d: Dict, k: string) returns (i: nat)
    requires k in Keys(d)
    ensures i < |d| && d[i].0 == k
  {
    if d[0].0 == k {
      i := 0;
    } else {
      var j := KeyWitness(d[1..], k);
      i := j + 1;
    }
  }

  lemma {:induction false} KeyAbsent(d: Dict, k: string)
    requires forall i :: 0 <= i < |d| ==> d[i].0 != k
    ensures k !in Keys(d)
  {
    if d != [] {
      KeyAbsent(d[1..], k);
    }
  }

  lemma {:induction false} KeysAppend(d: Dict, p: Item)
    ensures Keys(d + [p]) == Keys(d) + {p.0}
  {
    if d == [] {
      assert [] + [p] == [p];
    } else {
      assert (d + [p])[1..] == d[1..] + [p];
      KeysAppend(d[1..], p);
    }
  }

  /** The value stored under `k` (the first item with that key). */
  function ValueOf(d: Dict, k: string): string
    requires k in Keys(d)
  {
    if d[0].0 == k then d[0].1 else ValueOf(d[1..], k)
  }

  /** The contents of the dict, forgetting insertion order. */
  function ToMap(d: Dict): map<string, string>
  {
    map k | k in Keys(d) :: ValueOf(d, k)
  }

  /** The value of the item holding `k` replaced by `v`, in place. */
  function Replace(d: Dict, k: string, v: string): Dict
    requires k in Keys(d)
  {
    if d[0].0 == k then [(k, v)] + d[1..] else [d[0]] + Replace(d[1..], k, v)
  }

  /** `d[k] = v`. */
  function Put(d: Dict, k: string, v: string): Dict
  {
    if k in Keys(d) then Replace(d, k, v) else d + [(k, v)]
  }

  lemma {:induction false} ReplaceValues(d: Dict, k: string, v: string)
    requires k in Keys(d)
    ensures Keys(Replace(d, k, v)) == Keys(d)
    ensures forall k' :: k' in Keys(d) ==>
      ValueOf(Replace(d, k, v), k') == if k' == k then v else ValueOf(d, k')
  {
    if d[0].0 != k {
      ReplaceValues(d[1..], k, v);
    }
  }

  lemma {:induction false} AppendValues(d: Dict, k: string, v: string)
    requires k !in Keys(d)
    ensures Keys(d + [(k, v)]) == Keys(d) + {k}
    ensures forall k' :: k' in Keys(d + [(k, v)]) ==>
      ValueOf(d + [(k, v)], k') == if k' == k then v else ValueOf(d, k')
  {
    KeysAppend(d, (k, v));
    if d != [] {
      assert (d + [(k, v)])[1..] == d[1..] + [(k, v)];
      AppendValues(d[1..], k, v);
    }
  }

  /** After `d[k] = v` the dict maps `k` to `v` and every other key as before. */
  lemma PutToMap(d: Dict, k: string, v: string)
    ensures Keys(Put(d, k, v)) == Keys(d) + {k}
    ensures ToMap(Put(d, k, v)) == ToMap(d)[k := v]
  {
    if k in Keys(d) {
      ReplaceValues(d, k, v);
    } else {
      KeysAppend(d, (k, v));
      AppendValues(d, k, v);
    }
  }

  /** A key that is already present keeps its position; only its value changes. */
  lemma {:induction false} PutInPlace(d: Dict, k: string, v: string)
    requires DistinctKeys(d) && k in Keys(d)
    ensures |Put(d, k, v)| == |d|
    ensures forall i :: 0 <= i < |d| ==> Put(d, k, v)[i] == if d[i].0 == k then (k, v) else d[i]
  {
    if d[0].0 != k {
      PutInPlace(d[1..], k, v);
      assert Put(d, k, v) == [d[0]] + Put(d[1..], k, v);
    } else {
      forall i | 0 < i < |d| ensures d[i].0 != k { }
    }
  }

  lemma DistinctAppend(d: Dict, p: Item)
    requires DistinctKeys(d) && p.0 !in Keys(d)
    ensures DistinctKeys(d + [p])
  {
    var r := d + [p];
    forall i, j | 0 <= i < j < |r| ensures r[i].0 != r[j].0 {
      if j == |d| {
        KeyAt(d, i);
      }
    }
  }

  lemma PutDistinct(d: Dict, k: string, v: string)
    requires DistinctKeys(d)
    ensures DistinctKeys(Put(d, k, v))
  {
    if k in Keys(d) {
      PutInPlace(d, k, v);
      var r := Put(d, k, v);
      forall i, j | 0 <= i < j < |r| ensures r[i].0 != r[j].0 {
        assert r[i].0 == d[i].0 && r[j].0 == d[j].0;
      }
    } else {
      DistinctAppend(d, (k, v));
    }
  }

  lemma {:induction false} DistinctKeysCount(d: Dict)
    requires DistinctKeys(d)
    ensures |Keys(d)| == |d|
  {
    if d != [] {
      KeyAbsent(d[1..], d[0].0);
      DistinctKeysCount(d[1..]);
    }
  }

  /** With distinct keys, an item is in the dict exactly when the map holds it. */
  lemma {:induction false} ItemInToMap(d: Dict, p: Item)
    requires DistinctKeys(d)
    ensures p in d <==> p.0 in ToMap(d) && ToMap(d)[p.0] == p.1
  {
    if d != [] {
      assert d == [d[0]] + d[1..];
      ItemInToMap(d[1..], p);
      if p.0 == d[0].0 && p != d[0] {
        assert p !in d[1..] by {
          forall i | 0 <= i < |d[1..]| ensures d[1..][i] != p {
            assert d[i + 1].0 != d[0].0;
          }
        }
      }
    }
  }
}
