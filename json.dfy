/**
 * Decoded JSON values and Python dictionaries.
 *
 * A Python `dict` keeps its keys in insertion order, and both `get_cards` and
 * the stable sort in `get_due_cards` expose that order, so a dictionary is an
 * association list whose keys are (for every dictionary Python builds) distinct.
 */
module JsonValues {
  import opened Wrappers

  datatype Json =
    | Null
    | Bool(b: bool)
    | Num(n: int)
    | Str(s: string)
    | Arr(items: seq<Json>)
    | Obj(entries: seq<(string, Json)>)

  type Dict = seq<(string, Json)>

  function Keys(d: Dict): (ks: seq<string>)
    ensures |ks| == |d|
    ensures forall i :: 0 <= i < |d| ==> ks[i] == d[i].0
  {
    if d == [] then [] else [d[0].0] + Keys(d[1..])
  }

  function Values(d: Dict): (vs: seq<Json>)
    ensures |vs| == |d|
    ensures forall i :: 0 <= i < |d| ==> vs[i] == d[i].1
  {
    if d == [] then [] else [d[0].1] + Values(d[1..])
  }

  /** Every key occurs once, as in every dictionary Python builds. */
  predicate DistinctKeys(d: Dict) {
    forall i, j :: 0 <= i < j < |d| ==> d[i].0 != d[j].0
  }

  /** `d.get(k)`: the value stored under `k`, if any. */
  function Get(d: Dict, k: string): Option<Json> {
    if d == [] then None
    else if d[0].0 == k then Some(d[0].1)
    else Get(d[1..], k)
  }

  /** `d.get(k, default)`. */
  function GetOr(d: Dict, k: string, default: Json): Json {
    Get(d, k).GetOr(default)
  }

  /** `d[k] = v`: an existing key keeps its position, a new key is appended. */
  function Set(d: Dict, k: string, v: Json): (r: Dict)
    ensures Keys(r) == if k in Keys(d) then Keys(d) else Keys(d) + [k]
  {
    if d == [] then [(k, v)]
    else if d[0].0 == k then [(k, v)] + d[1..]
    else [d[0]] + Set(d[1..], k, v)
  }

  /** `d.update(r)`: the assignments `d[k] = v` for each entry of `r`, in order. */
  function Update(d: Dict, r: Dict): (m: Dict)
    ensures |d| <= |m| <= |d| + |r|
    ensures forall i :: 0 <= i < |d| ==> m[i].0 == d[i].0
    decreases |r|
  {
    if r == [] then d else Update(Set(d, r[0].0, r[0].1), r[1..])
  }

  /** Python truthiness of a decoded response: `None` and empty containers are false. */
  predicate Truthy(j: Json) {
    match j
    case Null => false
    case Bool(b) => b
    case Num(n) => n != 0
    case Str(s) => s != []
    case Arr(items) => items != []
    case Obj(entries) => entries != []
  }

  /** `if response:` for a payload that is either missing or a dictionary. */
  predicate IsPayload(r: Option<Dict>): (b: bool)
    ensures b <==> r.Some? && r.value != []
  {
    r.Some? && Truthy(Obj(r.value))
  }

  lemma {:induction false} GetAt(d: Dict, i: nat)
    requires DistinctKeys(d) && i < |d|
    ensures Get(d, d[i].0) == Some(d[i].1)
  {
    if i > 0 {
      assert DistinctKeys(d[1..]) by {
        forall a, b | 0 <= a < b < |d[1..]| ensures d[1..][a].0 != d[1..][b].0 {
          assert d[1..][a] == d[a + 1] && d[1..][b] == d[b + 1];
        }
      }
      GetAt(d[1..], i - 1);
    }
  }

  /** Setting a key makes it map to the new value and leaves every other key alone. */
  lemma {:induction false} GetSet(d: Dict, k: string, v: Json, k': string)
    ensures Get(Set(d, k, v), k') == if k' == k then Some(v) else Get(d, k')
  {
    if d != [] && d[0].0 != k {
      GetSet(d[1..], k, v, k');
    }
  }

  lemma DistinctCons(h: (string, Json), t: Dict)
    ensures DistinctKeys([h] + t) <==> DistinctKeys(t) && h.0 !in Keys(t)
  {
    var d := [h] + t;
    assert forall i :: 0 <= i < |t| ==> d[i + 1] == t[i];
    if DistinctKeys(d) {
      forall i | 0 <= i < |t| ensures Keys(t)[i] != h.0 {
        assert d[0].0 != d[i + 1].0;
      }
    }
    if DistinctKeys(t) && h.0 !in Keys(t) {
      forall a, b | 0 <= a < b < |d| ensures d[a].0 != d[b].0 {
        if a == 0 {
          assert d[b].0 == Keys(t)[b - 1];
        }
      }
    }
  }

  /** Assigning through `d[k] = v` keeps the keys of a dictionary distinct. */
  lemma {:induction false} SetDistinct(d: Dict, k: string, v: Json)
    requires DistinctKeys(d)
    ensures DistinctKeys(Set(d, k, v))
  {
    if d == [] {
    } else if d[0].0 == k {
      DistinctCons(d[0], d[1..]);
      DistinctCons((k, v), d[1..]);
      assert d == [d[0]] + d[1..];
    } else {
      assert d == [d[0]] + d[1..];
      DistinctCons(d[0], d[1..]);
      SetDistinct(d[1..], k, v);
      DistinctCons(d[0], Set(d[1..], k, v));
    }
  }

  /** Assigning a key the value it already has changes nothing. */
  lemma {:induction false} SetSame(d: Dict, k: string, v: Json)
    requires Get(d, k) == Some(v)
    ensures Set(d, k, v) == d
  {
    if d[0].0 != k {
      SetSame(d[1..], k, v);
    }
  }

  lemma {:induction false} UpdateDistinct(d: Dict, r: Dict)
    requires DistinctKeys(d)
    ensures DistinctKeys(Update(d, r))
    decreases |r|
  {
    if r != [] {
      SetDistinct(d, r[0].0, r[0].1);
      UpdateDistinct(Set(d, r[0].0, r[0].1), r[1..]);
    }
  }

  /**
   * `d.update(r)` replaces the whole value of every top-level key of `r` and keeps
   * the value of every other key: it is a shallow merge.
   */
  lemma {:induction false} GetUpdate(d: Dict, r: Dict, k: string)
    requires DistinctKeys(r)
    ensures Get(Update(d, r), k) == if k in Keys(r) then Get(r, k) else Get(d, k)
    decreases |r|
  {
    if r != [] {
      assert Keys(r) == [r[0].0] + Keys(r[1..]);
      assert DistinctKeys(r[1..]) by {
        forall a, b | 0 <= a < b < |r[1..]| ensures r[1..][a].0 != r[1..][b].0 {
          assert r[1..][a] == r[a + 1] && r[1..][b] == r[b + 1];
        }
      }
      GetUpdate(Set(d, r[0].0, r[0].1), r[1..], k);
      GetSet(d, r[0].0, r[0].1, k);
      if k == r[0].0 {
        assert k !in Keys(r[1..]) by {
          forall i | 0 <= i < |r[1..]| ensures Keys(r[1..])[i] != k {
            assert r[1..][i] == r[i + 1];
          }
        }
      }
    }
  }

  lemma {:induction false} UpdateAlreadyMerged(e: Dict, r: Dict)
    requires forall i :: 0 <= i < |r| ==> Get(e, r[i].0) == Some(r[i].1)
    ensures Update(e, r) == e
    decreases |r|
  {
    if r != [] {
      SetSame(e, r[0].0, r[0].1);
      assert forall i :: 0 <= i < |r[1..]| ==> r[1..][i] == r[i + 1];
      UpdateAlreadyMerged(e, r[1..]);
    }
  }

  /** Merging the same response twice gives the same dictionary as merging it once. */
  lemma UpdateIdempotent(d: Dict, r: Dict)
    requires DistinctKeys(r)
    ensures Update(Update(d, r), r) == Update(d, r)
  {
    forall i | 0 <= i < |r| ensures Get(Update(d, r), r[i].0) == Some(r[i].1) {
      GetUpdate(d, r, r[i].0);
      GetAt(r, i);
    }
    UpdateAlreadyMerged(Update(d, r), r);
  }
}
