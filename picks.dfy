/**
 * Order-preserving selections: `r` is made of the elements of `s` at the
 * increasing positions `idx`. The comprehensions of the cache keep the elements
 * that pass a test in their original order; this is how the model states it.
 */
module Picks {

  /** `idx` lists, in increasing order, positions of `s`, one per element of `r`. */
  ghost predicate PicksInOrder<T>(r: seq<T>, s: seq<T>, idx: seq<int>) {
    && |idx| == |r|
    && (forall k :: 0 <= k < |idx| ==> 0 <= idx[k] < |s| && r[k] == s[idx[k]])
    && (forall k, l :: 0 <= k < l < |idx| ==> idx[k] < idx[l])
  }

  function Shift(idx: seq<int>): (r: seq<int>)
    ensures |r| == |idx| && forall k :: 0 <= k < |idx| ==> r[k] == idx[k] + 1
  {
    seq(|idx|, k requires 0 <= k < |idx| => idx[k] + 1)
  }

  lemma ShiftPicks<T>(x: T, tail: seq<T>, r: seq<T>, rest: seq<int>)
    requires PicksInOrder(r, tail, rest)
    ensures PicksInOrder(r, [x] + tail, Shift(rest))
  {
    var s := [x] + tail;
    forall k | 0 <= k < |rest| ensures 0 <= Shift(rest)[k] < |s| && r[k] == s[Shift(rest)[k]] {
      assert s[rest[k] + 1] == tail[rest[k]];
    }
  }

  lemma ShiftMembers(rest: seq<int>, i: int)
    ensures i in Shift(rest) <==> i - 1 in rest
  {
    var shifted := Shift(rest);
    if i in shifted {
      var k :| 0 <= k < |shifted| && shifted[k] == i;
      assert rest[k] == i - 1;
    }
    if i - 1 in rest {
      var k :| 0 <= k < |rest| && rest[k] == i - 1;
      assert shifted[k] == i;
    }
  }

  lemma KeepFirst<T>(x: T, s: seq<T>, r: seq<T>, shifted: seq<int>)
    requires s != [] && s[0] == x
    requires PicksInOrder(r, s, shifted)
    requires forall k :: 0 <= k < |shifted| ==> shifted[k] > 0
    ensures PicksInOrder([x] + r, s, [0] + shifted)
  {
    var idx, out := [0] + shifted, [x] + r;
    forall k | 1 <= k < |idx| ensures 0 <= idx[k] < |s| && out[k] == s[idx[k]] {
      assert idx[k] == shifted[k - 1] && out[k] == r[k - 1];
    }
  }

  /**
   * The positions picked from `[x] + tail`, given the positions `rest` picked
   * from `tail` and whether `x` itself is kept.
   */
  lemma ConsPicks<T>(x: T, keep: bool, tail: seq<T>, r: seq<T>, rest: seq<int>) returns (idx: seq<int>)
    requires PicksInOrder(r, tail, rest)
    ensures PicksInOrder((if keep then [x] else []) + r, [x] + tail, idx)
    ensures forall i :: 0 <= i <= |tail| ==>
              (i in idx <==> (i == 0 && keep) || (i > 0 && i - 1 in rest))
  {
    var shifted := Shift(rest);
    ShiftPicks(x, tail, r, rest);
    forall i | 0 <= i <= |tail| ensures (i in shifted <==> i > 0 && i - 1 in rest) {
      ShiftMembers(rest, i);
    }
    if keep {
      KeepFirst(x, [x] + tail, r, shifted);
      idx := [0] + shifted;
    } else {
      assert [] + r == r;
      idx := shifted;
    }
  }
}
