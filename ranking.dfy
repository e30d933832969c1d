/**
 * The ranker of backend/content_based.py: `cosine_sim.argsort()[::-1][1:top_n + 1]`.
 * The similarity scores are an input (one per candidate position); the descending
 * argsort is any order that lists every position once with non-increasing scores,
 * since numpy's default argsort does not fix the order of equal scores.
 */
module Ranking {

  /** No position occurs twice. */
  predicate Distinct(s: seq<nat>) {
    forall i, j :: 0 <= i < j < |s| ==> s[i] != s[j]
  }

  /** Every entry is a position of a score sequence of length `n`. */
  predicate Bounded(s: seq<nat>, n: nat) {
    forall i :: 0 <= i < |s| ==> s[i] < n
  }

  /** The scores of the listed positions never increase along the list. */
  predicate NonIncreasing(scores: seq<real>, s: seq<nat>)
    requires Bounded(s, |scores|)
  {
    forall i, j :: 0 <= i < j < |s| ==> scores[s[i]] >= scores[s[j]]
  }

  /** What `argsort()[::-1]` yields: each position exactly once, highest score first. */
  predicate IsDescendingOrder(scores: seq<real>, order: seq<nat>) {
    && |order| == |scores|
    && Bounded(order, |scores|)
    && Distinct(order)
    && (forall p :: 0 <= p < |scores| ==> p in order)
    && NonIncreasing(scores, order)
  }

  /** Inserts position `x` into a descending list before the first entry it does not fall below. */
  function InsertDesc(scores: seq<real>, x: nat, s: seq<nat>): (r: seq<nat>)
    requires x < |scores| && Bounded(s, |scores|)
    ensures |r| == |s| + 1 && Bounded(r, |scores|)
    ensures forall y :: y in r <==> y == x || y in s
    ensures NonIncreasing(scores, s) ==> NonIncreasing(scores, r)
    ensures Distinct(s) && x !in s ==> Distinct(r)
  {
    if s == [] then [x]
    else if scores[x] >= scores[s[0]] then [x] + s
    else
      var rest := InsertDesc(scores, x, s[1..]);
      assert NonIncreasing(scores, s) ==> forall i :: 0 <= i < |rest| ==> scores[rest[i]] <= scores[s[0]] by {
        if NonIncreasing(scores, s) {
          forall i | 0 <= i < |rest| ensures scores[rest[i]] <= scores[s[0]] {
            if rest[i] != x {
              assert rest[i] in s[1..];
              var m :| 0 <= m < |s[1..]| && s[1..][m] == rest[i];
              assert s[m + 1] == rest[i];
            }
          }
        }
      }
      assert Distinct(s) && x !in s ==> s[0] !in rest && Distinct([s[0]] + rest) by {
        if Distinct(s) && x !in s {
          assert s[0] !in s[1..];
        }
      }
      [s[0]] + rest
  }

  /** The positions below `k` in descending score order. */
  function SortPrefix(scores: seq<real>, k: nat): (r: seq<nat>)
    requires k <= |scores|
    ensures |r| == k && Bounded(r, |scores|) && Distinct(r) && NonIncreasing(scores, r)
    ensures forall y: nat :: y in r <==> y < k
  {
    if k == 0 then []
    else
      var prev := SortPrefix(scores, k - 1);
      var r := InsertDesc(scores, k - 1, prev);
      assert forall y: nat :: y in r <==> y == k - 1 || y in prev;
      r
  }

  /** One descending argsort of `scores`; it shows that every score sequence has one. */
  function ArgsortDesc(scores: seq<real>): (order: seq<nat>)
    ensures IsDescendingOrder(scores, order)
  {
    SortPrefix(scores, |scores|)
  }

  /**
   * `argsort` sorts every score sequence into a descending order. numpy's `argsort()[::-1]`
   * is one such function; which one it is decides only the order of equal scores.
   */
  ghost predicate IsArgsort(argsort: seq<real> -> seq<nat>) {
    forall scores :: IsDescendingOrder(scores, argsort(scores))
  }

  /** The insertion sort above is a descending argsort, so the requirement can be met. */
  lemma ArgsortDescIsArgsort()
    ensures IsArgsort(ArgsortDesc)
  {
  }

  /** Python's normalisation of a slice's stop index for a sequence of length `len`. */
  function PyStop(len: nat, stop: int): (r: nat)
    ensures r <= len
    ensures 0 <= stop ==> r == if stop < len then stop else len
    ensures stop < 0 ==> r == if 0 <= stop + len then stop + len else 0
  {
    if stop < 0 then (if stop + len < 0 then 0 else stop + len)
    else if stop > len then len
    else stop
  }

  /** `order[1:top_n + 1]` with Python's slice semantics: the head is dropped and at most `top_n` follow. */
  function TopAfterHead(order: seq<nat>, topN: int): (r: seq<nat>)
    ensures order == [] ==> r == []
    ensures order != [] ==> |r| <= |order| - 1 && r == order[1..1 + |r|]
    ensures order != [] && 0 <= topN ==> |r| == if topN < |order| - 1 then topN else |order| - 1
    ensures order != [] && topN == -1 ==> r == []
    ensures order != [] && topN < -1 ==> |r| == if 0 <= |order| + topN then |order| + topN else 0
  {
    var lo := if |order| < 1 then |order| else 1;
    var hi := PyStop(|order|, topN + 1);
    if hi <= lo then [] else order[lo..hi]
  }

  /**
   * For every descending order: the selection lists distinct positions with non-increasing
   * scores, never the dropped head, and no position left out (other than the head) scores
   * above a selected one.
   */
  lemma SelectionProperties(scores: seq<real>, order: seq<nat>, topN: int)
    requires IsDescendingOrder(scores, order)
    ensures var sel := TopAfterHead(order, topN);
      && Bounded(sel, |scores|) && Distinct(sel) && NonIncreasing(scores, sel)
      && (order != [] ==> order[0] !in sel)
      && (forall k, p :: 0 <= k < |sel| && 0 <= p < |scores| && p !in sel && p != order[0]
            ==> scores[p] <= scores[sel[k]])
  {
    var sel := TopAfterHead(order, topN);
    if order != [] {
      assert forall k :: 0 <= k < |sel| ==> sel[k] == order[k + 1];
      forall k, p | 0 <= k < |sel| && 0 <= p < |scores| && p !in sel && p != order[0]
        ensures scores[p] <= scores[sel[k]]
      {
        assert p in order;
        var m :| 0 <= m < |order| && order[m] == p;
        assert forall m' :: 1 <= m' <= |sel| ==> order[m'] == sel[m' - 1] && sel[m' - 1] in sel;
        assert m > |sel|;
        assert scores[order[k + 1]] >= scores[order[m]];
      }
    }
  }

  /** When the query's own score is strictly the highest, it heads every descending order and is dropped. */
  lemma SelfExcludedWhenStrictMax(scores: seq<real>, order: seq<nat>, q: nat, topN: int)
    requires IsDescendingOrder(scores, order) && q < |scores|
    requires forall p :: 0 <= p < |scores| && p != q ==> scores[p] < scores[q]
    ensures order[0] == q && q !in TopAfterHead(order, topN)
  {
    assert q in order;
    var m :| 0 <= m < |order| && order[m] == q;
    var head, top, own := order[0], scores[order[0]], scores[q];
    assert m == 0 || (top >= own && head != q);
    SelectionProperties(scores, order, topN);
  }

  /** With a tie at the top the query may be the dropped head's runner-up and come back as its own recommendation. */
  lemma SelfReturnedOnTie()
    ensures IsDescendingOrder([1.0, 1.0], [1, 0])
    ensures TopAfterHead([1, 0], 5) == [0]
  {
    assert 0 in [1, 0] && 1 in [1, 0];
  }
}
