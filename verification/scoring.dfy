/** Resolving one accepted click against every cat, in array order: which cats
    it hits, how many points it earns and which flash colour it leaves. */
module Scoring {
  import opened Cats
  import opened Flash

  /** What the pass over the cats has found so far: whether any body was hit,
      the points earned and the flash colour last set. */
  datatype Visit = Visit(hit: bool, gained: nat, color: FlashColor)

  /** The flash a hit on `c` asks for: green on the half without eyes, red on
      the eye half. */
  function Verdict(c: Cat, p: Vec): FlashColor
  {
    if ClickedSide(c, p) != c.eyeSide then Green else Red
  }

  /** The click handler's treatment of one cat. */
  function VisitOne(c: Cat, p: Vec, v: Visit): Visit
  {
    if Contains(c, p) then
      Visit(true, v.gained + (if Verdict(c, p) == Green then 1 else 0), Verdict(c, p))
    else
      v
  }

  /** The indices of the cats on which the click scores. */
  ghost function CorrectSet(cats: seq<Cat>, p: Vec): set<int>
  {
    set i | 0 <= i < |cats| && IsCorrect(cats[i], p)
  }

  /** How many cats the click scores on. */
  ghost function CorrectCount(cats: seq<Cat>, p: Vec): nat
  {
    |CorrectSet(cats, p)|
  }

  /** Some body rectangle contains the click. */
  ghost predicate AnyHit(cats: seq<Cat>, p: Vec)
  {
    exists i :: 0 <= i < |cats| && Contains(cats[i], p)
  }

  /** Cat `k` is hit and no cat after it in array order is. */
  ghost predicate IsLastHit(cats: seq<Cat>, p: Vec, k: int)
  {
    && 0 <= k < |cats|
    && Contains(cats[k], p)
    && forall j :: k < j < |cats| ==> !Contains(cats[j], p)
  }

  lemma CorrectSetSnoc(cats: seq<Cat>, p: Vec)
    requires |cats| > 0
    ensures CorrectSet(cats, p) ==
      CorrectSet(cats[..|cats| - 1], p) + (if IsCorrect(cats[|cats| - 1], p) then {|cats| - 1} else {})
  {
  }

  /** `r` is what a pass over `cats` starting from `v0` must find. */
  ghost predicate Summarises(cats: seq<Cat>, p: Vec, v0: Visit, r: Visit)
  {
    && (r.hit <==> v0.hit || AnyHit(cats, p))
    && r.gained == v0.gained + CorrectCount(cats, p)
    && (!AnyHit(cats, p) ==> r.color == v0.color)
    && forall k :: IsLastHit(cats, p, k) ==> r.color == Verdict(cats[k], p)
  }

  /** Visiting one more cat extends a summary of the cats before it. */
  lemma VisitExtends(cats: seq<Cat>, p: Vec, v0: Visit, prev: Visit)
    requires |cats| > 0
    requires Summarises(cats[..|cats| - 1], p, v0, prev)
    ensures Summarises(cats, p, v0, VisitOne(cats[|cats| - 1], p, prev))
  {
    var last := |cats| - 1;
    var prefix := cats[..last];
    var c := cats[last];
    var r := VisitOne(c, p, prev);
    assert forall i :: 0 <= i < last ==> prefix[i] == cats[i];
    CorrectSetSnoc(cats, p);
    assert AnyHit(cats, p) <==> AnyHit(prefix, p) || Contains(c, p) by {
      if AnyHit(cats, p) && !Contains(c, p) {
        var i :| 0 <= i < |cats| && Contains(cats[i], p);
        assert i < last && Contains(prefix[i], p);
      }
      if AnyHit(prefix, p) {
        var i :| 0 <= i < last && Contains(prefix[i], p);
        assert Contains(cats[i], p);
      }
    }
    forall k | IsLastHit(cats, p, k)
      ensures r.color == Verdict(cats[k], p)
    {
      if k < last {
        assert !Contains(c, p);
        assert IsLastHit(prefix, p, k);
      }
    }
  }

  /** The pass over all cats, first to last, starting from `v0`. Every hit
      counts on its own, so overlapping bodies can each score on one click,
      and the last hit cat decides the colour. */
  function VisitCats(cats: seq<Cat>, p: Vec, v0: Visit): (r: Visit)
    ensures r.hit <==> v0.hit || AnyHit(cats, p)
    ensures r.gained == v0.gained + CorrectCount(cats, p)
    ensures !AnyHit(cats, p) ==> r.color == v0.color
    ensures forall k :: IsLastHit(cats, p, k) ==> r.color == Verdict(cats[k], p)
    decreases |cats|
  {
    if |cats| == 0 then
      v0
    else
      var prev := VisitCats(cats[..|cats| - 1], p, v0);
      VisitExtends(cats, p, v0, prev);
      VisitOne(cats[|cats| - 1], p, prev)
  }

  /** With pairwise disjoint bodies a click scores at most one point. */
  lemma AtMostOnePointWithoutOverlap(cats: seq<Cat>, p: Vec)
    requires forall i, j :: 0 <= i < j < |cats| ==> Disjoint(cats[i], cats[j])
    ensures CorrectCount(cats, p) <= 1
  {
    var s := CorrectSet(cats, p);
    if s != {} {
      var k :| k in s;
      forall i | i in s
        ensures i == k
      {
        if i < k {
          DisjointNotBothHit(cats[i], cats[k], p);
        } else if k < i {
          DisjointNotBothHit(cats[k], cats[i], p);
        }
      }
      assert s == {k};
    }
  }

  /** A click scores at most once per cat. */
  lemma {:induction false} AtMostOnePointPerCat(cats: seq<Cat>, p: Vec)
    ensures CorrectCount(cats, p) <= |cats|
  {
    if |cats| > 0 {
      CorrectSetSnoc(cats, p);
      AtMostOnePointPerCat(cats[..|cats| - 1], p);
    }
  }
}
