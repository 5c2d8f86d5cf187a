/** What holds of whole runs of a session: the invariants every event keeps,
    the click budget, the score's growth, the frozen cats, the flash timing
    and the order of the two phase events. */
module GameProperties {
  import opened Cats
  import opened Flash
  import opened Scoring
  import opened Game

  /** A click that hits some body has a last hit cat. */
  lemma {:induction false} LastHitExists(cats: seq<Cat>, p: Vec)
    requires AnyHit(cats, p)
    ensures exists k :: IsLastHit(cats, p, k)
  {
    var last := |cats| - 1;
    if Contains(cats[last], p) {
      assert IsLastHit(cats, p, last);
    } else {
      var prefix := cats[..last];
      var i :| 0 <= i < |cats| && Contains(cats[i], p);
      assert Contains(prefix[i], p);
      LastHitExists(prefix, p);
      var k :| IsLastHit(prefix, p, k);
      assert IsLastHit(cats, p, k);
    }
  }

  /** An accepted click always leaves a visible flash for the full time. */
  lemma AcceptedClickFlashes(s: Session, p: Vec)
    requires s.gameActive && s.clicksRemaining > 0
    ensures Click(s, p).flash.color != NoFlash
    ensures Click(s, p).flash.remaining == FLASH_TIME
  {
    if AnyHit(s.cats, p) {
      LastHitExists(s.cats, p);
    }
  }

  /** Every event keeps the session invariant. */
  lemma ApplyPreservesValid(s: Session, e: Event)
    requires Valid(s) && Fits(|s.cats|, e)
    ensures Valid(Apply(s, e))
  {
    match e
    case ClickAt(p) =>
      if s.gameActive && s.clicksRemaining > 0 {
        AcceptedClickFlashes(s, p);
      }
    case Frame(impulses) =>
      if s.isMoving {
        var r := Tick(s, impulses);
        forall i | 0 <= i < |r.cats|
          ensures CatValid(r.cats[i])
        {
          assert CatValid(s.cats[i]);
        }
      }
    case ChangeColors(sides) =>
      var r := ColorChange(s, sides);
      forall i | 0 <= i < |r.cats|
        ensures CatValid(r.cats[i])
      {
        assert CatValid(s.cats[i]);
      }
    case StopMoving =>
  }

  /** Every run keeps the session invariant; in particular the click budget
      never drops below zero. */
  lemma {:induction false} RunPreservesValid(s: Session, es: seq<Event>)
    requires Valid(s) && AllFit(|s.cats|, es)
    ensures Valid(Run(s, es))
    decreases |es|
  {
    if |es| > 0 {
      ApplyPreservesValid(s, es[0]);
      RunPreservesValid(Apply(s, es[0]), es[1..]);
    }
  }

  /** Running two stretches of events one after the other is running them
      together. */
  lemma {:induction false} RunConcat(s: Session, a: seq<Event>, b: seq<Event>)
    requires AllFit(|s.cats|, a) && AllFit(|s.cats|, b)
    ensures AllFit(|s.cats|, a + b)
    ensures Run(s, a + b) == Run(Run(s, a), b)
    decreases |a|
  {
    assert forall i :: 0 <= i < |a + b| ==> (a + b)[i] == if i < |a| then a[i] else b[i - |a|];
    if |a| == 0 {
      assert a + b == b;
    } else {
      assert (a + b)[1..] == a[1..] + b;
      RunConcat(Apply(s, a[0]), a[1..], b);
    }
  }

  /** Over any run the score never decreases and the click budget never
      grows. */
  lemma {:induction false} ScoreNeverDecreases(s: Session, es: seq<Event>)
    requires AllFit(|s.cats|, es)
    ensures Run(s, es).score >= s.score
    ensures Run(s, es).clicksRemaining <= s.clicksRemaining
    decreases |es|
  {
    if |es| > 0 {
      ScoreNeverDecreases(Apply(s, es[0]), es[1..]);
    }
  }

  /** The points gained from `s` to `r` are at most the clicks used between
      them times `n`. */
  ghost predicate PaidFor(s: Session, r: Session, n: int)
  {
    r.score - s.score <= (s.clicksRemaining - r.clicksRemaining) * n
  }

  /** One event earns at most one point per cat for each click it uses. */
  lemma EventScoreBound(s: Session, e: Event)
    requires Fits(|s.cats|, e)
    ensures PaidFor(s, Apply(s, e), |s.cats|)
  {
    var r := Apply(s, e);
    var n := |s.cats|;
    if e.ClickAt? && s.gameActive && s.clicksRemaining > 0 {
      AtMostOnePointPerCat(s.cats, e.p);
      assert r.score - s.score <= n;
      assert s.clicksRemaining - r.clicksRemaining == 1;
      assert 1 * n == n;
    } else {
      assert r.score == s.score && r.clicksRemaining == s.clicksRemaining;
      assert 0 * n == 0;
    }
  }

  lemma PaidForChains(s: Session, s1: Session, r: Session, n: int)
    requires PaidFor(s, s1, n) && PaidFor(s1, r, n)
    ensures PaidFor(s, r, n)
  {
    var a := s.clicksRemaining - s1.clicksRemaining;
    var b := s1.clicksRemaining - r.clicksRemaining;
    assert (a + b) * n == a * n + b * n;
  }

  /** Over any run, each click used earns at most one point per cat. */
  lemma {:induction false} ScoreBoundedByClicksUsed(s: Session, es: seq<Event>)
    requires AllFit(|s.cats|, es)
    ensures PaidFor(s, Run(s, es), |s.cats|)
    decreases |es|
  {
    if |es| > 0 {
      var s1 := Apply(s, es[0]);
      EventScoreBound(s, es[0]);
      ScoreBoundedByClicksUsed(s1, es[1..]);
      PaidForChains(s, s1, Run(s1, es[1..]), |s.cats|);
    }
  }

  /** The click budget never drops below zero. */
  lemma {:induction false} BudgetNeverNegative(s: Session, es: seq<Event>)
    requires AllFit(|s.cats|, es)
    requires s.clicksRemaining >= 0
    ensures Run(s, es).clicksRemaining >= 0
    decreases |es|
  {
    if |es| > 0 {
      BudgetNeverNegative(Apply(s, es[0]), es[1..]);
    }
  }

  /** In the ten-cat game the budget starts at ten and stays within [0, 10]
      whatever happens. */
  lemma GameBudgetInRange(cats: seq<Cat>, width: nat, height: nat, es: seq<Event>)
    requires |cats| == NUM_CATS
    requires AllFit(|cats|, es)
    ensures 0 <= Run(Start(cats, width, height), es).clicksRemaining <= NUM_CATS
  {
    BudgetNeverNegative(Start(cats, width, height), es);
    ScoreNeverDecreases(Start(cats, width, height), es);
  }

  /** Once the budget is spent, no event changes the score or the budget:
      every later click is ignored. */
  lemma {:induction false} SpentBudgetIsFinal(s: Session, es: seq<Event>)
    requires AllFit(|s.cats|, es)
    requires s.clicksRemaining <= 0
    ensures Run(s, es).score == s.score
    ensures Run(s, es).clicksRemaining == s.clicksRemaining
    decreases |es|
  {
    if |es| > 0 {
      SpentBudgetIsFinal(Apply(s, es[0]), es[1..]);
    }
  }

  /** Until the stop event, clicks are ignored: with clicks not admitted and
      no stop event, the score and the budget do not change. */
  lemma {:induction false} NoScoringBeforeStop(s: Session, es: seq<Event>)
    requires AllFit(|s.cats|, es)
    requires !s.gameActive
    requires forall i :: 0 <= i < |es| ==> !es[i].StopMoving?
    ensures Run(s, es).score == s.score
    ensures Run(s, es).clicksRemaining == s.clicksRemaining
    ensures !Run(s, es).gameActive
    decreases |es|
  {
    if |es| > 0 {
      NoScoringBeforeStop(Apply(s, es[0]), es[1..]);
    }
  }

  /** Once the cats have stopped they never move again: every body keeps its
      position and velocity over any run. */
  lemma {:induction false} FrozenCatsStayPut(s: Session, es: seq<Event>)
    requires AllFit(|s.cats|, es)
    requires !s.isMoving
    ensures !Run(s, es).isMoving
    ensures forall i :: 0 <= i < |s.cats| ==>
      Run(s, es).cats[i].body == s.cats[i].body && Run(s, es).cats[i].vel == s.cats[i].vel
    decreases |es|
  {
    if |es| > 0 {
      var s1 := Apply(s, es[0]);
      assert !s1.isMoving;
      assert forall i :: 0 <= i < |s.cats| ==> s1.cats[i].body == s.cats[i].body && s1.cats[i].vel == s.cats[i].vel;
      FrozenCatsStayPut(s1, es[1..]);
    }
  }

  /** While the cats move, every frame leaves each body wholly on the canvas
      (when the canvas is at least as large as the body) with its eye marker
      at its eye offset. */
  lemma MovingFrameKeepsCatsOnCanvas(s: Session, impulses: seq<seq<Vec>>)
    requires |impulses| == |s.cats| && s.isMoving
    ensures forall i :: 0 <= i < |s.cats| ==>
      && EyeFollows(Tick(s, impulses).cats[i])
      && (s.cats[i].width <= s.canvasWidth as real && s.cats[i].height <= s.canvasHeight as real ==>
            OnCanvas(Tick(s, impulses).cats[i], s.canvasWidth as real, s.canvasHeight as real))
  {
  }

  /** Only frames change the flash between clicks: each one decays it. */
  lemma {:induction false} FramesDecayFlash(s: Session, es: seq<Event>)
    requires AllFit(|s.cats|, es)
    requires forall i :: 0 <= i < |es| ==> es[i].Frame?
    ensures Run(s, es).flash == DecayN(s.flash, |es|)
    decreases |es|
  {
    if |es| > 0 {
      FramesDecayFlash(Apply(s, es[0]), es[1..]);
    }
  }

  /** After an accepted click the flash shows for 18 frames and is gone
      after the 19th, whether or not the cats are moving. */
  lemma FlashClearsAfterNineteenFrames(s: Session, p: Vec, es: seq<Event>)
    requires s.gameActive && s.clicksRemaining > 0
    requires AllFit(|s.cats|, es)
    requires forall i :: 0 <= i < |es| ==> es[i].Frame?
    ensures |es| < 19 ==> Run(Click(s, p), es).flash.color == Click(s, p).flash.color != NoFlash
    ensures |es| >= 19 ==> Run(Click(s, p), es).flash.color == NoFlash
  {
    var c := Click(s, p);
    AcceptedClickFlashes(s, p);
    FramesDecayFlash(c, es);
    assert FramesToClear(FLASH_TIME) == 19;
    VisibleUntilCleared(c.flash.color, FLASH_TIME, |es|);
  }

  /** Clicks and frames: the events that happen between the phase changes. */
  predicate Ambient(e: Event)
  {
    e.ClickAt? || e.Frame?
  }

  /** Clicks and frames never change a cat's colour, eye side or eye offset. */
  lemma {:induction false} AmbientKeepsLooks(s: Session, es: seq<Event>)
    requires AllFit(|s.cats|, es)
    requires forall i :: 0 <= i < |es| ==> Ambient(es[i])
    ensures Run(s, es).isMoving == s.isMoving
    ensures forall i :: 0 <= i < |s.cats| ==>
      && Run(s, es).cats[i].color == s.cats[i].color
      && Run(s, es).cats[i].eyeSide == s.cats[i].eyeSide
      && Run(s, es).cats[i].eyeOffset == s.cats[i].eyeOffset
    decreases |es|
  {
    if |es| > 0 {
      AmbientKeepsLooks(Apply(s, es[0]), es[1..]);
    }
  }

  /** The game's schedule: frames and clicks, the colour change, frames and
      clicks, the stop. After it every cat is black with its newly drawn eye
      side, the cats are frozen, clicks are admitted, and the clicks made
      before it were ignored. */
  lemma PhasesInOrder(cats: seq<Cat>, width: nat, height: nat,
                      before: seq<Event>, sides: seq<Side>, between: seq<Event>)
    requires |sides| == |cats|
    requires AllFit(|cats|, before) && AllFit(|cats|, between)
    requires forall i :: 0 <= i < |before| ==> Ambient(before[i])
    requires forall i :: 0 <= i < |between| ==> Ambient(between[i])
    ensures AllFit(|cats|, before + [ChangeColors(sides)] + between + [StopMoving])
    ensures var r := Run(Start(cats, width, height), before + [ChangeColors(sides)] + between + [StopMoving]);
      && r.score == 0 && r.clicksRemaining == |cats|
      && !r.isMoving && r.gameActive
      && |r.cats| == |cats|
      && forall i :: 0 <= i < |cats| ==> r.cats[i].color == Black && r.cats[i].eyeSide == sides[i]
  {
    var s0 := Start(cats, width, height);
    var change := [ChangeColors(sides)];
    var stop := [StopMoving];
    assert AllFit(|cats|, change) && AllFit(|cats|, stop);
    RunConcat(s0, before, change);
    RunConcat(s0, before + change, between);
    RunConcat(s0, before + change + between, stop);
    var s1 := Run(s0, before);
    NoScoringBeforeStop(s0, before);
    var s2 := Run(s1, change);
    assert s2 == ColorChange(s1, sides);
    var s3 := Run(s2, between);
    NoScoringBeforeStop(s2, between);
    AmbientKeepsLooks(s2, between);
    var s4 := Run(s3, stop);
    assert s4 == Stop(s3);
  }
}
