/** Worked clicks on small sessions: the single-cat game whose cat sits at
    (100, 100) with its eyes on the right, and two overlapping cats. */
module Scenarios {
  import opened Cats
  import opened Flash
  import opened Scoring
  import opened Game

  /** A 100x60 cat at (x, 100), black after the colour change, with its
      eyes drawn on `side`. */
  function CatAt(x: real, side: Side): Cat
  {
    Recolor(NewCat(Vec(x, 100.0), Vec(0.0, 0.0), Right), side)
  }

  /** A session with `cats` on an 800x600 canvas after the stop event. */
  function Stopped(cats: seq<Cat>): Session
  {
    Stop(Start(cats, 800, 600))
  }

  /** One cat, eyes on the right: a click at (60, 100) is on the left half,
      scores, uses the only click and ends the game. */
  lemma EyelessHalfScores()
    ensures var r := Click(Stopped([CatAt(100.0, Right)]), Vec(60.0, 100.0));
      r.score == 1 && r.clicksRemaining == 0 && !r.gameActive && r.flash == FlashState(Green, FLASH_TIME)
  {
    var cats := [CatAt(100.0, Right)];
    assert IsCorrect(cats[0], Vec(60.0, 100.0));
    assert CorrectSet(cats, Vec(60.0, 100.0)) == {0};
    assert IsLastHit(cats, Vec(60.0, 100.0), 0);
  }

  /** The same cat clicked at (140, 100), on the eye half: no point, a red
      flash, and the game ends. */
  lemma EyeHalfDoesNotScore()
    ensures var r := Click(Stopped([CatAt(100.0, Right)]), Vec(140.0, 100.0));
      r.score == 0 && r.clicksRemaining == 0 && !r.gameActive && r.flash == FlashState(Red, FLASH_TIME)
  {
    var cats := [CatAt(100.0, Right)];
    assert !IsCorrect(cats[0], Vec(140.0, 100.0));
    assert CorrectSet(cats, Vec(140.0, 100.0)) == {};
    assert IsLastHit(cats, Vec(140.0, 100.0), 0);
  }

  /** A click at (0, 0) misses the body: no point, a red flash, and the
      click is still used. */
  lemma MissStillUsesClick()
    ensures var r := Click(Stopped([CatAt(100.0, Right)]), Vec(0.0, 0.0));
      r.score == 0 && r.clicksRemaining == 0 && r.flash == FlashState(Red, FLASH_TIME)
  {
    var cats := [CatAt(100.0, Right)];
    assert !Contains(cats[0], Vec(0.0, 0.0));
    assert CorrectSet(cats, Vec(0.0, 0.0)) == {};
  }

  /** A click exactly on the centre line counts as the right half: it scores
      when the eyes are on the left and not when they are on the right. */
  lemma CentreLineIsRight()
    ensures Click(Stopped([CatAt(100.0, Left)]), Vec(100.0, 100.0)).score == 1
    ensures Click(Stopped([CatAt(100.0, Right)]), Vec(100.0, 100.0)).score == 0
  {
    var p := Vec(100.0, 100.0);
    assert CorrectSet([CatAt(100.0, Left)], p) == {0};
    assert CorrectSet([CatAt(100.0, Right)], p) == {};
  }

  /** The body's edges belong to it: a click on the left edge hits. */
  lemma EdgesAreInside()
    ensures Click(Stopped([CatAt(100.0, Right)]), Vec(50.0, 130.0)).score == 1
  {
    var cats := [CatAt(100.0, Right)];
    assert IsCorrect(cats[0], Vec(50.0, 130.0));
    assert CorrectSet(cats, Vec(50.0, 130.0)) == {0};
  }

  /** Two overlapping cats, both with eyes on the right, clicked at (95, 100)
      on the left half of both: one click earns two points. */
  lemma OverlapScoresTwice()
    ensures var r := Click(Stopped([CatAt(100.0, Right), CatAt(120.0, Right)]), Vec(95.0, 100.0));
      r.score == 2 && r.clicksRemaining == 1 && r.gameActive && r.flash.color == Green
  {
    var cats := [CatAt(100.0, Right), CatAt(120.0, Right)];
    var p := Vec(95.0, 100.0);
    assert IsCorrect(cats[0], p) && IsCorrect(cats[1], p);
    assert CorrectSet(cats, p) == {0, 1};
    assert IsLastHit(cats, p, 1);
  }
}
