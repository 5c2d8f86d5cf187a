/** A game session: the cats, the score, the click budget, the two phase
    flags and the flash, with the four things that change them — a click, a
    frame, the colour change and the stop. */
module Game {
  import opened Cats
  import opened Flash
  import opened Scoring
  import opened Motion

  /** How many cats the game creates; the player gets as many clicks. */
  const NUM_CATS: nat := 10

  /** The whole mutable state of one playthrough. `gameActive` admits clicks,
      `isMoving` lets the cats move; the canvas size is fixed. */
  datatype Session = Session(
    cats: seq<Cat>,
    score: int,
    clicksRemaining: int,
    gameActive: bool,
    isMoving: bool,
    flash: FlashState,
    canvasWidth: nat,
    canvasHeight: nat)

  /** What each cat keeps true throughout a session: the eye marker follows
      the body, the eye offset matches the eye side, and the velocity is
      within the speed limit. */
  predicate CatValid(c: Cat)
  {
    EyeFollows(c) && OffsetMatchesSide(c) && InSpeedLimit(c.vel)
  }

  /** What the session keeps true: a non-negative score and click budget, a
      well-formed flash and valid cats. */
  predicate Valid(s: Session)
  {
    && s.score >= 0
    && s.clicksRemaining >= 0
    && WellFormed(s.flash)
    && forall i :: 0 <= i < |s.cats| ==> CatValid(s.cats[i])
  }

  /** The body lies wholly on the canvas. */
  predicate OnCanvas(c: Cat, width: real, height: real)
  {
    && c.width / 2.0 <= c.body.x <= width - c.width / 2.0
    && c.height / 2.0 <= c.body.y <= height - c.height / 2.0
  }

  /** A new session: nothing scored, one click per cat, clicks not yet
      admitted, cats moving, no flash. */
  function Start(cats: seq<Cat>, width: nat, height: nat): (s: Session)
    ensures s.cats == cats && s.canvasWidth == width && s.canvasHeight == height
    ensures s.score == 0 && s.clicksRemaining == |cats|
    ensures !s.gameActive && s.isMoving && s.flash.color == NoFlash
    ensures (forall i :: 0 <= i < |cats| ==> CatValid(cats[i])) ==> Valid(s)
  {
    Session(cats, 0, |cats|, false, true, Idle, width, height)
  }

  /** A new cat from the game's random draws is valid: the draws give each
      velocity component in [-1, 1) and an eye side. */
  lemma NewCatIsValid(pos: Vec, vel: Vec, side: Side)
    requires -1.0 <= vel.x < 1.0 && -1.0 <= vel.y < 1.0
    ensures CatValid(NewCat(pos, vel, side))
  {
  }

  /** A click at canvas point `p`. Ignored unless clicks are admitted and
      some remain; otherwise every cat whose body contains `p` is judged on
      its own, the flash restarts, and one click is used up. */
  function Click(s: Session, p: Vec): (r: Session)
    ensures !s.gameActive || s.clicksRemaining <= 0 ==> r == s
    ensures s.gameActive && s.clicksRemaining > 0 ==>
      && r.clicksRemaining == s.clicksRemaining - 1
      && r.score == s.score + CorrectCount(s.cats, p)
      && r.flash.remaining == FLASH_TIME
      && (!AnyHit(s.cats, p) ==> r.flash.color == Red)
      && (forall k :: IsLastHit(s.cats, p, k) ==> r.flash.color == Verdict(s.cats[k], p))
      && (r.gameActive <==> r.clicksRemaining > 0)
      && r.cats == s.cats && r.isMoving == s.isMoving
      && r.canvasWidth == s.canvasWidth && r.canvasHeight == s.canvasHeight
  {
    if !s.gameActive || s.clicksRemaining <= 0 then
      s
    else
      var v := VisitCats(s.cats, p, Visit(false, 0, s.flash.color));
      var remaining := s.clicksRemaining - 1;
      s.(score := s.score + v.gained,
         flash := FlashState(if v.hit then v.color else Red, FLASH_TIME),
         clicksRemaining := remaining,
         gameActive := if remaining <= 0 then false else s.gameActive)
  }

  /** One frame: the flash decays, and while the cats move each one takes a
      motion step with the repulsion impulses `impulses[i]` of its close
      neighbours. */
  function Tick(s: Session, impulses: seq<seq<Vec>>): (r: Session)
    requires |impulses| == |s.cats|
    ensures r.flash == Decay(s.flash)
    ensures |r.cats| == |s.cats|
    ensures !s.isMoving ==> r.cats == s.cats
    ensures s.isMoving ==> forall i :: 0 <= i < |s.cats| ==>
      r.cats[i] == MoveCat(s.cats[i], s.canvasWidth as real, s.canvasHeight as real, impulses[i])
    ensures r == s.(flash := r.flash, cats := r.cats)
  {
    var w := s.canvasWidth as real;
    var h := s.canvasHeight as real;
    var moved :=
      if s.isMoving then
        seq(|s.cats|, i requires 0 <= i < |s.cats| => MoveCat(s.cats[i], w, h, impulses[i]))
      else
        s.cats;
    s.(flash := Decay(s.flash), cats := moved)
  }

  /** One cat at the colour change: its body turns black and its eyes move
      to `side`. */
  function Recolor(c: Cat, side: Side): (r: Cat)
    ensures r.color == Black && r.eyeSide == side
    ensures c.width > 0.0 ==> OffsetMatchesSide(r)
    ensures EyeFollows(r)
    ensures r.body == c.body && r.vel == c.vel && r.width == c.width && r.height == c.height
    ensures r.eyeOffset.y == c.eyeOffset.y
  {
    var offset := Vec(EyeOffsetX(c.width, side), c.eyeOffset.y);
    c.(color := Black, eyeSide := side, eyeOffset := offset, eye := Add(c.body, offset))
  }

  /** The colour-change event: every cat is recoloured with its freshly drawn
      eye side `sides[i]`; nothing else changes. */
  function ColorChange(s: Session, sides: seq<Side>): (r: Session)
    requires |sides| == |s.cats|
    ensures |r.cats| == |s.cats|
    ensures forall i :: 0 <= i < |s.cats| ==> r.cats[i] == Recolor(s.cats[i], sides[i])
    ensures r == s.(cats := r.cats)
  {
    s.(cats := seq(|s.cats|, i requires 0 <= i < |s.cats| => Recolor(s.cats[i], sides[i])))
  }

  /** The stop event: the cats stop moving and clicks are admitted; nothing
      else changes. */
  function Stop(s: Session): (r: Session)
    ensures !r.isMoving && r.gameActive
    ensures r.cats == s.cats && r.score == s.score && r.clicksRemaining == s.clicksRemaining
    ensures r.flash == s.flash && r.canvasWidth == s.canvasWidth && r.canvasHeight == s.canvasHeight
  {
    s.(isMoving := false, gameActive := true)
  }

  /** Everything that can happen to a session. */
  datatype Event =
    | ClickAt(p: Vec)
    | Frame(impulses: seq<seq<Vec>>)
    | ChangeColors(sides: seq<Side>)
    | StopMoving

  /** The event carries one entry per cat where it needs one. */
  predicate Fits(n: nat, e: Event)
  {
    match e
    case Frame(impulses) => |impulses| == n
    case ChangeColors(sides) => |sides| == n
    case _ => true
  }

  predicate AllFit(n: nat, es: seq<Event>)
  {
    forall i :: 0 <= i < |es| ==> Fits(n, es[i])
  }

  function Apply(s: Session, e: Event): (r: Session)
    requires Fits(|s.cats|, e)
    ensures |r.cats| == |s.cats|
    ensures r.canvasWidth == s.canvasWidth && r.canvasHeight == s.canvasHeight
  {
    match e
    case ClickAt(p) => Click(s, p)
    case Frame(impulses) => Tick(s, impulses)
    case ChangeColors(sides) => ColorChange(s, sides)
    case StopMoving => Stop(s)
  }

  /** The session after the events `es`, in order. */
  function Run(s: Session, es: seq<Event>): (r: Session)
    requires AllFit(|s.cats|, es)
    ensures |r.cats| == |s.cats|
    ensures r.canvasWidth == s.canvasWidth && r.canvasHeight == s.canvasHeight
    decreases |es|
  {
    if |es| == 0 then s else Run(Apply(s, es[0]), es[1..])
  }
}
