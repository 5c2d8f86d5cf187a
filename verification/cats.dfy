/** The game's entities: a cat is an axis-aligned body rectangle, anchored at
    its centre, with an eye marker offset onto its left or right half. */
module Cats {

  /** A point or a per-frame velocity on the canvas, in pixels. */
  datatype Vec = Vec(x: real, y: real)

  function Add(a: Vec, b: Vec): Vec
  {
    Vec(a.x + b.x, a.y + b.y)
  }

  /** Which half of a body; main.js encodes Left as -1 and Right as 1. */
  datatype Side = Left | Right

  function Sign(s: Side): real
  {
    if s == Left then -1.0 else 1.0
  }

  /** The body fill: orange while the cats roam, black after the colour change. */
  datatype BodyColor = Orange | Black

  const BODY_WIDTH: real := 100.0
  const BODY_HEIGHT: real := 60.0

  /** One cat: body centre and velocity, body size, body colour, the side the
      eyes sit on, the eye offset from the body centre and the eye marker's
      position. */
  datatype Cat = Cat(
    body: Vec,
    vel: Vec,
    width: real,
    height: real,
    color: BodyColor,
    eyeSide: Side,
    eyeOffset: Vec,
    eye: Vec)

  /** Horizontal eye offset: a quarter of the body width towards the eye side. */
  function EyeOffsetX(width: real, side: Side): real
  {
    width / 4.0 * Sign(side)
  }

  /** The eye marker sits at the body centre plus the eye offset. */
  predicate EyeFollows(c: Cat)
  {
    c.eye == Add(c.body, c.eyeOffset)
  }

  /** The eye offset is the one the current eye side calls for, on a body of
      positive width. */
  predicate OffsetMatchesSide(c: Cat)
  {
    c.width > 0.0 && c.eyeOffset.x == EyeOffsetX(c.width, c.eyeSide)
  }

  /** A freshly created cat: an orange 100x60 body at `pos` moving with `vel`,
      its eyes a quarter of the width towards `side` and a quarter of the
      height above the centre. */
  function NewCat(pos: Vec, vel: Vec, side: Side): (c: Cat)
    ensures c.body == pos && c.vel == vel && c.color == Orange && c.eyeSide == side
    ensures c.width == BODY_WIDTH && c.height == BODY_HEIGHT
    ensures EyeFollows(c) && OffsetMatchesSide(c)
    ensures c.eye.x < c.body.x <==> side == Left
    ensures c.eye.x - c.body.x == 25.0 || c.body.x - c.eye.x == 25.0
    ensures c.eye.y == c.body.y - 15.0
  {
    var offset := Vec(EyeOffsetX(BODY_WIDTH, side), -BODY_HEIGHT / 4.0);
    Cat(pos, vel, BODY_WIDTH, BODY_HEIGHT, Orange, side, offset, Add(pos, offset))
  }

  /** The click point lies in the body rectangle, edges included. */
  predicate Contains(c: Cat, p: Vec)
  {
    && c.body.x - c.width / 2.0 <= p.x <= c.body.x + c.width / 2.0
    && c.body.y - c.height / 2.0 <= p.y <= c.body.y + c.height / 2.0
  }

  /** The half of the body a click falls on; the centre line counts as right. */
  function ClickedSide(c: Cat, p: Vec): Side
  {
    if p.x < c.body.x then Left else Right
  }

  /** A click scores on this cat: it hits the body on the half without eyes. */
  predicate IsCorrect(c: Cat, p: Vec)
  {
    Contains(c, p) && ClickedSide(c, p) != c.eyeSide
  }

  /** Two body rectangles share no point. */
  predicate Disjoint(a: Cat, b: Cat)
  {
    || a.body.x + a.width / 2.0 < b.body.x - b.width / 2.0
    || b.body.x + b.width / 2.0 < a.body.x - a.width / 2.0
    || a.body.y + a.height / 2.0 < b.body.y - b.height / 2.0
    || b.body.y + b.height / 2.0 < a.body.y - a.height / 2.0
  }

  /** The scoring target is the half of the body that does not carry the eye
      marker: a hit scores exactly when the click is on the other side of the
      centre line from the eye, the centre line itself counting as right. */
  lemma ScoringHalfIsAwayFromEye(c: Cat, p: Vec)
    requires EyeFollows(c) && OffsetMatchesSide(c)
    ensures IsCorrect(c, p) <==>
      Contains(c, p) && (if c.eye.x < c.body.x then c.body.x <= p.x else p.x < c.body.x)
  {
  }

  /** No click lies in two disjoint rectangles. */
  lemma DisjointNotBothHit(a: Cat, b: Cat, p: Vec)
    requires Disjoint(a, b)
    ensures !(Contains(a, p) && Contains(b, p))
  {
  }
}
