/** The full-screen flash that reports a click's outcome and fades after a
    fixed time, counted down by a fixed step per frame. */
module Flash {

  /** The overlay colour; NoFlash stands for the game's `null`. */
  datatype FlashColor = NoFlash | Green | Red

  /** The overlay colour with the milliseconds it has left to show. */
  datatype FlashState = FlashState(color: FlashColor, remaining: int)

  /** How long a new flash lasts, in milliseconds. */
  const FLASH_TIME: int := 300

  /** The time one frame is assumed to take, in milliseconds. */
  const FRAME_MS: int := 16

  /** No flash showing, as at the start of a session. */
  const Idle: FlashState := FlashState(NoFlash, 0)

  /** A colour is showing exactly while time remains, and never more than a
      fresh flash's duration. */
  predicate WellFormed(f: FlashState)
  {
    (f.color != NoFlash <==> f.remaining > 0) && f.remaining <= FLASH_TIME
  }

  /** One frame of decay: a running flash loses a frame's time and its colour
      goes once no time is left; a spent flash is left as it is. */
  function Decay(f: FlashState): (r: FlashState)
    ensures f.remaining <= 0 ==> r == f
    ensures f.remaining > 0 ==> r.remaining == f.remaining - FRAME_MS
    ensures f.remaining > FRAME_MS ==> r.color == f.color
    ensures r.color == NoFlash <==> f.color == NoFlash || (f.remaining > 0 && r.remaining <= 0)
    ensures WellFormed(f) ==> WellFormed(r)
  {
    if f.remaining > 0 then
      var left := f.remaining - FRAME_MS;
      FlashState(if left <= 0 then NoFlash else f.color, left)
    else
      f
  }

  /** `n` frames of decay. */
  function DecayN(f: FlashState, n: nat): FlashState
    decreases n
  {
    if n == 0 then f else DecayN(Decay(f), n - 1)
  }

  /** The number of frames a flash with `d` milliseconds left stays visible:
      `d / FRAME_MS` rounded up. */
  function FramesToClear(d: int): int
  {
    (d + FRAME_MS - 1) / FRAME_MS
  }

  /** A spent flash never changes again. */
  lemma {:induction false} SpentIsStable(f: FlashState, n: nat)
    requires f.remaining <= 0
    ensures DecayN(f, n) == f
  {
    if n > 0 {
      SpentIsStable(Decay(f), n - 1);
    }
  }

  /** A flash with `d > 0` milliseconds left keeps its colour for exactly
      FramesToClear(d) - 1 more frames and is gone after FramesToClear(d). */
  lemma {:induction false} VisibleUntilCleared(c: FlashColor, d: int, n: nat)
    requires c != NoFlash && d > 0
    ensures n < FramesToClear(d) ==> DecayN(FlashState(c, d), n) == FlashState(c, d - FRAME_MS * n)
    ensures n >= FramesToClear(d) ==> DecayN(FlashState(c, d), n).color == NoFlash
  {
    if n > 0 {
      if d > FRAME_MS {
        assert FramesToClear(d - FRAME_MS) == FramesToClear(d) - 1;
        VisibleUntilCleared(c, d - FRAME_MS, n - 1);
      } else {
        assert FramesToClear(d) == 1;
        SpentIsStable(FlashState(NoFlash, d - FRAME_MS), n - 1);
      }
    }
  }

  /** A fresh flash is visible for 18 more frames and cleared by the 19th. */
  lemma FreshFlashClearsAfterNineteenFrames(c: FlashColor)
    requires c != NoFlash
    ensures DecayN(FlashState(c, FLASH_TIME), 18).color == c
    ensures DecayN(FlashState(c, FLASH_TIME), 19).color == NoFlash
  {
    assert FramesToClear(FLASH_TIME) == 19;
    VisibleUntilCleared(c, FLASH_TIME, 18);
    VisibleUntilCleared(c, FLASH_TIME, 19);
  }
}
