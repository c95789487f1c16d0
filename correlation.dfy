/**
 * The dlib correlation tracker as an oracle. Its internals are not modelled:
 * its state is its current position together with everything it has been
 * fed since its last `start_track`, and one oracle function says where an
 * update moves it and which quality (peak-to-sidelobe ratio) it reports.
 */
module Correlation {
  import opened Wrappers
  import opened Geometry

  /** A video frame: an identity token (frames are compared by token only) and its shape. */
  datatype Frame = Frame(token: int, shape: Shape)

  /** One `update` fed to the tracker, with the guess box of `update(frame, bb)` when given. */
  datatype Feed = Feed(frame: Frame, guess: Option<Box>)

  /** State of one correlation tracker: where it is, and where it started and what it saw since. */
  datatype Corr = Corr(pos: Box, start: Frame, anchor: Box, fed: seq<Feed>)

  /**
   * The primitive's behaviour: given a tracker state, the next frame and an
   * optional guess, the relocated position and the quality the update reports.
   */
  datatype Primitive = Primitive(relocate: (Corr, Frame, Option<Box>) -> (Box, real))

  /** `start_track(frame, bb)`: the tracker forgets its past and sits on `bb`. */
  function StartTrack(frame: Frame, bb: Box): Corr
  {
    Corr(bb, frame, bb, [])
  }

  /** `update(frame)` or `update(frame, guess)`: the new state and the reported quality. */
  function Advance(p: Primitive, c: Corr, frame: Frame, guess: Option<Box>): (Corr, real)
  {
    var (pos, quality) := p.relocate(c, frame, guess);
    (Corr(pos, c.start, c.anchor, c.fed + [Feed(frame, guess)]), quality)
  }
}
