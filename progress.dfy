/** `Spinner`: a frame counter that cycles through ten braille frames. */
module Progress {

  /** The spinner's frames, in display order. */
  const FRAMES: seq<string> := ["\U{280B}", "\U{2819}", "\U{2839}", "\U{2838}", "\U{283C}",
                                "\U{2834}", "\U{2826}", "\U{2827}", "\U{2807}", "\U{280F}"]

  /** The frame the k-th call of `next()` (counting from 0) returns. */
  function FrameAt(k: nat): (f: string)
    ensures f in FRAMES
  {
    FRAMES[k % |FRAMES|]
  }

  /** The ten frames are all different. */
  lemma FramesDistinct()
    ensures |FRAMES| == 10
    ensures forall i, j :: 0 <= i < j < |FRAMES| ==> FRAMES[i] != FRAMES[j]
  {
    assert forall i :: 0 <= i < |FRAMES| ==> |FRAMES[i]| == 1;
    assert forall i, j :: 0 <= i < j < |FRAMES| ==> FRAMES[i][0] != FRAMES[j][0];
  }

  /** The frames repeat with period exactly 10: two calls show the same frame exactly when
      their positions agree modulo 10. */
  lemma FramePeriod(i: nat, j: nat)
    ensures FrameAt(i) == FrameAt(j) <==> i % 10 == j % 10
  {
    FramesDistinct();
  }

  class Spinner {
    const frames: seq<string>
    var current: nat
    /** How many times `next()` has been called. */
    ghost var calls: nat

    ghost predicate Valid()
      reads this
    {
      frames == FRAMES && current < |frames| && current == calls % |frames|
    }

    constructor ()
      ensures Valid() && current == 0 && calls == 0
    {
      frames := FRAMES;
      current := 0;
      calls := 0;
    }

    /** `next()`: the frame under the counter, which then moves on by one, modulo 10. */
    method Next() returns (frame: string)
      requires Valid()
      modifies this
      ensures Valid()
      ensures frame == frames[old(current)]
      ensures current == (old(current) + 1) % 10
      ensures calls == old(calls) + 1 && frame == FrameAt(old(calls))
    {
      frame := frames[current];
      current := (current + 1) % |frames|;
      calls := calls + 1;
    }
  }
}
