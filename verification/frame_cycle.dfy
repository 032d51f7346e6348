/**
 * The frame list every keyframe program (hw6 Bunny_Frames and I_Bar
 * keyframe.cpp) shows: all_frames, the keyframes with the interpolated
 * frames between them, and curr_frame_id, the one on screen, which key 'n'
 * moves on.
 */
module FrameCycle {

  /** One step on, wrapping to the first frame after the last. */
  function Advance(c: nat, n: nat): (r: nat)
    requires n > 0
    ensures r < n
  {
    (c + 1) % n
  }

  /** The frame on screen after k presses of 'n', starting from frame c. */
  function AdvanceTimes(c: nat, n: nat, k: nat): (r: nat)
    requires n > 0
    decreases k
  {
    if k == 0 then c else Advance(AdvanceTimes(c, n, k - 1), n)
  }

  /** From a frame on the list, one press moves to the next frame, or back to frame 0 from the last. */
  lemma AdvanceStep(c: nat, n: nat)
    requires c < n
    ensures Advance(c, n) == if c + 1 < n then c + 1 else 0
  {
  }

  /**
   * k presses from frame c, for k up to the number of frames n: frames
   * c + 1 .. n − 1 come first, then the list starts again at 0, and the
   * n-th press is back at c. So a full cycle shows every frame once.
   */
  lemma {:induction false} CycleShowsEveryFrame(c: nat, n: nat, k: nat)
    requires c < n && k <= n
    ensures AdvanceTimes(c, n, k) == if c + k < n then c + k else c + k - n
    decreases k
  {
    if k > 0 {
      CycleShowsEveryFrame(c, n, k - 1);
      AdvanceStep(AdvanceTimes(c, n, k - 1), n);
    }
  }

  /** all_frames and curr_frame_id. */
  class Animation<F> {
    var allFrames: seq<F>
    var current: nat

    /** The program starts with no frames, showing frame 0. */
    constructor ()
      ensures allFrames == [] && current == 0
    {
      allFrames := [];
      current := 0;
    }

    /**
     * key_pressed: 'n' moves to the next frame, wrapping after the last, and
     * does nothing while there are no frames; no other key ('q' apart, which
     * ends the program) changes anything.
     */
    method KeyPressed(key: char)
      modifies this
      ensures allFrames == old(allFrames)
      ensures key == 'n' && |allFrames| > 0 ==> current == Advance(old(current), |allFrames|)
      ensures key != 'n' || |allFrames| == 0 ==> current == old(current)
    {
      if key == 'n' {
        if |allFrames| == 0 {
          return;
        }
        current := (current + 1) % |allFrames|;
      }
    }
  }
}
