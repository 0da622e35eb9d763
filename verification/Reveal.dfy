/** The pacing of a streamed answer: text is held back and released a few characters per
    animation frame.

    Models the `received`, `shown` and `frame` refs and `reveal`, `revealAll` and the delta
    case of `send` (app/hooks/useChatStream.ts). */
module Reveal {

  /** `Math.max(1, Math.ceil(backlog / 12))`. */
  function RevealStep(backlog: nat): (r: nat)
    ensures r >= 1
    ensures backlog >= 1 ==> r <= backlog && 12 * (r - 1) < backlog <= 12 * r
  {
    if backlog <= 12 then 1 else (backlog + 11) / 12
  }

  class Pacer {
    var received: string
    var shown: nat
    /** An animation frame is requested. */
    var frame: bool
    /** The text the turn displays. */
    var text: string

    /** What is displayed is a prefix of what was received, and whenever some of it is held
        back a frame is due to release more. */
    ghost predicate Valid()
      reads this
    {
      && shown <= |received|
      && text == received[..shown]
      && (shown < |received| ==> frame)
    }

    constructor ()
      ensures Valid()
      ensures received == "" && shown == 0 && !frame && text == ""
    {
      received, shown, frame, text := "", 0, false, "";
    }

    method Delta(more: string)
      requires Valid()
      modifies this
      ensures Valid()
      ensures received == old(received) + more
      ensures shown == old(shown) && text == old(text)
      ensures frame
    {
      received := received + more;
      frame := true;
    }

    /** The browser runs the requested frame. */
    method Frame()
      requires Valid() && frame
      modifies this
      ensures Valid()
      ensures received == old(received)
      ensures frame <==> shown < |received|
      ensures |received| - shown == AfterFrame(|received| - old(shown))
      ensures old(text) <= text
    {
      frame := false;
      var backlog := |received| - shown;
      if backlog <= 0 {
        return;
      }
      shown := shown + RevealStep(backlog);
      text := received[..shown];
      if shown < |received| {
        frame := true;
      }
    }

    method RevealAll()
      requires Valid()
      modifies this
      ensures Valid()
      ensures received == old(received) && text == received
      ensures !frame && shown == |received|
    {
      frame := false;
      if shown >= |received| {
        return;
      }
      shown := |received|;
      text := received;
    }

    /** Frames with no new text between them: all of it is shown, within the bound of
        `DrainFrames`. */
    method Drain() returns (frames: nat)
      requires Valid()
      modifies this
      ensures Valid()
      ensures received == old(received) && text == received && !frame
      ensures frames <= DrainFrames(|received| - old(shown)) + 1
    {
      frames := 0;
      while frame
        invariant Valid() && received == old(received)
        invariant frames + DrainFrames(|received| - shown) + (if frame && shown == |received| then 1 else 0)
                  <= DrainFrames(|received| - old(shown)) + 1
        decreases frame, |received| - shown
      {
        DrainStep(|received| - shown);
        Frame();
        frames := frames + 1;
      }
    }
  }

  function AfterFrame(backlog: nat): nat {
    if backlog == 0 then 0 else backlog - RevealStep(backlog)
  }

  /** How many frames empty a backlog. */
  function DrainFrames(backlog: nat): nat
    decreases backlog
  {
    if backlog == 0 then 0 else 1 + DrainFrames(AfterFrame(backlog))
  }

  lemma DrainStep(backlog: nat)
    ensures backlog > 0 ==> DrainFrames(backlog) == 1 + DrainFrames(AfterFrame(backlog))
  {
  }

  /** Twelve frames release at least half of any backlog, so the wait grows with the
      logarithm of the text, not with its length. */
  lemma TwelveFramesHalve(backlog: nat)
    ensures DrainFrames(backlog) <= 12 + DrainFrames(backlog / 2)
  {
    Release(backlog, backlog / 2, 12);
  }

  lemma {:induction false} Release(b: nat, half: nat, frames: nat)
    requires 12 * (b - half) <= frames * (half + 1)
    ensures DrainFrames(b) <= frames + DrainFrames(half)
    decreases frames
  {
    if b <= half {
      DrainGrows(b, half);
    } else {
      assert frames > 0;
      assert (frames - 1) * (half + 1) == frames * (half + 1) - (half + 1);
      DrainStep(b);
      Release(AfterFrame(b), half, frames - 1);
    }
  }

  /** A smaller backlog never takes longer. */
  lemma {:induction false} DrainGrows(small: nat, large: nat)
    requires small <= large
    ensures DrainFrames(small) <= DrainFrames(large)
    decreases large
  {
    if small > 0 {
      assert AfterFrame(small) <= AfterFrame(large);
      DrainGrows(AfterFrame(small), AfterFrame(large));
    }
  }
}
