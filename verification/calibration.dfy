/**
  The operator calibration loop: button presses arm the object or the magnet
  pick, and the next click samples that pixel of the current frame as the
  chosen colour. Each pass of the main loop handles at most one pending
  message, oldest first.
 */
module Calibration {
  import opened Bytes
  import opened Optional
  import opened Images

  /** A signed 32-bit integer (`i32`), the type of click coordinates and trackbar values. */
  type I32 = x: int | -0x8000_0000 <= x < 0x8000_0000

  /** What the user interface sends to the main loop. */
  datatype Message = SelectObject | Position(x: I32, y: I32) | SelectMagnet

  /** The calibration variables the main loop owns. */
  datatype State = State(
    objectColor: Option<Bgr>,
    selectObject: bool,
    magnetColor: Option<Bgr>,
    selectMagnet: bool)

  /** Nothing chosen and no pick armed, as the loop starts. */
  const Initial := State(None, false, None, false)

  /** At most one pick is armed at a time. */
  predicate NotBoth(s: State)
  {
    !(s.selectObject && s.selectMagnet)
  }

  /**
    The message can be handled against `frame` without a panic: a click's cell
    is looked up with `at_2d(y, x).unwrap()` before any flag is consulted, so
    it must lie inside the frame whatever the state.
   */
  predicate Handles(frame: Frame, msg: Message)
  {
    frame.Valid() && (msg.Position? ==> frame.InBounds(msg.y, msg.x))
  }

  /** The pixel a click message points at. */
  function Clicked(frame: Frame, msg: Message): (p: Bgr)
    requires msg.Position? && Handles(frame, msg)
    ensures p == frame.Pixel(msg.y, msg.x)
  {
    frame.At2d(msg.y, msg.x).value
  }

  /** Handling one message received by the main loop. */
  function Step(s: State, msg: Message, frame: Frame): (s': State)
    requires Handles(frame, msg)
    ensures NotBoth(s')
    ensures msg.SelectObject? ==>
      s'.selectObject && !s'.selectMagnet && s'.objectColor == s.objectColor && s'.magnetColor == s.magnetColor
    ensures msg.SelectMagnet? ==>
      s'.selectMagnet && !s'.selectObject && s'.objectColor == s.objectColor && s'.magnetColor == s.magnetColor
    ensures msg.Position? && s.selectMagnet ==>
      s' == s.(magnetColor := Some(Clicked(frame, msg)), selectMagnet := false)
    ensures msg.Position? && !s.selectMagnet && s.selectObject ==>
      s' == s.(objectColor := Some(Clicked(frame, msg)), selectObject := false)
    ensures msg.Position? && !s.selectMagnet && !s.selectObject ==> s' == s
    ensures s'.objectColor == s.objectColor || s'.magnetColor == s.magnetColor
  {
    match msg
    case SelectObject => s.(selectObject := true, selectMagnet := false)
    case SelectMagnet => s.(selectMagnet := true, selectObject := false)
    case Position(x, y) =>
      var value := frame.At2d(y, x).value;
      if s.selectMagnet then
        s.(magnetColor := Some(value), selectMagnet := false)
      else if s.selectObject then
        s.(objectColor := Some(value), selectObject := false)
      else
        s
  }

  /** Every message of `msgs` can be handled against `frame`. */
  predicate HandlesAll(frame: Frame, msgs: seq<Message>)
  {
    frame.Valid() && forall i :: 0 <= i < |msgs| ==> Handles(frame, msgs[i])
  }

  /** Handling `msgs` one after another, in arrival order, against one frame. */
  function Fold(s: State, msgs: seq<Message>, frame: Frame): (s': State)
    requires HandlesAll(frame, msgs)
    ensures NotBoth(s) || |msgs| > 0 ==> NotBoth(s')
    decreases |msgs|
  {
    if |msgs| == 0 then s else Fold(Step(s, msgs[0], frame), msgs[1..], frame)
  }

  /** `c` is unchanged from `before`, or is the pixel under one of the clicks in `msgs`. */
  predicate FromClick(c: Option<Bgr>, before: Option<Bgr>, msgs: seq<Message>, frame: Frame)
    requires HandlesAll(frame, msgs)
  {
    c == before || exists i :: 0 <= i < |msgs| && msgs[i].Position? && c == Some(Clicked(frame, msgs[i]))
  }

  /** A stored colour is never invented: it was there before or was sampled at a click. */
  lemma {:induction false} StoredColorsWereClicked(s: State, msgs: seq<Message>, frame: Frame)
    requires HandlesAll(frame, msgs)
    ensures FromClick(Fold(s, msgs, frame).objectColor, s.objectColor, msgs, frame)
    ensures FromClick(Fold(s, msgs, frame).magnetColor, s.magnetColor, msgs, frame)
    decreases |msgs|
  {
    if |msgs| > 0 {
      var s1 := Step(s, msgs[0], frame);
      var rest := msgs[1..];
      StoredColorsWereClicked(s1, rest, frame);
      var s' := Fold(s, msgs, frame);
      assert s' == Fold(s1, rest, frame);
      if s'.objectColor != s1.objectColor {
        var i :| 0 <= i < |rest| && rest[i].Position? && s'.objectColor == Some(Clicked(frame, rest[i]));
        assert msgs[i + 1] == rest[i];
      } else if s1.objectColor != s.objectColor {
        assert msgs[0].Position?;
      }
      if s'.magnetColor != s1.magnetColor {
        var i :| 0 <= i < |rest| && rest[i].Position? && s'.magnetColor == Some(Clicked(frame, rest[i]));
        assert msgs[i + 1] == rest[i];
      } else if s1.magnetColor != s.magnetColor {
        assert msgs[0].Position?;
      }
    }
  }

  /** With no pick armed, any run of clicks leaves the state exactly as it was. */
  lemma {:induction false} IdleClicksChangeNothing(s: State, msgs: seq<Message>, frame: Frame)
    requires HandlesAll(frame, msgs)
    requires !s.selectObject && !s.selectMagnet
    requires forall i :: 0 <= i < |msgs| ==> msgs[i].Position?
    ensures Fold(s, msgs, frame) == s
    decreases |msgs|
  {
    if |msgs| > 0 {
      IdleClicksChangeNothing(s, msgs[1..], frame);
    }
  }

  // ---------------------------------------------------------------------------
  // The main loop

  /** `try_recv`: the oldest pending message and the rest of the queue, or nothing when empty. */
  function TryRecv(queue: seq<Message>): (r: (Option<Message>, seq<Message>))
    ensures r.0.None? <==> |queue| == 0
    ensures r.0.Some? ==> [r.0.value] + r.1 == queue
    ensures r.0.None? ==> r.1 == queue
  {
    if |queue| == 0 then (None, queue) else (Some(queue[0]), queue[1..])
  }

  /** One pass of the loop: receive at most one message and handle it against this pass's frame. */
  function Iteration(s: State, queue: seq<Message>, frame: Frame): (r: (State, seq<Message>))
    requires frame.Valid() && (|queue| > 0 ==> Handles(frame, queue[0]))
    ensures |queue| == 0 ==> r == (s, queue)
    ensures |queue| > 0 ==> r.0 == Step(s, queue[0], frame) && [queue[0]] + r.1 == queue
  {
    match TryRecv(queue)
    case (None, rest) => (s, rest)
    case (Some(msg), rest) => (Step(s, msg, frame), rest)
  }

  /** The smaller of two counts. */
  function Min(a: nat, b: nat): (m: nat)
    ensures m <= a && m <= b && (m == a || m == b)
  {
    if a <= b then a else b
  }

  /**
    Every frame is valid, and the message that the `i`-th pass receives can be
    handled against that pass's frame.
   */
  predicate RunHandles(queue: seq<Message>, frames: seq<Frame>)
  {
    && (forall j :: 0 <= j < |frames| ==> frames[j].Valid())
    && (forall i :: 0 <= i < |queue| && i < |frames| ==> Handles(frames[i], queue[i]))
  }

  /** One loop pass per frame in `frames`, starting from state `s` with `queue` pending. */
  function Run(s: State, queue: seq<Message>, frames: seq<Frame>): (r: (State, seq<Message>))
    requires RunHandles(queue, frames)
    ensures r.1 == queue[Min(|frames|, |queue|)..]
    decreases |frames|
  {
    if |frames| == 0 then
      (s, queue)
    else
      var next := Iteration(s, queue, frames[0]);
      assert next.1 == queue[Min(1, |queue|)..];
      Run(next.0, next.1, frames[1..])
  }

  /**
    Handling `msgs` in arrival order, the `i`-th message against `frames[i]`:
    what the loop does when the camera delivers a new frame every pass.
   */
  function FoldPaired(s: State, msgs: seq<Message>, frames: seq<Frame>): (s': State)
    requires |msgs| <= |frames| && RunHandles(msgs, frames)
    ensures NotBoth(s) || |msgs| > 0 ==> NotBoth(s')
    decreases |msgs|
  {
    if |msgs| == 0 then s else FoldPaired(Step(s, msgs[0], frames[0]), msgs[1..], frames[1..])
  }

  /** With every frame the same, the paired fold is the single-frame fold. */
  lemma {:induction false} FoldPairedStill(s: State, msgs: seq<Message>, frames: seq<Frame>, frame: Frame)
    requires HandlesAll(frame, msgs) && |msgs| <= |frames|
    requires forall j :: 0 <= j < |frames| ==> frames[j] == frame
    ensures RunHandles(msgs, frames)
    ensures FoldPaired(s, msgs, frames) == Fold(s, msgs, frame)
    decreases |msgs|
  {
    if |msgs| > 0 {
      FoldPairedStill(Step(s, msgs[0], frame), msgs[1..], frames[1..], frame);
    }
  }

  /**
    `n` loop passes handle exactly the first `n` pending messages (or all of
    them), in order, each against the frame read in its own pass.
   */
  lemma {:induction false} RunIsPairedFold(s: State, queue: seq<Message>, frames: seq<Frame>)
    requires RunHandles(queue, frames)
    ensures var k := Min(|frames|, |queue|);
      RunHandles(queue[..k], frames) && Run(s, queue, frames).0 == FoldPaired(s, queue[..k], frames)
    decreases |frames|
  {
    var k := Min(|frames|, |queue|);
    assert RunHandles(queue[..k], frames);
    if |frames| > 0 && |queue| > 0 {
      var s1 := Step(s, queue[0], frames[0]);
      assert RunHandles(queue[1..], frames[1..]);
      RunIsPairedFold(s1, queue[1..], frames[1..]);
      assert queue[1..][..k - 1] == queue[..k][1..];
    } else if |frames| > 0 {
      assert RunHandles(queue, frames[1..]);
      RunIsPairedFold(s, queue, frames[1..]);
    }
  }

  /**
    With the camera still, `n` loop passes leave the state of folding the
    first `n` pending messages (or all of them) against that one frame.
   */
  lemma RunIsFoldOfPrefix(s: State, queue: seq<Message>, frames: seq<Frame>, frame: Frame)
    requires HandlesAll(frame, queue)
    requires forall j :: 0 <= j < |frames| ==> frames[j] == frame
    ensures RunHandles(queue, frames)
    ensures Run(s, queue, frames).0 == Fold(s, queue[..Min(|frames|, |queue|)], frame)
  {
    var k := Min(|frames|, |queue|);
    assert HandlesAll(frame, queue[..k]);
    RunIsPairedFold(s, queue, frames);
    FoldPairedStill(s, queue[..k], frames, frame);
  }

  /**
    Arming the object pick, clicking, arming the magnet pick and clicking
    again stores both colours and leaves no pick armed.
   */
  lemma CalibrationSequence(frame: Frame, px: I32, py: I32, qx: I32, qy: I32)
    requires frame.Valid() && frame.InBounds(py, px) && frame.InBounds(qy, qx)
    ensures var msgs := [SelectObject, Position(px, py), SelectMagnet, Position(qx, qy)];
      && HandlesAll(frame, msgs)
      && Fold(Initial, msgs, frame)
         == State(Some(frame.Pixel(py, px)), false, Some(frame.Pixel(qy, qx)), false)
  {
    var msgs := [SelectObject, Position(px, py), SelectMagnet, Position(qx, qy)];
    assert HandlesAll(frame, msgs);
    var s1 := Step(Initial, msgs[0], frame);
    var s2 := Step(s1, msgs[1], frame);
    var s3 := Step(s2, msgs[2], frame);
    var s4 := Step(s3, msgs[3], frame);
    assert s4 == State(Some(frame.Pixel(py, px)), false, Some(frame.Pixel(qy, qx)), false);
    assert msgs[1..] == msgs[1..4] && msgs[1..][1..] == msgs[2..4] && msgs[2..4][1..] == [msgs[3]];
    // Unfold the fold one message at a time.
    calc {
      Fold(Initial, msgs, frame);
      Fold(s1, msgs[1..4], frame);
      Fold(s2, msgs[2..4], frame);
      Fold(s3, [msgs[3]], frame);
      Fold(s4, [], frame);
    }
  }

  /**
    The same sequence queued up at once takes four loop passes: after three
    passes the second click is still pending and the magnet pick is armed.
   */
  lemma CalibrationLoop(frame: Frame, px: I32, py: I32, qx: I32, qy: I32)
    requires frame.Valid() && frame.InBounds(py, px) && frame.InBounds(qy, qx)
    ensures var msgs := [SelectObject, Position(px, py), SelectMagnet, Position(qx, qy)];
      && RunHandles(msgs, [frame, frame, frame, frame])
      && Run(Initial, msgs, [frame, frame, frame])
         == (State(Some(frame.Pixel(py, px)), false, None, true), [Position(qx, qy)])
      && Run(Initial, msgs, [frame, frame, frame, frame])
         == (State(Some(frame.Pixel(py, px)), false, Some(frame.Pixel(qy, qx)), false), [])
  {
    var msgs := [SelectObject, Position(px, py), SelectMagnet, Position(qx, qy)];
    CalibrationSequence(frame, px, py, qx, qy);
    RunIsFoldOfPrefix(Initial, msgs, [frame, frame, frame, frame], frame);
    assert msgs[..4] == msgs;
    RunIsFoldOfPrefix(Initial, msgs, [frame, frame, frame], frame);
    var s1 := Step(Initial, msgs[0], frame);
    var s2 := Step(s1, msgs[1], frame);
    var s3 := Step(s2, msgs[2], frame);
    assert msgs[..3][1..] == msgs[1..3] && msgs[1..3][1..] == [msgs[2]];
    // Unfold the fold one message at a time.
    calc {
      Fold(Initial, msgs[..3], frame);
      Fold(s1, msgs[1..3], frame);
      Fold(s2, [msgs[2]], frame);
      Fold(s3, [], frame);
    }
  }

  // ---------------------------------------------------------------------------
  // Trackbar

  /** The pick-selection trackbar: 0 arms the object pick, 2 the magnet pick, anything else sends nothing. */
  function TrackbarMessage(value: I32): (msg: Option<Message>)
    ensures msg.Some? <==> value == 0 || value == 2
    ensures msg == Some(SelectObject) <==> value == 0
    ensures msg == Some(SelectMagnet) <==> value == 2
  {
    match value
    case 0 => Some(SelectObject)
    case 2 => Some(SelectMagnet)
    case _ => None
  }
}
