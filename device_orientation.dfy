/**
 * `TTDDeviceOrientationHelper`: each accelerometer sample is classified into a
 * device orientation by a chain of thresholds at 0.6 g; the stored
 * `currentDeviceOrientation` is overwritten, and the registered handler is
 * scheduled on the main queue, only when the classified orientation differs
 * from the stored one. Acceleration enters only through comparisons, so it is
 * a `real` here.
 */
module DeviceOrientation {
  import opened Wrappers

  /** UIKit's `UIDeviceOrientation`. */
  datatype Orientation =
    | Unknown | Portrait | PortraitUpsideDown | LandscapeLeft | LandscapeRight | FaceUp | FaceDown

  /** The four orientations the classifier can produce. */
  predicate IsClassified(o: Orientation) {
    o == Portrait || o == PortraitUpsideDown || o == LandscapeLeft || o == LandscapeRight
  }

  /** `motionLimit`: smaller values make the detection more sensitive. */
  const MotionLimit: real := 0.6

  datatype Acceleration = Acceleration(x: real, y: real, z: real)

  /** Neither axis reaches the limit: the sample says nothing. */
  predicate InDeadZone(a: Acceleration) {
    -MotionLimit < a.x < MotionLimit && -MotionLimit < a.y < MotionLimit
  }

  /** The threshold chain, tried in order: x first, then y. Each result is
      characterised by the region of samples that produce it. */
  function Classify(a: Acceleration): (r: Option<Orientation>)
    ensures r.None? <==> InDeadZone(a)
    ensures r.Some? ==> IsClassified(r.value)
    ensures r == Some(LandscapeRight) <==> a.x >= MotionLimit
    ensures r == Some(LandscapeLeft) <==> a.x <= -MotionLimit
    ensures r == Some(Portrait) <==> -MotionLimit < a.x < MotionLimit && a.y <= -MotionLimit
    ensures r == Some(PortraitUpsideDown) <==> -MotionLimit < a.x < MotionLimit && a.y >= MotionLimit
  {
    if a.x >= MotionLimit then Some(LandscapeRight)
    else if a.x <= -MotionLimit then Some(LandscapeLeft)
    else if a.y <= -MotionLimit then Some(Portrait)
    else if a.y >= MotionLimit then Some(PortraitUpsideDown)
    else None
  }

  /** The x axis dominates: once |x| reaches the limit, y and z do not matter. */
  lemma XDominates(a: Acceleration, b: Acceleration)
    requires a.x == b.x && (a.x >= MotionLimit || a.x <= -MotionLimit)
    ensures Classify(a) == Classify(b)
  {
  }

  /** One step of the update handler: the stored orientation after a sample and
      whether it changed. A missing sample and a dead-zone sample change nothing. */
  function Step(current: Orientation, data: Option<Acceleration>): (r: (Orientation, bool))
    ensures r.1 <==> r.0 != current
    ensures r.1 ==> data.Some? && Classify(data.value) == Some(r.0)
    ensures data.None? || InDeadZone(data.value) ==> r == (current, false)
    ensures data.Some? && !InDeadZone(data.value) ==> Some(r.0) == Classify(data.value)
  {
    match data
    case None => (current, false)
    case Some(a) =>
      match Classify(a)
      case None => (current, false)
      case Some(o) => if o != current then (o, true) else (current, false)
  }

  /** The stored orientation after a run of samples. */
  function Run(current: Orientation, samples: seq<Option<Acceleration>>): Orientation
    decreases |samples|
  {
    if samples == [] then current else Run(Step(current, samples[0]).0, samples[1..])
  }

  /** The orientations announced, one per change, during a run of samples. */
  function Changes(current: Orientation, samples: seq<Option<Acceleration>>): seq<Orientation>
    decreases |samples|
  {
    if samples == [] then []
    else
      var (next, changed) := Step(current, samples[0]);
      (if changed then [next] else []) + Changes(next, samples[1..])
  }

  /** The classification of the last sample that was not dropped, if any. */
  function LastClassified(samples: seq<Option<Acceleration>>): Option<Orientation>
    decreases |samples|
  {
    if samples == [] then None
    else
      var last := samples[|samples| - 1];
      if last.Some? && Classify(last.value).Some? then Classify(last.value)
      else LastClassified(samples[..|samples| - 1])
  }

  lemma {:induction false} RunSnoc(current: Orientation, samples: seq<Option<Acceleration>>, s: Option<Acceleration>)
    ensures Run(current, samples + [s]) == Step(Run(current, samples), s).0
    decreases |samples|
  {
    if samples != [] {
      assert (samples + [s])[1..] == samples[1..] + [s];
      RunSnoc(Step(current, samples[0]).0, samples[1..], s);
    }
  }

  /** After any run the stored orientation is the classification of the latest
      usable sample, or the starting value when every sample was dropped. */
  lemma {:induction false} RunIsLastClassified(current: Orientation, samples: seq<Option<Acceleration>>)
    ensures Run(current, samples) == LastClassified(samples).GetOr(current)
    decreases |samples|
  {
    if samples != [] {
      var init := samples[..|samples| - 1];
      var last := samples[|samples| - 1];
      assert samples == init + [last];
      RunSnoc(current, init, last);
      RunIsLastClassified(current, init);
    }
  }

  /** No repeat is ever announced: consecutive announcements differ, the first
      differs from the starting value, and the last is the stored orientation
      (which stays the starting value when nothing was announced). */
  lemma {:induction false} ChangesNeverRepeat(current: Orientation, samples: seq<Option<Acceleration>>)
    ensures var c := Changes(current, samples);
      (c == [] ==> Run(current, samples) == current) &&
      (c != [] ==> c[0] != current && c[|c| - 1] == Run(current, samples)) &&
      (forall i :: 0 <= i < |c| - 1 ==> c[i] != c[i + 1])
    decreases |samples|
  {
    if samples != [] {
      var (next, changed) := Step(current, samples[0]);
      ChangesNeverRepeat(next, samples[1..]);
      var rest := Changes(next, samples[1..]);
      assert Changes(current, samples) == (if changed then [next] else []) + rest;
      if changed {
        assert forall i :: 1 <= i < |rest| + 1 ==> ([next] + rest)[i] == rest[i - 1];
      }
    }
  }

  /** Every announced orientation is one of the four the classifier produces. */
  lemma {:induction false} ChangesAreClassified(current: Orientation, samples: seq<Option<Acceleration>>)
    ensures forall o :: o in Changes(current, samples) ==> IsClassified(o)
    decreases |samples|
  {
    if samples != [] {
      ChangesAreClassified(Step(current, samples[0]).0, samples[1..]);
    }
  }

  // ---- the handler slot ----

  /** Identity of a handler closure. */
  datatype Handler = Handler(id: nat)

  /** What the main queue is asked to run after a change, as the code is written. */
  datatype Dispatch = CallHandler(handler: Handler) | ForceUnwrapNil

  /**
   * As written: the slot has type `DeviceOrientationHandler?` where
   * `DeviceOrientationHandler` is itself an optional closure, so it is a double
   * optional. `if let` unwraps only the outer level and the block then
   * force-unwraps the inner one, which traps when the handler passed in was nil.
   */
  function ScheduledAsWritten(slot: Option<Option<Handler>>): (r: seq<Dispatch>)
    ensures |r| <= 1
    ensures r == [] <==> slot.None?
  {
    match slot
    case None => []
    case Some(None) => [ForceUnwrapNil]
    case Some(Some(h)) => [CallHandler(h)]
  }

  /** The registration `startDeviceOrientationNotifier(with: nil)` stores reaches
      the force-unwrap on the first change, here a tilt to the right from portrait. */
  lemma NilHandlerTraps()
    ensures Step(Portrait, Some(Acceleration(0.7, 0.0, 0.0))) == (LandscapeRight, true)
    ensures ScheduledAsWritten(Some(None)) == [ForceUnwrapNil]
  {
  }

  /** As intended: a call is scheduled exactly when a handler closure is present. */
  function Scheduled(slot: Option<Option<Handler>>): (r: seq<Handler>)
    ensures |r| <= 1
    ensures r != [] <==> slot.Some? && slot.value.Some?
    ensures r != [] ==> r[0] == slot.value.value
  {
    if slot.Some? && slot.value.Some? then [slot.value.value] else []
  }

  /** The intended schedule never traps, and agrees with the written one
      wherever the written one does not trap. */
  lemma ScheduledAgreesWhenNoTrap(slot: Option<Option<Handler>>)
    ensures ForceUnwrapNil !in ScheduledAsWritten(slot) ==>
      ScheduledAsWritten(slot) == seq(|Scheduled(slot)|, i requires 0 <= i < |Scheduled(slot)| => CallHandler(Scheduled(slot)[i]))
  {
  }

  /** The shared helper: stored orientation, handler slot and the main-queue blocks
      scheduled so far (each one hands the handler the stored orientation when it runs). */
  class DeviceOrientationHelper {
    var currentDeviceOrientation: Orientation
    var deviceOrientationAction: Option<Option<Handler>>
    var scheduled: seq<Handler>

    ghost predicate Valid()
      reads this
    {
      IsClassified(currentDeviceOrientation)
    }

    constructor ()
      ensures Valid()
      ensures currentDeviceOrientation == Portrait
      ensures deviceOrientationAction == None && scheduled == []
    {
      currentDeviceOrientation := Portrait;
      deviceOrientationAction := None;
      scheduled := [];
    }

    /** Registers the handler; starting the accelerometer is not modelled. */
    method StartDeviceOrientationNotifier(handler: Option<Handler>)
      modifies this
      ensures deviceOrientationAction == Some(handler)
      ensures currentDeviceOrientation == old(currentDeviceOrientation)
      ensures scheduled == old(scheduled)
    {
      deviceOrientationAction := Some(handler);
    }

    /** The accelerometer update handler, for one sample. */
    method OnAccelerometerData(data: Option<Acceleration>)
      requires Valid()
      modifies this
      ensures Valid()
      ensures currentDeviceOrientation == Step(old(currentDeviceOrientation), data).0
      ensures scheduled == old(scheduled) +
        (if currentDeviceOrientation != old(currentDeviceOrientation) then Scheduled(deviceOrientationAction) else [])
      ensures deviceOrientationAction == old(deviceOrientationAction)
    {
      if data.None? {
        return;
      }
      var a := data.value;
      var newDeviceOrientation: Orientation;
      if a.x >= MotionLimit {
        newDeviceOrientation := LandscapeRight;
      } else if a.x <= -MotionLimit {
        newDeviceOrientation := LandscapeLeft;
      } else if a.y <= -MotionLimit {
        newDeviceOrientation := Portrait;
      } else if a.y >= MotionLimit {
        newDeviceOrientation := PortraitUpsideDown;
      } else {
        return;
      }
      if newDeviceOrientation != currentDeviceOrientation {
        currentDeviceOrientation := newDeviceOrientation;
        if deviceOrientationAction.Some? && deviceOrientationAction.value.Some? {
          scheduled := scheduled + [deviceOrientationAction.value.value];
        }
      }
    }

    /** The main queue runs the oldest scheduled block: the handler receives the
        orientation stored at that moment, which may be newer than the change
        that scheduled the block. */
    method RunMainQueueBlock() returns (h: Handler, o: Orientation)
      requires scheduled != []
      modifies this
      ensures h == old(scheduled)[0] && o == currentDeviceOrientation
      ensures scheduled == old(scheduled)[1..]
      ensures currentDeviceOrientation == old(currentDeviceOrientation)
      ensures deviceOrientationAction == old(deviceOrientationAction)
    {
      h := scheduled[0];
      o := currentDeviceOrientation;
      scheduled := scheduled[1..];
    }
  }
}
