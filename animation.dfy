/** The keyframe animation of project/src/Project/Animation.cpp: a list of keyframes played one
    after another on a transform. Times are real numbers (milliseconds) and float rounding is
    ignored; the transform is left abstract: an update reports which keyframe moved it and by
    what fraction of that keyframe's rotation and translation. */
module Animations {
  import opened SeqUtil

  /** The six directions a keyframe can rotate about or move along. */
  datatype Axis = Forward | Backward | Up | Down | Left | Right

  datatype KeyFrame = KeyFrame(translation: real, translationAxis: Axis, rotation: real,
                               rotationAxis: Axis, duration: real)

  /** The playback state an update reads and writes. */
  datatype State = State(started: bool, animating: bool, currentFrame: nat, lastFrameTime: real,
                         lastTime: real)

  /** What one update does to the transform: nothing, or rotate by `frames[frame].rotation * p`
      and move by `frames[frame].translation * p` for the progress p (None when the keyframe's
      duration is zero, a float division by zero this model leaves out). */
  datatype Effect = NoMove | Moved(frame: nat, progress: Option<real>)

  /** `glm::min((deltaTime - lastTime) / duration, 1)`. */
  function Progress(deltaTime: real, lastTime: real, duration: real): (p: Option<real>)
    ensures duration != 0.0 <==> p.Some?
    ensures p.Some? ==> p.value <= 1.0
    ensures p.Some? && duration > 0.0 && deltaTime - lastTime >= duration ==> p.value == 1.0
    ensures p.Some? && duration > 0.0 && deltaTime - lastTime <= duration ==>
      p.value * duration == deltaTime - lastTime
  {
    if duration == 0.0 then None
    else
      var q := (deltaTime - lastTime) / duration;
      Some(if q < 1.0 then q else 1.0)
  }

  /** While animating, the current frame is a valid index, or frame 0 of a list still empty. */
  ghost predicate Inv(s: State, frames: seq<KeyFrame>)
  {
    s.animating ==> s.currentFrame == 0 || s.currentFrame < |frames|
  }

  /** One `Update(time)`: the new state and the effect on the transform. */
  function Step(s: State, frames: seq<KeyFrame>, time: real): (r: (State, Effect))
    requires Inv(s, frames)
    ensures Inv(r.0, frames)
    ensures r.1.Moved? ==> r.1.frame < |frames|
  {
    if !s.animating || frames == [] then (s, NoMove)
    else
      var lastTime := if s.started then s.lastTime else 0.0;
      var lastFrameTime := if s.started then s.lastFrameTime else time;
      var deltaTime := time - lastFrameTime;
      var current := s.currentFrame;
      if deltaTime > frames[current].duration then
        if current + 1 >= |frames| then
          (State(true, false, current + 1, lastFrameTime, lastTime), NoMove)
        else
          (State(true, true, current + 1, time, deltaTime),
           Moved(current + 1, Progress(deltaTime, lastTime, frames[current + 1].duration)))
      else
        (State(true, true, current, lastFrameTime, deltaTime),
         Moved(current, Progress(deltaTime, lastTime, frames[current].duration)))
  }

  /** A stopped animation, or one without frames, ignores updates entirely. */
  lemma StoppedIgnoresUpdates(s: State, frames: seq<KeyFrame>, time: real)
    requires Inv(s, frames) && (!s.animating || frames == [])
    ensures Step(s, frames, time) == (s, NoMove)
  {
  }

  /** The frame advances by at most one per update, only when the time since the frame began
      exceeds the frame's duration, and a move always uses a valid frame. */
  lemma StepAdvancesAtMostOne(s: State, frames: seq<KeyFrame>, time: real)
    requires Inv(s, frames) && s.animating && frames != []
    ensures var (t, e) := Step(s, frames, time);
      var begin := if s.started then s.lastFrameTime else time;
      t.started &&
      (t.currentFrame == s.currentFrame || t.currentFrame == s.currentFrame + 1) &&
      (t.currentFrame == s.currentFrame + 1 <==> time - begin > frames[s.currentFrame].duration) &&
      (e.Moved? ==> e.frame == t.currentFrame && e.frame < |frames| && t.animating)
  {
  }

  /** Running past the last frame stops the animation without moving the transform. */
  lemma PastLastFrameStops(s: State, frames: seq<KeyFrame>, time: real)
    requires Inv(s, frames) && s.animating && frames != [] && s.currentFrame == |frames| - 1
    requires time - (if s.started then s.lastFrameTime else time) > frames[s.currentFrame].duration
    ensures !Step(s, frames, time).0.animating && Step(s, frames, time).1 == NoMove
  {
  }

  /** The first effective update starts the clock at `time`: with a positive duration it moves by
      nothing and leaves the frame and the last-time mark at zero elapsed time. */
  lemma FirstUpdateStarts(s: State, frames: seq<KeyFrame>, time: real)
    requires Inv(s, frames) && s.animating && frames != [] && !s.started
    requires frames[s.currentFrame].duration > 0.0
    ensures Step(s, frames, time) ==
      (State(true, true, s.currentFrame, time, 0.0), Moved(s.currentFrame, Some(0.0)))
  {
  }

  class Animation {
    var frames: seq<KeyFrame>
    var started: bool
    var animating: bool
    var currentFrame: nat
    var lastFrameTime: real
    var lastTime: real

    function Current(): State
      reads this
    {
      State(started, animating, currentFrame, lastFrameTime, lastTime)
    }

    ghost predicate Valid()
      reads this
    {
      Inv(Current(), frames)
    }

    /** Not started, animating, at frame 0, with no frames. */
    constructor ()
      ensures Valid() && frames == []
      ensures Current() == State(false, true, 0, 0.0, 0.0)
    {
      frames := [];
      started, animating, currentFrame := false, true, 0;
      lastFrameTime, lastTime := 0.0, 0.0;
    }

    method AddKeyFrame(frame: KeyFrame)
      requires Valid()
      modifies this
      ensures Valid() && frames == old(frames) + [frame] && Current() == old(Current())
    {
      frames := frames + [frame];
    }

    /** Rewinds to frame 0 and animates again, with both time marks at `time`. */
    method Reset(time: real)
      requires Valid()
      modifies this
      ensures Valid() && frames == old(frames)
      ensures Current() == State(false, true, 0, time, time)
    {
      started := false;
      animating := true;
      currentFrame := 0;
      lastFrameTime := time;
      lastTime := time;
    }

    method Update(time: real) returns (effect: Effect)
      requires Valid()
      modifies this
      ensures Valid() && frames == old(frames)
      ensures (Current(), effect) == Step(old(Current()), frames, time)
    {
      if !animating || |frames| == 0 {
        return NoMove;
      }
      if !started {
        lastTime := 0.0;
        lastFrameTime := time;
        started := true;
      }
      var frame := frames[currentFrame];
      var deltaTime := time - lastFrameTime;
      if deltaTime > frame.duration {
        currentFrame := currentFrame + 1;
        if currentFrame >= |frames| {
          animating := false;
          return NoMove;
        }
        frame := frames[currentFrame];
        lastFrameTime := time;
      }
      var p := Progress(deltaTime, lastTime, frame.duration);
      effect := Moved(currentFrame, p);
      lastTime := deltaTime;
    }
  }
}
