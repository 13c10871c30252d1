/** The morph-weight track of a scene asset: a buffer of `numFrames` frames of
    `numWeights` morph-target weights each, played back one frame every
    `frameLengthMs` milliseconds from the first tick on. */
module MorphAnimation {
  import opened Optional
  import opened Timing

  /** Value of `frameIndex` before the first tick has applied frame 0. */
  const NotStarted: int := -1

  /** The morph animation status installed by `animateWeights`. The weights
      themselves are not held: a frame is identified by its offset into the
      caller's buffer. */
  datatype MorphTrack = MorphTrack(
    numWeights: nat,
    numFrames: nat,
    frameLengthMs: nat,
    frameIndex: int,
    startTime: int)

  /** The track as `animateWeights` installs it, before any tick. */
  function Installed(numWeights: nat, numFrames: nat, frameLengthMs: nat): MorphTrack
  {
    MorphTrack(numWeights, numFrames, frameLengthMs, NotStarted, 0)
  }

  /** The frame due at time `now`: elapsed time over frame length, truncated. */
  function FrameAt(t: MorphTrack, now: int): int
    requires t.frameLengthMs > 0
  {
    TruncDiv(now - t.startTime, t.frameLengthMs)
  }

  /** Where frame `frame` starts in the weight buffer. */
  function Offset(t: MorphTrack, frame: int): int
  {
    frame * t.numWeights
  }

  /** What one tick does: the track afterwards (None once it has been dropped)
      and the frame whose weights it applies, if any. */
  datatype MorphTick = MorphTick(track: Option<MorphTrack>, frame: Option<int>)

  /** One tick of `updateMorphAnimation` on an installed track. */
  function Step(t: MorphTrack, now: int): (r: MorphTick)
    requires t.frameLengthMs > 0
    // only the frame index and the start time ever change
    ensures r.track.Some? ==> r.track.value.(frameIndex := t.frameIndex, startTime := t.startTime) == t
    // the first tick applies frame 0 and latches the start time
    ensures t.frameIndex == NotStarted ==>
      r.track == Some(t.(frameIndex := 0, startTime := now)) && r.frame == Some(0)
    // later ticks drop the buffer exactly when the due frame is past the last one
    ensures t.frameIndex != NotStarted ==>
      (r.track.None? <==> FrameAt(t, now) > t.numFrames - 1)
    ensures t.frameIndex != NotStarted && r.track.Some? ==>
      r.track.value.startTime == t.startTime && r.track.value.frameIndex == FrameAt(t, now)
    // weights are applied exactly when the stored frame changes, and only for that frame
    ensures r.frame.Some? <==> r.track.Some? && r.track.value.frameIndex != t.frameIndex
    ensures r.frame.Some? ==> r.frame.value == r.track.value.frameIndex
  {
    if t.frameIndex == NotStarted then
      MorphTick(Some(t.(frameIndex := 0, startTime := now)), Some(0))
    else
      var frame := FrameAt(t, now);
      if frame > t.numFrames - 1 then MorphTick(None, None)
      else if frame != t.frameIndex then MorphTick(Some(t.(frameIndex := frame)), Some(frame))
      else MorphTick(Some(t), None)
  }

  /** A frame applied on a later tick is a real frame of the buffer, and the
      `numWeights` weights read from its offset lie inside the
      `numFrames * numWeights` weights the buffer holds. */
  lemma AppliedFrameInBuffer(t: MorphTrack, now: int)
    requires t.frameLengthMs > 0 && t.frameIndex != NotStarted && t.startTime <= now
    ensures Step(t, now).frame.Some? ==>
      var f := Step(t, now).frame.value;
      0 <= f < t.numFrames &&
      0 <= Offset(t, f) && Offset(t, f) + t.numWeights <= t.numFrames * t.numWeights
  {
    var r := Step(t, now);
    if r.frame.Some? {
      var f := r.frame.value;
      assert 0 <= f < t.numFrames;
      MulMonotone(f + 1, t.numFrames, t.numWeights);
      assert (f + 1) * t.numWeights == Offset(t, f) + t.numWeights;
    }
  }

  /** The first tick reads frame 0; it lies inside the buffer when the buffer
      has a frame at all. */
  lemma FirstFrameInBuffer(t: MorphTrack, now: int)
    requires t.frameLengthMs > 0 && t.frameIndex == NotStarted && t.numFrames >= 1
    ensures Step(t, now).frame == Some(0)
    ensures Offset(t, 0) + t.numWeights <= t.numFrames * t.numWeights
  {
  }

  /** The track is consistent with a clock reading `now` taken no earlier than
      the tick that stored its frame: the stored frame has already begun. */
  ghost predicate ConsistentAt(t: MorphTrack, now: int)
  {
    t.frameLengthMs > 0 &&
    NotStarted <= t.frameIndex &&
    (t.frameIndex >= 0 ==>
       t.startTime <= now &&
       t.frameIndex * t.frameLengthMs <= now - t.startTime &&
       (t.frameIndex == 0 || t.frameIndex < t.numFrames))
  }

  /** Consistency survives the clock moving forward. */
  lemma ConsistentLater(t: MorphTrack, now: int, later: int)
    requires ConsistentAt(t, now) && now <= later
    ensures ConsistentAt(t, later)
  {
  }

  /** A tick at a time the track is consistent with never moves the frame
      backwards; a frame it applies is past the stored one and is frame 0 or a
      frame of the buffer. */
  lemma StepAdvances(t: MorphTrack, now: int)
    requires ConsistentAt(t, now)
    ensures var r := Step(t, now);
      (r.track.Some? ==> ConsistentAt(r.track.value, now) && t.frameIndex <= r.track.value.frameIndex) &&
      (r.frame.Some? ==> t.frameIndex < r.frame.value && (r.frame.value == 0 || r.frame.value < t.numFrames))
  {
    if t.frameIndex != NotStarted {
      var e := now - t.startTime;
      TruncDivIsGreatest(t.frameIndex, e, t.frameLengthMs);
    }
  }

  /** What a run of ticks does: the track left at the end and the frames
      applied, in order. */
  datatype MorphRun = MorphRun(track: Option<MorphTrack>, frames: seq<int>)

  /** `updateMorphAnimation` called once for each clock reading in `times`. */
  function Run(m: Option<MorphTrack>, times: seq<int>): (r: MorphRun)
    requires m.Some? ==> m.value.frameLengthMs > 0
    decreases |times|
  {
    if times == [] || m.None? then MorphRun(m, [])
    else
      var tick := Step(m.value, times[0]);
      var rest := Run(tick.track, times[1..]);
      MorphRun(rest.track, (if tick.frame.Some? then [tick.frame.value] else []) + rest.frames)
  }

  ghost predicate StrictlyIncreasing(s: seq<int>)
  {
    forall i, j :: 0 <= i < j < |s| ==> s[i] < s[j]
  }

  /** With no buffer installed, ticks change nothing and apply nothing. */
  lemma RunWithoutBuffer(times: seq<int>)
    ensures Run(None, times) == MorphRun(None, [])
  {
  }

  /** Frame order and count: over non-decreasing clock readings the applied
      frames strictly increase (so no frame is applied twice), all come after
      the stored frame, and each is frame 0 or a frame of the buffer. */
  lemma {:induction false} RunFramesIncrease(t: MorphTrack, times: seq<int>)
    requires times != [] ==> ConsistentAt(t, times[0])
    requires t.frameLengthMs > 0
    requires NonDecreasing(times)
    decreases |times|
    ensures var frames := Run(Some(t), times).frames;
      StrictlyIncreasing(frames) &&
      (forall i, j :: 0 <= i < j < |frames| ==> frames[i] != frames[j]) &&
      (forall k :: 0 <= k < |frames| ==>
         t.frameIndex < frames[k] && (frames[k] == 0 || frames[k] < t.numFrames))
  {
    if times != [] {
      var tick := Step(t, times[0]);
      StepAdvances(t, times[0]);
      var head := if tick.frame.Some? then [tick.frame.value] else [];
      if tick.track.Some? {
        var u := tick.track.value;
        if |times| > 1 {
          ConsistentLater(u, times[0], times[1]);
        }
        NonDecreasingTail(times);
        RunFramesIncrease(u, times[1..]);
        var rest := Run(tick.track, times[1..]).frames;
        assert Run(Some(t), times).frames == head + rest;
      } else {
        assert Run(Some(t), times).frames == [];
      }
    }
  }

  /** Two weights, three frames of 100 ms, ticks at 0, 150 and 350 ms after the
      first: frames 0 and 1 are applied, then the buffer is dropped. */
  lemma ThreeFrameExample(t0: int)
    ensures Run(Some(Installed(2, 3, 100)), [t0, t0 + 150, t0 + 350]) == MorphRun(None, [0, 1])
  {
    var t := Installed(2, 3, 100);
    var times := [t0, t0 + 150, t0 + 350];
    var u := t.(frameIndex := 0, startTime := t0);
    assert Step(t, t0) == MorphTick(Some(u), Some(0));
    assert FrameAt(u, t0 + 150) == 1;
    assert Step(u, t0 + 150) == MorphTick(Some(u.(frameIndex := 1)), Some(1));
    assert FrameAt(u.(frameIndex := 1), t0 + 350) == 3;
    assert times[1..] == [t0 + 150, t0 + 350] && times[1..][1..] == [t0 + 350];
    assert [t0 + 350][1..] == [];
    assert Run(Some(u.(frameIndex := 1)), [t0 + 350]) == MorphRun(None, []);
    assert Run(Some(u), times[1..]) == MorphRun(None, [1]);
  }
}
