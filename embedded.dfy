/** The embedded clip tracks of a scene asset: one playback record per
    animation clip stored in the asset, started and stopped on request and
    stepped once per tick. Times and durations are whole milliseconds. */
module EmbeddedAnimation {
  import opened Optional
  import opened Timing

  /** The playback record of one embedded clip. */
  datatype ClipStatus = ClipStatus(
    animationIndex: nat,
    durationMs: nat,
    play: bool,
    started: bool,
    loop: bool,
    startedAt: int)

  /** The record the constructor creates for clip `index`: nothing requested yet. */
  function Initial(index: nat, durationMs: nat): ClipStatus
  {
    ClipStatus(index, durationMs, false, false, false, 0)
  }

  /** Records carry their own position as clip index. */
  ghost predicate Indexed(cs: seq<ClipStatus>)
  {
    forall i :: 0 <= i < |cs| ==> cs[i].animationIndex == i
  }

  /** Records indexed by position, each started record also requested to play. */
  ghost predicate WellFormed(cs: seq<ClipStatus>)
  {
    Indexed(cs) && forall i :: 0 <= i < |cs| ==> (cs[i].started ==> cs[i].play)
  }

  // ---------------------------------------------------------------------------
  // playAnimation and stopAnimation

  /** 2^64: `size_t` arithmetic wraps modulo this. */
  const SizeModulus: int := 0x1_0000_0000_0000_0000

  /** The guard of `playAnimation` as written: `index > getAnimationCount() - 1`
      compares an `int` with a `size_t`, so both sides are taken modulo 2^64. */
  predicate OutOfRangeAsWritten(index: int, count: nat)
  {
    index % SizeModulus > (count - 1) % SizeModulus
  }

  /** The guard `playAnimation` is meant to have: no record at `index`. */
  predicate OutOfRange(index: int, count: nat)
  {
    index < 0 || index > count - 1
  }

  /** With at least one clip, the guard as written rejects exactly the indices
      that have no record, for every 32-bit `index`. */
  lemma GuardAgreesWithClips(index: int, count: nat)
    requires -0x8000_0000 <= index < 0x8000_0000
    requires 0 < count < 0x8000_0000_0000_0000
    ensures OutOfRangeAsWritten(index, count) <==> OutOfRange(index, count)
  {
  }

  /** An asset without clips: `count - 1` wraps to the largest `size_t`, so the
      guard as written lets every 32-bit index through to index an empty vector. */
  lemma GuardAsWrittenAdmitsEveryIndexWithoutClips(index: int)
    requires -0x8000_0000 <= index < 0x8000_0000
    ensures !OutOfRangeAsWritten(index, 0) && OutOfRange(index, 0)
  {
  }

  /** `playAnimation(index, loop)`: a request on a missing clip or on a clip
      already started changes nothing; otherwise only that record's `play` and
      `loop` change, and the start is latched by the next tick. */
  function Play(cs: seq<ClipStatus>, index: int, loop: bool): (r: seq<ClipStatus>)
    ensures |r| == |cs|
    ensures OutOfRange(index, |cs|) || cs[index].started ==> r == cs
    ensures !OutOfRange(index, |cs|) && !cs[index].started ==>
      r[index] == cs[index].(play := true, loop := loop) && !r[index].started
    ensures forall k :: 0 <= k < |cs| && k != index ==> r[k] == cs[k]
    ensures WellFormed(cs) ==> WellFormed(r)
  {
    if OutOfRange(index, |cs|) then cs
    else if cs[index].started then cs
    else cs[index := cs[index].(play := true, loop := loop)]
  }

  /** `stopAnimation(index)`: clears `play` and `started` of that record and
      touches nothing else. */
  function Stop(cs: seq<ClipStatus>, index: int): (r: seq<ClipStatus>)
    requires 0 <= index < |cs|
    ensures |r| == |cs|
    ensures !r[index].play && !r[index].started
    ensures r[index] == cs[index].(play := false, started := false)
    ensures forall k :: 0 <= k < |cs| && k != index ==> r[k] == cs[k]
    ensures WellFormed(cs) ==> WellFormed(r)
  {
    cs[index := cs[index].(play := false, started := false)]
  }

  /** Stopping twice is stopping once. */
  lemma StopIdempotent(cs: seq<ClipStatus>, index: int)
    requires 0 <= index < |cs|
    ensures Stop(Stop(cs, index), index) == Stop(cs, index)
  {
  }

  // ---------------------------------------------------------------------------
  // updateEmbeddedAnimations

  /** What one tick does to one record: the record afterwards and the clip-local
      time offset it applies, if any. */
  datatype ClipTick = ClipTick(status: ClipStatus, offset: Option<int>)

  /** A started, non-looping clip whose duration has elapsed. */
  predicate Finishes(c: ClipStatus, now: int)
  {
    c.play && c.started && !c.loop && now - c.startedAt >= c.durationMs
  }

  /** One iteration of the loop in `updateEmbeddedAnimations`. */
  function Step(c: ClipStatus, now: int): (r: ClipTick)
    // the clip, its duration and its loop flag never change here
    ensures r.status.(play := c.play, started := c.started, startedAt := c.startedAt) == c
    // a record not asked to play is untouched and applies nothing
    ensures !c.play ==> r == ClipTick(c, None)
    // the first tick after a play request latches the start and applies offset 0
    ensures c.play && !c.started ==>
      r == ClipTick(c.(started := true, startedAt := now), Some(0))
    // a looping clip wraps to offset 0 and keeps playing
    ensures c.play && c.started && c.loop && now - c.startedAt >= c.durationMs ==>
      r == ClipTick(c.(startedAt := now), Some(0))
    // a non-looping clip finishes without applying and clears its flags
    ensures Finishes(c, now) ==> r == ClipTick(c.(play := false, started := false), None)
    // a clip still inside its duration stays as it is and applies the elapsed time
    ensures c.play && c.started && now - c.startedAt < c.durationMs ==>
      r == ClipTick(c, Some(now - c.startedAt))
    // nothing is applied exactly for clips not playing or finishing now
    ensures r.offset.None? <==> !c.play || Finishes(c, now)
    // an applied offset lies in the clip: 0, or an elapsed time short of the duration
    ensures r.offset.Some? && (c.started ==> c.startedAt <= now) ==>
      r.offset.value == 0 || 0 <= r.offset.value < c.durationMs
    ensures (c.started ==> c.play) ==> (r.status.started ==> r.status.play)
  {
    if !c.play then ClipTick(c, None)
    else if !c.started then ClipTick(c.(started := true, startedAt := now), Some(0))
    else
      var elapsed := now - c.startedAt;
      if elapsed >= c.durationMs then
        if c.loop then ClipTick(c.(startedAt := now), Some(0))
        else ClipTick(c.(play := false, started := false), None)
      else ClipTick(c, Some(elapsed))
  }

  /** All records after one tick. */
  function StepAll(cs: seq<ClipStatus>, now: int): (r: seq<ClipStatus>)
  {
    seq(|cs|, i requires 0 <= i < |cs| => Step(cs[i], now).status)
  }

  /** One tick keeps the records well formed. */
  lemma StepAllWellFormed(cs: seq<ClipStatus>, now: int)
    requires WellFormed(cs)
    ensures WellFormed(StepAll(cs, now))
  {
  }

  /** An `applyAnimation(index, offset)` call on the animator. */
  datatype AnimationCall = ApplyAnimation(index: nat, offsetMs: int)

  /** The calls one record issues in a tick: none or one. */
  function CallsOf(c: ClipStatus, now: int): seq<AnimationCall>
  {
    match Step(c, now).offset
    case Some(offset) => [ApplyAnimation(c.animationIndex, offset)]
    case None => []
  }

  /** The calls a tick issues, record by record in vector order. */
  function Calls(cs: seq<ClipStatus>, now: int): seq<AnimationCall>
    decreases |cs|
  {
    if cs == [] then [] else Calls(cs[..|cs| - 1], now) + CallsOf(cs[|cs| - 1], now)
  }

  /** The calls of a prefix one record longer. */
  lemma CallsSnoc(cs: seq<ClipStatus>, i: int, now: int)
    requires 0 <= i < |cs|
    ensures Calls(cs[..i + 1], now) == Calls(cs[..i], now) + CallsOf(cs[i], now)
  {
    assert cs[..i + 1][..i] == cs[..i];
  }

  /** Every call of a tick is for a clip that is playing, at most one per clip,
      in increasing clip order. */
  lemma {:induction false} CallsFromPlayingClips(cs: seq<ClipStatus>, now: int)
    requires Indexed(cs)
    decreases |cs|
    ensures var calls := Calls(cs, now);
      |calls| <= |cs| &&
      (forall k :: 0 <= k < |calls| ==> calls[k].index < |cs| && cs[calls[k].index].play) &&
      (forall k, l :: 0 <= k < l < |calls| ==> calls[k].index < calls[l].index)
  {
    if cs != [] {
      var init := cs[..|cs| - 1];
      assert Indexed(init) by {
        forall i | 0 <= i < |init| ensures init[i].animationIndex == i {
          assert init[i] == cs[i];
        }
      }
      CallsFromPlayingClips(init, now);
      var calls := Calls(cs, now);
      assert calls == Calls(init, now) + CallsOf(cs[|cs| - 1], now);
      forall k | 0 <= k < |Calls(init, now)|
        ensures calls[k].index < |cs| - 1 && cs[calls[k].index].play
      {
        assert calls[k] == Calls(init, now)[k];
        assert cs[calls[k].index] == init[calls[k].index];
      }
    }
  }

  /** `stopAnimation(i)` followed by a tick applies nothing for clip `i`. */
  lemma StopSilencesClip(cs: seq<ClipStatus>, index: int, now: int)
    requires Indexed(cs) && 0 <= index < |cs|
    ensures forall k :: 0 <= k < |Calls(Stop(cs, index), now)| ==>
      Calls(Stop(cs, index), now)[k].index != index
  {
    var stopped := Stop(cs, index);
    assert Indexed(stopped) by {
      forall i | 0 <= i < |stopped| ensures stopped[i].animationIndex == i {
        assert i != index ==> stopped[i] == cs[i];
      }
    }
    CallsFromPlayingClips(stopped, now);
  }

  // ---------------------------------------------------------------------------
  // One clip over many ticks

  /** What a run of ticks does to one record: the record at the end and the
      offsets applied, in order. */
  datatype ClipRun = ClipRun(status: ClipStatus, offsets: seq<int>)

  /** `updateEmbeddedAnimations` called once per clock reading, seen from one record. */
  function Run(c: ClipStatus, times: seq<int>): ClipRun
    decreases |times|
  {
    if times == [] then ClipRun(c, [])
    else
      var tick := Step(c, times[0]);
      var rest := Run(tick.status, times[1..]);
      ClipRun(rest.status, (if tick.offset.Some? then [tick.offset.value] else []) + rest.offsets)
  }

  /** A stopped or finished record stays as it is and applies nothing until
      the next play request. */
  lemma {:induction false} StoppedClipIsInert(c: ClipStatus, times: seq<int>)
    requires !c.play
    decreases |times|
    ensures Run(c, times) == ClipRun(c, [])
  {
    if times != [] {
      StoppedClipIsInert(c, times[1..]);
    }
  }

  /** A looping clip never finishes: over non-decreasing clock readings it
      applies an offset on every tick, each 0 or short of the duration. */
  lemma {:induction false} LoopingClipKeepsPlaying(c: ClipStatus, times: seq<int>)
    requires c.play && c.loop
    requires NonDecreasing(times)
    requires c.started && times != [] ==> c.startedAt <= times[0]
    decreases |times|
    ensures var run := Run(c, times);
      run.status.play && run.status.loop && |run.offsets| == |times| &&
      (forall k :: 0 <= k < |run.offsets| ==>
         run.offsets[k] == 0 || 0 <= run.offsets[k] < c.durationMs)
  {
    if times != [] {
      var tick := Step(c, times[0]);
      var u := tick.status;
      assert u.started && u.startedAt <= times[0];
      NonDecreasingTail(times);
      if |times| > 1 {
        assert times[0] <= times[1];
      }
      LoopingClipKeepsPlaying(u, times[1..]);
      assert Run(c, times).offsets == [tick.offset.value] + Run(u, times[1..]).offsets;
    }
  }

  /** A two-second clip played once, ticked at 0, 1 and 2.5 seconds: offsets 0
      and 1000 ms are applied, then the clip finishes and stops. */
  lemma PlayOnceExample(t0: int)
    ensures var c := Play([Initial(0, 2000)], 0, false)[0];
      Run(c, [t0, t0 + 1000, t0 + 2500]) == ClipRun(Initial(0, 2000).(startedAt := t0), [0, 1000])
  {
    var c := Play([Initial(0, 2000)], 0, false)[0];
    var times := [t0, t0 + 1000, t0 + 2500];
    var u := c.(started := true, startedAt := t0);
    assert Step(c, t0) == ClipTick(u, Some(0));
    assert Step(u, t0 + 1000) == ClipTick(u, Some(1000));
    assert Step(u, t0 + 2500) == ClipTick(u.(play := false, started := false), None);
    assert times[1..] == [t0 + 1000, t0 + 2500] && times[1..][1..] == [t0 + 2500];
    assert [t0 + 2500][1..] == [];
    assert Run(u, [t0 + 2500]) == ClipRun(u.(play := false, started := false), []);
    assert Run(u, times[1..]) == ClipRun(u.(play := false, started := false), [1000]);
  }
}
