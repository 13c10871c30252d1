/** The per-asset animation and texture state of a loaded scene asset. The
    renderer and animator it drives are recorded in ghost traces: the
    `setMorphWeights` calls per renderable entity, the `applyAnimation` calls,
    the number of bone-matrix updates, and the engine and resource events of
    the texture slot. The clock is the explicit `now` argument (milliseconds). */
module Scene {
  import opened Optional
  import MorphAnimation
  import EmbeddedAnimation
  import TextureSlot

  /** A `setMorphWeights` call: `count` weights read from `offset` in the morph
      buffer, pushed to renderable entity `entity`. */
  datatype WeightsCall = SetMorphWeights(entity: nat, offset: int, count: nat)

  /** The calls one `applyWeights(offset, count)` makes: one per entity, in order. */
  function Broadcast(entityCount: nat, offset: int, count: nat): seq<WeightsCall>
  {
    seq(entityCount, i requires 0 <= i => SetMorphWeights(i, offset, count))
  }

  /** The `setMorphWeights` calls a morph tick makes for the frame it applies. */
  function WeightsFor(entityCount: nat, t: MorphAnimation.MorphTrack, frame: Option<int>): seq<WeightsCall>
  {
    match frame
    case Some(f) => Broadcast(entityCount, MorphAnimation.Offset(t, f), t.numWeights)
    case None => []
  }

  /** The body of the loop in `updateEmbeddedAnimations` for one record: the
      record afterwards and the offset passed to `applyAnimation`, if any. */
  method AdvanceClip(status: EmbeddedAnimation.ClipStatus, now: int)
    returns (next: EmbeddedAnimation.ClipStatus, applied: Option<int>)
    ensures EmbeddedAnimation.ClipTick(next, applied) == EmbeddedAnimation.Step(status, now)
  {
    next := status;
    applied := None;
    if !next.play {
      return;
    }
    var offset := 0;
    var finished := false;
    if !next.started {
      next := next.(started := true, startedAt := now);
    } else if now - next.startedAt >= next.durationMs {
      if next.loop {
        next := next.(startedAt := now);
      } else {
        offset := now - next.startedAt;
        finished := true;
      }
    } else {
      offset := now - next.startedAt;
    }
    if !finished {
      applied := Some(offset);
    } else {
      next := next.(play := false, started := false);
    }
  }

  class SceneAsset {
    /** The number of renderable entities of the asset. */
    const entityCount: nat
    var morph: Option<MorphAnimation.MorphTrack>
    var clips: seq<EmbeddedAnimation.ClipStatus>
    var texture: Option<TextureSlot.Texture>

    ghost var weightsCalls: seq<WeightsCall>
    ghost var animationCalls: seq<EmbeddedAnimation.AnimationCall>
    ghost var boneMatrixUpdates: nat
    ghost var engineEvents: seq<TextureSlot.Event>

    /** The morph track can be stepped, the clip records are indexed by clip and
        only started after a play request, and the engine events so far leave
        the slot owning exactly the texture it holds. */
    ghost predicate Valid()
      reads this
    {
      (morph.Some? ==> morph.value.frameLengthMs > 0) &&
      EmbeddedAnimation.WellFormed(clips) &&
      TextureSlot.Replay(TextureSlot.Owns(None), engineEvents) == TextureSlot.Owns(TextureSlot.HandleOf(texture))
    }

    /** One record per clip of the animator, clip `i` with duration
        `durations[i]`, none playing; no morph track and no texture. */
    constructor (entityCount: nat, durations: seq<nat>)
      ensures Valid()
      ensures this.entityCount == entityCount && morph.None? && texture.None?
      ensures |clips| == |durations|
      ensures forall i :: 0 <= i < |clips| ==> clips[i] == EmbeddedAnimation.Initial(i, durations[i])
      ensures weightsCalls == [] && animationCalls == [] && boneMatrixUpdates == 0 && engineEvents == []
    {
      this.entityCount := entityCount;
      morph := None;
      texture := None;
      var statuses: seq<EmbeddedAnimation.ClipStatus> := [];
      var i := 0;
      while i < |durations|
        invariant 0 <= i <= |durations| && |statuses| == i
        invariant forall k :: 0 <= k < i ==> statuses[k] == EmbeddedAnimation.Initial(k, durations[k])
      {
        statuses := statuses + [EmbeddedAnimation.Initial(i, durations[i])];
        i := i + 1;
      }
      clips := statuses;
      weightsCalls := [];
      animationCalls := [];
      boneMatrixUpdates := 0;
      engineEvents := [];
    }

    /** The destructor: destroys a held texture once and empties the slot. */
    method Dispose()
      requires Valid()
      modifies this`texture, this`engineEvents
      ensures Valid()
      ensures texture.None?
      ensures engineEvents == old(engineEvents) + TextureSlot.Release(old(texture)).events
    {
      ReleaseTexture();
    }

    /** Destroys the held texture, if any, and empties the slot: all of the
        destructor's work and the first step of `loadTexture`. */
    method ReleaseTexture()
      requires Valid()
      modifies this`texture, this`engineEvents
      ensures Valid()
      ensures texture.None?
      ensures engineEvents == old(engineEvents) + TextureSlot.Release(old(texture)).events
    {
      if texture.Some? {
        engineEvents := engineEvents + [TextureSlot.Destroyed(texture.value.handle)];
        texture := None;
      }
      TextureSlot.ReplayAppend(TextureSlot.Owns(None), old(engineEvents), TextureSlot.Release(old(texture)).events);
    }

    /** Pushes `count` weights from `offset` to every renderable entity. */
    method ApplyWeights(offset: int, count: nat)
      modifies this`weightsCalls
      ensures weightsCalls == old(weightsCalls) + Broadcast(entityCount, offset, count)
    {
      var i := 0;
      while i < entityCount
        invariant 0 <= i <= entityCount
        invariant weightsCalls == old(weightsCalls) + Broadcast(i, offset, count)
      {
        weightsCalls := weightsCalls + [SetMorphWeights(i, offset, count)];
        i := i + 1;
      }
    }

    /** Installs a new morph buffer, replacing any in flight. */
    method AnimateWeights(numWeights: nat, numFrames: nat, frameLengthMs: nat)
      requires Valid()
      requires frameLengthMs > 0
      modifies this`morph
      ensures Valid()
      ensures morph == Some(MorphAnimation.Installed(numWeights, numFrames, frameLengthMs))
    {
      morph := Some(MorphAnimation.Installed(numWeights, numFrames, frameLengthMs));
    }

    /** Advances the morph track to time `now`. */
    method UpdateMorphAnimation(now: int)
      requires Valid()
      modifies this`morph, this`weightsCalls
      ensures Valid()
      ensures old(morph).None? ==> morph.None? && weightsCalls == old(weightsCalls)
      ensures old(morph).Some? ==>
        var tick := MorphAnimation.Step(old(morph).value, now);
        morph == tick.track &&
        weightsCalls == old(weightsCalls) + WeightsFor(entityCount, old(morph).value, tick.frame)
    {
      if morph.None? {
        return;
      }
      var t := morph.value;
      if t.frameIndex == MorphAnimation.NotStarted {
        morph := Some(t.(frameIndex := 0, startTime := now));
        ApplyWeights(0, t.numWeights);
      } else {
        var frameIndex := MorphAnimation.FrameAt(t, now);
        if frameIndex > t.numFrames - 1 {
          morph := None;
        } else if frameIndex != t.frameIndex {
          morph := Some(t.(frameIndex := frameIndex));
          ApplyWeights(frameIndex * t.numWeights, t.numWeights);
        }
      }
    }

    /** `playAnimation(index, loop)`. */
    method PlayAnimation(index: int, loop: bool)
      requires Valid()
      modifies this`clips
      ensures Valid()
      ensures clips == EmbeddedAnimation.Play(old(clips), index, loop)
    {
      if EmbeddedAnimation.OutOfRange(index, |clips|) {
        // no clip at this index
      } else if clips[index].started {
        // already playing: stop first
      } else {
        clips := clips[index := clips[index].(play := true, loop := loop)];
      }
    }

    /** `stopAnimation(index)`; the index is not checked, so it must name a clip. */
    method StopAnimation(index: int)
      requires Valid()
      requires 0 <= index < |clips|
      modifies this`clips
      ensures Valid()
      ensures clips == EmbeddedAnimation.Stop(old(clips), index)
    {
      clips := clips[index := clips[index].(play := false, started := false)];
    }

    /** Steps every clip record at time `now`, then updates the bone matrices once. */
    method UpdateEmbeddedAnimations(now: int)
      requires Valid()
      modifies this`clips, this`animationCalls, this`boneMatrixUpdates
      ensures Valid()
      ensures clips == EmbeddedAnimation.StepAll(old(clips), now)
      ensures animationCalls == old(animationCalls) + EmbeddedAnimation.Calls(old(clips), now)
      ensures boneMatrixUpdates == old(boneMatrixUpdates) + 1
    {
      ghost var before := clips;
      ghost var called := animationCalls;
      var i := 0;
      while i < |clips|
        invariant 0 <= i <= |clips| == |before|
        invariant forall k :: 0 <= k < i ==> clips[k] == EmbeddedAnimation.Step(before[k], now).status
        invariant forall k :: i <= k < |clips| ==> clips[k] == before[k]
        invariant animationCalls == called + EmbeddedAnimation.Calls(before[..i], now)
        invariant boneMatrixUpdates == old(boneMatrixUpdates)
      {
        UpdateClip(i, now);
        EmbeddedAnimation.CallsSnoc(before, i, now);
        i := i + 1;
      }
      assert before[..i] == before;
      boneMatrixUpdates := boneMatrixUpdates + 1;
      EmbeddedAnimation.StepAllWellFormed(before, now);
    }

    /** One iteration of the loop in `updateEmbeddedAnimations`: record `i`
        is stepped and its `applyAnimation` call, if any, is issued. */
    method UpdateClip(i: nat, now: int)
      requires i < |clips|
      modifies this`clips, this`animationCalls
      ensures clips == old(clips)[i := EmbeddedAnimation.Step(old(clips)[i], now).status]
      ensures animationCalls == old(animationCalls) + EmbeddedAnimation.CallsOf(old(clips)[i], now)
    {
      var next, offset := AdvanceClip(clips[i], now);
      if offset.Some? {
        animationCalls := animationCalls + [EmbeddedAnimation.ApplyAnimation(clips[i].animationIndex, offset.value)];
      }
      clips := clips[i := next];
    }

    /** `updateAnimations`: the morph track, then the clips, at one clock reading. */
    method UpdateAnimations(now: int)
      requires Valid()
      modifies this`morph, this`weightsCalls, this`clips, this`animationCalls, this`boneMatrixUpdates
      ensures Valid()
      ensures old(morph).None? ==> morph.None? && weightsCalls == old(weightsCalls)
      ensures old(morph).Some? ==>
        var tick := MorphAnimation.Step(old(morph).value, now);
        morph == tick.track &&
        weightsCalls == old(weightsCalls) + WeightsFor(entityCount, old(morph).value, tick.frame)
      ensures clips == EmbeddedAnimation.StepAll(old(clips), now)
      ensures animationCalls == old(animationCalls) + EmbeddedAnimation.Calls(old(clips), now)
      ensures boneMatrixUpdates == old(boneMatrixUpdates) + 1
    {
      UpdateMorphAnimation(now);
      UpdateEmbeddedAnimations(now);
    }

    /** `loadTexture`: destroys the held texture, fetches resource `resource`,
        and on a decoded `image` builds and binds texture `handle`; the
        resource is freed on every path. */
    method LoadTexture(resource: nat, image: TextureSlot.Decoded, handle: nat)
      requires Valid()
      modifies this`texture, this`engineEvents
      ensures Valid()
      ensures var r := TextureSlot.Load(old(texture), resource, image, handle);
        texture == r.texture && engineEvents == old(engineEvents) + r.events
    {
      ReleaseTexture();
      AttachImage(resource, image, handle);
      TextureSlot.LoadEventsAfter(old(engineEvents), old(texture), resource, image, handle);
    }

    /** The rest of `loadTexture` on an empty slot: fetches resource
        `resource`, builds and binds texture `handle` when `image` decoded,
        and frees the resource. */
    method AttachImage(resource: nat, image: TextureSlot.Decoded, handle: nat)
      requires Valid() && texture.None?
      modifies this`texture, this`engineEvents
      ensures Valid()
      ensures texture == TextureSlot.Built(image, handle)
      ensures engineEvents == old(engineEvents) + [TextureSlot.Loaded(resource)] + TextureSlot.Acquire(resource, image, handle)
    {
      engineEvents := engineEvents + [TextureSlot.Loaded(resource)];
      match image {
        case Invalid =>
          engineEvents := engineEvents + [TextureSlot.Freed(resource)];
        case Image(channels, w, h) =>
          var format := TextureSlot.FormatFor(channels);
          texture := Some(TextureSlot.Texture(handle, format, w, h));
          engineEvents := engineEvents + [TextureSlot.Created(handle, format), TextureSlot.Bound(handle), TextureSlot.Freed(resource)];
      }
      ghost var acquired := [TextureSlot.Loaded(resource)] + TextureSlot.Acquire(resource, image, handle);
      assert engineEvents == old(engineEvents) + acquired;
      TextureSlot.ReplayAppend(TextureSlot.Owns(None), old(engineEvents), acquired);
      TextureSlot.AcquireOwnership(resource, image, handle);
    }
  }
}
