# SceneAsset animation and texture state, in Dafny

This project models the per-asset runtime state of `SceneAsset` in the
thermion/polyvox iOS renderer (`ios/src/SceneAsset.cpp`): the morph-weight
animation track, the playback records of the animation clips embedded in the
asset, and the slot that holds the one texture loaded for the asset.

- `timing.dfy` (`Timing`): truncating division of elapsed time by a frame
  length, as `static_cast<int>` does, and clock readings that never go
  backwards.
- `morph.dfy` (`MorphAnimation`): the morph track (`MorphAnimationStatus`),
  one tick of `updateMorphAnimation` as the function `Step`, a run of ticks as
  `Run`, and the frame-order properties.
- `embedded.dfy` (`EmbeddedAnimation`): the clip records
  (`EmbeddedAnimationStatus`), `playAnimation`/`stopAnimation` as `Play`/`Stop`,
  one iteration of the loop in `updateEmbeddedAnimations` as `Step`, the
  `applyAnimation` calls of a whole tick as `Calls`, and single-clip runs.
- `texture.dfy` (`TextureSlot`): the texture slot, the engine and resource
  events of `loadTexture` and of the destructor, and a replay of those events
  that checks single ownership of the texture.
- `scene.dfy` (`Scene`): the class `SceneAsset` with fields `morph`, `clips`
  and `texture`. Its methods update those fields in place, as the C++ methods
  do. Each method's postcondition ties the new state to the functions above.
  Renderer and animator side effects are ghost traces:
  - `weightsCalls`: one `setMorphWeights` per entity per `applyWeights`;
  - `animationCalls`: the `applyAnimation` calls;
  - `boneMatrixUpdates`: the number of `updateBoneMatrices` calls;
  - `engineEvents`: texture build/destroy/bind and resource load/free.

The clock is an explicit argument `now` in whole milliseconds. The morph frame
index is the elapsed time divided by the frame length, truncated toward zero.
Clip durations and clip-local offsets are also milliseconds; the source uses
seconds as floating point. Image decoding is an oracle argument of type
`Decoded`: either `Invalid`, or an image with a channel count, width and
height. The engine hands back the texture's handle; here it is an argument.

## Model

| member | source | states |
|---|---|---|
| `Timing.TruncDiv` | ios/src/SceneAsset.cpp:83-86 | the frame index is the quotient truncated toward zero: for non-negative elapsed time `q*b <= a < q*b + b`, for negative `q*b - b < a <= q*b` |
| `Timing.TruncDivIsGreatest` | ios/src/SceneAsset.cpp:85-86 | any whole number of frames that fits into the elapsed time is at most the computed frame index |
| `MorphAnimation.Step` | ios/src/SceneAsset.cpp:72-106 | first tick: frame 0 is applied and the start time latched. Later ticks: the buffer is dropped exactly when the due frame is past `numFrames-1`, otherwise the stored frame becomes the due frame. Weights are applied exactly when the stored frame changes, for that frame. Only `frameIndex` and `startTime` ever change |
| `MorphAnimation.AppliedFrameInBuffer` | ios/src/SceneAsset.cpp:97-103 | a frame applied on a later tick (clock not behind the start) is in `[0, numFrames)`, and its slice `[frame*numWeights, frame*numWeights + numWeights)` lies within `numFrames*numWeights` |
| `MorphAnimation.FirstFrameInBuffer` | ios/src/SceneAsset.cpp:77-81 | the first tick applies frame 0, whose slice is inside the buffer when the buffer has at least one frame |
| `MorphAnimation.StepAdvances` | ios/src/SceneAsset.cpp:83-104 | at a clock reading consistent with the stored frame, a tick never moves the frame backwards. An applied frame is later than the stored one, and is frame 0 or a frame of the buffer |
| `MorphAnimation.RunWithoutBuffer` | ios/src/SceneAsset.cpp:72-75 | with no morph buffer, any number of ticks leaves it absent and applies nothing |
| `MorphAnimation.RunFramesIncrease` | ios/src/SceneAsset.cpp:97-103 | over non-decreasing clock readings, the applied frames strictly increase, so no frame is applied twice. All come after the stored frame and are frame 0 or frames of the buffer |
| `MorphAnimation.ThreeFrameExample` | ios/src/SceneAsset.cpp:77-104 | 2 weights, 3 frames of 100 ms, ticks at +0, +150, +350 ms: frames 0 and 1 are applied, then the buffer is dropped |
| `EmbeddedAnimation.Play` | ios/src/SceneAsset.cpp:108-119 | a missing index or an already started record leaves every record unchanged. Otherwise only that record changes, with `play = true` and the given `loop`, and `started` stays false |
| `EmbeddedAnimation.Stop` | ios/src/SceneAsset.cpp:121-125 | the record gets `play = started = false`; every other record and every other field is unchanged |
| `EmbeddedAnimation.StopIdempotent` | ios/src/SceneAsset.cpp:121-125 | stopping twice is the same as stopping once |
| `EmbeddedAnimation.GuardAgreesWithClips` | ios/src/SceneAsset.cpp:110 | with at least one clip, the guard as written (a `size_t` comparison) rejects exactly the 32-bit indices that have no record |
| `EmbeddedAnimation.GuardAsWrittenAdmitsEveryIndexWithoutClips` | ios/src/SceneAsset.cpp:110-112 | with no clips, the guard as written lets every 32-bit index through, though none has a record |
| `EmbeddedAnimation.Step` | ios/src/SceneAsset.cpp:197-228 | not playing: untouched, no apply. First tick: latches `started` and `startedAt = now`, applies offset 0. Elapsed `>=` duration with `loop`: restarts at `now`, applies 0. Elapsed `>=` duration without `loop`: no apply, clears `play` and `started`. Elapsed below the duration: the record stays exactly as it is, still playing, and the offset applied is exactly `now - startedAt`. Index, duration and loop never change; `started ==> play` is kept |
| `EmbeddedAnimation.StepAllWellFormed` | ios/src/SceneAsset.cpp:197-228 | a tick keeps records indexed by clip and keeps `started ==> play` |
| `EmbeddedAnimation.CallsFromPlayingClips` | ios/src/SceneAsset.cpp:197-228 | every `applyAnimation` of a tick is for a playing clip, at most one per clip, in increasing clip order |
| `EmbeddedAnimation.StopSilencesClip` | ios/src/SceneAsset.cpp:121-125 | after `stopAnimation(i)` the next tick issues no `applyAnimation` for clip `i` |
| `EmbeddedAnimation.StoppedClipIsInert` | ios/src/SceneAsset.cpp:198-201 | a stopped or finished record stays as it is and applies nothing over any number of ticks |
| `EmbeddedAnimation.LoopingClipKeepsPlaying` | ios/src/SceneAsset.cpp:209-212 | over non-decreasing clock readings a looping clip never stops. It applies an offset on every tick, each 0 or short of the duration |
| `EmbeddedAnimation.PlayOnceExample` | ios/src/SceneAsset.cpp:206-227 | a 2 s clip played once, ticks at +0, +1, +2.5 s: offsets 0 and 1000 ms, then it stops |
| `TextureSlot.FormatFor` | ios/src/SceneAsset.cpp:159-160 | the format is RGB16F exactly when the image has 3 channels, RGBA16F otherwise |
| `TextureSlot.Release` | ios/src/SceneAsset.cpp:42-48 | the slot ends empty. A held texture is destroyed by exactly one event, `Destroyed` of its own handle; with none held there are no events. Replayed from the held handle, ownership ends empty |
| `TextureSlot.Load` | ios/src/SceneAsset.cpp:127-180 | the old texture is destroyed first. An invalid image leaves the slot empty. A valid one puts there the new texture, with the format chosen by channel count. The fetched resource is freed last |
| `TextureSlot.LoadAsWritten` | ios/src/SceneAsset.cpp:127-180 | as written: an invalid image leaves the slot empty and the events end on the resource load, with no free after it; a decoded image ends with the free |
| `TextureSlot.LoadAsWrittenMissesOnlyTheFree` | ios/src/SceneAsset.cpp:147-150 | on a decoded image the load as written and the corrected load are identical; on an invalid image the corrected load is the one as written followed by the single free-resource call |
| `TextureSlot.AcquireOwnership` | ios/src/SceneAsset.cpp:138-178 | from an empty slot, the resource load, the build and bind of a decoded image and the free leave the slot owning exactly the texture built, or nothing |
| `TextureSlot.InvalidImageLeaksResource` | ios/src/SceneAsset.cpp:147-150 | as written, an invalid image loads the resource once and never frees it |
| `TextureSlot.LoadReleasesResourceOnce` | ios/src/SceneAsset.cpp:133-178 | every load frees its resource exactly once and destroys the previously held texture exactly once |
| `TextureSlot.LoadKeepsOwnership` | ios/src/SceneAsset.cpp:133-162 | from the slot's handle, the events of a load end with the slot owning exactly its new texture; no second texture is ever live |
| `TextureSlot.TwoLoadsLeaveOneTexture` | ios/src/SceneAsset.cpp:133-136 | two loads in a row: the second destroys the first's texture, and at most one texture, the second, stays live |
| `Scene.SceneAsset.constructor` | ios/src/SceneAsset.cpp:31-40 | one record per clip, record `i` with index `i`, clip `i`'s duration and no flag set; no morph track, no texture |
| `Scene.SceneAsset.Dispose` | ios/src/SceneAsset.cpp:42-48 | the destructor destroys a held texture exactly once and leaves the slot empty |
| `Scene.SceneAsset.ReleaseTexture` | ios/src/SceneAsset.cpp:133-136 | the held texture, if any, is destroyed (the events of `Release`), the slot ends empty, and single ownership is kept |
| `Scene.SceneAsset.ApplyWeights` | ios/src/SceneAsset.cpp:50-56 | one `setMorphWeights(entity, offset, count)` per renderable entity, in entity order |
| `Scene.SceneAsset.AnimateWeights` | ios/src/SceneAsset.cpp:58-65 | installs a fresh track (frame index -1), replacing any in flight |
| `Scene.SceneAsset.UpdateMorphAnimation` | ios/src/SceneAsset.cpp:72-106 | no buffer: nothing changes. Otherwise the track becomes `Step`'s track, and the weights of `Step`'s frame go to every entity |
| `Scene.SceneAsset.PlayAnimation` | ios/src/SceneAsset.cpp:108-119 | the records become `Play(old records, index, loop)` |
| `Scene.SceneAsset.StopAnimation` | ios/src/SceneAsset.cpp:121-125 | the records become `Stop(old records, index)` |
| `Scene.AdvanceClip` | ios/src/SceneAsset.cpp:198-227 | the loop body for one record (latch, advance, wrap, or finish and clear flags) yields exactly the record and the offset that `EmbeddedAnimation.Step` specifies |
| `Scene.SceneAsset.UpdateClip` | ios/src/SceneAsset.cpp:198-227 | record `i` becomes its `Step` and its `applyAnimation` call, if any, is appended; no other record changes |
| `Scene.SceneAsset.UpdateEmbeddedAnimations` | ios/src/SceneAsset.cpp:195-231 | every record is stepped in vector order, the calls are exactly `Calls(old records, now)`, and bone matrices are updated exactly once however many clips play |
| `Scene.SceneAsset.UpdateAnimations` | ios/src/SceneAsset.cpp:67-70 | the morph tick, then the clip tick, with both effects as above |
| `Scene.SceneAsset.AttachImage` | ios/src/SceneAsset.cpp:138-178 | on an empty slot: the resource load, then the build and bind of a decoded image, then the free are appended, the slot holds the texture built, and single ownership is kept |
| `Scene.SceneAsset.LoadTexture` | ios/src/SceneAsset.cpp:127-180 | the slot and the events become those of `Load`, and single ownership of the texture is kept |

## Left out

- Transform math (`transformToUnitCube`, `updateTransform`, `setScale`, `setPosition`, `setRotation`): single-precision matrix arithmetic done by the engine's math library and transform manager.
- Thin forwarders (`getAnimationNames`, `getTargetNames`, the camera and light entity getters): they only pass on what the asset, the name manager and the animator return.
- Texture internals: the texture builder's mip levels, `PixelBufferDescriptor`, its free callback, the stream adapter, decoding and the sampler. Only the slot, the engine events and the decode outcome are modelled. The `renderableIndex` argument of `loadTexture` is unused in the source and is not modelled.
- `thermion_dart/native/src/TCamera.cpp`: foreign-call wrappers. Its projection switch falls through, so Orthographic ends up as Perspective. It is not part of this model.
- `thermion_dart/native/include/ThermionDartAPIUtils.h` (lossy double/float matrix conversion) and `ios/Classes/FilamentView.h` (view plumbing) are not part of this model.
- The header `SceneAsset.hpp` is not part of this model. The record defaults it declares are taken as: clip flags false, morph `frameIndex` -1. The uninitialised `startedAt` and morph `startTime` are given the value 0. The morph `startTime` is set before it is read. The clip `startedAt` is read before it is set: `updateEmbeddedAnimations` computes `now - startedAt` for every playing record, a record not yet started included (:202-203), but that value is discarded on the first tick, so the initial value does not matter.
- Clock and logging: `high_resolution_clock` readings become the `now` argument and `Log` calls are dropped. `updateAnimations` reads the clock separately for the morph and the clip tick; the model uses one `now` for both.
- Concurrency: the model is single-threaded; whether `stopAnimation` is thread safe is not addressed.
- The morph weights themselves: the model records offset and count of each `setMorphWeights`, not the floats. The source does not check the buffer's length, and neither does the model.
- Integer widths: the model assumes the `int` counts `numWeights` and `numFrames` passed to `animateWeights` are never negative, and types them `nat`. The source does not check this, and the model does not cover what a negative count does there: a negative `numFrames` drops the track on its second tick (:88), and a negative `numWeights` gives negative buffer offsets (:101). Overflow of `frameIndex * numWeights` and of the `static_cast<int>` is not modelled.
- Scene.SceneAsset.AnimateWeights: requires a positive whole-millisecond frame length. The source takes a float, and a zero length would divide by zero.
- Scene.SceneAsset.StopAnimation: requires an index that names a clip. The source does no bounds check, so an out-of-range index is undefined behaviour there.
- Scene.SceneAsset.PlayAnimation: uses the corrected guard (see Findings). It differs from the source only for an asset with no clips, where the source indexes an empty vector.
- Scene.SceneAsset.LoadTexture: frees the resource on the invalid-image path too (see Findings). As written, the source returns there without freeing; that behaviour is `TextureSlot.LoadAsWritten`. On that path the source also leaks its `istream` and `LinearImage`; these are not modelled.
- Scene.SceneAsset.AttachImage: frees the resource on the invalid-image path too (see Findings). As written, the source returns at ios/src/SceneAsset.cpp:149 without reaching the free at :178.
- TextureSlot.Load: is the corrected load and ends with the free on every path, the invalid-image path included (see Findings). As written, the source returns at :149 without freeing; that behaviour is `TextureSlot.LoadAsWritten`.
- A finished non-looping clip applies nothing on its last tick. The code computes the final offset but does not apply it; the model follows the code.
- Durations and offsets of clips are whole milliseconds rather than floating-point seconds.

## Findings

| source | as written | input that shows it | evidently intended | confidence | as-written member | corrected member |
|---|---|---|---|---|---|---|
| ios/src/SceneAsset.cpp:110-112 | `index > _animator->getAnimationCount() - 1` compares an `int` with a `size_t`. With no clips, `count - 1` wraps to the largest `size_t`, so no index is rejected and `_embeddedAnimationStatus[index]` reads an empty vector | an asset with no animation clips, `playAnimation(0, false)` | report "no animation at index" whenever `index` is negative or not below the clip count | medium, not executed (relies on the animator returning `size_t`) | `EmbeddedAnimation.GuardAsWrittenAdmitsEveryIndexWithoutClips` | `EmbeddedAnimation.Play` |
| ios/src/SceneAsset.cpp:147-150 | on an image that does not decode, `loadTexture` returns before `_freeResource(imageResource.id)`, so the fetched resource is never released | any `loadTexture` whose bytes do not decode (an empty resource, say) | free the fetched resource on every path | high, not executed | `TextureSlot.InvalidImageLeaksResource` | `TextureSlot.LoadReleasesResourceOnce` |
