/** The texture slot of a scene asset: at most one engine texture, replaced by
    `loadTexture` and released by the destructor. Engine and resource calls are
    recorded as events; image decoding is an oracle that says whether the
    bytes decoded and, if so, into how many channels. */
module TextureSlot {
  import opened Optional

  datatype Format = RGB16F | RGBA16F

  /** A texture built by the engine, known by its handle. */
  datatype Texture = Texture(handle: nat, format: Format, width: nat, height: nat)

  /** The outcome of decoding the fetched bytes. */
  datatype Decoded = Invalid | Image(channels: nat, width: nat, height: nat)

  /** Engine and resource calls made by the slot. */
  datatype Event =
    | Created(handle: nat, format: Format)   // Texture::Builder().build
    | Destroyed(handle: nat)                 // engine->destroy(texture)
    | Bound(handle: nat)                     // setImage and setTexture on material instance 0
    | Loaded(resource: nat)                  // the load-resource callback
    | Freed(resource: nat)                   // the free-resource callback

  /** The internal format chosen for an image with `channels` channels. */
  function FormatFor(channels: nat): (f: Format)
    ensures f == RGB16F <==> channels == 3
  {
    if channels == 3 then RGB16F else RGBA16F
  }

  function HandleOf(t: Option<Texture>): Option<nat>
  {
    match t
    case Some(tex) => Some(tex.handle)
    case None => None
  }

  // ---------------------------------------------------------------------------
  // Single ownership

  /** Who holds a texture after a history of events: the slot holds at most
      one handle, or the history broke single ownership (a texture built while
      another is held, or a destroy of a handle not held). */
  datatype Ownership = Owns(held: Option<nat>) | Broken

  function Apply(s: Ownership, e: Event): Ownership
  {
    match s
    case Broken => Broken
    case Owns(held) =>
      match e
      case Created(h, _) => if held.None? then Owns(Some(h)) else Broken
      case Destroyed(h) => if held == Some(h) then Owns(None) else Broken
      case _ => s
  }

  function Replay(s: Ownership, events: seq<Event>): Ownership
    decreases |events|
  {
    if events == [] then s else Replay(Apply(s, events[0]), events[1..])
  }

  /** Replaying a concatenation is replaying one part after the other. */
  lemma {:induction false} ReplayAppend(s: Ownership, a: seq<Event>, b: seq<Event>)
    decreases |a|
    ensures Replay(s, a + b) == Replay(Replay(s, a), b)
  {
    if a != [] {
      assert (a + b)[0] == a[0] && (a + b)[1..] == a[1..] + b;
      ReplayAppend(Apply(s, a[0]), a[1..], b);
    } else {
      assert a + b == b;
    }
  }

  // ---------------------------------------------------------------------------
  // loadTexture and the destructor

  /** The slot after an operation and the events it issued, in order. */
  datatype SlotChange = SlotChange(texture: Option<Texture>, events: seq<Event>)

  /** Destroy the held texture, if any: the first step of `loadTexture` and
      all of the destructor's work. */
  function Release(held: Option<Texture>): (r: SlotChange)
    ensures r.texture.None?
    ensures Replay(Owns(HandleOf(held)), r.events) == Owns(None)
    ensures held.None? <==> r.events == []
    ensures held.Some? ==> r.events == [Destroyed(held.value.handle)]
  {
    match held
    case Some(t) => SlotChange(None, [Destroyed(t.handle)])
    case None => SlotChange(None, [])
  }

  /** The events of `loadTexture` after the resource is fetched: on a decoded
      image the new texture is built and bound; then the resource is freed. */
  function Acquire(resource: nat, image: Decoded, handle: nat): seq<Event>
  {
    match image
    case Invalid => [Freed(resource)]
    case Image(channels, _, _) => [Created(handle, FormatFor(channels)), Bound(handle), Freed(resource)]
  }

  /** The texture a load leaves in the slot: none when the image did not decode. */
  function Built(image: Decoded, handle: nat): Option<Texture>
  {
    match image
    case Invalid => None
    case Image(channels, w, h) => Some(Texture(handle, FormatFor(channels), w, h))
  }

  /** `loadTexture` as written: on an image that does not decode it returns
      without calling the free-resource callback. */
  function LoadAsWritten(held: Option<Texture>, resource: nat, image: Decoded, handle: nat): (r: SlotChange)
    ensures r.texture.None? <==> image.Invalid?
    // the invalid path ends on the resource load, with no free after it
    ensures |r.events| >= 1 && r.events[|r.events| - 1] == if image.Invalid? then Loaded(resource) else Freed(resource)
  {
    var released := Release(held).events + [Loaded(resource)];
    match image
    case Invalid => SlotChange(None, released)
    case Image(_, _, _) => SlotChange(Built(image, handle), released + Acquire(resource, image, handle))
  }

  /** `loadTexture` with the fetched resource freed on every path. The old
      texture is always destroyed first; a failed decode leaves the slot empty. */
  function Load(held: Option<Texture>, resource: nat, image: Decoded, handle: nat): (r: SlotChange)
    ensures r.texture.None? <==> image.Invalid?
    ensures r.texture.Some? ==>
      r.texture.value == Texture(handle, FormatFor(image.channels), image.width, image.height)
    ensures |r.events| >= 1 && r.events[0] == if held.Some? then Destroyed(held.value.handle) else Loaded(resource)
    ensures r.events[|r.events| - 1] == Freed(resource)
  {
    SlotChange(Built(image, handle), Release(held).events + [Loaded(resource)] + Acquire(resource, image, handle))
  }

  /** The corrected load differs from the one as written only on an image that
      does not decode, and there only by the free-resource call at the end. */
  lemma LoadAsWrittenMissesOnlyTheFree(held: Option<Texture>, resource: nat, image: Decoded, handle: nat)
    ensures image.Image? ==> LoadAsWritten(held, resource, image, handle) == Load(held, resource, image, handle)
    ensures image.Invalid? ==>
      Load(held, resource, image, handle) ==
      SlotChange(None, LoadAsWritten(held, resource, image, handle).events + [Freed(resource)])
  {
  }

  /** 1 when `x` is `e`, else 0. */
  function Hit(x: Event, e: Event): nat
  {
    if x == e then 1 else 0
  }

  /** How often `e` occurs in `events`. */
  function Count(events: seq<Event>, e: Event): nat
    decreases |events|
  {
    if events == [] then 0 else Hit(events[0], e) + Count(events[1..], e)
  }

  lemma {:induction false} CountAppend(a: seq<Event>, b: seq<Event>, e: Event)
    decreases |a|
    ensures Count(a + b, e) == Count(a, e) + Count(b, e)
  {
    if a != [] {
      assert (a + b)[0] == a[0] && (a + b)[1..] == a[1..] + b;
      CountAppend(a[1..], b, e);
    } else {
      assert a + b == b;
    }
  }

  /** The count over a single event. */
  lemma CountOne(x: Event, e: Event)
    ensures Count([x], e) == Hit(x, e)
  {
    assert [x][1..] == [];
  }

  /** The count over three events, event by event. */
  lemma CountThree(x: Event, y: Event, z: Event, e: Event)
    ensures Count([x, y, z], e) == Hit(x, e) + Hit(y, e) + Hit(z, e)
  {
    assert [x, y, z][1..] == [y, z] && [y, z][1..] == [z];
    CountOne(z, e);
    assert Count([y, z], e) == Hit(y, e) + Count([z], e);
  }

  /** The counts of one load: those of the release, the resource load and the
      acquired events. */
  lemma LoadCount(held: Option<Texture>, resource: nat, image: Decoded, handle: nat, e: Event)
    ensures Count(Load(held, resource, image, handle).events, e) ==
      (if held.Some? then Hit(Destroyed(held.value.handle), e) else 0) +
      Hit(Loaded(resource), e) + Count(Acquire(resource, image, handle), e)
  {
    var rel := Release(held).events;
    CountAppend(rel + [Loaded(resource)], Acquire(resource, image, handle), e);
    CountAppend(rel, [Loaded(resource)], e);
    if held.Some? {
      CountOne(Destroyed(held.value.handle), e);
    }
  }

  /** As written, an image that does not decode leaks the fetched resource:
      it was loaded once and is never freed. */
  lemma InvalidImageLeaksResource(held: Option<Texture>, resource: nat, handle: nat)
    ensures var events := LoadAsWritten(held, resource, Invalid, handle).events;
      Count(events, Loaded(resource)) == 1 && Count(events, Freed(resource)) == 0
  {
    var rel := Release(held).events;
    CountAppend(rel, [Loaded(resource)], Loaded(resource));
    CountAppend(rel, [Loaded(resource)], Freed(resource));
    CountOne(Loaded(resource), Loaded(resource));
    CountOne(Loaded(resource), Freed(resource));
    if held.Some? {
      CountOne(rel[0], Loaded(resource));
      CountOne(rel[0], Freed(resource));
    }
  }

  /** Every load frees the resource it fetched exactly once, decoded or not,
      and destroys exactly the texture that was held, if any. */
  lemma LoadReleasesResourceOnce(held: Option<Texture>, resource: nat, image: Decoded, handle: nat)
    ensures var events := Load(held, resource, image, handle).events;
      Count(events, Loaded(resource)) == 1 && Count(events, Freed(resource)) == 1 &&
      (held.Some? ==> Count(events, Destroyed(held.value.handle)) == 1)
  {
    LoadCount(held, resource, image, handle, Loaded(resource));
    LoadCount(held, resource, image, handle, Freed(resource));
    var acquired := Acquire(resource, image, handle);
    match image
    case Invalid =>
      CountOne(Freed(resource), Loaded(resource));
      CountOne(Freed(resource), Freed(resource));
      if held.Some? {
        var d := Destroyed(held.value.handle);
        LoadCount(held, resource, image, handle, d);
        CountOne(Freed(resource), d);
      }
    case Image(_, _, _) =>
      CountThree(acquired[0], acquired[1], acquired[2], Loaded(resource));
      CountThree(acquired[0], acquired[1], acquired[2], Freed(resource));
      if held.Some? {
        var d := Destroyed(held.value.handle);
        LoadCount(held, resource, image, handle, d);
        CountThree(acquired[0], acquired[1], acquired[2], d);
      }
  }

  /** Replaying one event, then the rest. */
  lemma ReplayCons(s: Ownership, e: Event, rest: seq<Event>)
    ensures Replay(s, [e] + rest) == Replay(Apply(s, e), rest)
  {
    assert ([e] + rest)[0] == e && ([e] + rest)[1..] == rest;
  }

  /** From an empty slot, the events after the release leave the slot owning
      exactly the texture built. */
  lemma AcquireOwnership(resource: nat, image: Decoded, handle: nat)
    ensures Replay(Owns(None), [Loaded(resource)] + Acquire(resource, image, handle)) ==
      Owns(HandleOf(Built(image, handle)))
  {
    var s := Owns(None);
    ReplayCons(s, Loaded(resource), Acquire(resource, image, handle));
    match image
    case Invalid =>
      ReplayCons(s, Freed(resource), []);
      assert [Freed(resource)] == [Freed(resource)] + [];
    case Image(channels, _, _) =>
      var o := Owns(Some(handle));
      var fmt := FormatFor(channels);
      assert [Created(handle, fmt), Bound(handle), Freed(resource)] ==
        [Created(handle, fmt)] + ([Bound(handle)] + ([Freed(resource)] + []));
      ReplayCons(s, Created(handle, fmt), [Bound(handle)] + ([Freed(resource)] + []));
      ReplayCons(o, Bound(handle), [Freed(resource)] + []);
      ReplayCons(o, Freed(resource), []);
  }

  /** A load keeps single ownership: starting from the slot's handle, the
      events it issues end with the slot holding exactly its new texture. */
  lemma LoadKeepsOwnership(held: Option<Texture>, resource: nat, image: Decoded, handle: nat)
    ensures var r := Load(held, resource, image, handle);
      Replay(Owns(HandleOf(held)), r.events) == Owns(HandleOf(r.texture))
  {
    var rel := Release(held).events;
    var tail := [Loaded(resource)] + Acquire(resource, image, handle);
    assert Load(held, resource, image, handle).events == rel + tail;
    ReplayAppend(Owns(HandleOf(held)), rel, tail);
    AcquireOwnership(resource, image, handle);
  }

  /** The events of a load appended one after the other to a history, in the
      order `loadTexture` issues them, are the history followed by the load's
      events. */
  lemma LoadEventsAfter(before: seq<Event>, held: Option<Texture>, resource: nat, image: Decoded, handle: nat)
    ensures before + Release(held).events + [Loaded(resource)] + Acquire(resource, image, handle) ==
      before + Load(held, resource, image, handle).events
  {
  }

  /** Two loads in a row: the texture of the first is destroyed by the second,
      and afterwards at most one texture is live, the second one. */
  lemma TwoLoadsLeaveOneTexture(held: Option<Texture>, r1: nat, i1: Decoded, h1: nat,
                                r2: nat, i2: Decoded, h2: nat)
    ensures var first := Load(held, r1, i1, h1);
      var second := Load(first.texture, r2, i2, h2);
      Replay(Owns(HandleOf(held)), first.events + second.events) == Owns(HandleOf(second.texture)) &&
      (first.texture.Some? ==> second.events[0] == Destroyed(first.texture.value.handle))
  {
    var first := Load(held, r1, i1, h1);
    var second := Load(first.texture, r2, i2, h2);
    ReplayAppend(Owns(HandleOf(held)), first.events, second.events);
    LoadKeepsOwnership(held, r1, i1, h1);
    LoadKeepsOwnership(first.texture, r2, i2, h2);
  }
}
