/**
 * The bookkeeping of BloomFramework's Drawable: property setters that mark
 * the drawable invalidated only when the value really changes, the load
 * state a drawable moves through (NotLoaded, Loading, Loaded, Ready), the
 * revalidation QueueDraw performs when the drawable is ready and
 * invalidated, and a Dispose that runs once.
 *
 * Vectors of floats are tuples of reals. What Revalidate computes
 * (transformation, draw colour, draw quad) is floating-point geometry and
 * is not modelled; the calls to the overridable hooks (Load, Update,
 * Revalidate, Dispose(bool)) are recorded in order in `hooks`.
 */
module Drawables {
  import opened Sequences

  datatype LoadState = NotLoaded | Loading | Loaded | Ready

  /** The nine named values of the Anchor flags. */
  datatype Anchor =
    | TopLeft | TopCentre | TopRight
    | MiddleLeft | MiddleCentre | MiddleRight
    | BottomLeft | BottomCentre | BottomRight

  datatype Axes = NoAxes | XAxis | YAxis | BothAxes

  datatype FillMode = NoFill | Fill | Fit

  type Vec2 = (real, real)
  type Vec4 = (real, real, real, real)

  /** A call to one of the methods a subclass overrides. */
  datatype Hook = LoadHook | UpdateHook(dt: real) | RevalidateHook | DisposeHook(isDisposing: bool)

  /** float.Epsilon, the smallest positive single: 2 to the power -149. */
  const FloatEpsilon: real := 1.0 / 713623846352979940529142984724747568191373312.0

  /** How far along its life a drawable is. */
  function Rank(state: LoadState): (n: nat)
    ensures n < 4
  {
    match state
    case NotLoaded => 0
    case Loading => 1
    case Loaded => 2
    case Ready => 3
  }

  /**
   * The state LoadInternal leaves: a loaded or ready drawable stays as it
   * is, any other is loaded.
   */
  function AfterLoad(state: LoadState): (after: LoadState)
    ensures after == Loaded || after == Ready
    ensures state == Loaded || state == Ready ==> after == state
    ensures Rank(state) <= Rank(after)
  {
    if state == Loaded || state == Ready then state else Loaded
  }

  /** The hooks LoadInternal runs: Load, unless the drawable is loaded or ready already. */
  function LoadHooks(state: LoadState): (hooks: seq<Hook>)
    ensures hooks == [] <==> AfterLoad(state) == state
    ensures hooks != [] ==> hooks == [LoadHook]
  {
    if state == Loaded || state == Ready then [] else [LoadHook]
  }

  /** The hooks QueueDraw runs: Revalidate, for a ready drawable that is invalidated. */
  function QueueDrawHooks(state: LoadState, invalidated: bool): (hooks: seq<Hook>)
    ensures hooks == [] || hooks == [RevalidateHook]
    ensures hooks != [] <==> state == Ready && invalidated
  {
    if state == Ready && invalidated then [RevalidateHook] else []
  }

  /** The tolerance comparison of the float setters: the values differ by less than the tolerance. */
  function Close(a: real, b: real, tolerance: real): (r: bool)
    ensures r <==> -tolerance < a - b < tolerance
  {
    (if a - b < 0.0 then b - a else a - b) < tolerance
  }

  /** Loading is idempotent: loading a loaded drawable again changes nothing and runs no hook. */
  lemma LoadTwice(state: LoadState)
    ensures AfterLoad(AfterLoad(state)) == AfterLoad(state)
    ensures LoadHooks(AfterLoad(state)) == []
  {
  }

  /** Queueing twice is queueing once: after a QueueDraw a second one revalidates nothing. */
  lemma QueueDrawTwice(state: LoadState, invalidated: bool)
    ensures QueueDrawHooks(state, invalidated && state != Ready) == []
  {
  }

  /**
   * What one QueueDraw does to a drawable, between the state before and the
   * state after: the load state is kept, a ready drawable is no longer
   * invalidated, and Revalidate ran exactly when it was ready and
   * invalidated.
   */
  twostate predicate QueuedSince(d: Drawable)
    reads d
  {
    && d.loadState == old(d.loadState)
    && d.invalidated == (old(d.invalidated) && d.loadState != Ready)
    && d.hooks == old(d.hooks) + QueueDrawHooks(d.loadState, old(d.invalidated))
  }

  /**
   * Hooks other than Dispose(true) leave the count of Dispose(true) calls
   * as it was, so loading, updating and revalidating keep a drawable valid.
   */
  lemma OtherHooksKeepValid(hooks: seq<Hook>, more: seq<Hook>)
    requires DisposeHook(true) !in more
    ensures Occurrences(hooks + more, DisposeHook(true)) == Occurrences(hooks, DisposeHook(true))
  {
    OccurrencesAppend(hooks, more, DisposeHook(true));
  }

  class Drawable {
    var parent: Drawable?
    var anchor: Anchor
    var origin: Anchor
    var relativeSizeAxes: Axes
    var relativePositionAxes: Axes
    var position: Vec2
    var alpha: real
    var colour: Vec4
    var size: Vec2
    var scale: Vec2
    var shear: Vec2
    var rotation: real
    var fillMode: FillMode
    var fillRatio: real
    var invalidated: bool
    var loadState: LoadState
    var disposed: bool
    /** The hook calls made so far, in order. */
    var hooks: seq<Hook>

    /** Dispose(true) has run exactly when the drawable is disposed, and at most once. */
    ghost predicate Valid()
      reads this
    {
      Occurrences(hooks, DisposeHook(true)) == (if disposed then 1 else 0)
    }

    /** A new drawable: no parent, bottom-left anchor and origin, unit size and scale, opaque white, invalidated and not loaded. */
    constructor ()
      ensures Valid()
      ensures parent == null && anchor == BottomLeft && origin == BottomLeft
      ensures relativeSizeAxes == NoAxes && relativePositionAxes == NoAxes
      ensures position == (0.0, 0.0) && alpha == 1.0 && colour == (1.0, 1.0, 1.0, 1.0)
      ensures size == (1.0, 1.0) && scale == (1.0, 1.0) && shear == (0.0, 0.0) && rotation == 0.0
      ensures fillMode == NoFill && fillRatio == 1.0
      ensures invalidated && loadState == NotLoaded && !disposed && hooks == []
    {
      parent := null;
      anchor, origin := BottomLeft, BottomLeft;
      relativeSizeAxes, relativePositionAxes := NoAxes, NoAxes;
      position, alpha, colour := (0.0, 0.0), 1.0, (1.0, 1.0, 1.0, 1.0);
      size, scale, shear, rotation := (1.0, 1.0), (1.0, 1.0), (0.0, 0.0), 0.0;
      fillMode, fillRatio := NoFill, 1.0;
      invalidated, loadState, disposed, hooks := true, NotLoaded, false, [];
    }

    /** Invalidate: the next QueueDraw of a ready drawable revalidates it. */
    method Invalidate()
      modifies this`invalidated
      ensures invalidated
    {
      invalidated := true;
    }

    /** The Parent setter: a different parent invalidates the drawable. */
    method SetParent(value: Drawable?)
      modifies this`parent, this`invalidated
      ensures parent == value
      ensures invalidated == (old(invalidated) || old(parent) != value)
    {
      if parent == value {
        return;
      }
      Invalidate();
      parent := value;
    }

    /** The Anchor setter. */
    method SetAnchor(value: Anchor)
      modifies this`anchor, this`invalidated
      ensures anchor == value
      ensures invalidated == (old(invalidated) || old(anchor) != value)
    {
      if anchor == value {
        return;
      }
      Invalidate();
      anchor := value;
    }

    /** The Origin setter. */
    method SetOrigin(value: Anchor)
      modifies this`origin, this`invalidated
      ensures origin == value
      ensures invalidated == (old(invalidated) || old(origin) != value)
    {
      if origin == value {
        return;
      }
      Invalidate();
      origin := value;
    }

    /** The RelativeSizeAxes setter. */
    method SetRelativeSizeAxes(value: Axes)
      modifies this`relativeSizeAxes, this`invalidated
      ensures relativeSizeAxes == value
      ensures invalidated == (old(invalidated) || old(relativeSizeAxes) != value)
    {
      if relativeSizeAxes == value {
        return;
      }
      Invalidate();
      relativeSizeAxes := value;
    }

    /** The RelativePositionAxes setter. */
    method SetRelativePositionAxes(value: Axes)
      modifies this`relativePositionAxes, this`invalidated
      ensures relativePositionAxes == value
      ensures invalidated == (old(invalidated) || old(relativePositionAxes) != value)
    {
      if relativePositionAxes == value {
        return;
      }
      Invalidate();
      relativePositionAxes := value;
    }

    /** The Position setter. */
    method SetPosition(value: Vec2)
      modifies this`position, this`invalidated
      ensures position == value
      ensures invalidated == (old(invalidated) || old(position) != value)
    {
      if position == value {
        return;
      }
      Invalidate();
      position := value;
    }

    /** The Alpha setter: a change of less than 0.01 is ignored and keeps the old alpha. */
    method SetAlpha(value: real)
      modifies this`alpha, this`invalidated
      ensures Close(old(alpha), value, 0.01) ==> alpha == old(alpha) && invalidated == old(invalidated)
      ensures !Close(old(alpha), value, 0.01) ==> alpha == value && invalidated
    {
      if Close(alpha, value, 0.01) {
        return;
      }
      Invalidate();
      alpha := value;
    }

    /** The Colour setter. */
    method SetColour(value: Vec4)
      modifies this`colour, this`invalidated
      ensures colour == value
      ensures invalidated == (old(invalidated) || old(colour) != value)
    {
      if colour == value {
        return;
      }
      Invalidate();
      colour := value;
    }

    /** The Size setter. */
    method SetSize(value: Vec2)
      modifies this`size, this`invalidated
      ensures size == value
      ensures invalidated == (old(invalidated) || old(size) != value)
    {
      if size == value {
        return;
      }
      Invalidate();
      size := value;
    }

    /** The Scale setter. */
    method SetScale(value: Vec2)
      modifies this`scale, this`invalidated
      ensures scale == value
      ensures invalidated == (old(invalidated) || old(scale) != value)
    {
      if scale == value {
        return;
      }
      Invalidate();
      scale := value;
    }

    /** The Shear setter. */
    method SetShear(value: Vec2)
      modifies this`shear, this`invalidated
      ensures shear == value
      ensures invalidated == (old(invalidated) || old(shear) != value)
    {
      if shear == value {
        return;
      }
      Invalidate();
      shear := value;
    }

    /** The Rotation setter: a change of less than 0.01 is ignored and keeps the old rotation. */
    method SetRotation(value: real)
      modifies this`rotation, this`invalidated
      ensures Close(old(rotation), value, 0.01) ==> rotation == old(rotation) && invalidated == old(invalidated)
      ensures !Close(old(rotation), value, 0.01) ==> rotation == value && invalidated
    {
      if Close(rotation, value, 0.01) {
        return;
      }
      Invalidate();
      rotation := value;
    }

    /** The FillMode setter. */
    method SetFillMode(value: FillMode)
      modifies this`fillMode, this`invalidated
      ensures fillMode == value
      ensures invalidated == (old(invalidated) || old(fillMode) != value)
    {
      if fillMode == value {
        return;
      }
      Invalidate();
      fillMode := value;
    }

    /** The FillRatio setter: only a change of less than float.Epsilon is ignored. */
    method SetFillRatio(value: real)
      modifies this`fillRatio, this`invalidated
      ensures Close(old(fillRatio), value, FloatEpsilon) ==> fillRatio == old(fillRatio) && invalidated == old(invalidated)
      ensures !Close(old(fillRatio), value, FloatEpsilon) ==> fillRatio == value && invalidated
    {
      if Close(fillRatio, value, FloatEpsilon) {
        return;
      }
      Invalidate();
      fillRatio := value;
    }

    /** LoadInternal: Load runs once, in the Loading state, and leaves the drawable Loaded. */
    method LoadInternal()
      modifies this`loadState, this`hooks
      ensures loadState == AfterLoad(old(loadState))
      ensures hooks == old(hooks) + LoadHooks(old(loadState))
    {
      if loadState == Loaded || loadState == Ready {
        return;
      }
      loadState := Loading;
      hooks := hooks + [LoadHook];
      loadState := Loaded;
    }

    /** UpdateInternal: a drawable never loaded is loaded first; after Update it is Ready. */
    method UpdateInternal(dt: real)
      modifies this`loadState, this`hooks
      ensures loadState == Ready
      ensures hooks == old(hooks) + (if old(loadState) == NotLoaded then [LoadHook] else []) + [UpdateHook(dt)]
    {
      if loadState == NotLoaded {
        LoadInternal();
      }
      hooks := hooks + [UpdateHook(dt)];
      loadState := Ready;
    }

    /** Revalidate, as far as the bookkeeping goes: the drawable is valid again. */
    method Revalidate()
      modifies this`invalidated, this`hooks
      ensures !invalidated && hooks == old(hooks) + [RevalidateHook]
    {
      hooks := hooks + [RevalidateHook];
      invalidated := false;
    }

    /** QueueDraw: nothing unless Ready; a ready drawable is revalidated when it is invalidated. */
    method QueueDraw()
      modifies this`invalidated, this`hooks
      ensures invalidated == (old(invalidated) && loadState != Ready)
      ensures hooks == old(hooks) + QueueDrawHooks(loadState, old(invalidated))
    {
      if loadState != Ready {
        return;
      }
      if invalidated {
        Revalidate();
      }
    }

    /** Dispose: Dispose(true) runs on the first call only; the drawable is disposed afterwards. */
    method Dispose()
      requires Valid()
      modifies this`disposed, this`hooks
      ensures Valid()
      ensures disposed
      ensures hooks == old(hooks) + (if old(disposed) then [] else [DisposeHook(true)])
    {
      if disposed {
        return;
      }
      OccurrencesAppend(hooks, [DisposeHook(true)], DisposeHook(true));
      hooks := hooks + [DisposeHook(true)];
      disposed := true;
    }
  }
}
