/**
 * BloomBirb's CompositeDrawable: a drawable with a list of children. A
 * child has exactly one parent: adding a drawable that already has one
 * throws. Loading and updating visit the children first to last; queueing
 * for drawing and invalidating visit them last to first.
 *
 * The composite's own drawable state is its `base` part; the children are
 * visited as plain drawables.
 */
module CompositeDrawables {
  import opened Wrappers
  import opened Sequences
  import opened Drawables

  /**
   * The position at which AddRange stops: the first drawable, from `i` on,
   * that already has a parent or that appears earlier in the array (its
   * first appearance gave it one); the length when there is none.
   */
  ghost function FirstRejected(drawables: seq<Drawable>, i: nat): (k: nat)
    reads drawables
    requires i <= |drawables|
    ensures i <= k <= |drawables|
    ensures forall j :: i <= j < k ==> drawables[j].parent == null && drawables[j] !in drawables[..j]
    ensures k < |drawables| ==> drawables[k].parent != null || drawables[k] in drawables[..k]
    decreases |drawables| - i
  {
    if i == |drawables| then i
    else if drawables[i].parent != null || drawables[i] in drawables[..i] then i
    else FirstRejected(drawables, i + 1)
  }

  class CompositeDrawable {
    /** The composite's own drawable state. */
    const base: Drawable
    var children: seq<Drawable>

    /** No child appears twice and the composite is not its own child. */
    ghost predicate Distinct()
      reads this
    {
      base !in children && forall i, j :: 0 <= i < j < |children| ==> children[i] != children[j]
    }

    /** A composite starts with no children. */
    constructor (base: Drawable)
      ensures this.base == base && children == []
    {
      this.base := base;
      children := [];
    }

    /**
     * Add: a drawable that has a parent is refused with an
     * InvalidOperationException; any other gets the composite as its parent
     * and becomes the last child.
     */
    method Add(drawable: Drawable) returns (r: Result<(), Exception>)
      modifies this`children, drawable`parent, drawable`invalidated
      ensures r.Err? <==> old(drawable.parent) != null
      ensures r.Err? ==> r.error == InvalidOperation && children == old(children) && unchanged(drawable)
      ensures r.Ok? ==> drawable.parent == base && drawable.invalidated && children == old(children) + [drawable]
    {
      if drawable.parent != null {
        return Err(InvalidOperation);
      }
      drawable.SetParent(base);
      children := children + [drawable];
      return Ok(());
    }

    /**
     * AddRange: the drawables are added in array order; the first refusal
     * ends the call with its exception, and the drawables before it stay
     * added.
     */
    method AddRange(drawables: seq<Drawable>) returns (r: Result<(), Exception>)
      modifies this`children, drawables
      ensures var k := old(FirstRejected(drawables, 0));
        && (r.Err? <==> k < |drawables|)
        && (r.Err? ==> r.error == InvalidOperation)
        && children == old(children) + drawables[..k]
        && (forall j :: 0 <= j < k ==> drawables[j].parent == base && drawables[j].invalidated)
        && (forall j :: k <= j < |drawables| && drawables[j] !in drawables[..k] ==> unchanged(drawables[j]))
    {
      ghost var k := FirstRejected(drawables, 0);
      for i := 0 to |drawables|
        invariant i <= k
        invariant children == old(children) + drawables[..i]
        invariant forall j :: 0 <= j < i ==> drawables[j].parent == base && drawables[j].invalidated
        invariant forall j :: i <= j < |drawables| && drawables[j] !in drawables[..i] ==> unchanged(drawables[j])
      {
        if i == k {
          assert drawables[i] in drawables[..i] || old(drawables[i].parent) != null;
        }
        r := Add(drawables[i]);
        if r.Err? {
          return;
        }
        assert drawables[..i + 1] == drawables[..i] + [drawables[i]];
      }
      return Ok(());
    }

    /**
     * Remove: the first occurrence of the drawable leaves the children and
     * the drawable loses its parent, whether or not it was a child.
     */
    method Remove(drawable: Drawable)
      modifies this`children, drawable`parent, drawable`invalidated
      ensures children == RemoveFirst(old(children), drawable)
      ensures drawable.parent == null
      ensures drawable.invalidated == (old(drawable.invalidated) || old(drawable.parent) != null)
    {
      children := RemoveFirst(children, drawable);
      drawable.SetParent(null);
    }

    /** LoadInternal: the composite is loaded, then every child, first to last. */
    method LoadInternal()
      modifies base`loadState, base`hooks, children
      ensures base.loadState == AfterLoad(old(base.loadState)) && base.hooks == old(base.hooks) + LoadHooks(old(base.loadState))
      ensures forall j :: 0 <= j < |children| ==>
        && children[j].loadState == AfterLoad(old(children[j].loadState))
        && children[j].hooks == old(children[j].hooks) + LoadHooks(old(children[j].loadState))
    {
      base.LoadInternal();
      var cs := children;
      for i := 0 to |cs|
        invariant base.loadState == AfterLoad(old(base.loadState)) && base.hooks == old(base.hooks) + LoadHooks(old(base.loadState))
        invariant forall j :: 0 <= j < i ==>
          && cs[j].loadState == AfterLoad(old(cs[j].loadState))
          && cs[j].hooks == old(cs[j].hooks) + LoadHooks(old(cs[j].loadState))
        invariant forall j :: i <= j < |cs| && cs[j] !in cs[..i] && cs[j] != base ==> unchanged(cs[j])
      {
        var child := cs[i];
        LoadTwice(old(child.loadState));
        child.LoadInternal();
      }
    }

    /**
     * UpdateInternal: the composite is updated, then every child, first to
     * last; all of them end Ready. Each runs Update once when no child
     * appears twice.
     */
    method UpdateInternal(dt: real)
      modifies base`loadState, base`hooks, children
      ensures base.loadState == Ready && forall j :: 0 <= j < |children| ==> children[j].loadState == Ready
      ensures Distinct() ==> base.hooks == old(base.hooks) + (if old(base.loadState) == NotLoaded then [LoadHook] else []) + [UpdateHook(dt)]
      ensures Distinct() ==> forall j :: 0 <= j < |children| ==>
        children[j].hooks == old(children[j].hooks) + (if old(children[j].loadState) == NotLoaded then [LoadHook] else []) + [UpdateHook(dt)]
    {
      base.UpdateInternal(dt);
      var cs := children;
      for i := 0 to |cs|
        invariant base.loadState == Ready && forall j :: 0 <= j < i ==> cs[j].loadState == Ready
        invariant forall j :: i <= j < |cs| && cs[j] !in cs[..i] && cs[j] != base ==> unchanged(cs[j])
        invariant Distinct() ==> base.hooks == old(base.hooks) + (if old(base.loadState) == NotLoaded then [LoadHook] else []) + [UpdateHook(dt)]
        invariant Distinct() ==> forall j :: 0 <= j < i ==>
          cs[j].hooks == old(cs[j].hooks) + (if old(cs[j].loadState) == NotLoaded then [LoadHook] else []) + [UpdateHook(dt)]
      {
        var child := cs[i];
        assert Distinct() ==> child !in cs[..i] && child != base;
        child.UpdateInternal(dt);
      }
    }

    /**
     * QueueDraw: the composite, then its children from last to first; each
     * ready and invalidated one is revalidated. `visited` is the order in
     * which the children are queued.
     */
    method QueueDraw() returns (visited: seq<Drawable>)
      modifies base`invalidated, base`hooks, children`invalidated, children`hooks
      ensures visited == Reversed(children)
      ensures QueuedSince(base)
      ensures forall j :: 0 <= j < |children| ==> QueuedSince(children[j])
    {
      base.QueueDraw();
      visited := [];
      var cs := children;
      var n := |cs|;
      ghost var seen: set<Drawable> := {};
      for i := n downto 0
        invariant |visited| == n - i && forall k :: 0 <= k < n - i ==> visited[k] == cs[n - 1 - k]
        invariant QueuedSince(base)
        invariant forall j :: i <= j < n ==> cs[j] in seen
        invariant forall d :: d in seen ==> d in cs && QueuedSince(d)
        invariant forall j :: 0 <= j < i && cs[j] !in seen && cs[j] != base ==> unchanged(cs[j])
      {
        var child := cs[i];
        QueueDrawTwice(old(child.loadState), old(child.invalidated));
        child.QueueDraw();
        seen := seen + {child};
        visited := visited + [child];
      }
    }

    /**
     * Invalidate: the composite, then its children from last to first, are
     * invalidated. `visited` is the order in which the children are reached.
     */
    method Invalidate() returns (visited: seq<Drawable>)
      modifies base`invalidated, children
      ensures visited == Reversed(children)
      ensures base.invalidated && forall j :: 0 <= j < |children| ==> children[j].invalidated
      ensures forall j :: 0 <= j < |children| ==> children[j].loadState == old(children[j].loadState) && children[j].hooks == old(children[j].hooks)
    {
      base.Invalidate();
      visited := [];
      var cs := children;
      var n := |cs|;
      for i := 0 to n
        invariant |visited| == i && forall k :: 0 <= k < i ==> visited[k] == cs[n - 1 - k]
        invariant base.invalidated && forall j :: n - i <= j < n ==> cs[j].invalidated
        invariant forall j :: 0 <= j < n ==> cs[j].loadState == old(cs[j].loadState) && cs[j].hooks == old(cs[j].hooks)
      {
        var child := cs[n - 1 - i];
        child.Invalidate();
        visited := visited + [child];
      }
    }
  }
}
