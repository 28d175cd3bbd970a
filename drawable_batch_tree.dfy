/**
 * BloomFramework's drawable batch tree: drawables queued for a frame are
 * grouped by shader, then by texture, so that each shader is bound once and
 * each texture once per shader. Shaders are drawn in the order they were
 * first used, textures within a shader likewise, and the drawables of one
 * (shader, texture) pair in the order they were added.
 *
 * The tree's shader nodes live in its dictionary and its queue; here a
 * shader node is the value kept in the dictionary, the queue holds the
 * shader that names it, and a texture node is the queue of its drawables.
 */
module DrawableBatchTrees {

  /** One Add call: a drawable with the shader and texture it is drawn with. */
  datatype Entry<S, T, D> = Entry(shader: S, texture: T, drawable: D)

  // ---------------------------------------------------------------------
  // The reference grouping of a sequence of Add calls.
  // ---------------------------------------------------------------------

  /** `xs` with every occurrence of `x` removed. */
  function Without<X(==)>(xs: seq<X>, x: X): (r: seq<X>)
    ensures |r| <= |xs|
  {
    if xs == [] then []
    else
      assert xs == [xs[0]] + xs[1..];
      (if xs[0] == x then [] else [xs[0]]) + Without(xs[1..], x)
  }

  /** The distinct elements of `xs` in the order of their first appearance. */
  function Dedup<X(==)>(xs: seq<X>): seq<X>
    decreases |xs|
  {
    if xs == [] then []
    else
      assert xs == [xs[0]] + xs[1..];
      [xs[0]] + Dedup(Without(xs[1..], xs[0]))
  }

  lemma {:induction false} WithoutMembers<X>(xs: seq<X>, x: X)
    ensures forall y :: y in Without(xs, x) <==> y in xs && y != x
  {
    if xs != [] {
      assert xs == [xs[0]] + xs[1..];
      WithoutMembers(xs[1..], x);
    }
  }

  /** The first-appearance order holds exactly the elements of `xs`. */
  lemma {:induction false} DedupMembers<X>(xs: seq<X>)
    ensures forall y :: y in Dedup(xs) <==> y in xs
    decreases |xs|
  {
    if xs != [] {
      assert xs == [xs[0]] + xs[1..];
      WithoutMembers(xs[1..], xs[0]);
      DedupMembers(Without(xs[1..], xs[0]));
    }
  }

  /** No element occurs twice in the first-appearance order. */
  lemma {:induction false} DedupDistinct<X>(xs: seq<X>)
    ensures forall i, j :: 0 <= i < j < |Dedup(xs)| ==> Dedup(xs)[i] != Dedup(xs)[j]
    decreases |xs|
  {
    if xs != [] {
      var w := Without(xs[1..], xs[0]);
      DedupDistinct(w);
      WithoutMembers(xs[1..], xs[0]);
      DedupMembers(w);
      var r := Dedup(xs);
      assert r == [xs[0]] + Dedup(w);
      forall i, j | 0 <= i < j < |r|
        ensures r[i] != r[j]
      {
        assert r[j] == Dedup(w)[j - 1] && Dedup(w)[j - 1] in Dedup(w);
        if i != 0 {
          assert r[i] == Dedup(w)[i - 1];
        }
      }
    }
  }

  lemma {:induction false} WithoutSnoc<X>(xs: seq<X>, y: X, x: X)
    ensures Without(xs + [x], y) == Without(xs, y) + (if x == y then [] else [x])
  {
    if xs == [] {
      assert [] + [x] == [x];
    } else {
      assert (xs + [x])[1..] == xs[1..] + [x];
      WithoutSnoc(xs[1..], y, x);
    }
  }

  /** A new element extends the first-appearance order at its end; a repeated one leaves it alone. */
  lemma {:induction false} DedupSnoc<X>(xs: seq<X>, x: X)
    ensures Dedup(xs + [x]) == Dedup(xs) + (if x in xs then [] else [x])
    decreases |xs|
  {
    if xs == [] {
      assert [] + [x] == [x];
    } else {
      var y, rest := xs[0], xs[1..];
      assert xs == [y] + rest;
      assert (xs + [x])[0] == y && (xs + [x])[1..] == rest + [x];
      WithoutSnoc(rest, y, x);
      var w := Without(rest, y);
      assert Dedup(xs) == [y] + Dedup(w);
      assert Dedup(xs + [x]) == [y] + Dedup(Without(rest + [x], y));
      if x == y {
        assert Without(rest + [x], y) == w;
      } else {
        assert Without(rest + [x], y) == w + [x];
        DedupSnoc(w, x);
        WithoutMembers(rest, y);
        var tail := if x in w then [] else [x];
        assert x in w <==> x in xs;
        assert Dedup(xs + [x]) == [y] + (Dedup(w) + tail);
        assert [y] + (Dedup(w) + tail) == ([y] + Dedup(w)) + tail;
      }
    }
  }

  /** The shader of every Add, in order. */
  function ShadersOf<S, T, D>(a: seq<Entry<S, T, D>>): seq<S>
  {
    if a == [] then [] else ShadersOf(a[..|a| - 1]) + [a[|a| - 1].shader]
  }

  /** The texture of every Add with shader `s`, in order. */
  function TexturesOf<S(==), T, D>(a: seq<Entry<S, T, D>>, s: S): seq<T>
  {
    if a == [] then []
    else TexturesOf(a[..|a| - 1], s) + (if a[|a| - 1].shader == s then [a[|a| - 1].texture] else [])
  }

  /** The drawables added with shader `s` and texture `t`, in order. */
  function DrawablesOf<S(==), T(==), D>(a: seq<Entry<S, T, D>>, s: S, t: T): seq<D>
  {
    if a == [] then []
    else
      var e := a[|a| - 1];
      DrawablesOf(a[..|a| - 1], s, t) + (if e.shader == s && e.texture == t then [e.drawable] else [])
  }

  /** Every drawable added, in order. */
  function DrawablesIn<S, T, D>(a: seq<Entry<S, T, D>>): seq<D>
  {
    if a == [] then [] else DrawablesIn(a[..|a| - 1]) + [a[|a| - 1].drawable]
  }

  /** The shaders in the order of their first use. */
  function Shaders<S(==), T, D>(a: seq<Entry<S, T, D>>): seq<S>
  {
    Dedup(ShadersOf(a))
  }

  /** The textures used with shader `s` in the order of their first use with it. */
  function Textures<S(==), T(==), D>(a: seq<Entry<S, T, D>>, s: S): seq<T>
  {
    Dedup(TexturesOf(a, s))
  }

  /** The pieces `f(k)` of the keys `ks`, concatenated in order. */
  function ConcatMap<K, X>(ks: seq<K>, f: K -> seq<X>): seq<X>
  {
    if ks == [] then [] else ConcatMap(ks[..|ks| - 1], f) + f(ks[|ks| - 1])
  }

  /** Everything drawn with shader `s`: texture by texture in the order of first use. */
  function ShaderGroup<S(==), T(==), D>(a: seq<Entry<S, T, D>>, s: S): seq<D>
  {
    ConcatMap(Textures(a, s), t => DrawablesOf(a, s, t))
  }

  /** The order in which the drawables added by `a` are drawn: shader by shader in the order of first use. */
  function Grouped<S(==), T(==), D>(a: seq<Entry<S, T, D>>): seq<D>
  {
    ConcatMap(Shaders(a), s => ShaderGroup(a, s))
  }

  lemma ConcatMapSnoc<K, X>(ks: seq<K>, k: K, f: K -> seq<X>)
    ensures ConcatMap(ks + [k], f) == ConcatMap(ks, f) + f(k)
  {
    assert (ks + [k])[..|ks|] == ks;
  }

  lemma {:induction false} ConcatMapCongruent<K, X>(ks: seq<K>, f: K -> seq<X>, g: K -> seq<X>)
    requires forall i :: 0 <= i < |ks| ==> f(ks[i]) == g(ks[i])
    ensures ConcatMap(ks, f) == ConcatMap(ks, g)
  {
    if ks != [] {
      ConcatMapCongruent(ks[..|ks| - 1], f, g);
    }
  }

  /** Adding one element to one piece adds it once to the concatenation of distinct keys. */
  lemma {:induction false} ConcatMapAddOne<K, X>(ks: seq<K>, f: K -> seq<X>, g: K -> seq<X>, k0: K, x: X)
    requires forall i, j :: 0 <= i < j < |ks| ==> ks[i] != ks[j]
    requires forall i :: 0 <= i < |ks| ==>
      multiset(g(ks[i])) == multiset(f(ks[i])) + (if ks[i] == k0 then multiset{x} else multiset{})
    ensures multiset(ConcatMap(ks, g)) == multiset(ConcatMap(ks, f)) + (if k0 in ks then multiset{x} else multiset{})
  {
    if ks != [] {
      var init, last := ks[..|ks| - 1], ks[|ks| - 1];
      assert ks == init + [last];
      ConcatMapAddOne(init, f, g, k0, x);
      assert k0 in ks <==> k0 in init || k0 == last;
      assert last == k0 ==> k0 !in init;
    }
  }

  /** The piece of a key is a contiguous block of the concatenation. */
  lemma {:induction false} ConcatMapBlock<K, X>(ks: seq<K>, f: K -> seq<X>, k: K) returns (i: nat)
    requires k in ks
    ensures i + |f(k)| <= |ConcatMap(ks, f)|
    ensures ConcatMap(ks, f)[i..i + |f(k)|] == f(k)
  {
    var init, last := ks[..|ks| - 1], ks[|ks| - 1];
    assert ks == init + [last];
    var prefix := ConcatMap(init, f);
    if last == k {
      i := |prefix|;
    } else {
      assert k in init;
      i := ConcatMapBlock(init, f, k);
      SliceInConcat(prefix, f(last), i, f(k));
    }
  }

  /** Unfolding a concatenation from the front. */
  lemma {:induction false} ConcatMapCons<K, X>(ks: seq<K>, f: K -> seq<X>)
    requires ks != []
    ensures ConcatMap(ks, f) == f(ks[0]) + ConcatMap(ks[1..], f)
    decreases |ks|
  {
    if |ks| == 1 {
      assert ks[1..] == [];
    } else {
      var init := ks[..|ks| - 1];
      ConcatMapCons(init, f);
      assert init[1..] == ks[1..][..|ks[1..]| - 1];
    }
  }

  /** In a sequence without repetitions, an element does not occur after its position. */
  lemma DistinctTail<X>(xs: seq<X>, k: int)
    requires forall i, j :: 0 <= i < j < |xs| ==> xs[i] != xs[j]
    requires 0 <= k < |xs|
    ensures xs[k] !in xs[k + 1..]
  {
    forall j | k + 1 <= j < |xs|
      ensures xs[j] != xs[k]
    {
    }
  }

  lemma SliceInConcat<X>(xs: seq<X>, ys: seq<X>, i: int, block: seq<X>)
    requires 0 <= i && i + |block| <= |xs| && xs[i..i + |block|] == block
    ensures (xs + ys)[i..i + |block|] == block
  {
    assert forall k :: i <= k < i + |block| ==> (xs + ys)[k] == xs[k];
  }

  lemma SliceOfSlice<X>(xs: seq<X>, block: seq<X>, part: seq<X>, i: nat, k: nat)
    requires i + |block| <= |xs| && xs[i..i + |block|] == block
    requires k + |part| <= |block| && block[k..k + |part|] == part
    ensures xs[i + k..i + k + |part|] == part
  {
    forall m | i + k <= m < i + k + |part|
      ensures xs[m] == part[m - i - k]
    {
      assert xs[m] == block[m - i];
      assert block[m - i] == part[m - i - k];
    }
  }

  lemma {:induction false} SnocProjections<S, T, D>(a: seq<Entry<S, T, D>>, x: Entry<S, T, D>)
    ensures ShadersOf(a + [x]) == ShadersOf(a) + [x.shader]
    ensures DrawablesIn(a + [x]) == DrawablesIn(a) + [x.drawable]
    ensures forall s :: TexturesOf(a + [x], s) == TexturesOf(a, s) + (if x.shader == s then [x.texture] else [])
    ensures forall s, t ::
      DrawablesOf(a + [x], s, t) == DrawablesOf(a, s, t) + (if x.shader == s && x.texture == t then [x.drawable] else [])
  {
    assert (a + [x])[..|a|] == a;
  }

  /** A shader never used has no texture. */
  lemma {:induction false} UnusedShader<S, T, D>(a: seq<Entry<S, T, D>>, s: S)
    requires s !in ShadersOf(a)
    ensures TexturesOf(a, s) == []
  {
    if a != [] {
      assert ShadersOf(a) == ShadersOf(a[..|a| - 1]) + [a[|a| - 1].shader];
      UnusedShader(a[..|a| - 1], s);
    }
  }

  /** A texture never used with shader `s` has no drawable under it. */
  lemma {:induction false} UnusedTexture<S, T, D>(a: seq<Entry<S, T, D>>, s: S, t: T)
    requires t !in TexturesOf(a, s)
    ensures DrawablesOf(a, s, t) == []
  {
    if a != [] {
      UnusedTexture(a[..|a| - 1], s, t);
    }
  }

  /** One more Add puts its drawable once more among those drawn with its shader. */
  lemma ShaderGroupSnoc<S, T, D>(a: seq<Entry<S, T, D>>, x: Entry<S, T, D>, s: S)
    ensures multiset(ShaderGroup(a + [x], s)) ==
      multiset(ShaderGroup(a, s)) + (if x.shader == s then multiset{x.drawable} else multiset{})
  {
    if x.shader != s {
      OtherShaderGroup(a, x, s);
    } else {
      OwnShaderGroup(a, x);
    }
  }

  /** An Add call with another shader leaves a shader's group as it was. */
  lemma OtherShaderGroup<S, T, D>(a: seq<Entry<S, T, D>>, x: Entry<S, T, D>, s: S)
    requires x.shader != s
    ensures ShaderGroup(a + [x], s) == ShaderGroup(a, s)
  {
    SnocProjections(a, x);
    var ts := Textures(a, s);
    var f, g := t => DrawablesOf(a, s, t), t => DrawablesOf(a + [x], s, t);
    assert ShaderGroup(a, s) == ConcatMap(ts, f);
    assert TexturesOf(a + [x], s) == TexturesOf(a, s);
    assert forall i :: 0 <= i < |ts| ==> g(ts[i]) == f(ts[i]);
    ConcatMapCongruent(ts, f, g);
    assert ShaderGroup(a + [x], s) == ConcatMap(ts, g);
  }

  /** An Add call adds its drawable once to its own shader's group. */
  lemma OwnShaderGroup<S, T, D>(a: seq<Entry<S, T, D>>, x: Entry<S, T, D>)
    ensures multiset(ShaderGroup(a + [x], x.shader)) == multiset(ShaderGroup(a, x.shader)) + multiset{x.drawable}
  {
    var s := x.shader;
    SnocProjections(a, x);
    var ts := Textures(a, s);
    var f, g := t => DrawablesOf(a, s, t), t => DrawablesOf(a + [x], s, t);
    assert ShaderGroup(a, s) == ConcatMap(ts, f);
    DedupDistinct(TexturesOf(a, s));
    DedupMembers(TexturesOf(a, s));
    DedupSnoc(TexturesOf(a, s), x.texture);
    assert TexturesOf(a + [x], s) == TexturesOf(a, s) + [x.texture];
    forall i | 0 <= i < |ts|
      ensures multiset(g(ts[i])) == multiset(f(ts[i])) + (if ts[i] == x.texture then multiset{x.drawable} else multiset{})
    {
      assert g(ts[i]) == f(ts[i]) + (if ts[i] == x.texture then [x.drawable] else []);
    }
    ConcatMapAddOne(ts, f, g, x.texture, x.drawable);
    if x.texture in TexturesOf(a, s) {
      assert Textures(a + [x], s) == ts;
      assert ShaderGroup(a + [x], s) == ConcatMap(ts, g);
    } else {
      assert Textures(a + [x], s) == ts + [x.texture];
      ConcatMapSnoc(ts, x.texture, g);
      UnusedTexture(a, s, x.texture);
      assert g(x.texture) == [x.drawable];
      assert ShaderGroup(a + [x], s) == ConcatMap(ts, g) + [x.drawable];
    }
  }

  /** One more Add call draws its drawable once more, wherever it lands in the grouping. */
  lemma GroupedSnoc<S, T, D>(a: seq<Entry<S, T, D>>, x: Entry<S, T, D>)
    ensures multiset(Grouped(a + [x])) == multiset(Grouped(a)) + multiset{x.drawable}
  {
    var ss := Shaders(a);
    var f, g := s => ShaderGroup(a, s), s => ShaderGroup(a + [x], s);
    assert Grouped(a) == ConcatMap(ss, f);
    DedupDistinct(ShadersOf(a));
    forall i | 0 <= i < |ss|
      ensures multiset(g(ss[i])) == multiset(f(ss[i])) + (if ss[i] == x.shader then multiset{x.drawable} else multiset{})
    {
      ShaderGroupSnoc(a, x, ss[i]);
    }
    ConcatMapAddOne(ss, f, g, x.shader, x.drawable);
    SnocProjections(a, x);
    DedupSnoc(ShadersOf(a), x.shader);
    DedupMembers(ShadersOf(a));
    if x.shader in ShadersOf(a) {
      assert Shaders(a + [x]) == ss;
      assert Grouped(a + [x]) == ConcatMap(ss, g);
    } else {
      assert Shaders(a + [x]) == ss + [x.shader];
      ConcatMapSnoc(ss, x.shader, g);
      NewShaderGroup(a, x);
      assert Grouped(a + [x]) == ConcatMap(ss, g) + g(x.shader);
    }
  }

  /** The first Add call with a shader makes its group the one drawable. */
  lemma NewShaderGroup<S, T, D>(a: seq<Entry<S, T, D>>, x: Entry<S, T, D>)
    requires x.shader !in ShadersOf(a)
    ensures multiset(ShaderGroup(a + [x], x.shader)) == multiset{x.drawable}
  {
    ShaderGroupSnoc(a, x, x.shader);
    UnusedShader(a, x.shader);
    assert Textures(a, x.shader) == [];
  }

  /** Every drawable added is drawn exactly once: the drawing order is a permutation of the additions. */
  lemma {:induction false} GroupedIsPermutation<S, T, D>(a: seq<Entry<S, T, D>>)
    ensures multiset(Grouped(a)) == multiset(DrawablesIn(a))
    decreases |a|
  {
    if a != [] {
      var init, x := a[..|a| - 1], a[|a| - 1];
      assert a == init + [x];
      GroupedIsPermutation(init);
      GroupedSnoc(init, x);
      SnocProjections(init, x);
    }
  }

  /**
   * Everything drawn with one shader is drawn together, and so, within it,
   * is everything drawn with one texture, in the order it was added.
   */
  lemma GroupedKeepsBlocks<S, T, D>(a: seq<Entry<S, T, D>>, s: S, t: T) returns (i: nat, j: nat)
    requires s in ShadersOf(a)
    ensures i + |ShaderGroup(a, s)| <= |Grouped(a)|
    ensures Grouped(a)[i..i + |ShaderGroup(a, s)|] == ShaderGroup(a, s)
    ensures t in TexturesOf(a, s) ==>
      && i <= j && j + |DrawablesOf(a, s, t)| <= i + |ShaderGroup(a, s)|
      && Grouped(a)[j..j + |DrawablesOf(a, s, t)|] == DrawablesOf(a, s, t)
  {
    i := ShaderBlock(a, s);
    j := i;
    if t in TexturesOf(a, s) {
      var k := TextureBlock(a, s, t);
      j := i + k;
      SliceOfSlice(Grouped(a), ShaderGroup(a, s), DrawablesOf(a, s, t), i, k);
    }
  }

  /** The group of a used shader is a contiguous block of the drawing order. */
  lemma ShaderBlock<S, T, D>(a: seq<Entry<S, T, D>>, s: S) returns (i: nat)
    requires s in ShadersOf(a)
    ensures i + |ShaderGroup(a, s)| <= |Grouped(a)|
    ensures Grouped(a)[i..i + |ShaderGroup(a, s)|] == ShaderGroup(a, s)
  {
    DedupMembers(ShadersOf(a));
    var groups := s' => ShaderGroup(a, s');
    assert Grouped(a) == ConcatMap(Shaders(a), groups);
    i := ConcatMapBlock(Shaders(a), groups, s);
    assert groups(s) == ShaderGroup(a, s);
  }

  /** The drawables of a texture used with a shader are a contiguous block of the shader's group. */
  lemma TextureBlock<S, T, D>(a: seq<Entry<S, T, D>>, s: S, t: T) returns (k: nat)
    requires t in TexturesOf(a, s)
    ensures k + |DrawablesOf(a, s, t)| <= |ShaderGroup(a, s)|
    ensures ShaderGroup(a, s)[k..k + |DrawablesOf(a, s, t)|] == DrawablesOf(a, s, t)
  {
    DedupMembers(TexturesOf(a, s));
    var queues := t' => DrawablesOf(a, s, t');
    assert ShaderGroup(a, s) == ConcatMap(Textures(a, s), queues);
    k := ConcatMapBlock(Textures(a, s), queues, t);
    assert queues(t) == DrawablesOf(a, s, t);
  }

  // ---------------------------------------------------------------------
  // The tree.
  // ---------------------------------------------------------------------

  /**
   * A shader node: its texture nodes by texture (a texture node being the
   * queue of its drawables) and the queue of textures with pending work.
   */
  datatype ShaderNode<T(==), D(==)> = ShaderNode(textureNodes: map<T, seq<D>>, list: seq<T>)
  {
    /** The number of texture nodes waiting to be drawn. */
    function Count(): nat
    {
      |list|
    }

    /** The drawables queued for `t`; a texture without a node has none. */
    function Queue(t: T): seq<D>
    {
      if t in textureNodes then textureNodes[t] else []
    }

    /** The texture queue holds each texture once, and exactly those whose node has drawables. */
    ghost predicate Consistent()
    {
      && (forall i, j :: 0 <= i < j < |list| ==> list[i] != list[j])
      && (forall t :: t in list ==> t in textureNodes)
      && (forall t :: t in textureNodes ==> (t in list <==> |textureNodes[t]| > 0))
    }

    /** Nothing is queued. */
    ghost predicate Drained()
    {
      list == [] && forall t :: t in textureNodes ==> textureNodes[t] == []
    }

    /** The node once drawn: every texture node is kept, emptied, and nothing is queued. */
    function Cleared(): (r: ShaderNode<T, D>)
      ensures r.Drained() && r.textureNodes.Keys == textureNodes.Keys
    {
      ShaderNode(map t | t in textureNodes :: [], [])
    }

    /** What drawing this node draws. */
    function Pending(): seq<D>
    {
      ConcatMap(list, t => Queue(t))
    }

    /**
     * Add: the texture's node is created on first use; it is enqueued when
     * it was empty, so it sits in the queue exactly when it has drawables.
     */
    function Add(texture: T, drawable: D): (r: ShaderNode<T, D>)
      requires Consistent()
      ensures r.Consistent()
      ensures r.textureNodes.Keys == textureNodes.Keys + {texture}
      ensures r.Queue(texture) == Queue(texture) + [drawable]
      ensures forall t :: t in textureNodes && t != texture ==> r.textureNodes[t] == textureNodes[t]
      ensures r.list == list + (if texture in list then [] else [texture])
    {
      var queue := Queue(texture);
      ShaderNode(textureNodes[texture := queue + [drawable]], if |queue| == 0 then list + [texture] else list)
    }
  }

  /** The node of `s`, or the new empty node it gets on first use. */
  function NodeOf<S(==), T(==), D(==)>(nodes: map<S, ShaderNode<T, D>>, s: S): (r: ShaderNode<T, D>)
    ensures s !in nodes ==> r.textureNodes == map[] && r.list == []
  {
    if s in nodes then nodes[s] else ShaderNode(map[], [])
  }

  /** What drawing the node of `s` draws; a shader without a node draws nothing. */
  function NodePending<S(==), T(==), D(==)>(nodes: map<S, ShaderNode<T, D>>, s: S): seq<D>
  {
    if s in nodes then nodes[s].Pending() else []
  }

  /**
   * The tree's state matches the Add calls `a` since the last DrawAll: the
   * shader queue is the shaders in order of first use, each node's texture
   * queue the textures in order of first use with it, each texture node the
   * drawables added with it; and a node is queued exactly when it has work.
   */
  ghost predicate Represents<S, T, D>(nodes: map<S, ShaderNode<T, D>>, list: seq<S>, a: seq<Entry<S, T, D>>)
  {
    QueueShape(nodes, list) && list == Shaders(a) && NodesMatch(nodes, a)
  }

  /** The shader queue names nodes, and a consistent node is queued exactly when it has work. */
  ghost predicate QueueShape<S, T, D>(nodes: map<S, ShaderNode<T, D>>, list: seq<S>)
  {
    && (forall s :: s in list ==> s in nodes)
    && (forall s :: s in nodes ==> nodes[s].Consistent() && (s in list <==> nodes[s].list != []))
  }

  /** Each node's texture queue and texture nodes are those of the Add calls `a`. */
  ghost predicate NodesMatch<S, T, D>(nodes: map<S, ShaderNode<T, D>>, a: seq<Entry<S, T, D>>)
  {
    && (forall s :: s in nodes ==> nodes[s].list == Textures(a, s))
    && (forall s, t :: s in nodes && t in nodes[s].textureNodes ==> nodes[s].textureNodes[t] == DrawablesOf(a, s, t))
  }

  /** What drawing the shader queue `list` draws. */
  function QueuedWork<S(==), T(==), D(==)>(nodes: map<S, ShaderNode<T, D>>, list: seq<S>): seq<D>
  {
    ConcatMap(list, s => NodePending(nodes, s))
  }

  /** Drawing the first queued shader's node leaves the rest of the queue to draw. */
  lemma QueuedWorkCons<S, T, D>(nodes: map<S, ShaderNode<T, D>>, list: seq<S>, drawn: seq<D>)
    requires list != [] && list[0] in nodes
    ensures drawn + QueuedWork(nodes, list) == drawn + nodes[list[0]].Pending() + QueuedWork(nodes, list[1..])
  {
    ConcatMapCons(list, s => NodePending(nodes, s));
  }

  /** The queued work of a represented tree is the grouping of its Add calls. */
  lemma PendingIsGrouped<S, T, D>(nodes: map<S, ShaderNode<T, D>>, list: seq<S>, a: seq<Entry<S, T, D>>)
    requires Represents(nodes, list, a)
    ensures QueuedWork(nodes, list) == Grouped(a)
  {
    forall i | 0 <= i < |list|
      ensures NodePending(nodes, list[i]) == ShaderGroup(a, list[i])
    {
      var s := list[i];
      var node := nodes[s];
      ConcatMapCongruent(node.list, t => node.Queue(t), t => DrawablesOf(a, s, t));
    }
    ConcatMapCongruent(list, s => NodePending(nodes, s), s => ShaderGroup(a, s));
  }

  /** Queuing a shader exactly when its node was idle keeps the shader queue in order of first use. */
  lemma AddKeepsShaderQueue<S, T, D>(list: seq<S>, a: seq<Entry<S, T, D>>, x: Entry<S, T, D>, idle: bool)
    requires list == Shaders(a)
    requires idle <==> x.shader !in list
    ensures list + (if idle then [x.shader] else []) == Shaders(a + [x])
  {
    SnocProjections(a, x);
    DedupSnoc(ShadersOf(a), x.shader);
    DedupMembers(ShadersOf(a));
  }

  /** ShaderNode.Add on the node of a shader keeps it matching the Add calls with one more. */
  lemma AddKeepsNode<S, T, D>(node: ShaderNode<T, D>, a: seq<Entry<S, T, D>>, x: Entry<S, T, D>)
    requires node.Consistent() && node.list == Textures(a, x.shader)
    requires forall t :: t in node.textureNodes ==> node.textureNodes[t] == DrawablesOf(a, x.shader, t)
    ensures node.Add(x.texture, x.drawable).list == Textures(a + [x], x.shader)
    ensures forall t :: t in node.Add(x.texture, x.drawable).textureNodes ==>
      node.Add(x.texture, x.drawable).textureNodes[t] == DrawablesOf(a + [x], x.shader, t)
  {
    SnocProjections(a, x);
    DedupSnoc(TexturesOf(a, x.shader), x.texture);
    DedupMembers(TexturesOf(a, x.shader));
    if x.texture !in node.list {
      UnusedTexture(a, x.shader, x.texture);
    }
  }

  /** Adding to a node, and queuing its shader when the node was idle, keeps the queue's shape. */
  lemma AddKeepsQueueShape<S, T, D>(nodes: map<S, ShaderNode<T, D>>, list: seq<S>, shader: S, texture: T, drawable: D)
    requires QueueShape(nodes, list)
    ensures var node := NodeOf(nodes, shader);
      && (node.Count() == 0 <==> shader !in list)
      && QueueShape(nodes[shader := node.Add(texture, drawable)], list + (if node.Count() == 0 then [shader] else []))
  {
    var node := NodeOf(nodes, shader);
    var list' := list + (if node.Count() == 0 then [shader] else []);
    var nodes' := nodes[shader := node.Add(texture, drawable)];
    forall s | s in nodes'
      ensures nodes'[s].Consistent() && (s in list' <==> nodes'[s].list != [])
    {
      if s != shader {
        assert s in list' <==> s in list;
      }
    }
  }

  /** Adding to a node of shader `x.shader` keeps the nodes matching the Add calls with `x` appended. */
  lemma AddKeepsMatch<S, T, D>(nodes: map<S, ShaderNode<T, D>>, a: seq<Entry<S, T, D>>, x: Entry<S, T, D>, node: ShaderNode<T, D>)
    requires NodesMatch(nodes, a)
    requires node.Consistent() && node.list == Textures(a, x.shader)
    requires forall t :: t in node.textureNodes ==> node.textureNodes[t] == DrawablesOf(a, x.shader, t)
    ensures NodesMatch(nodes[x.shader := node.Add(x.texture, x.drawable)], a + [x])
  {
    var a' := a + [x];
    var nodes' := nodes[x.shader := node.Add(x.texture, x.drawable)];
    AddKeepsNode(node, a, x);
    forall s | s in nodes'
      ensures nodes'[s].list == Textures(a', s)
    {
      if s != x.shader {
        OtherNodeMatches(nodes[s], a, x, s);
      }
    }
    forall s, t | s in nodes' && t in nodes'[s].textureNodes
      ensures nodes'[s].textureNodes[t] == DrawablesOf(a', s, t)
    {
      if s != x.shader {
        OtherNodeMatches(nodes[s], a, x, s);
      }
    }
  }

  /** An Add call with another shader leaves what a node must hold as it was. */
  lemma OtherNodeMatches<S, T, D>(node: ShaderNode<T, D>, a: seq<Entry<S, T, D>>, x: Entry<S, T, D>, s: S)
    requires s != x.shader && node.list == Textures(a, s)
    requires forall t :: t in node.textureNodes ==> node.textureNodes[t] == DrawablesOf(a, s, t)
    ensures node.list == Textures(a + [x], s)
    ensures forall t :: t in node.textureNodes ==> node.textureNodes[t] == DrawablesOf(a + [x], s, t)
  {
    SnocProjections(a, x);
    assert TexturesOf(a + [x], s) == TexturesOf(a, s);
  }

  /** Adding to a node of a represented tree, and queuing the shader when its node was idle, represents one more Add. */
  lemma AddKeepsRepresentation<S, T, D>(nodes: map<S, ShaderNode<T, D>>, list: seq<S>, a: seq<Entry<S, T, D>>, shader: S, texture: T, drawable: D)
    requires Represents(nodes, list, a)
    ensures var node := NodeOf(nodes, shader);
      && (node.Count() == 0 <==> shader !in list)
      && Represents(nodes[shader := node.Add(texture, drawable)],
                    list + (if node.Count() == 0 then [shader] else []),
                    a + [Entry(shader, texture, drawable)])
  {
    var x := Entry(shader, texture, drawable);
    var node := NodeOf(nodes, shader);
    if shader !in nodes {
      DedupMembers(ShadersOf(a));
      UnusedShader(a, shader);
    }
    AddKeepsQueueShape(nodes, list, shader, texture, drawable);
    AddKeepsShaderQueue(list, a, x, node.Count() == 0);
    AddKeepsMatch(nodes, a, x, node);
  }

  /**
   * Part way through drawing `node0`: `textures` is what is left of its
   * texture queue, whose nodes are as they were; the others are drained.
   */
  ghost predicate Draining<T, D>(node0: ShaderNode<T, D>, nodes: map<T, seq<D>>, textures: seq<T>)
  {
    && (forall i, j :: 0 <= i < j < |textures| ==> textures[i] != textures[j])
    && nodes.Keys == node0.textureNodes.Keys
    && (forall i :: 0 <= i < |textures| ==> textures[i] in nodes && nodes[textures[i]] == node0.textureNodes[textures[i]])
    && (forall t :: t in nodes && t !in textures ==> nodes[t] == [])
  }

  /** Drawing a consistent node starts from its whole queue. */
  lemma DrainingStart<T, D>(node0: ShaderNode<T, D>)
    requires node0.Consistent()
    ensures Draining(node0, node0.textureNodes, node0.list)
  {
  }

  /** Draining the first texture of the queue keeps the drawing state. */
  lemma DrainingStep<T, D>(node0: ShaderNode<T, D>, nodes: map<T, seq<D>>, textures: seq<T>)
    requires Draining(node0, nodes, textures) && textures != []
    ensures nodes[textures[0]] == node0.Queue(textures[0])
    ensures Draining(node0, nodes[textures[0] := []], textures[1..])
  {
    var texture, rest, nodes' := textures[0], textures[1..], nodes[textures[0] := []];
    DistinctTail(textures, 0);
    forall i | 0 <= i < |rest|
      ensures rest[i] in nodes' && nodes'[rest[i]] == node0.textureNodes[rest[i]]
    {
      assert rest[i] == textures[i + 1];
    }
    forall t | t in nodes' && t !in rest
      ensures nodes'[t] == []
    {
      if t != texture {
        assert t !in textures by {
          assert textures == [texture] + rest;
        }
      }
    }
  }

  /**
   * Part way through drawing the shader nodes `nodes0`: `list` is what is
   * left of the shader queue, whose nodes are as they were (and consistent);
   * the others are cleared.
   */
  ghost predicate ShadersDraining<S, T, D>(nodes0: map<S, ShaderNode<T, D>>, nodes: map<S, ShaderNode<T, D>>, list: seq<S>)
  {
    && (forall i, j :: 0 <= i < j < |list| ==> list[i] != list[j])
    && nodes.Keys == nodes0.Keys
    && (forall i :: 0 <= i < |list| ==> list[i] in nodes && nodes[list[i]] == nodes0[list[i]] && nodes0[list[i]].Consistent())
    && (forall s :: s in nodes && s !in list ==> nodes[s] == nodes0[s].Cleared())
  }

  /** A consistent node with nothing queued is already cleared. */
  lemma IdleIsCleared<T, D>(node: ShaderNode<T, D>)
    requires node.Consistent() && node.list == []
    ensures node == node.Cleared()
  {
    assert node.textureNodes == node.Cleared().textureNodes;
  }

  /** Drawing a represented tree starts from its whole shader queue. */
  lemma ShadersDrainingStart<S, T, D>(nodes: map<S, ShaderNode<T, D>>, list: seq<S>, a: seq<Entry<S, T, D>>)
    requires Represents(nodes, list, a)
    requires forall i, j :: 0 <= i < j < |list| ==> list[i] != list[j]
    ensures ShadersDraining(nodes, nodes, list)
  {
    forall s | s in nodes && s !in list
      ensures nodes[s] == nodes[s].Cleared()
    {
      IdleIsCleared(nodes[s]);
    }
  }

  /** Drawing the first shader's node, then clearing it, keeps the drawing state. */
  lemma ShadersDrainingStep<S, T, D>(nodes0: map<S, ShaderNode<T, D>>, nodes: map<S, ShaderNode<T, D>>, list: seq<S>)
    requires ShadersDraining(nodes0, nodes, list) && list != []
    ensures list[0] in nodes && nodes[list[0]] == nodes0[list[0]] && nodes[list[0]].Consistent()
    ensures ShadersDraining(nodes0, nodes[list[0] := nodes[list[0]].Cleared()], list[1..])
  {
    var shader, rest := list[0], list[1..];
    var nodes' := nodes[shader := nodes[shader].Cleared()];
    DistinctTail(list, 0);
    forall i | 0 <= i < |rest|
      ensures rest[i] in nodes' && nodes'[rest[i]] == nodes0[rest[i]] && nodes0[rest[i]].Consistent()
    {
      assert rest[i] == list[i + 1];
    }
    forall s | s in nodes' && s !in rest
      ensures nodes'[s] == nodes0[s].Cleared()
    {
      if s != shader {
        assert s !in list by {
          assert list == [shader] + rest;
        }
      }
    }
  }

  /** A tree whose nodes are all cleared represents no Add call. */
  lemma ClearedRepresentsNothing<S, T, D>(nodes0: map<S, ShaderNode<T, D>>, nodes: map<S, ShaderNode<T, D>>)
    requires nodes.Keys == nodes0.Keys
    requires forall s :: s in nodes ==> nodes[s] == nodes0[s].Cleared()
    ensures Represents(nodes, [], [])
  {
    forall s | s in nodes
      ensures nodes[s].Drained()
    {
      assert nodes[s] == nodes0[s].Cleared();
    }
  }

  class DrawableBatchTree<S(==), T(==), D(==)> {
    var shaderNodes: map<S, ShaderNode<T, D>>
    /** The queue of shaders whose node has pending work. */
    var list: seq<S>
    /** Every Drawable.Draw call, in order. */
    var drawn: seq<D>
    /** The Add calls since the last DrawAll. */
    ghost var added: seq<Entry<S, T, D>>

    ghost predicate Valid()
      reads this
    {
      Represents(shaderNodes, list, added)
    }

    constructor ()
      ensures Valid() && shaderNodes == map[] && list == [] && drawn == [] && added == []
    {
      shaderNodes, list, drawn, added := map[], [], [], [];
    }

    /**
     * Add: the shader's node is created on first use and enqueued when it
     * had no pending work; the drawable then goes to its texture node.
     */
    method Add(shader: S, texture: T, drawable: D)
      requires Valid()
      modifies this
      ensures Valid()
      ensures added == old(added) + [Entry(shader, texture, drawable)]
      ensures drawn == old(drawn)
      ensures shaderNodes == old(shaderNodes)[shader := NodeOf(old(shaderNodes), shader).Add(texture, drawable)]
      ensures list == old(list) + (if shader in old(list) then [] else [shader])
    {
      AddKeepsRepresentation(shaderNodes, list, added, shader, texture, drawable);
      var node := NodeOf(shaderNodes, shader);
      ghost var list' := list + (if node.Count() == 0 then [shader] else []);
      if node.Count() == 0 {
        list := list + [shader];
      }
      assert list == list';
      shaderNodes := shaderNodes[shader := node.Add(texture, drawable)];
      added := added + [Entry(shader, texture, drawable)];
    }

    /** DrawAll: the shader nodes are dequeued and drawn in turn, leaving every queue empty. */
    method DrawAll()
      requires Valid()
      modifies this
      ensures Valid() && added == [] && list == []
      ensures drawn == old(drawn) + Grouped(old(added))
      ensures shaderNodes.Keys == old(shaderNodes).Keys
      ensures forall s :: s in shaderNodes ==> shaderNodes[s] == old(shaderNodes)[s].Cleared()
    {
      PendingIsGrouped(shaderNodes, list, added);
      DedupDistinct(ShadersOf(added));
      ShadersDrainingStart(shaderNodes, list, added);
      ghost var nodes0 := shaderNodes;
      DrawQueuedShaders();
      added := [];
      ClearedRepresentsNothing(nodes0, shaderNodes);
    }

    /** The loop of DrawAll: each queued shader is dequeued and its node drawn. */
    method DrawQueuedShaders()
      requires ShadersDraining(shaderNodes, shaderNodes, list)
      modifies this`shaderNodes, this`list, this`drawn
      ensures list == [] && shaderNodes.Keys == old(shaderNodes).Keys
      ensures drawn == old(drawn) + QueuedWork(old(shaderNodes), old(list))
      ensures forall s :: s in shaderNodes ==> shaderNodes[s] == old(shaderNodes)[s].Cleared()
    {
      var nodes, queue := shaderNodes, list;
      ghost var total := drawn + QueuedWork(nodes, queue);
      while queue != []
        invariant ShadersDraining(old(shaderNodes), nodes, queue)
        invariant total == drawn + QueuedWork(old(shaderNodes), queue)
        decreases |queue|
      {
        var shader := queue[0];
        ShadersDrainingStep(old(shaderNodes), nodes, queue);
        QueuedWorkCons(old(shaderNodes), queue, drawn);
        queue := queue[1..];
        var node := DrainShaderNode(nodes[shader]);
        nodes := nodes[shader := node];
      }
      shaderNodes, list := nodes, queue;
    }

    /** ShaderNode.DrawAll: the texture nodes are dequeued and drawn in turn. */
    method DrainShaderNode(node0: ShaderNode<T, D>) returns (node: ShaderNode<T, D>)
      requires node0.Consistent()
      modifies this`drawn
      ensures drawn == old(drawn) + node0.Pending()
      ensures node == node0.Cleared()
    {
      var nodes, textures := node0.textureNodes, node0.list;
      ghost var queue0 := t => node0.Queue(t);
      assert node0.Pending() == ConcatMap(textures, queue0);
      DrainingStart(node0);
      while textures != []
        invariant Draining(node0, nodes, textures)
        invariant old(drawn) + node0.Pending() == drawn + ConcatMap(textures, queue0)
        decreases |textures|
      {
        var texture := textures[0];
        ConcatMapCons(textures, queue0);
        DrainingStep(node0, nodes, textures);
        textures := textures[1..];
        DrawTextureNode(nodes[texture]);
        nodes := nodes[texture := []];
      }
      assert nodes == node0.Cleared().textureNodes;
      node := ShaderNode(nodes, []);
    }

    /** TextureNode.DrawAll: the drawables are dequeued and drawn in order. */
    method DrawTextureNode(queue: seq<D>)
      modifies this`drawn
      ensures drawn == old(drawn) + queue
    {
      var rest := queue;
      while rest != []
        invariant drawn + rest == old(drawn) + queue
        decreases |rest|
      {
        drawn := drawn + [rest[0]];
        rest := rest[1..];
      }
    }
  }
}
