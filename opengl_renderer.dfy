/**
 * The state BloomFramework's OpenGlRenderer keeps between GL calls: the
 * bound array buffer, vertex array, program and per-unit textures (a bind
 * to what is bound already is skipped), the vertex buffers it has created
 * (one per buffer type, created on first use), the buffers used this frame,
 * the depth handed to each queued drawable, and the stack of drawables whose
 * drawing is deferred to the end of the frame.
 *
 * The GL calls and the calls the renderer makes on its buffers and
 * drawables are recorded, in order, in `log`. Buffer types and drawables
 * are type parameters compared by equality; a texture is its identity and
 * GL handle.
 */
module OpenGlRenderers {
  import opened Wrappers

  /** A texture as the renderer sees it: an identity (for Equals) and its GL handle. */
  datatype TextureRef = TextureRef(id: nat, handle: nat)

  /** A call the renderer makes: on the GL, on one of its vertex buffers, or on a drawable. */
  datatype Event<B, D> =
    | BindArrayBuffer(buffer: nat)
    | BindVertexArray(vao: nat)
    | UseProgram(program: nat)
    | ActiveTexture(unit: nat)
    | BindTexture2D(handle: nat)
    | WaitForFence
    | DrawBuffer(kind: B)
    | ResetBuffer(kind: B)
    | DrawDrawable(drawable: D, depth: real)
    | DepthMask(enabled: bool)
    | Blend(enabled: bool)
    | ClearColourAndDepth

  /** The vertex count a buffer type is created with. */
  const BufferCapacity: nat := 10000

  /** How much deeper each queued drawable is than the one before. */
  const DepthStep: real := 0.001

  /** `currentVertexBuffer?.Draw()`: the current buffer draws, when there is one. */
  function Flush<B, D>(current: Option<B>): (events: seq<Event<B, D>>)
    ensures current.None? ==> events == []
    ensures current.Some? ==> events == [DrawBuffer(current.value)]
  {
    if current.Some? then [DrawBuffer(current.value)] else []
  }

  /** WaitForFences: a wait on the last fence, when one was ever created. */
  function Wait<B, D>(hasFence: bool): (events: seq<Event<B, D>>)
    ensures |events| == if hasFence then 1 else 0
    ensures hasFence ==> events[0] == WaitForFence
  {
    if hasFence then [WaitForFence] else []
  }

  /** The Reset call on each buffer, in order. */
  function Resets<B, D>(buffers: seq<B>): (events: seq<Event<B, D>>)
    ensures |events| == |buffers|
    ensures forall i :: 0 <= i < |buffers| ==> events[i] == ResetBuffer(buffers[i])
  {
    if buffers == [] then []
    else Resets(buffers[..|buffers| - 1]) + [ResetBuffer(buffers[|buffers| - 1])]
  }

  /**
   * The Draw call on each drawable popped off the stack until it is empty:
   * the top (last) first, each at the depth it was queued at.
   */
  function PopDraws<B, D>(stack: seq<D>, depth: map<D, real>): (events: seq<Event<B, D>>)
    requires forall d :: d in stack ==> d in depth
    ensures |events| == |stack|
    ensures forall i :: 0 <= i < |stack| ==> events[i] == DrawDrawable(stack[|stack| - 1 - i], depth[stack[|stack| - 1 - i]])
  {
    if stack == [] then [] else PopDraws(stack[1..], depth) + [DrawDrawable(stack[0], depth[stack[0]])]
  }

  /** The depth after `queued` drawables were queued in a frame: BeginFrame starts at -1. */
  function DepthAfter(queued: nat): real
  {
    -1.0 + DepthStep * queued as real
  }

  /**
   * Depth alone defers a drawable exactly from the 2001st of a frame on: the
   * depth after it passes 1.
   */
  lemma DeferredFrom2001(queued: nat)
    ensures DepthAfter(queued) > 1.0 <==> queued > 2000
  {
  }

  class OpenGlRenderer<B(==,!new), D(==)> {
    var currentVbo: nat
    var currentVao: nat
    var boundProgram: nat
    /** texture_units: the texture last bound to each texture unit. */
    var textureUnits: map<nat, TextureRef>
    /** Whether a fence was ever created: WaitForFences waits only then. */
    var hasFence: bool
    var currentBuffer: Option<B>
    /** The buffer types that have a buffer in defaultBuffers. */
    var defaultBuffers: set<B>
    /** The buffer types whose buffer was created, in order; each was created with BufferCapacity vertices. */
    var created: seq<B>
    var usedBuffers: seq<B>
    /** The deferred drawables; the top of the stack is last. */
    var deferred: seq<D>
    /** DrawDepth.NextDepth. */
    var nextDepth: real
    /** The DrawDepth each drawable was given when it was last queued. */
    var drawDepth: map<D, real>
    var isDisposed: bool
    var log: seq<Event<B, D>>
    /** Whether a frame has begun, and how many drawables were queued since. */
    ghost var inFrame: bool
    ghost var queued: nat

    /**
     * The current and used buffers were created, each buffer type was
     * created exactly once if it has a buffer and never otherwise, every
     * deferred drawable has a depth, and within a frame the next depth is
     * the depth after the drawables queued so far.
     */
    ghost predicate Valid()
      reads this`currentBuffer, this`defaultBuffers, this`created, this`usedBuffers
      reads this`deferred, this`drawDepth, this`inFrame, this`nextDepth, this`queued
    {
      BuffersValid() && DepthsValid()
    }

    /** The buffer part of Valid. */
    ghost predicate BuffersValid()
      reads this`currentBuffer, this`defaultBuffers, this`created, this`usedBuffers
    {
      && (currentBuffer.Some? ==> currentBuffer.value in defaultBuffers)
      && (forall i :: 0 <= i < |usedBuffers| ==> usedBuffers[i] in defaultBuffers)
      && (forall i, j :: 0 <= i < j < |created| ==> created[i] != created[j])
      && (forall kind :: kind in defaultBuffers <==> kind in created)
    }

    /** The depth part of Valid. */
    ghost predicate DepthsValid()
      reads this`deferred, this`drawDepth, this`inFrame, this`nextDepth, this`queued
    {
      && (forall d :: d in deferred ==> d in drawDepth)
      && (inFrame ==> nextDepth == DepthAfter(queued))
    }

    /** A new renderer: nothing bound, no buffers, nothing deferred. */
    constructor ()
      ensures Valid()
      ensures currentVbo == 0 && currentVao == 0 && boundProgram == 0 && textureUnits == map[]
      ensures !hasFence && currentBuffer == None && defaultBuffers == {} && created == [] && usedBuffers == []
      ensures deferred == [] && nextDepth == 0.0 && drawDepth == map[] && !isDisposed && log == []
      ensures !inFrame
    {
      currentVbo, currentVao, boundProgram := 0, 0, 0;
      textureUnits := map[];
      hasFence := false;
      currentBuffer, defaultBuffers, created, usedBuffers := None, {}, [], [];
      deferred, nextDepth, drawDepth := [], 0.0, map[];
      isDisposed := false;
      log := [];
      inFrame, queued := false, 0;
    }

    /** BindBuffer: binds and answers true unless the buffer is bound already. */
    method BindBuffer(buffer: nat) returns (bound: bool)
      requires Valid()
      modifies this`currentVbo, this`log
      ensures Valid()
      ensures bound <==> old(currentVbo) != buffer
      ensures currentVbo == buffer
      ensures log == old(log) + if bound then [BindArrayBuffer(buffer)] else []
    {
      if currentVbo == buffer {
        return false;
      }
      currentVbo := buffer;
      log := log + [BindArrayBuffer(buffer)];
      return true;
    }

    /** BindVertexArray: the same caching as BindBuffer, for vertex arrays. */
    method BindVertexArrayObject(vao: nat) returns (bound: bool)
      requires Valid()
      modifies this`currentVao, this`log
      ensures Valid()
      ensures bound <==> old(currentVao) != vao
      ensures currentVao == vao
      ensures log == old(log) + if bound then [BindVertexArray(vao)] else []
    {
      if currentVao == vao {
        return false;
      }
      currentVao := vao;
      log := log + [BindVertexArray(vao)];
      return true;
    }

    /**
     * BindShader: nothing for the bound program; otherwise the current
     * buffer draws what it holds and the fences are waited on before the
     * program is switched.
     */
    method BindShader(program: nat)
      requires Valid()
      modifies this`boundProgram, this`log
      ensures Valid()
      ensures boundProgram == program
      ensures log == old(log) + if old(boundProgram) == program then [] else Flush(currentBuffer) + Wait(hasFence) + [UseProgram(program)]
    {
      if boundProgram == program {
        return;
      }
      log := log + Flush(currentBuffer);
      WaitForFences();
      boundProgram := program;
      log := log + [UseProgram(program)];
    }

    /** GetBoundTexture: the texture last bound to the unit, if any. */
    function BoundTexture(unit: nat): (texture: Option<TextureRef>)
      reads this
      ensures texture.Some? <==> unit in textureUnits
      ensures texture.Some? ==> texture.value == textureUnits[unit]
    {
      if unit in textureUnits then Some(textureUnits[unit]) else None
    }

    /**
     * BindTexture: nothing when the unit holds an equal texture; otherwise
     * the current buffer draws, the fences are waited on, and the texture
     * is bound to the unit.
     */
    method BindTexture(texture: TextureRef, unit: nat)
      requires Valid()
      modifies this`textureUnits, this`log
      ensures Valid()
      ensures BoundTexture(unit) == Some(texture)
      ensures var skipped := old(BoundTexture(unit)) == Some(texture);
        && textureUnits == old(textureUnits)[unit := texture]
        && log == old(log) + if skipped then [] else Flush(currentBuffer) + Wait(hasFence) + [ActiveTexture(unit), BindTexture2D(texture.handle)]
    {
      if unit in textureUnits && textureUnits[unit] == texture {
        return;
      }
      log := log + Flush(currentBuffer);
      WaitForFences();
      textureUnits := textureUnits[unit := texture];
      log := log + [ActiveTexture(unit), BindTexture2D(texture.handle)];
    }

    /** CreateFence: from now on WaitForFences waits on the last fence. */
    method CreateFence()
      modifies this`hasFence
      ensures hasFence
    {
      hasFence := true;
    }

    /** WaitForFences: a wait when there is a fence. */
    method WaitForFences()
      requires Valid()
      modifies this`log
      ensures Valid()
      ensures log == old(log) + Wait(hasFence)
    {
      if !hasFence {
        return;
      }
      log := log + [WaitForFence];
    }

    /**
     * UseBuffer: nothing when the current buffer has the type; otherwise
     * the buffer of that type, created on first use only, draws what it
     * holds and becomes the current buffer, and is listed as used.
     */
    method UseBuffer(kind: B)
      requires Valid()
      modifies this`currentBuffer, this`defaultBuffers, this`created, this`usedBuffers, this`log
      ensures Valid()
      ensures old(currentBuffer) == Some(kind) ==> unchanged(this)
      ensures old(currentBuffer) != Some(kind) ==>
        && currentBuffer == Some(kind)
        && defaultBuffers == old(defaultBuffers) + {kind}
        && created == old(created) + (if kind in old(defaultBuffers) then [] else [kind])
        && usedBuffers == old(usedBuffers) + [kind]
        && log == old(log) + [DrawBuffer(kind)]
    {
      if currentBuffer == Some(kind) {
        return;
      }
      if kind !in defaultBuffers {
        created := created + [kind];
        defaultBuffers := defaultBuffers + {kind};
      }
      log := log + [DrawBuffer(kind)];
      currentBuffer := Some(kind);
      usedBuffers := usedBuffers + [kind];
    }

    /**
     * BeginFrame: depth writes on, blending off, the screen cleared, the
     * depth back to -1, every buffer used in the last frame reset; no buffer
     * is used or current afterwards.
     */
    method BeginFrame()
      requires Valid()
      modifies this`log, this`nextDepth, this`inFrame, this`queued, this`usedBuffers, this`currentBuffer
      ensures Valid()
      ensures log == old(log) + [DepthMask(true), Blend(false), ClearColourAndDepth] + Resets(old(usedBuffers))
      ensures usedBuffers == [] && currentBuffer == None && nextDepth == -1.0
      ensures inFrame && queued == 0
    {
      log := log + [DepthMask(true), Blend(false), ClearColourAndDepth];
      nextDepth := -1.0;
      inFrame, queued := true, 0;
      ResetUsed();
      usedBuffers := [];
      currentBuffer := None;
    }

    /** The foreach of BeginFrame: every used buffer is reset, in order. */
    method ResetUsed()
      modifies this`log
      ensures log == old(log) + Resets(usedBuffers)
    {
      for i := 0 to |usedBuffers|
        invariant log == old(log) + Resets(usedBuffers[..i])
      {
        log := log + [ResetBuffer(usedBuffers[i])];
        assert usedBuffers[..i + 1][..i] == usedBuffers[..i];
      }
      assert usedBuffers[..|usedBuffers|] == usedBuffers;
    }

    /**
     * QueueDrawable: the drawable gets the next depth and the depth moves
     * on; a translucent drawable, or any once the depth has passed 1, is
     * pushed on the deferred stack, any other is drawn at once. Within a
     * frame, depth alone defers exactly the drawables after the 2000th.
     */
    method QueueDrawable(drawable: D, isTranslucent: bool)
      requires Valid()
      modifies this`drawDepth, this`nextDepth, this`deferred, this`log, this`queued
      ensures Valid()
      ensures drawDepth == old(drawDepth)[drawable := old(nextDepth)]
      ensures nextDepth == old(nextDepth) + DepthStep && queued == old(queued) + 1
      ensures var defer := isTranslucent || nextDepth > 1.0;
        && deferred == old(deferred) + (if defer then [drawable] else [])
        && log == old(log) + (if defer then [] else [DrawDrawable(drawable, old(nextDepth))])
      ensures inFrame ==> (deferred == old(deferred) + [drawable] <==> isTranslucent || queued > 2000)
    {
      drawDepth := drawDepth[drawable := nextDepth];
      nextDepth := nextDepth + DepthStep;
      queued := queued + 1;
      if inFrame {
        DeferredFrom2001(queued);
      }
      if isTranslucent || nextDepth > 1.0 {
        deferred := deferred + [drawable];
        return;
      }
      log := log + [DrawDrawable(drawable, drawDepth[drawable])];
    }

    /**
     * EndFrame: when drawables were deferred, the current buffer draws,
     * blending is enabled and depth writes disabled, the deferred drawables
     * are drawn from the top of the stack down, and the current buffer draws
     * again. The stack is empty afterwards.
     */
    method EndFrame()
      requires Valid()
      modifies this`deferred, this`log
      ensures Valid()
      ensures deferred == []
      ensures old(deferred) == [] ==> log == old(log)
      ensures old(deferred) != [] ==>
        log == old(log) + Flush(currentBuffer) + [Blend(true), DepthMask(false)] + PopDraws(old(deferred), drawDepth) + Flush(currentBuffer)
    {
      if deferred == [] {
        return;
      }
      log := log + Flush(currentBuffer) + [Blend(true), DepthMask(false)];
      DrawDeferred();
      log := log + Flush(currentBuffer);
    }

    /**
     * The pop loop of EndFrame: each deferred drawable is popped off the
     * stack and drawn at the depth it was queued at, until the stack is empty.
     */
    method DrawDeferred()
      requires forall d :: d in deferred ==> d in drawDepth
      modifies this`deferred, this`log
      ensures deferred == []
      ensures log == old(log) + PopDraws(old(deferred), drawDepth)
    {
      ghost var stack := deferred;
      while deferred != []
        invariant |deferred| <= |stack| && deferred == stack[..|deferred|]
        invariant log == old(log) + PopDraws(stack[|deferred|..], drawDepth)
        decreases |deferred|
      {
        var m := |deferred| - 1;
        var top := deferred[m];
        deferred := deferred[..m];
        log := log + [DrawDrawable(top, drawDepth[top])];
        assert stack[m..][1..] == stack[m + 1..];
      }
      assert stack[0..] == stack;
    }

    /** Dispose: the first call releases the debug callback; later calls do nothing. */
    method Dispose()
      modifies this`isDisposed
      ensures isDisposed
    {
      if isDisposed {
        return;
      }
      isDisposed := true;
    }
  }
}
