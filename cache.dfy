/**
 * `CachedGLObject` (visualization.py:470-533): an object drawn through an
 * OpenGL display list that is compiled once and replayed while it stays valid.
 *
 * The class keeps the four fields of the source and records its GL calls in a
 * `GLContext`. Its methods are proved against pure functions of those fields
 * (`DrawStep`, `DrawEvents`), and the cache rules are lemmas about these
 * functions: when a draw recompiles, that a nested draw never opens a second
 * list, that a repeated draw replays, and that replaying executes exactly
 * what drawing directly would.
 */
module Cache {
  import opened Wrappers
  import opened Items
  import opened GLTrace

  /** The fields of a `CachedGLObject`: display list, dirty bit, stored parameters, recursion guard. */
  datatype CacheView = CacheView(list: Option<Handle>, changed: bool, params: Option<Config>, making: bool)

  /** A new cache (lines 475-484): no list, clean, no parameters, not compiling. */
  const Initial: CacheView := CacheView(None, false, None, false)

  /** The test of line 508: the list is missing, marked dirty, or built from other parameters. */
  predicate Stale(v: CacheView, params: Option<Config>)
  {
    v.list.None? || v.changed || params != v.params
  }

  /** What running a render procedure directly issues; nested draws meet the recursion guard and run directly too. */
  function Expand(render: RenderProc): (r: seq<GLEvent>)
    ensures |r| >= 1
    ensures forall e :: e in r ==> e.Direct?
  {
    match render
    case Prims(s) => [Direct(s)]
    case Reenter(s, inner) => [Direct(s)] + Expand(inner)
  }

  /** Calls made under `transform` when one is given (`glPushMatrix`, `glMultMatrixf`, ..., `glPopMatrix`). */
  function Around(xform: Option<Xform>, body: seq<GLEvent>): seq<GLEvent>
  {
    if xform.Some? then [Push(xform.value)] + body + [Pop] else body
  }

  /** The fields after `draw`; `spare` is the name `glGenLists` hands out if one is needed. */
  function DrawStep(v: CacheView, params: Option<Config>, spare: Handle): CacheView
  {
    if v.making then v
    else if Stale(v, params) then CacheView(if v.list.None? then Some(spare) else v.list, false, params, false)
    else v
  }

  /** The GL calls `draw` makes: directly while re-entered, a compile when stale, a replay otherwise. */
  function DrawEvents(v: CacheView, render: RenderProc, xform: Option<Xform>, params: Option<Config>, spare: Handle): seq<GLEvent>
  {
    if v.making then Expand(render)
    else if Stale(v, params) then
      var h := if v.list.None? then spare else v.list.value;
      (if v.list.None? then [Alloc(spare)] else []) + Around(xform, [Compile(h, params)] + Expand(render) + [EndCompile])
    else
      Around(xform, [Replay(v.list.value)])
  }

  /** The fields after `destroy`: the list is released. */
  function Destroyed(v: CacheView): CacheView
  {
    v.(list := None)
  }

  /** The calls `destroy` makes: `glDeleteLists` on the list if there is one. */
  function DestroyEvents(v: CacheView): seq<GLEvent>
  {
    if v.list.Some? then [Free(v.list.value)] else []
  }

  class CachedGLObject {
    var glDisplayList: Option<Handle>
    var makingDisplayList: bool
    var displayListParameters: Option<Config>
    var changed: bool

    function View(): CacheView
      reads this
    {
      CacheView(glDisplayList, changed, displayListParameters, makingDisplayList)
    }

    constructor ()
      ensures View() == Initial
    {
      glDisplayList := None;
      makingDisplayList := false;
      displayListParameters := None;
      changed := false;
    }

    /** Lines 486-490: releases the display list, if any. */
    method Destroy(gl: GLContext)
      requires gl.Valid()
      modifies this`glDisplayList, gl`trace
      ensures gl.Valid()
      ensures View() == Destroyed(old(View()))
      ensures gl.trace == old(gl.trace) + DestroyEvents(old(View()))
    {
      if glDisplayList.Some? {
        gl.Emit(Free(glDisplayList.value));
        glDisplayList := None;
      }
    }

    /** Lines 492-495: sets the dirty bit and nothing else. */
    method MarkChanged()
      modifies this`changed
      ensures View() == old(View()).(changed := true)
    {
      changed := true;
    }

    /** Lines 497-533. */
    method Draw(render: RenderProc, xform: Option<Xform>, params: Option<Config>, gl: GLContext)
      requires gl.Valid()
      modifies this, gl
      decreases render, 3
      ensures gl.Valid()
      ensures View() == DrawStep(old(View()), params, old(gl.nextHandle))
      ensures gl.trace == old(gl.trace) + DrawEvents(old(View()), render, xform, params, old(gl.nextHandle))
      ensures gl.nextHandle == if !old(makingDisplayList) && old(glDisplayList).None? then old(gl.nextHandle) + 1 else old(gl.nextHandle)
    {
      ghost var v, n, t := View(), gl.nextHandle, gl.trace;
      if makingDisplayList {
        RunRender(render, gl);
        assert DrawEvents(v, render, xform, params, n) == Expand(render);
      } else if glDisplayList.None? || changed || params != displayListParameters {
        assert Stale(v, params);
        Recompile(render, xform, params, gl);
      } else {
        CallList(xform, gl);
      }
    }

    /** Lines 527-533: replays the valid list under the transform. */
    method CallList(xform: Option<Xform>, gl: GLContext)
      requires gl.Valid() && glDisplayList.Some?
      modifies gl`trace
      ensures gl.Valid()
      ensures gl.trace == old(gl.trace) + Around(xform, [GLEvent.Replay(glDisplayList.value)])
    {
      if xform.Some? {
        gl.Emit(Push(xform.value));
      }
      gl.Emit(GLEvent.Replay(glDisplayList.value));
      if xform.Some? {
        gl.Emit(Pop);
      }
    }

    /** Lines 508-526: (re)compiles the list while executing it, allocating a name first if there is none. */
    method Recompile(render: RenderProc, xform: Option<Xform>, params: Option<Config>, gl: GLContext)
      requires gl.Valid() && !makingDisplayList
      modifies this, gl
      decreases render, 2
      ensures gl.Valid()
      ensures View() == CacheView(if old(glDisplayList).None? then Some(old(gl.nextHandle)) else old(glDisplayList), false, params, false)
      ensures gl.trace == old(gl.trace) + (if old(glDisplayList).None? then [Alloc(old(gl.nextHandle))] else []) +
        Around(xform, [Compile(View().list.value, params)] + Expand(render) + [EndCompile])
      ensures gl.nextHandle == if old(glDisplayList).None? then old(gl.nextHandle) + 1 else old(gl.nextHandle)
    {
      displayListParameters := params;
      changed := false;
      ghost var t0 := gl.trace;
      if glDisplayList.None? {
        var h := gl.GenList();
        glDisplayList := Some(h);
        assert gl.trace == t0 + [Alloc(old(gl.nextHandle))];
      }
      ghost var t1 := gl.trace;
      CompileInto(glDisplayList.value, render, xform, params, gl);
      assert gl.trace == t1 + Around(xform, [Compile(View().list.value, params)] + Expand(render) + [EndCompile]);
    }

    /** The compile of lines 515-526 into list `h`: the transform, the list's bracket and the render calls inside it. */
    method CompileInto(h: Handle, render: RenderProc, xform: Option<Xform>, params: Option<Config>, gl: GLContext)
      requires gl.Valid() && !makingDisplayList
      modifies this, gl
      decreases render, 1
      ensures gl.Valid() && View() == old(View()) && gl.nextHandle == old(gl.nextHandle)
      ensures gl.trace == old(gl.trace) + Around(xform, [Compile(h, params)] + Expand(render) + [EndCompile])
    {
      ghost var body := [Compile(h, params)] + Expand(render) + [EndCompile];
      if xform.Some? {
        gl.Emit(Push(xform.value));
      }
      ghost var t1 := gl.trace;
      gl.Emit(Compile(h, params));
      makingDisplayList := true;
      RunRender(render, gl);
      makingDisplayList := false;
      gl.Emit(EndCompile);
      assert gl.trace == t1 + body;
      if xform.Some? {
        gl.Emit(Pop);
        assert gl.trace == old(gl.trace) + ([Push(xform.value)] + body + [Pop]);
      }
    }

    /** `renderFunction()` while compiling: its primitives, with any nested draw of this cache run directly. */
    method RunRender(render: RenderProc, gl: GLContext)
      requires makingDisplayList && gl.Valid()
      modifies this, gl
      decreases render, 0
      ensures gl.Valid()
      ensures View() == old(View())
      ensures gl.trace == old(gl.trace) + Expand(render) && gl.nextHandle == old(gl.nextHandle)
    {
      gl.Emit(Direct(render.shape));
      if render.Reenter? {
        Draw(render.inner, None, None, gl);
      }
    }
  }

  // ---------------------------------------------------------------------------
  // The cache rules
  // ---------------------------------------------------------------------------

  /** Whether a sequence of calls opens a display list. */
  predicate Compiles(es: seq<GLEvent>)
  {
    exists i :: 0 <= i < |es| && es[i].Compile?
  }

  /** Whether a sequence of calls replays a display list. */
  predicate Replays(es: seq<GLEvent>)
  {
    exists i :: 0 <= i < |es| && es[i].Replay?
  }

  /** Whether a sequence of calls allocates a display list. */
  predicate Allocates(es: seq<GLEvent>)
  {
    exists i :: 0 <= i < |es| && es[i].Alloc?
  }

  /**
   * The recompile rule. A draw that is not re-entered compiles exactly when the
   * list is missing, dirty or built from other parameters, and replays
   * otherwise. A compile stores the parameters, clears the dirty bit and leaves
   * a list in place; a replay changes no field.
   */
  lemma RecompileRule(v: CacheView, render: RenderProc, xform: Option<Xform>, params: Option<Config>, spare: Handle)
    requires !v.making
    ensures Compiles(DrawEvents(v, render, xform, params, spare)) <==> Stale(v, params)
    ensures Replays(DrawEvents(v, render, xform, params, spare)) <==> !Stale(v, params)
    ensures Stale(v, params) ==> DrawStep(v, params, spare) == CacheView(DrawStep(v, params, spare).list, false, params, false)
    ensures DrawStep(v, params, spare).list.Some?
    ensures !Stale(v, params) ==> DrawStep(v, params, spare) == v
  {
    var es := DrawEvents(v, render, xform, params, spare);
    var body := Expand(render);
    if Stale(v, params) {
      var h := if v.list.None? then spare else v.list.value;
      var pre := if v.list.None? then [Alloc(spare)] else [];
      var inner := [Compile(h, params)] + body + [EndCompile];
      var k := |pre| + (if xform.Some? then 1 else 0);
      assert es == pre + Around(xform, inner);
      assert es[k] == Compile(h, params);
      forall i | 0 <= i < |es| ensures !es[i].Replay? {
        assert es[i] in pre || es[i] in Around(xform, inner);
        if es[i] in Around(xform, inner) && es[i] !in inner {
          assert es[i] == Push(xform.value) || es[i] == Pop;
        }
        if es[i] in inner && es[i] != Compile(h, params) && es[i] != EndCompile {
          assert es[i] in body;
        }
      }
    } else {
      assert es[if xform.Some? then 1 else 0].Replay?;
      forall i | 0 <= i < |es| ensures !es[i].Compile? {
        assert es[i] in Around(xform, [Replay(v.list.value)]);
      }
    }
  }

  /**
   * The recursion guard. While a list is being compiled, a draw runs the render
   * procedure directly: no list is allocated, opened or replayed, and no field
   * changes.
   */
  lemma NestedDrawIsDirect(v: CacheView, render: RenderProc, xform: Option<Xform>, params: Option<Config>, spare: Handle)
    requires v.making
    ensures DrawStep(v, params, spare) == v
    ensures DrawEvents(v, render, xform, params, spare) == Expand(render)
    ensures !Compiles(Expand(render)) && !Replays(Expand(render)) && !Allocates(Expand(render))
  {
    var es := Expand(render);
    forall i | 0 <= i < |es| ensures es[i].Direct? {
      assert es[i] in es;
    }
  }

  /**
   * A list is allocated once: only by a draw that is not re-entered and finds no
   * list, and a list that exists is kept by every draw.
   */
  lemma AllocatedOnce(v: CacheView, render: RenderProc, xform: Option<Xform>, params: Option<Config>, spare: Handle)
    ensures Allocates(DrawEvents(v, render, xform, params, spare)) <==> !v.making && v.list.None?
    ensures v.list.Some? ==> DrawStep(v, params, spare).list == v.list
  {
    var es := DrawEvents(v, render, xform, params, spare);
    if !v.making && v.list.None? {
      assert es[0] == Alloc(spare);
    } else {
      forall i | 0 <= i < |es| ensures !es[i].Alloc? {
        var body := Expand(render);
        assert es[i] in es;
        if v.making {
          assert es[i] in body;
        } else if Stale(v, params) {
          var inner := [Compile(v.list.value, params)] + body + [EndCompile];
          assert es == Around(xform, inner);
          assert es[i] in Around(xform, inner);
          if es[i] in inner && es[i] != Compile(v.list.value, params) && es[i] != EndCompile {
            assert es[i] in body;
          }
        }
      }
    }
  }

  /** After a draw that is not re-entered, drawing again with the same parameters replays. */
  lemma RepeatedDrawReplays(v: CacheView, params: Option<Config>, spare: Handle)
    requires !v.making
    ensures !Stale(DrawStep(v, params, spare), params)
  {
  }

  /** `markChanged` forces the next draw to recompile, whatever the parameters. */
  lemma MarkedForcesCompile(v: CacheView, params: Option<Config>)
    ensures Stale(v.(changed := true), params)
  {
  }

  /** `destroy` twice: the second call releases nothing and changes nothing; the next draw allocates afresh. */
  lemma DestroyIdempotent(v: CacheView, params: Option<Config>)
    ensures Destroyed(Destroyed(v)) == Destroyed(v)
    ensures DestroyEvents(Destroyed(v)) == []
    ensures Stale(Destroyed(v), params)
  {
  }

  // ---------------------------------------------------------------------------
  // Sequences of draws
  // ---------------------------------------------------------------------------

  /** What a caller does to a cache: draw it with some parameters, or mark it changed. */
  datatype CacheOp = DrawOp(params: Option<Config>) | MarkOp

  /** The number of compiles over a sequence of operations, starting from fields `v`. */
  function CompileCount(v: CacheView, ops: seq<CacheOp>, spare: Handle): nat
    decreases |ops|
  {
    if ops == [] then 0
    else match ops[0]
      case MarkOp => CompileCount(v.(changed := true), ops[1..], spare)
      case DrawOp(p) =>
        (if !v.making && Stale(v, p) then 1 else 0) +
        CompileCount(DrawStep(v, p, spare), ops[1..], if !v.making && v.list.None? then spare + 1 else spare)
  }

  /** A valid cache drawn again and again with its own parameters never compiles. */
  lemma {:induction false} SteadyDrawsReplay(v: CacheView, p: Option<Config>, ops: seq<CacheOp>, spare: Handle)
    requires !v.making && !Stale(v, p)
    requires forall i :: 0 <= i < |ops| ==> ops[i] == DrawOp(p)
    ensures CompileCount(v, ops, spare) == 0
    decreases |ops|
  {
    if ops != [] {
      assert ops[0] == DrawOp(p);
      SteadyDrawsReplay(v, p, ops[1..], spare);
    }
  }

  /**
   * Drawing with unchanged parameters and no `markChanged` in between compiles at
   * most once: exactly once if the cache was stale to begin with, never otherwise.
   */
  lemma {:induction false} SteadyDrawsCompileOnce(v: CacheView, p: Option<Config>, ops: seq<CacheOp>, spare: Handle)
    requires !v.making
    requires forall i :: 0 <= i < |ops| ==> ops[i] == DrawOp(p)
    ensures CompileCount(v, ops, spare) == if ops != [] && Stale(v, p) then 1 else 0
  {
    if ops == [] {
      return;
    }
    assert ops[0] == DrawOp(p);
    var next := if v.list.None? then spare + 1 else spare;
    RepeatedDrawReplays(v, p, spare);
    SteadyDrawsReplay(DrawStep(v, p, spare), p, ops[1..], next);
  }

  // ---------------------------------------------------------------------------
  // Replay is equivalent to drawing directly
  // ---------------------------------------------------------------------------

  /** One call as a sequence. */
  lemma RunOne(m: Machine, e: GLEvent)
    ensures Run(m, [e]) == Exec(m, e)
  {
    assert [e][1..] == [];
  }

  /** Compiling a body between `glNewList` and `glEndList` executes it and stores it in the list. */
  lemma {:induction false} RunCompile(m: Machine, h: Handle, params: Option<Config>, body: seq<GLEvent>)
    requires m.recording.None? && !m.error
    requires forall e :: e in body ==> Plain(e)
    ensures Run(m, [Compile(h, params)] + body + [EndCompile]) ==
      m.(out := m.out + body, lists := m.lists[h := body], buffer := [])
  {
    var m1 := Exec(m, Compile(h, params));
    RunOne(m, Compile(h, params));
    RunPlain(m1, body);
    var m2 := Run(m1, body);
    RunOne(m2, EndCompile);
    assert [] + body == body;
    RunAppend(m, [Compile(h, params)], body);
    RunAppend(m, [Compile(h, params)] + body, [EndCompile]);
  }

  /**
   * Replay is equivalent to drawing directly. Suppose the cache's list, when it
   * is valid for `params`, holds what `render` issues: this is what the source
   * asks of callers (lines 501-503) when it says the object's appearance is
   * defined deterministically by the parameters. Then any draw that is not
   * re-entered, compile or replay, executes exactly the calls a direct run of
   * `render` under `xform` would, raises no GL error, and leaves the cache's list
   * holding that rendering.
   */
  lemma {:induction false} DrawExecutesDirectly(m: Machine, v: CacheView, render: RenderProc, xform: Option<Xform>, params: Option<Config>, spare: Handle)
    requires m.recording.None? && !m.error && !v.making
    requires v.list.Some? && !Stale(v, params) ==> v.list.value in m.lists && m.lists[v.list.value] == Expand(render)
    ensures Run(m, DrawEvents(v, render, xform, params, spare)).out == m.out + Around(xform, Expand(render))
    ensures !Run(m, DrawEvents(v, render, xform, params, spare)).error
    ensures Run(m, DrawEvents(v, render, xform, params, spare)).recording.None?
    ensures DrawStep(v, params, spare).list.value in Run(m, DrawEvents(v, render, xform, params, spare)).lists
    ensures Run(m, DrawEvents(v, render, xform, params, spare)).lists[DrawStep(v, params, spare).list.value] == Expand(render)
  {
    if Stale(v, params) {
      StaleDrawExecutes(m, v, render, xform, params, spare);
    } else {
      ValidDrawExecutes(m, v, render, xform, params);
    }
  }

  /** The compile case of `DrawExecutesDirectly`: allocating if needed, then compiling under the transform. */
  lemma {:induction false} StaleDrawExecutes(m: Machine, v: CacheView, render: RenderProc, xform: Option<Xform>, params: Option<Config>, spare: Handle)
    requires m.recording.None? && !m.error && !v.making && Stale(v, params)
    ensures Run(m, DrawEvents(v, render, xform, params, spare)).out == m.out + Around(xform, Expand(render))
    ensures !Run(m, DrawEvents(v, render, xform, params, spare)).error
    ensures Run(m, DrawEvents(v, render, xform, params, spare)).recording.None?
    ensures DrawStep(v, params, spare).list.value in Run(m, DrawEvents(v, render, xform, params, spare)).lists
    ensures Run(m, DrawEvents(v, render, xform, params, spare)).lists[DrawStep(v, params, spare).list.value] == Expand(render)
  {
    var body := Expand(render);
    assert forall e :: e in body ==> Plain(e);
    var h := if v.list.None? then spare else v.list.value;
    var pre := if v.list.None? then [Alloc(spare)] else [];
    if v.list.None? {
      RunOne(m, Alloc(spare));
    }
    CompileAround(Run(m, pre), h, params, body, xform);
    RunAppend(m, pre, Around(xform, [Compile(h, params)] + body + [EndCompile]));
  }

  /** Compiling a body under a transform executes the body under it and stores the bare body in the list. */
  lemma CompileAround(m: Machine, h: Handle, params: Option<Config>, body: seq<GLEvent>, xform: Option<Xform>)
    requires m.recording.None? && !m.error
    requires forall e :: e in body ==> Plain(e)
    ensures Run(m, Around(xform, [Compile(h, params)] + body + [EndCompile])) ==
      m.(out := m.out + Around(xform, body), lists := m.lists[h := body], buffer := [])
  {
    var inner := [Compile(h, params)] + body + [EndCompile];
    if xform.Some? {
      var x := xform.value;
      var m1 := Exec(m, Push(x));
      RunOne(m, Push(x));
      RunCompile(m1, h, params, body);
      var m3 := Run(m1, inner);
      RunOne(m3, Pop);
      RunAppend(m, [Push(x)], inner);
      RunAppend(m, [Push(x)] + inner, [Pop]);
      assert m.out + [Push(x)] + body + [Pop] == m.out + Around(xform, body);
    } else {
      RunCompile(m, h, params, body);
    }
  }

  /** The replay case of `DrawExecutesDirectly`: the valid list is called under the transform. */
  lemma {:induction false} ValidDrawExecutes(m: Machine, v: CacheView, render: RenderProc, xform: Option<Xform>, params: Option<Config>)
    requires m.recording.None? && !m.error && !v.making && !Stale(v, params)
    requires v.list.value in m.lists && m.lists[v.list.value] == Expand(render)
    ensures Run(m, Around(xform, [Replay(v.list.value)])).out == m.out + Around(xform, Expand(render))
    ensures Run(m, Around(xform, [Replay(v.list.value)])) == m.(out := m.out + Around(xform, Expand(render)))
  {
    var body := Expand(render);
    var h := v.list.value;
    if xform.Some? {
      var x := xform.value;
      var m1 := Exec(m, Push(x));
      RunOne(m, Push(x));
      var m2 := Exec(m1, Replay(h));
      RunOne(m1, Replay(h));
      RunOne(m2, Pop);
      RunAppend(m, [Push(x)], [Replay(h)]);
      RunAppend(m, [Push(x)] + [Replay(h)], [Pop]);
      assert m.out + [Push(x)] + body + [Pop] == m.out + Around(xform, body);
    } else {
      RunOne(m, Replay(h));
    }
  }
}
