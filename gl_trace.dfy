/**
 * The OpenGL context as a trace of events.
 *
 * The visualizer talks to OpenGL only through display-list calls
 * (`glGenLists`, `glNewList(.., GL_COMPILE_AND_EXECUTE)`, `glEndList`,
 * `glCallList`, `glDeleteLists`), matrix push/pop around a transform, the
 * primitives a render procedure issues, the `drawGL` of items that draw
 * themselves, and text labels. A `GLContext` records these calls in order.
 * `Run` interprets a trace the way OpenGL executes it, which gives meaning
 * to replaying a display list.
 */
module GLTrace {
  import opened Wrappers
  import opened Items

  /** A display-list name as returned by `glGenLists`. */
  type Handle = nat

  /** A rigid transform (rotation, translation), as passed to `glMultMatrixf`. */
  datatype Xform = Xform(rotation: Config, translation: Config)

  /** The identity rotation, row by row. */
  const IdentityRotation: Config := [1.0, 0.0, 0.0, 0.0, 1.0, 0.0, 0.0, 0.0, 1.0]

  /** The figures the render procedures of `VisAppearance.draw` issue. */
  datatype Shape =
    | PointMarker      // a smooth point (points, Vector3 values, IK point targets)
    | DirectionLine    // a line along a direction
    | FrameWidget      // a coordinate frame and the curve to its parent
    | AxesWidget       // `gldraw.xform_widget` (rigid transforms, IK frame targets)
    | TransformCurve   // the curve between the two frames of a coordinates Transform
    | ContactMarker    // a contact point with its normal
    | AxisLine         // an IK axis constraint
    | IKConnector      // the curve from an IK goal's link to its target

  /**
   * A render procedure. `Prims(s)` issues the primitives of `s`. `Reenter(s,
   * inner)` issues those of `s` and then asks the same cache to draw `inner`,
   * the nested call that the recursion guard of `CachedGLObject.draw` is for.
   */
  datatype RenderProc = Prims(shape: Shape) | Reenter(shape: Shape, inner: RenderProc)

  datatype GLEvent =
    | Alloc(h: Handle)                            // glGenLists(1)
    | Free(h: Handle)                             // glDeleteLists(h, 1)
    | Push(xform: Xform)                          // glPushMatrix + glMultMatrixf
    | Pop                                         // glPopMatrix
    | Compile(h: Handle, params: Option<Config>)  // glNewList(h, GL_COMPILE_AND_EXECUTE)
    | EndCompile                                  // glEndList
    | Replay(h: Handle)                           // glCallList(h)
    | Direct(shape: Shape)                        // primitives issued by a render procedure
    | Native(id: nat, look: Option<Look>, config: Config)  // an item's own drawGL
    | Text(point: Config, texts: seq<Name>, color: Config) // one merged label

  /** Whether every name a trace allocates is below n. */
  ghost predicate NamesBelow(trace: seq<GLEvent>, n: Handle)
  {
    forall e :: e in trace && e.Alloc? ==> e.h < n
  }

  /** The graphics context: the calls made so far and the next unused display-list name. */
  class GLContext {
    var trace: seq<GLEvent>
    var nextHandle: Handle

    /** Names start at 1 (`glGenLists` never hands out 0), and every name handed out so far is below the next one. */
    ghost predicate Valid()
      reads this
    {
      nextHandle > 0 && NamesBelow(trace, nextHandle)
    }

    constructor ()
      ensures Valid() && trace == [] && nextHandle == 1
    {
      trace := [];
      nextHandle := 1;
    }

    /** `glGenLists(1)`: a name never handed out before. */
    method GenList() returns (h: Handle)
      requires Valid()
      modifies this
      ensures Valid()
      ensures h == old(nextHandle) && h > 0 && nextHandle == h + 1
      ensures Alloc(h) !in old(trace)
      ensures trace == old(trace) + [Alloc(h)]
    {
      h := nextHandle;
      nextHandle := nextHandle + 1;
      trace := trace + [Alloc(h)];
    }

    /** Any other call: appended to the trace. */
    method Emit(e: GLEvent)
      requires Valid() && !e.Alloc?
      modifies this`trace
      ensures Valid()
      ensures trace == old(trace) + [e]
    {
      trace := trace + [e];
    }
  }

  // ---------------------------------------------------------------------------
  // Executing a trace
  // ---------------------------------------------------------------------------

  /**
   * The state of OpenGL as far as display lists go: the contents of each list,
   * the list being recorded with what it has received so far, the primitive
   * calls actually executed, and whether an invalid call was made (a `glNewList`
   * while another list is open, or a `glEndList` with none open).
   */
  datatype Machine = Machine(
    lists: map<Handle, seq<GLEvent>>,
    recording: Option<Handle>,
    buffer: seq<GLEvent>,
    out: seq<GLEvent>,
    error: bool)

  /** A fresh context: no lists, nothing recorded, nothing executed. */
  const Fresh: Machine := Machine(map[], None, [], [], false)

  /** One call. In GL_COMPILE_AND_EXECUTE mode a call is both executed and recorded. */
  function Exec(m: Machine, e: GLEvent): Machine
  {
    match e
    case Alloc(h) => m.(lists := m.lists[h := []])
    case Free(h) => m.(lists := m.lists - {h})
    case Compile(h, _) =>
      if m.recording.Some? then m.(error := true) else m.(recording := Some(h), buffer := [])
    case EndCompile =>
      if m.recording.None? then m.(error := true)
      else m.(lists := m.lists[m.recording.value := m.buffer], recording := None, buffer := [])
    case Replay(h) =>
      var body := if h in m.lists then m.lists[h] else [];
      m.(out := m.out + body, buffer := if m.recording.Some? then m.buffer + body else m.buffer)
    case _ =>
      m.(out := m.out + [e], buffer := if m.recording.Some? then m.buffer + [e] else m.buffer)
  }

  /** A sequence of calls, in order. */
  function Run(m: Machine, es: seq<GLEvent>): Machine
    decreases |es|
  {
    if es == [] then m else Run(Exec(m, es[0]), es[1..])
  }

  /** Running two traces one after the other is running their concatenation. */
  lemma {:induction false} RunAppend(m: Machine, a: seq<GLEvent>, b: seq<GLEvent>)
    ensures Run(m, a + b) == Run(Run(m, a), b)
    decreases |a|
  {
    if a == [] {
      assert a + b == b;
    } else {
      assert (a + b)[0] == a[0];
      assert (a + b)[1..] == a[1..] + b;
      RunAppend(Exec(m, a[0]), a[1..], b);
    }
  }

  /** Whether a call is one a render procedure issues itself: primitives, or anything but list management. */
  predicate Plain(e: GLEvent)
  {
    e.Direct? || e.Push? || e.Pop? || e.Native? || e.Text?
  }

  /** A call that does not manage lists is executed and, while a list is open, recorded. */
  lemma ExecPlain(m: Machine, e: GLEvent)
    requires Plain(e)
    ensures Exec(m, e) == m.(out := m.out + [e], buffer := if m.recording.Some? then m.buffer + [e] else m.buffer)
  {
  }

  /**
   * Executing calls that do not manage lists appends them to the output and,
   * while a list is open, to that list; nothing else changes and no error arises.
   */
  lemma RunPlain(m: Machine, es: seq<GLEvent>)
    requires forall e :: e in es ==> Plain(e)
    ensures Run(m, es) == m.(out := m.out + es, buffer := if m.recording.Some? then m.buffer + es else m.buffer)
  {
    RunPlainFields(m, es);
  }

  /** RunPlain, field by field. */
  lemma {:induction false} RunPlainFields(m: Machine, es: seq<GLEvent>)
    requires forall e :: e in es ==> Plain(e)
    ensures Run(m, es).lists == m.lists && Run(m, es).recording == m.recording && Run(m, es).error == m.error
    ensures Run(m, es).out == m.out + es
    ensures Run(m, es).buffer == if m.recording.Some? then m.buffer + es else m.buffer
    decreases |es|
  {
    if es == [] {
      assert m.out + es == m.out && m.buffer + es == m.buffer;
    } else {
      var e, rest := es[0], es[1..];
      ExecPlain(m, e);
      var next := Exec(m, e);
      RunPlainFields(next, rest);
      assert [e] + rest == es;
      assert next.out + rest == m.out + es;
      if m.recording.Some? {
        assert next.buffer + rest == m.buffer + es;
      }
    }
  }
}
