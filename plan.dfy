/**
 * What `VisAppearance.draw` does with an item that has no sub-appearances
 * (visualization.py:654-952), at the level of control: whether the item draws
 * itself, is drawn directly under a transform, or is drawn through some of the
 * appearance's display caches, which slots are used with which render procedure
 * and parameters, how many slots the cache list must have, and where the name
 * label goes.
 *
 * The geometry the source computes for transforms, parameters and label
 * positions (`se3`, `so3`, `vectorops`, `spline`) is left out. A transform
 * is modelled as a placement at the item's own coordinates, and parameters
 * as the item's own configuration. Which slots are drawn, and whether a
 * slot is drawn with parameters or without, follow the source.
 */
module DrawPlans {
  import opened Wrappers
  import opened Items
  import opened GLTrace
  import opened Cache

  /** One call `displayCache[slot].draw(render, transform, parameters)`. */
  datatype CacheUse = CacheUse(slot: nat, render: RenderProc, xform: Option<Xform>, params: Option<Config>)

  /** How a leaf item is drawn. */
  datatype Plan =
    | NoDraw                                                          // nothing is drawn
    | NativeDraw(event: GLEvent)                                      // the item's own drawGL
    | DirectDraw(xform: Xform, shape: Shape, textAt: Option<Config>)   // drawn under a transform without a cache
    | CacheDraw(slots: nat, uses: seq<CacheUse>, textAt: Option<Config>) // through the caches, the list grown to `slots`

  /** A placement at a point (`[so3.identity(), p]`). */
  function At(p: Config): Xform
  {
    Xform(IdentityRotation, p)
  }

  /** `vectorops.add(p, d)`, which pairs entries as `zip` does. */
  function Shift(p: Config, d: Config): (r: Config)
    ensures |r| == if |p| <= |d| then |p| else |d|
    ensures forall i :: 0 <= i < |r| ==> r[i] == p[i] + d[i]
  {
    if |p| == 0 || |d| == 0 then []
    else
      var rest := Shift(p[1..], d[1..]);
      var r := [p[0] + d[0]] + rest;
      assert forall i :: 1 <= i < |r| ==> r[i] == rest[i - 1];
      r
  }

  /** The offset of a point's label (`[0,0,-0.05]`). */
  const Below: Config := [0.0, 0.0, -0.05]

  /** The offset of a frame's label (`[-0.05]*3`). */
  const Diagonal: Config := [-0.05, -0.05, -0.05]

  /** The colour of every name label (`[0,0,0]`). */
  const Black: Config := [0.0, 0.0, 0.0]

  /**
   * Whether an IK goal has a robot to be drawn against (lines 837-846): its own
   * `robot` attribute when it has one, otherwise the first robot of the world.
   */
  predicate HasRobot(r: RobotRef, robots: seq<nat>)
  {
    r == RobotAttribute || (r == NoRobotAttribute && |robots| >= 1)
  }

  /**
   * The end markers of an IK goal (lines 847-942): two frames for a full
   * rotation constraint, two points for a point constraint, two axis lines,
   * drawn with parameters, for a hinge or axis constraint; none for a goal
   * without position and rotation dimensions.
   */
  function IKEnds(target: Config, posDims: nat, rotDims: nat): seq<CacheUse>
  {
    var axes := [CacheUse(0, Prims(AxesWidget), Some(At(target)), None), CacheUse(1, Prims(AxesWidget), Some(At(target)), None)];
    var points := [CacheUse(0, Prims(PointMarker), Some(At(target)), None), CacheUse(1, Prims(PointMarker), Some(At(target)), None)];
    var lines := [CacheUse(0, Prims(AxisLine), Some(At(target)), Some(target)), CacheUse(1, Prims(AxisLine), Some(At(target)), Some(target))];
    if posDims != 0 then
      (if rotDims == 3 then axes else if rotDims == 0 then points else lines)
    else
      (if rotDims == 3 then axes else if rotDims > 0 then lines else [])
  }

  /**
   * An IK goal (lines 835-944). Without a robot nothing is drawn. With one, the
   * cache list is first grown to three slots; a goal with position dimensions
   * draws its two ends and the connecting curve in slot 2, the curve drawn with
   * parameters.
   */
  function IKPlan(target: Config, posDims: nat, rotDims: nat, hasRobot: bool): (p: Plan)
    ensures WellFormed(p)
    ensures p == NoDraw <==> !hasRobot
    ensures hasRobot ==> p.CacheDraw? && p.slots == 3 && LabelAt(p) == Some(Shift(target, Diagonal))
  {
    if !hasRobot then NoDraw
    else if posDims != 0 then
      CacheDraw(3, IKEnds(target, posDims, rotDims) + [CacheUse(2, Prims(IKConnector), None, Some(target))], Some(Shift(target, Diagonal)))
    else
      CacheDraw(3, IKEnds(target, posDims, rotDims), Some(Shift(target, Diagonal)))
  }

  /**
   * The plan for an item without sub-appearances (lines 654-950). `robots` are
   * the link counts of the world's robots and `robotLook` the appearance a
   * configuration is drawn with (the custom appearance when the default one is
   * not used).
   */
  function PlanFor(item: Item, robots: seq<nat>, robotLook: Option<Look>): (p: Plan)
    ensures WellFormed(p)
    ensures p.NativeDraw? <==> item.Drawable? || (item.Raw? && Resolve(item.types, item.q, robots) == Some(ConfigType) && |robots| >= 1)
    ensures p.DirectDraw? <==> item.Frame?
    ensures item.Group? || item.Hold? ==> p == NoDraw
    ensures item.ContactPoint? ==> p.CacheDraw? && LabelAt(p).None?
  {
    match item
    case Drawable(id, q, look, _) => NativeDraw(Native(id, look, q))
    case Point(q) => CacheDraw(1, [CacheUse(0, Prims(PointMarker), Some(At(q)), None)], Some(Shift(q, Below)))
    case Direction(q) => CacheDraw(1, [CacheUse(0, Prims(DirectionLine), Some(At(q)), Some(q))], Some(Shift(q, Below)))
    case Frame(q) => DirectDraw(At(q), FrameWidget, Some(Shift(q, Diagonal)))
    case Transform(q) => CacheDraw(1, [CacheUse(0, Prims(TransformCurve), None, Some(q))], Some(q))
    case Group(_, _, _, _) => NoDraw
    case ContactPoint(x, _) => CacheDraw(1, [CacheUse(0, Prims(ContactMarker), Some(At(x)), None)], None)
    case Hold(_, _) => NoDraw
    case IKObjective(target, posDims, rotDims, robot) => IKPlan(target, posDims, rotDims, HasRobot(robot, robots))
    case Raw(q, types) =>
      match Resolve(types, q, robots)
      case None => NoDraw
      case Some(ConfigType) => if |robots| >= 1 then NativeDraw(Native(0, robotLook, q)) else NoDraw
      case Some(Vector3Type) => CacheDraw(1, [CacheUse(0, Prims(PointMarker), Some(At(q)), None)], Some(Shift(q, Below)))
      case Some(RigidTransformType) => CacheDraw(1, [CacheUse(0, Prims(AxesWidget), Some(At(q)), None)], Some(Shift(q, Diagonal)))
      case Some(_) => NoDraw
  }

  /**
   * The cache slots a plan draws: each below the list length it asks for,
   * each at most once, and at most three slots. An item's own drawing is a
   * `drawGL` call.
   */
  predicate WellFormed(p: Plan)
  {
    && (p.NativeDraw? ==> p.event.Native?)
    && (p.CacheDraw? ==>
      && 1 <= p.slots <= 3
      && (forall i :: 0 <= i < |p.uses| ==> p.uses[i].slot < p.slots)
      && (forall i, j :: 0 <= i < j < |p.uses| ==> p.uses[i].slot != p.uses[j].slot))
  }

  /** The label position of a plan, if it has one. */
  function LabelAt(p: Plan): Option<Config>
  {
    if p.DirectDraw? || p.CacheDraw? then p.textAt else None
  }

  // ---------------------------------------------------------------------------
  // Properties of the plans
  // ---------------------------------------------------------------------------

  /**
   * The cache list is grown to three slots (lines 839-840) exactly for an IK
   * goal that has a robot; every other cached plan needs one slot.
   */
  lemma IKGrowth(item: Item, robots: seq<nat>, robotLook: Option<Look>)
    ensures PlanFor(item, robots, robotLook).CacheDraw? && PlanFor(item, robots, robotLook).slots == 3
      <==> item.IKObjective? && HasRobot(item.robot, robots)
    ensures PlanFor(item, robots, robotLook).CacheDraw? && !item.IKObjective? ==> PlanFor(item, robots, robotLook).slots == 1
  {
  }

  /**
   * The slots an IK goal with a robot draws: 0 and 1 for its ends unless it
   * constrains nothing, and 2 for the connecting curve exactly when it has
   * position dimensions.
   */
  lemma IKSlots(target: Config, posDims: nat, rotDims: nat)
    ensures var p := IKPlan(target, posDims, rotDims, true);
      p.CacheDraw? && (Used(p.uses, 2) <==> posDims != 0)
    ensures var p := IKPlan(target, posDims, rotDims, true);
      |p.uses| == 0 <==> posDims == 0 && rotDims == 0
  {
    var p := IKPlan(target, posDims, rotDims, true);
    if posDims != 0 {
      assert p.uses[|p.uses| - 1].slot == 2;
    }
  }

  /**
   * The rule for plain values of ambiguous type (lines 770-788): when no
   * candidate or more than one candidate type is admissible nothing is drawn;
   * when exactly one is, the value is drawn as that type.
   */
  lemma AmbiguousSkip(q: Config, ts: seq<TypeName>, robots: seq<nat>, robotLook: Option<Look>)
    ensures !UniqueAdmissible(ts, q, robots) ==> PlanFor(Raw(q, Candidates(ts)), robots, robotLook) == NoDraw
    ensures UniqueAdmissible(ts, q, robots) ==>
      var t := Resolve(Candidates(ts), q, robots).value;
      t in ts && Admissible(t, q, robots) && PlanFor(Raw(q, Candidates(ts)), robots, robotLook) == PlanFor(Raw(q, Single(t)), robots, robotLook)
  {
  }

  // ---------------------------------------------------------------------------
  // Drawing through the caches
  // ---------------------------------------------------------------------------

  /** The states of the caches, the calls made and the next unused list name, after some cache draws. */
  datatype Pass = Pass(views: seq<CacheView>, events: seq<GLEvent>, next: Handle)

  /** The cache list grown with new caches to at least `n` slots (lines 839-840); existing caches are kept. */
  function Grown(vs: seq<CacheView>, n: nat): (r: seq<CacheView>)
    ensures |r| == if |vs| >= n then |vs| else n
    ensures r[..|vs|] == vs && forall i :: |vs| <= i < |r| ==> r[i] == Initial
    decreases n - |vs|
  {
    if |vs| >= n then vs else Grown(vs + [Initial], n)
  }

  /** The cache draws of a plan, in order, each as `CachedGLObject.draw` makes it. */
  function DrawUses(vs: seq<CacheView>, uses: seq<CacheUse>, next: Handle): (r: Pass)
    requires forall i :: 0 <= i < |uses| ==> uses[i].slot < |vs|
    ensures |r.views| == |vs|
    decreases |uses|
  {
    if uses == [] then Pass(vs, [], next)
    else
      var p := DrawUses(vs, uses[..|uses| - 1], next);
      var u := uses[|uses| - 1];
      var v := p.views[u.slot];
      Pass(p.views[u.slot := DrawStep(v, u.params, p.next)],
           p.events + DrawEvents(v, u.render, u.xform, u.params, p.next),
           if !v.making && v.list.None? then p.next + 1 else p.next)
  }

  /** One more use draws on the state the earlier uses left. */
  lemma DrawUsesStep(vs: seq<CacheView>, uses: seq<CacheUse>, i: nat, next: Handle)
    requires i < |uses| && forall j :: 0 <= j < |uses| ==> uses[j].slot < |vs|
    ensures var p := DrawUses(vs, uses[..i], next);
      var u := uses[i];
      var v := p.views[u.slot];
      DrawUses(vs, uses[..i + 1], next) ==
        Pass(p.views[u.slot := DrawStep(v, u.params, p.next)],
             p.events + DrawEvents(v, u.render, u.xform, u.params, p.next),
             if !v.making && v.list.None? then p.next + 1 else p.next)
  {
    assert uses[..i + 1][..i] == uses[..i];
  }

  /** What carrying out a plan does to the caches and the GL context. */
  function Outcome(p: Plan, vs: seq<CacheView>, next: Handle): (r: Pass)
    requires WellFormed(p)
  {
    match p
    case NoDraw => Pass(vs, [], next)
    case NativeDraw(e) => Pass(vs, [e], next)
    case DirectDraw(x, s, _) => Pass(vs, Around(Some(x), [Direct(s)]), next)
    case CacheDraw(n, uses, _) => DrawUses(Grown(vs, n), uses, next)
  }

  /** A cache state after a draw with `params` that was not re-entered: holding a list valid for `params`. */
  predicate Redrawn(before: CacheView, after: CacheView, params: Option<Config>)
  {
    && after.list.Some? && !after.making && !Stale(after, params)
    && (before.list.Some? ==> after.list == before.list)
  }

  /** The slot is drawn by one of the uses. */
  predicate Used(uses: seq<CacheUse>, s: nat)
  {
    exists i :: 0 <= i < |uses| && uses[i].slot == s
  }

  /**
   * The slots a plan touches. When no cache is compiling and the uses draw
   * distinct slots, every slot drawn ends up holding a list valid for the
   * parameters it was drawn with, keeping its list if it had one, and every
   * other slot is left as it was. No slot is left compiling, and list names
   * are only ever taken from the unused ones.
   */
  lemma {:induction false} DrawUsesSlots(vs: seq<CacheView>, uses: seq<CacheUse>, next: Handle)
    requires forall i :: 0 <= i < |uses| ==> uses[i].slot < |vs|
    requires forall i, j :: 0 <= i < j < |uses| ==> uses[i].slot != uses[j].slot
    requires forall s :: 0 <= s < |vs| ==> !vs[s].making
    ensures forall i :: 0 <= i < |uses| ==> Redrawn(vs[uses[i].slot], DrawUses(vs, uses, next).views[uses[i].slot], uses[i].params)
    ensures forall s: nat :: s < |vs| && !Used(uses, s) ==> DrawUses(vs, uses, next).views[s] == vs[s]
    ensures forall s :: 0 <= s < |vs| ==> !DrawUses(vs, uses, next).views[s].making
    ensures DrawUses(vs, uses, next).next >= next
    decreases |uses|
  {
    if uses != [] {
      var init := uses[..|uses| - 1];
      var u := uses[|uses| - 1];
      DrawUsesSlots(vs, init, next);
      var p := DrawUses(vs, init, next);
      assert !Used(init, u.slot);
      assert p.views[u.slot] == vs[u.slot];
      RepeatedDrawReplays(vs[u.slot], u.params, p.next);
      forall s: nat | s < |vs| && !Used(uses, s) ensures DrawUses(vs, uses, next).views[s] == vs[s] {
        assert forall i :: 0 <= i < |init| ==> init[i] == uses[i];
        assert s != u.slot;
      }
      forall i | 0 <= i < |uses| ensures Redrawn(vs[uses[i].slot], DrawUses(vs, uses, next).views[uses[i].slot], uses[i].params) {
        if i < |uses| - 1 {
          assert uses[i] == init[i];
          assert uses[i].slot != u.slot;
        }
      }
    }
  }

  /**
   * A repeated frame replays. When every slot a plan draws already holds a list
   * valid for its parameters and no cache is compiling, drawing the plan
   * compiles nothing, allocates nothing and changes no cache.
   */
  lemma {:induction false} DrawUsesSteady(vs: seq<CacheView>, uses: seq<CacheUse>, next: Handle)
    requires forall i :: 0 <= i < |uses| ==> uses[i].slot < |vs|
    requires forall i :: 0 <= i < |uses| ==> !vs[uses[i].slot].making && !Stale(vs[uses[i].slot], uses[i].params)
    ensures DrawUses(vs, uses, next).views == vs
    ensures !Compiles(DrawUses(vs, uses, next).events) && !Allocates(DrawUses(vs, uses, next).events)
    ensures DrawUses(vs, uses, next).next == next
    decreases |uses|
  {
    if uses != [] {
      var init := uses[..|uses| - 1];
      var u := uses[|uses| - 1];
      assert forall i :: 0 <= i < |init| ==> init[i] == uses[i];
      DrawUsesSteady(vs, init, next);
      var p := DrawUses(vs, init, next);
      var es := DrawEvents(vs[u.slot], u.render, u.xform, u.params, next);
      RecompileRule(vs[u.slot], u.render, u.xform, u.params, next);
      AllocatedOnce(vs[u.slot], u.render, u.xform, u.params, next);
      var all := p.events + es;
      forall i | 0 <= i < |all| ensures !all[i].Compile? && !all[i].Alloc? {
        if i >= |p.events| {
          assert all[i] == es[i - |p.events|];
        } else {
          assert all[i] == p.events[i];
        }
      }
    }
  }
}
