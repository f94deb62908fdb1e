/**
 * Scene items as values.
 *
 * The visualizer draws heterogeneous Python objects and tells them apart with
 * `isinstance`, `hasattr` and `types.objectToTypes`. Here the kinds it
 * distinguishes form one closed datatype. This module also holds the pieces of
 * `VisAppearance` that are computations on values: the configuration adapter
 * used by animation (`config.getConfig` / `config.setConfig`), the swap that
 * `swapDrawConfig` performs on one appearance, the filter that resolves plain
 * values of ambiguous type, and the evaluation of animations.
 */
module Items {
  import opened Wrappers

  /** A configuration vector (robot joint values, a point's coordinates, ...). */
  type Config = seq<real>

  /** The state of an item's appearance object: an opaque base look and an optional colour. */
  datatype Look = Look(base: nat, color: Option<Config>)

  /**
   * The name of an appearance. Registry items and coordinate-group members are
   * named by strings; the contacts of a hold are named by their index.
   */
  datatype Name = Named(text: string) | Numbered(index: nat)

  /** Type names reported by `types.objectToTypes` for plain values. */
  datatype TypeName =
    | ConfigType
    | Vector3Type
    | RigidTransformType
    | IKGoalType
    | OtherType(typeName: string)

  /** What `types.objectToTypes` says: one type, or several candidates when the value is ambiguous. */
  datatype TypeInfo = Single(only: TypeName) | Candidates(options: seq<TypeName>)

  /** How an IK objective refers to its robot: no `robot` attribute, one holding None, or one holding a robot. */
  datatype RobotRef = NoRobotAttribute | RobotAttributeNone | RobotAttribute

  /**
   * The kinds of item that `VisAppearance.draw` distinguishes.
   * - Drawable: anything with its own `drawGL` (worlds, robots, rigid objects,
   *   geometries); `look` is its appearance object when it has one and
   *   `robotLinks` the link count of each robot when it is a world.
   * - Point, Direction, Frame, Transform, Group: the `coordinates` module's objects.
   * - ContactPoint and Hold: contact descriptions.
   * - IKObjective: an IK goal with its numbers of constrained position and rotation dimensions.
   * - Raw: a plain value (list, tuple) classified by `types.objectToTypes`.
   */
  datatype Item =
    | Drawable(id: nat, q: Config, look: Option<Look>, robotLinks: seq<nat>)
    | Point(q: Config)
    | Direction(q: Config)
    | Frame(q: Config)
    | Transform(q: Config)
    | Group(frames: map<string, Item>, points: map<string, Item>, directions: map<string, Item>, subgroups: map<string, Item>)
    | ContactPoint(x: Config, n: Config)
    | Hold(ikConstraint: Option<Item>, contacts: seq<Item>)
    | IKObjective(target: Config, posDims: nat, rotDims: nat, robot: RobotRef)
    | Raw(q: Config, types: TypeInfo)

  /** The link counts of the robots of the item registered as "world" (none when it is absent or not a world). */
  function RobotLinks(world: Option<Item>): seq<nat>
  {
    if world.Some? && world.value.Drawable? then world.value.robotLinks else []
  }

  /** `types.objectToTypes` for the items that reach the generic branch of `draw`. */
  function ObjectToTypes(item: Item): TypeInfo
  {
    match item
    case IKObjective(_, _, _, _) => Single(IKGoalType)
    case Raw(_, types) => types
    case _ => Candidates([])
  }

  /** The item with its appearance object forgotten: what drawing may not change. */
  function WithoutLook(item: Item): Item
  {
    if item.Drawable? then item.(look := None) else item
  }

  // ---------------------------------------------------------------------------
  // Configuration adapter (`config.getConfig`, `config.setConfig`)
  // ---------------------------------------------------------------------------

  /** `config.getConfig(item)`; None where the adapter raises. */
  function GetConfig(item: Item): Option<Config>
  {
    match item
    case Drawable(_, q, _, _) => Some(q)
    case Point(q) => Some(q)
    case Direction(q) => Some(q)
    case Frame(q) => Some(q)
    case Transform(q) => Some(q)
    case Raw(q, _) => Some(q)
    case _ => None
  }

  /**
   * `config.setConfig(item, q)`: the item posed at `q`, or None where the
   * adapter raises (no configuration, or a configuration of the wrong length).
   */
  function SetConfig(item: Item, q: Config): (r: Option<Item>)
    ensures r.Some? <==> GetConfig(item).Some? && |q| == |GetConfig(item).value|
    ensures r.Some? ==> GetConfig(r.value) == Some(q)
    ensures r.Some? ==> GetConfig(item).Some? && r.value == item.(q := q)
  {
    match GetConfig(item)
    case Some(current) => if |q| == |current| then Some(item.(q := q)) else None
    case None => None
  }

  /** Posing an item and then posing it back at its old configuration gives the item back. */
  lemma SetConfigRoundTrip(item: Item, q: Config)
    requires SetConfig(item, q).Some?
    ensures SetConfig(SetConfig(item, q).value, GetConfig(item).value) == Some(item)
  {
  }

  // ---------------------------------------------------------------------------
  // swapDrawConfig on one appearance (visualization.py:605-616)
  // ---------------------------------------------------------------------------

  /** Python truth of an optional configuration: present and non-empty. */
  predicate Truthy(c: Option<Config>)
  {
    c.Some? && |c.value| > 0
  }

  /**
   * The item and drawConfig of one appearance after `swapDrawConfig`. When the
   * drawConfig is truthy, the item is posed at it and the drawConfig receives the
   * item's old configuration; when the adapter raises, the exception is caught and
   * nothing changes.
   */
  function Swapped(item: Item, drawConfig: Option<Config>): (r: (Item, Option<Config>))
    // an accepted drawConfig is applied, and the old configuration is saved
    ensures Truthy(drawConfig) && SetConfig(item, drawConfig.value).Some? ==>
              GetConfig(r.0) == drawConfig && r.1 == GetConfig(item) &&
              r.0 == SetConfig(item, drawConfig.value).value
    // a falsy drawConfig, or one the adapter refuses, leaves both as they were
    ensures !(Truthy(drawConfig) && SetConfig(item, drawConfig.value).Some?) ==> r == (item, drawConfig)
  {
    if Truthy(drawConfig) then
      match (GetConfig(item), SetConfig(item, drawConfig.value))
      case (Some(current), Some(posed)) => (posed, Some(current))
      case _ => (item, drawConfig)
    else
      (item, drawConfig)
  }

  /** Swapping twice in a row restores both the item and its drawConfig. */
  lemma {:induction false} SwapTwice(item: Item, drawConfig: Option<Config>)
    ensures Swapped(Swapped(item, drawConfig).0, Swapped(item, drawConfig).1) == (item, drawConfig)
  {
    var (posed, saved) := Swapped(item, drawConfig);
    if posed != item {
      SetConfigRoundTrip(item, drawConfig.value);
    }
  }

  /**
   * The swap around a draw. Drawing may replace the posed item's appearance
   * (`drawn` equals `posed` up to its look). The second swap still restores the
   * configuration the item had before the first swap, and leaves in drawConfig
   * the pose that was drawn.
   */
  lemma {:induction false} SwapAroundDraw(item: Item, drawConfig: Option<Config>, drawn: Item)
    requires WithoutLook(drawn) == WithoutLook(Swapped(item, drawConfig).0)
    ensures WithoutLook(Swapped(drawn, Swapped(item, drawConfig).1).0) == WithoutLook(item)
    ensures Swapped(drawn, Swapped(item, drawConfig).1).1 == drawConfig
  {
    var (posed, saved) := Swapped(item, drawConfig);
    assert GetConfig(drawn) == GetConfig(posed) by {
      assert GetConfig(drawn) == GetConfig(WithoutLook(drawn));
      assert GetConfig(posed) == GetConfig(WithoutLook(posed));
    }
    if posed != item {
      SetConfigRoundTrip(item, drawConfig.value);
      assert SetConfig(drawn, saved.value).Some?;
    }
  }

  /** The swap does not look at an item's appearance: items equal up to their look swap alike. */
  lemma SwappedIgnoresLook(a: Item, b: Item, drawConfig: Option<Config>)
    requires WithoutLook(a) == WithoutLook(b)
    ensures WithoutLook(Swapped(a, drawConfig).0) == WithoutLook(Swapped(b, drawConfig).0)
    ensures Swapped(a, drawConfig).1 == Swapped(b, drawConfig).1
  {
    assert GetConfig(a) == GetConfig(WithoutLook(a)) && GetConfig(b) == GetConfig(WithoutLook(b));
  }

  // ---------------------------------------------------------------------------
  // Ambiguous types (visualization.py:770-788)
  // ---------------------------------------------------------------------------

  /**
   * Whether a candidate type can be drawn: a Config needs a world whose first
   * robot has one link per entry of the value; Vector3 and RigidTransform are
   * always drawable; any other candidate is dropped.
   */
  predicate Admissible(t: TypeName, q: Config, robots: seq<nat>)
  {
    match t
    case ConfigType => |robots| >= 1 && |q| == robots[0]
    case Vector3Type => true
    case RigidTransformType => true
    case _ => false
  }

  /** The candidate types kept by the loop of lines 773-781, in order. */
  function ValidTypes(ts: seq<TypeName>, q: Config, robots: seq<nat>): (r: seq<TypeName>)
    ensures |r| <= |ts|
    ensures forall t :: t in r <==> t in ts && Admissible(t, q, robots)
  {
    if ts == [] then []
    else
      var rest := ValidTypes(ts[1..], q, robots);
      assert forall t :: t in ts <==> t == ts[0] || t in ts[1..];
      if Admissible(ts[0], q, robots) then [ts[0]] + rest else rest
  }

  /** Exactly one position of the candidate list holds an admissible type. */
  ghost predicate UniqueAdmissible(ts: seq<TypeName>, q: Config, robots: seq<nat>)
  {
    exists i :: 0 <= i < |ts| && Admissible(ts[i], q, robots) &&
      forall j :: 0 <= j < |ts| && Admissible(ts[j], q, robots) ==> j == i
  }

  /** No position of the candidate list holds an admissible type. */
  ghost predicate NoneAdmissible(ts: seq<TypeName>, q: Config, robots: seq<nat>)
  {
    forall i :: 0 <= i < |ts| ==> !Admissible(ts[i], q, robots)
  }

  /** The filter keeps nothing exactly when no candidate is admissible. */
  lemma {:induction false} ValidTypesEmpty(ts: seq<TypeName>, q: Config, robots: seq<nat>)
    ensures ValidTypes(ts, q, robots) == [] <==> NoneAdmissible(ts, q, robots)
  {
    if ts != [] {
      ValidTypesEmpty(ts[1..], q, robots);
      if NoneAdmissible(ts[1..], q, robots) && !Admissible(ts[0], q, robots) {
        forall i | 0 <= i < |ts| ensures !Admissible(ts[i], q, robots) {
          if i > 0 { assert ts[i] == ts[1..][i - 1]; }
        }
      }
      if NoneAdmissible(ts, q, robots) {
        forall i | 0 <= i < |ts| - 1 ensures !Admissible(ts[1..][i], q, robots) {
          assert ts[1..][i] == ts[i + 1];
        }
      }
    }
  }

  /** The filter keeps exactly one type exactly when one position is admissible. */
  lemma {:induction false} ValidTypesSingle(ts: seq<TypeName>, q: Config, robots: seq<nat>)
    ensures |ValidTypes(ts, q, robots)| == 1 <==> UniqueAdmissible(ts, q, robots)
  {
    if ts != [] {
      ValidTypesSingle(ts[1..], q, robots);
      ValidTypesEmpty(ts[1..], q, robots);
      if Admissible(ts[0], q, robots) {
        SingleWithHead(ts, q, robots);
      } else {
        SingleWithoutHead(ts, q, robots);
      }
    }
  }

  /** The step of `ValidTypesSingle` when the first candidate is admissible. */
  lemma SingleWithHead(ts: seq<TypeName>, q: Config, robots: seq<nat>)
    requires ts != [] && Admissible(ts[0], q, robots)
    requires |ValidTypes(ts[1..], q, robots)| == 0 <==> NoneAdmissible(ts[1..], q, robots)
    ensures |ValidTypes(ts, q, robots)| == 1 <==> UniqueAdmissible(ts, q, robots)
  {
    var tail := ts[1..];
    if |ValidTypes(ts, q, robots)| == 1 {
      forall j | 0 < j < |ts| ensures !Admissible(ts[j], q, robots) {
        assert ts[j] == tail[j - 1];
      }
    }
    if UniqueAdmissible(ts, q, robots) {
      var i :| 0 <= i < |ts| && Admissible(ts[i], q, robots) &&
        forall j :: 0 <= j < |ts| && Admissible(ts[j], q, robots) ==> j == i;
      assert i == 0;
      forall k | 0 <= k < |tail| ensures !Admissible(tail[k], q, robots) {
        assert tail[k] == ts[k + 1];
      }
    }
  }

  /** The step of `ValidTypesSingle` when the first candidate is dropped. */
  lemma SingleWithoutHead(ts: seq<TypeName>, q: Config, robots: seq<nat>)
    requires ts != [] && !Admissible(ts[0], q, robots)
    requires |ValidTypes(ts[1..], q, robots)| == 1 <==> UniqueAdmissible(ts[1..], q, robots)
    ensures |ValidTypes(ts, q, robots)| == 1 <==> UniqueAdmissible(ts, q, robots)
  {
    UniqueFromTail(ts, q, robots);
    UniqueToTail(ts, q, robots);
  }

  /** A unique admissible position of the tail is one of the whole list when the head is dropped. */
  lemma UniqueFromTail(ts: seq<TypeName>, q: Config, robots: seq<nat>)
    requires ts != [] && !Admissible(ts[0], q, robots)
    ensures UniqueAdmissible(ts[1..], q, robots) ==> UniqueAdmissible(ts, q, robots)
  {
    var tail := ts[1..];
    if UniqueAdmissible(tail, q, robots) {
      var i :| 0 <= i < |tail| && Admissible(tail[i], q, robots) &&
        forall j :: 0 <= j < |tail| && Admissible(tail[j], q, robots) ==> j == i;
      assert ts[i + 1] == tail[i];
      forall j | 0 <= j < |ts| && Admissible(ts[j], q, robots) ensures j == i + 1 {
        assert j > 0;
        assert tail[j - 1] == ts[j];
      }
    }
  }

  /** A unique admissible position of the whole list lies in the tail when the head is dropped. */
  lemma UniqueToTail(ts: seq<TypeName>, q: Config, robots: seq<nat>)
    requires ts != [] && !Admissible(ts[0], q, robots)
    ensures UniqueAdmissible(ts, q, robots) ==> UniqueAdmissible(ts[1..], q, robots)
  {
    var tail := ts[1..];
    if UniqueAdmissible(ts, q, robots) {
      var i :| 0 <= i < |ts| && Admissible(ts[i], q, robots) &&
        forall j :: 0 <= j < |ts| && Admissible(ts[j], q, robots) ==> j == i;
      assert i > 0;
      assert tail[i - 1] == ts[i];
      forall j | 0 <= j < |tail| && Admissible(tail[j], q, robots) ensures j == i - 1 {
        assert ts[j + 1] == tail[j];
      }
    }
  }

  /**
   * The type under which a value is drawn (lines 770-788), or None when drawing is
   * skipped. A single reported type is used as it is. Among candidates, drawing
   * goes ahead only when exactly one position holds an admissible type; zero or
   * several admissible candidates skip the item.
   */
  function Resolve(info: TypeInfo, q: Config, robots: seq<nat>): (r: Option<TypeName>)
    ensures info.Single? ==> r == Some(info.only)
    ensures info.Candidates? ==> (r.Some? <==> UniqueAdmissible(info.options, q, robots))
    ensures info.Candidates? && r.Some? ==> r.value in info.options && Admissible(r.value, q, robots)
  {
    match info
    case Single(t) => Some(t)
    case Candidates(ts) =>
      var valid := ValidTypes(ts, q, robots);
      ValidTypesSingle(ts, q, robots);
      if |valid| > 1 then None
      else if |valid| == 0 then None
      else Some(valid[0])
  }

  // ---------------------------------------------------------------------------
  // Animations
  // ---------------------------------------------------------------------------

  /**
   * A trajectory object. `eval` is its `eval(u, 'loop')`: the pose at time u,
   * wrapped into the trajectory's duration.
   */
  class Trajectory {
    const eval: real -> Config

    constructor (eval: real -> Config)
      ensures this.eval == eval
    {
      this.eval := eval;
    }
  }

  /** What `animate` is given: a trajectory, or a list of milestones it wraps into one. */
  datatype Animation = Path(traj: Trajectory) | Milestones(poses: seq<Config>)

  /** `vectorops.interpolate(a, b, s)`, which pairs entries as `zip` does. */
  function Lerp(a: Config, b: Config, s: real): (r: Config)
    ensures |r| == if |a| <= |b| then |a| else |b|
    ensures forall j :: 0 <= j < |r| ==> r[j] == a[j] + s * (b[j] - a[j])
  {
    if |a| == 0 || |b| == 0 then []
    else
      var rest := Lerp(a[1..], b[1..], s);
      var r := [a[0] + s * (b[0] - a[0])] + rest;
      assert forall j :: 1 <= j < |r| ==> r[j] == rest[j - 1];
      r
  }

  /**
   * `Trajectory(range(n), poses).eval(u, 'loop')` for n milestones (line 1054):
   * milestone i at time i, linear in between, repeating with period n-1.
   */
  function MilestonePose(poses: seq<Config>, u: real): Config
  {
    if |poses| == 0 then []
    else if |poses| == 1 then poses[0]
    else
      var duration := (|poses| - 1) as real;
      var w := u - duration * (u / duration).Floor as real;
      var k := w.Floor;
      var seg := if k < 0 then 0 else if k > |poses| - 2 then |poses| - 2 else k;
      Lerp(poses[seg], poses[seg + 1], w - seg as real)
  }

  /** The evaluator of the trajectory `animate` makes from a list of milestones. */
  function Looped(poses: seq<Config>): real -> Config
  {
    u => MilestonePose(poses, u)
  }

  /** Interpolating at 0 gives the first point. */
  lemma LerpAtZero(a: Config, b: Config)
    requires |a| <= |b|
    ensures Lerp(a, b, 0.0) == a
  {
    var r := Lerp(a, b, 0.0);
    assert |r| == |a|;
    forall j | 0 <= j < |a| ensures r[j] == a[j] {
      assert r[j] == a[j] + 0.0 * (b[j] - a[j]);
    }
  }

  /** A time below the duration lies in the first period. */
  lemma FirstPeriod(u: real, d: real)
    requires 0.0 <= u < d
    ensures (u / d).Floor == 0
  {
    var x := u / d;
    assert x * d == u;
  }

  /** Milestones are placed one time unit apart: at time i < n-1 the animation shows milestone i. */
  lemma MilestoneAtKnot(poses: seq<Config>, i: nat)
    requires i + 1 < |poses| && |poses[i]| <= |poses[i + 1]|
    ensures MilestonePose(poses, i as real) == poses[i]
  {
    var duration := (|poses| - 1) as real;
    var u := i as real;
    FirstPeriod(u, duration);
    var w := u - duration * (u / duration).Floor as real;
    assert w == u;
    LerpAtZero(poses[i], poses[i + 1]);
  }

  /** The drawConfig that `update(t)` computes (lines 596-601): none without an animation. */
  function Pose(animation: Option<Trajectory>, speed: real, start: real, t: real): Option<Config>
  {
    match animation
    case None => None
    case Some(traj) => Some(traj.eval(speed * (t - start)))
  }
}
