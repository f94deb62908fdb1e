/**
 * `VisAppearance` (visualization.py:535-956) as a value.
 *
 * An appearance is a `datatype` holding the fields of the source. Its display
 * caches and its attribute dictionary stay heap objects, referenced from the
 * value, so that the sharing of the source is kept: a sub-appearance points to
 * its parent's `AttributeMap`, and the caches are the `CachedGLObject`s that
 * drawing updates in place. The sub-appearances are held by value in a map.
 *
 * The operations that only compute new field values, `update(t)` and
 * `swapDrawConfig`, are functions here. The ones that touch the caches are
 * methods of the `Visualization` module.
 */
module Appearances {
  import opened Wrappers
  import opened Items
  import opened GLTrace
  import opened Cache
  import opened AppearanceTree

  // ---------------------------------------------------------------------------
  // Attributes
  // ---------------------------------------------------------------------------

  /** The values stored in an attribute dictionary: flags, sizes, colours and texts. */
  datatype AttrValue = Flag(b: bool) | Number(x: real) | Vector(v: Config) | Text(s: string)

  /** Python truth of an attribute value. */
  predicate Truth(v: AttrValue)
  {
    match v
    case Flag(b) => b
    case Number(x) => x != 0.0
    case Vector(v) => |v| > 0
    case Text(s) => |s| > 0
  }

  /** `attributes.get("text_hidden", False)`: whether name labels are suppressed. */
  predicate TextHidden(entries: map<string, AttrValue>)
  {
    "text_hidden" in entries && Truth(entries["text_hidden"])
  }

  /** The attribute dictionary; one object can be shared by several appearances. */
  class AttributeMap {
    var entries: map<string, AttrValue>

    constructor ()
      ensures entries == map[]
    {
      entries := map[];
    }
  }

  // ---------------------------------------------------------------------------
  // Appearances
  // ---------------------------------------------------------------------------

  /**
   * The fields of a `VisAppearance`, with the three that set how it is shown
   * and the three of its animation each kept together. `oldAppearance` is the
   * look saved by the first draw that overrides the item's look (None while
   * the attribute does not exist). The `widget` back-reference is not a field:
   * drawing is given the plugin that collects the labels.
   */
  datatype Appearance = Appearance(
    name: Option<Name>,
    item: Item,
    style: Style,
    clock: Clock,
    attributes: AttributeMap,
    subAppearances: map<SubKey, Appearance>,
    displayCache: seq<CachedGLObject>,
    drawConfig: Option<Config>,
    oldAppearance: Option<Look>)

  /** The display caches of an appearance's own list. */
  ghost function OwnCaches(a: Appearance): set<CachedGLObject>
  {
    set c | c in a.displayCache
  }

  /** Every display cache of an appearance and of its sub-appearances. */
  ghost function CachesOf(a: Appearance): set<CachedGLObject>
    decreases a
  {
    OwnCaches(a) +
    (set k, c | k in a.subAppearances && c in CachesOf(a.subAppearances[k]) :: c)
  }

  /** Every display cache of every appearance of a map. */
  ghost function CachesIn<K>(m: map<K, Appearance>): set<CachedGLObject>
  {
    set k, c | k in m && c in CachesOf(m[k]) :: c
  }

  /** Whether no cache appears twice in a list. */
  ghost predicate Unrepeated(cs: seq<CachedGLObject>)
  {
    forall i, j :: 0 <= i < j < |cs| ==> cs[i] != cs[j]
  }

  /** Trees under different keys share no cache. */
  ghost predicate Disjoint<K>(m: map<K, Appearance>)
  {
    forall k, j :: k in m && j in m && k != j ==> CachesOf(m[k]) !! CachesOf(m[j])
  }

  /**
   * No cache occurs twice in the tree: each appearance's own list has no
   * repeats and shares no cache with its sub-appearances, which share none
   * with each other.
   */
  ghost predicate Distinct(a: Appearance)
    decreases a
  {
    && Unrepeated(a.displayCache)
    && (forall k :: k in a.subAppearances ==>
          Distinct(a.subAppearances[k]) && OwnCaches(a) !! CachesOf(a.subAppearances[k]))
    && Disjoint(a.subAppearances)
  }

  /** The states of a list of caches. */
  ghost function Views(cs: seq<CachedGLObject>): (r: seq<CacheView>)
    reads cs
    ensures |r| == |cs| && forall i :: 0 <= i < |cs| ==> r[i] == cs[i].View()
  {
    seq(|cs|, i requires 0 <= i < |cs| reads cs => cs[i].View())
  }

  // ---------------------------------------------------------------------------
  // update(t) and swapDrawConfig (lines 594-618)
  // ---------------------------------------------------------------------------

  /** `update(t)`: every appearance of the tree takes the pose of its animation at time t, or none. */
  function Update(a: Appearance, t: real): Appearance
    decreases a
  {
    a.(drawConfig := Pose(a.clock.animation, a.clock.animationSpeed, a.clock.animationStartTime, t),
       subAppearances := map k | k in a.subAppearances :: Update(a.subAppearances[k], t))
  }

  /** `swapDrawConfig`: every appearance of the tree swaps its item's configuration with its drawConfig. */
  function SwapConfigs(a: Appearance): Appearance
    decreases a
  {
    var swapped := Swapped(a.item, a.drawConfig);
    a.(item := swapped.0, drawConfig := swapped.1,
       subAppearances := map k | k in a.subAppearances :: SwapConfigs(a.subAppearances[k]))
  }

  /** Whether every appearance of the tree holds the pose of its animation at time t. */
  predicate AllPosed(a: Appearance, t: real)
    decreases a
  {
    && a.drawConfig == Pose(a.clock.animation, a.clock.animationSpeed, a.clock.animationStartTime, t)
    && forall k :: k in a.subAppearances ==> AllPosed(a.subAppearances[k], t)
  }

  /**
   * Whether two trees agree everywhere except in the items' looks, the cache
   * lists and the saved looks: what drawing may change.
   */
  ghost predicate AgreeUpToDrawing(a: Appearance, b: Appearance)
    decreases a
  {
    && a.name == b.name && a.style == b.style && a.clock == b.clock && a.attributes == b.attributes
    && WithoutLook(a.item) == WithoutLook(b.item) && a.drawConfig == b.drawConfig
    && a.subAppearances.Keys == b.subAppearances.Keys
    && forall k :: k in a.subAppearances ==> AgreeUpToDrawing(a.subAppearances[k], b.subAppearances[k])
  }

  /** Whether two trees agree everywhere except in the drawConfigs: what `update` may change. */
  ghost predicate AgreeUpToPoses(a: Appearance, b: Appearance)
    decreases a
  {
    && a.name == b.name && a.item == b.item && a.style == b.style && a.clock == b.clock && a.attributes == b.attributes
    && a.displayCache == b.displayCache && a.oldAppearance == b.oldAppearance
    && a.subAppearances.Keys == b.subAppearances.Keys
    && forall k :: k in a.subAppearances ==> AgreeUpToPoses(a.subAppearances[k], b.subAppearances[k])
  }

  /** Two trees of the same shape holding the same cache lists at every position. */
  predicate SameCaches(a: Appearance, b: Appearance)
    decreases a
  {
    && a.displayCache == b.displayCache
    && a.subAppearances.Keys == b.subAppearances.Keys
    && forall k :: k in a.subAppearances ==> SameCaches(a.subAppearances[k], b.subAppearances[k])
  }

  // ---------------------------------------------------------------------------
  // Properties
  // ---------------------------------------------------------------------------

  /**
   * `update(t)` gives every appearance of the tree the pose of its animation
   * at t (none without an animation) and changes nothing else.
   */
  lemma {:induction false} UpdatePoses(a: Appearance, t: real)
    ensures AllPosed(Update(a, t), t)
    ensures AgreeUpToPoses(Update(a, t), a)
    decreases a
  {
    var u := Update(a, t);
    forall k | k in u.subAppearances
      ensures AllPosed(u.subAppearances[k], t) && AgreeUpToPoses(u.subAppearances[k], a.subAppearances[k])
    {
      UpdatePoses(a.subAppearances[k], t);
    }
  }

  /** Calling `swapDrawConfig` twice in a row restores every item and every drawConfig of the tree. */
  lemma {:induction false} SwapConfigsTwice(a: Appearance)
    ensures SwapConfigs(SwapConfigs(a)) == a
    decreases a
  {
    var s := SwapConfigs(a);
    var t := SwapConfigs(s);
    SwapTwice(a.item, a.drawConfig);
    assert t.item == a.item && t.drawConfig == a.drawConfig;
    forall k | k in a.subAppearances ensures t.subAppearances[k] == a.subAppearances[k] {
      assert s.subAppearances[k] == SwapConfigs(a.subAppearances[k]);
      SwapConfigsTwice(a.subAppearances[k]);
    }
    assert t.subAppearances == a.subAppearances;
  }

  /** Every tree agrees with itself up to drawing. */
  lemma {:induction false} AgreeUpToDrawingReflexive(a: Appearance)
    ensures AgreeUpToDrawing(a, a)
    decreases a
  {
    forall k | k in a.subAppearances ensures AgreeUpToDrawing(a.subAppearances[k], a.subAppearances[k]) {
      AgreeUpToDrawingReflexive(a.subAppearances[k]);
    }
  }

  /**
   * The swap around a draw (lines 984-987). If drawing the swapped tree
   * changed at most looks, caches and saved looks, the second swap gives back
   * every item's configuration and leaves in every drawConfig the pose
   * `update` computed: the frame restores the tree up to what drawing changes.
   */
  lemma {:induction false} FramePassRestores(u: Appearance, drawn: Appearance)
    requires AgreeUpToDrawing(drawn, SwapConfigs(u))
    ensures AgreeUpToDrawing(SwapConfigs(drawn), u)
    decreases u
  {
    var s, d := SwapConfigs(u), SwapConfigs(drawn);
    SwapAroundDraw(u.item, u.drawConfig, drawn.item);
    assert WithoutLook(d.item) == WithoutLook(u.item) && d.drawConfig == u.drawConfig;
    assert d.subAppearances.Keys == u.subAppearances.Keys;
    forall k | k in u.subAppearances ensures AgreeUpToDrawing(d.subAppearances[k], u.subAppearances[k]) {
      assert s.subAppearances[k] == SwapConfigs(u.subAppearances[k]);
      assert d.subAppearances[k] == SwapConfigs(drawn.subAppearances[k]);
      FramePassRestores(u.subAppearances[k], drawn.subAppearances[k]);
    }
  }

  /** The caches of a sub-appearance are caches of the tree. */
  lemma KidCaches(a: Appearance, k: SubKey)
    requires k in a.subAppearances
    ensures CachesOf(a.subAppearances[k]) <= CachesOf(a)
  {
  }

  /** A cache of the tree is one of the appearance's own or one of a sub-appearance's. */
  lemma CachesOfParts(a: Appearance)
    ensures forall c :: c in CachesOf(a) ==>
      c in a.displayCache || exists k :: k in a.subAppearances && c in CachesOf(a.subAppearances[k])
  {
  }

  /** Trees with the same caches at every position have the same caches overall. */
  lemma {:induction false} SameCachesOf(a: Appearance, b: Appearance)
    requires SameCaches(a, b)
    ensures CachesOf(a) == CachesOf(b)
    decreases a
  {
    forall k | k in a.subAppearances ensures CachesOf(a.subAppearances[k]) == CachesOf(b.subAppearances[k]) {
      SameCachesOf(a.subAppearances[k], b.subAppearances[k]);
    }
  }

  /** Trees with the same caches at every position are equally free of repeated caches. */
  lemma {:induction false} SameCachesDistinct(a: Appearance, b: Appearance)
    requires SameCaches(a, b)
    ensures Distinct(a) <==> Distinct(b)
    decreases a
  {
    forall k | k in a.subAppearances
      ensures Distinct(a.subAppearances[k]) <==> Distinct(b.subAppearances[k])
      ensures CachesOf(a.subAppearances[k]) == CachesOf(b.subAppearances[k])
    {
      SameCachesDistinct(a.subAppearances[k], b.subAppearances[k]);
      SameCachesOf(a.subAppearances[k], b.subAppearances[k]);
    }
  }

  /** Every cache a tree holds is an allocated object. */
  lemma {:induction false} CachesAllocated(a: Appearance)
    ensures forall c :: c in CachesOf(a) ==> allocated(c)
    decreases a
  {
    forall k | k in a.subAppearances ensures forall c :: c in CachesOf(a.subAppearances[k]) ==> allocated(c) {
      CachesAllocated(a.subAppearances[k]);
    }
  }

  /** Replacing one tree of a disjoint map by one that shares no cache with the others keeps the map disjoint. */
  lemma DisjointUpdate<K>(m: map<K, Appearance>, k: K, v: Appearance)
    requires Disjoint(m)
    requires forall j :: j in m && j != k ==> CachesOf(v) !! CachesOf(m[j])
    ensures Disjoint(m[k := v])
  {
    var n := m[k := v];
    forall i, j | i in n && j in n && i != j ensures CachesOf(n[i]) !! CachesOf(n[j]) {
      if i == k {
        assert n[i] == v && n[j] == m[j];
      } else if j == k {
        assert n[j] == v && n[i] == m[i];
      } else {
        assert n[i] == m[i] && n[j] == m[j];
      }
    }
  }

  /** `update` and `swapDrawConfig` keep every cache where it is. */
  lemma {:induction false} FrameKeepsCaches(a: Appearance, t: real)
    ensures SameCaches(a, Update(a, t))
    ensures SameCaches(a, SwapConfigs(a))
    decreases a
  {
    forall k | k in a.subAppearances
      ensures SameCaches(a.subAppearances[k], Update(a, t).subAppearances[k])
      ensures SameCaches(a.subAppearances[k], SwapConfigs(a).subAppearances[k])
    {
      FrameKeepsCaches(a.subAppearances[k], t);
    }
  }
}
