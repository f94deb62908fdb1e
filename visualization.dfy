/**
 * `VisAppearance` (visualization.py:535-956) operations that touch display
 * caches, and `VisualizationPlugin` (visualization.py:959-1147), the registry
 * of named items that the display loop draws.
 *
 * Appearances are values (see module Appearances); their caches and
 * attribute dictionaries are heap objects. The plugin is a class whose
 * `items` dictionary maps names to appearances.
 */
module Visualization {
  import opened Wrappers
  import opened Items
  import opened GLTrace
  import opened Cache
  import opened AppearanceTree
  import opened Appearances
  import opened DrawPlans
  import opened Labels

  // ---------------------------------------------------------------------------
  // Construction and setItem (lines 536-574)
  // ---------------------------------------------------------------------------

  /**
   * The shape `VisAppearance(item, name)` gives a tree, apart from its
   * caches: the item and name, default settings, no animation, no drawConfig,
   * no saved look, one cache, and one sub-appearance per member.
   */
  ghost predicate Shaped(a: Appearance, item: Item, name: Option<Name>)
    decreases a
  {
    && a.name == name && a.item == item && a.style == DefaultStyle && a.clock == DefaultClock
    && a.drawConfig.None? && a.oldAppearance.None? && |a.displayCache| == 1
    && a.subAppearances.Keys == SubItems(item).Keys
    && forall k :: k in a.subAppearances ==>
         Shaped(a.subAppearances[k], SubItems(item)[k].item, Some(SubItems(item)[k].name))
  }

  /** A sub-appearance as `setItem` makes it for a member: a new tree for the member, holding the parent's attributes. */
  ghost predicate Made(kid: Appearance, m: Member, attributes: AttributeMap)
  {
    Shaped(kid, m.item, Some(m.name)) && kid.attributes == attributes
  }

  /**
   * `VisAppearance(item, name)`: default settings, no animation, an empty
   * attribute dictionary, one new cache, and the sub-appearances `setItem`
   * creates, all new. Every cache of the tree is a new object, none of them
   * occurs twice.
   */
  method NewAppearance(item: Item, name: Option<Name>) returns (a: Appearance)
    decreases item, 2
    ensures Shaped(a, item, name) && Distinct(a)
    ensures fresh(CachesOf(a)) && forall c :: c in CachesOf(a) ==> c.View() == Initial
    ensures fresh(a.attributes) && a.attributes.entries == map[]
    ensures forall k :: k in a.subAppearances ==> a.subAppearances[k].attributes == a.attributes
  {
    var cache := new CachedGLObject();
    var attributes := new AttributeMap();
    a := Appearance(name, item, DefaultStyle, DefaultClock, attributes, map[], [cache], None, None);
    a := SetItem(a, item);
    forall c | c in CachesOf(a) ensures fresh(c) && c.View() == Initial {
      if c !in a.displayCache {
        CachesOfParts(a);
        var k :| k in a.subAppearances && c in CachesOf(a.subAppearances[k]);
      }
    }
  }

  /**
   * `setItem(item)`: the item is replaced and the sub-appearances are rebuilt,
   * one new appearance per member of a group or hold, each sharing this
   * appearance's attribute dictionary. Every other field is kept. The caches
   * of the new sub-appearances are new objects, so the tree still holds no
   * cache twice.
   */
  method SetItem(a: Appearance, item: Item) returns (r: Appearance)
    decreases item, 1
    ensures r.item == item && r.name == a.name && r.style == a.style && r.clock == a.clock && r.attributes == a.attributes
    ensures r.displayCache == a.displayCache && r.drawConfig == a.drawConfig && r.oldAppearance == a.oldAppearance
    ensures r.subAppearances.Keys == SubItems(item).Keys
    ensures forall k :: k in r.subAppearances ==> Made(r.subAppearances[k], SubItems(item)[k], a.attributes)
    ensures forall k :: k in r.subAppearances ==> fresh(CachesOf(r.subAppearances[k]))
    ensures forall k, c :: k in r.subAppearances && c in CachesOf(r.subAppearances[k]) ==> c.View() == Initial
    ensures Unrepeated(a.displayCache) ==> Distinct(r)
  {
    SubItemsSmaller(item);
    CachesAllocated(a);
    var kids := NewMembers(SubItems(item), a.attributes, item);
    r := a.(item := item, subAppearances := kids);
    forall k | k in kids ensures OwnCaches(a) !! CachesOf(kids[k]) {
      forall c | c in a.displayCache ensures c !in CachesOf(kids[k]) {
        assert c in CachesOf(a);
      }
    }
  }

  /** The loop of `setItem` over the members: a new appearance for each, given the shared attributes. */
  method NewMembers(members: map<SubKey, Member>, attributes: AttributeMap, ghost bound: Item) returns (kids: map<SubKey, Appearance>)
    requires forall k :: k in members ==> members[k].item < bound
    decreases bound, 0
    ensures kids.Keys == members.Keys && Disjoint(kids)
    ensures forall k :: k in kids ==> Made(kids[k], members[k], attributes) && Distinct(kids[k])
    ensures forall k :: k in kids ==> fresh(CachesOf(kids[k]))
    ensures forall k, c :: k in kids && c in CachesOf(kids[k]) ==> c.View() == Initial
  {
    kids := map[];
    var todo := members.Keys;
    ghost var made: set<CachedGLObject> := {};
    while todo != {}
      invariant todo <= members.Keys && kids.Keys == members.Keys - todo && Disjoint(kids)
      invariant forall k :: k in kids ==> Made(kids[k], members[k], attributes) && Distinct(kids[k]) && CachesOf(kids[k]) <= made
      invariant fresh(made) && forall c :: c in made ==> c.View() == Initial
      decreases todo
    {
      var k :| k in todo;
      var kid := NewAppearance(members[k].item, Some(members[k].name));
      var shared := kid.(attributes := attributes);
      assert CachesOf(shared) == CachesOf(kid) && Distinct(shared);
      assert CachesOf(shared) !! made;
      DisjointUpdate(kids, k, shared);
      made := made + CachesOf(kid);
      kids := kids[k := shared];
      todo := todo - {k};
    }
  }

  // ---------------------------------------------------------------------------
  // markChanged and destroy (lines 576-588)
  // ---------------------------------------------------------------------------

  /** `markChanged()`: every cache of the tree is marked changed; nothing else changes. */
  method MarkChanged(a: Appearance)
    modifies CachesOf(a)`changed
    decreases a
    ensures forall c :: c in CachesOf(a) ==> c.changed
  {
    MarkList(a.displayCache);
    ghost var done: set<CachedGLObject> := OwnCaches(a);
    var todo := a.subAppearances.Keys;
    while todo != {}
      invariant todo <= a.subAppearances.Keys
      invariant forall c :: c in done ==> c.changed
      invariant OwnCaches(a) <= done
      invariant forall k :: k in a.subAppearances && k !in todo ==> CachesOf(a.subAppearances[k]) <= done
      decreases todo
    {
      var k :| k in todo;
      KidCaches(a, k);
      MarkChanged(a.subAppearances[k]);
      done := done + CachesOf(a.subAppearances[k]);
      todo := todo - {k};
    }
    CachesOfParts(a);
  }

  /** The loop of `markChanged` over the appearance's own caches. */
  method MarkList(cs: seq<CachedGLObject>)
    modifies (set c | c in cs)`changed
    ensures forall c :: c in cs ==> c.changed
  {
    var i := 0;
    while i < |cs|
      invariant 0 <= i <= |cs|
      invariant forall j :: 0 <= j < i ==> cs[j].changed
    {
      cs[i].MarkChanged();
      i := i + 1;
    }
  }

  /** Whether every call in a sequence deletes a display list. */
  predicate OnlyFrees(es: seq<GLEvent>)
  {
    forall e :: e in es ==> e.Free?
  }

  /**
   * `destroy()`: every cache of the tree gives back its display list, the
   * calls made are deletions only, one for every list the tree held, and the
   * appearance is left without sub-appearances.
   */
  method Destroy(a: Appearance, gl: GLContext) returns (r: Appearance)
    requires gl.Valid()
    modifies CachesOf(a)`glDisplayList, gl`trace
    decreases a
    ensures gl.Valid()
    ensures r == a.(subAppearances := map[])
    ensures forall c :: c in CachesOf(a) ==> c.glDisplayList.None?
    ensures Prefix(old(gl.trace), gl.trace)
    ensures OnlyFrees(gl.trace[|old(gl.trace)|..])
    ensures forall c :: c in CachesOf(a) && old(allocated(c)) ==> Released(c.glDisplayList, old(c.glDisplayList), gl.trace[|old(gl.trace)|..])
  {
    ghost var t0 := gl.trace;
    DestroyList(a.displayCache, gl);
    ghost var done: set<CachedGLObject> := OwnCaches(a);
    var todo := a.subAppearances.Keys;
    while todo != {}
      invariant todo <= a.subAppearances.Keys
      invariant forall c :: c in done ==> c.glDisplayList.None?
      invariant OwnCaches(a) <= done
      invariant forall k :: k in a.subAppearances && k !in todo ==> CachesOf(a.subAppearances[k]) <= done
      invariant gl.Valid() && Prefix(t0, gl.trace) && OnlyFrees(gl.trace[|t0|..])
      invariant forall c :: c in CachesOf(a) && old(allocated(c)) ==> Released(c.glDisplayList, old(c.glDisplayList), gl.trace[|t0|..])
      decreases todo
    {
      var k :| k in todo;
      KidCaches(a, k);
      ghost var t1 := gl.trace;
      label Before:
      var _ := Destroy(a.subAppearances[k], gl);
      Extended(t0, t1, gl.trace);
      forall c | c in CachesOf(a) && old(allocated(c))
        ensures Released(c.glDisplayList, old(c.glDisplayList), gl.trace[|t0|..])
      {
        ReleasedChain(old(c.glDisplayList), old@Before(c.glDisplayList), c.glDisplayList, t1[|t0|..], gl.trace[|t1|..]);
      }
      done := done + CachesOf(a.subAppearances[k]);
      todo := todo - {k};
    }
    CachesOfParts(a);
    r := a.(subAppearances := map[]);
  }

  /** The loop of `destroy` over the appearance's own caches. */
  method DestroyList(cs: seq<CachedGLObject>, gl: GLContext)
    requires gl.Valid()
    modifies (set c | c in cs)`glDisplayList, gl`trace
    ensures gl.Valid()
    ensures forall c :: c in cs ==> c.glDisplayList.None?
    ensures Prefix(old(gl.trace), gl.trace)
    ensures OnlyFrees(gl.trace[|old(gl.trace)|..])
    ensures forall c :: c in cs ==> Released(c.glDisplayList, old(c.glDisplayList), gl.trace[|old(gl.trace)|..])
  {
    var i := 0;
    while i < |cs|
      invariant 0 <= i <= |cs|
      invariant forall j :: 0 <= j < i ==> cs[j].glDisplayList.None?
      invariant gl.Valid() && Prefix(old(gl.trace), gl.trace) && OnlyFrees(gl.trace[|old(gl.trace)|..])
      invariant forall c :: c in cs ==> Released(c.glDisplayList, old(c.glDisplayList), gl.trace[|old(gl.trace)|..])
    {
      ghost var t1 := gl.trace;
      label Before:
      cs[i].Destroy(gl);
      Extended(old(gl.trace), t1, gl.trace);
      forall c | c in cs ensures Released(c.glDisplayList, old(c.glDisplayList), gl.trace[|old(gl.trace)|..]) {
        ReleasedChain(old(c.glDisplayList), old@Before(c.glDisplayList), c.glDisplayList, t1[|old(gl.trace)|..], gl.trace[|t1|..]);
      }
      i := i + 1;
    }
  }

  /** A cache list that is still the one held before, or none with the one held before deleted by the given calls. */
  predicate Released(now: Option<Handle>, before: Option<Handle>, calls: seq<GLEvent>)
  {
    now == before || (now.None? && (before.Some? ==> Free(before.value) in calls))
  }

  /** Releasing in two rounds of calls releases in both together. */
  lemma ReleasedChain(before: Option<Handle>, mid: Option<Handle>, now: Option<Handle>, first: seq<GLEvent>, second: seq<GLEvent>)
    requires Released(mid, before, first) && Released(now, mid, second)
    ensures Released(now, before, first + second)
  {
    if before.Some? && now != before {
      assert now.None?;
      if mid == before {
        assert Free(before.value) in second;
      } else {
        assert Free(before.value) in first;
      }
    }
  }

  /** The trace t extends the trace t0. */
  predicate Prefix(t0: seq<GLEvent>, t: seq<GLEvent>)
  {
    |t0| <= |t| && t[..|t0|] == t0
  }

  /** Calls added after a trace keep the earlier calls of that trace in place. */
  lemma Extended(t0: seq<GLEvent>, t1: seq<GLEvent>, t2: seq<GLEvent>)
    requires Prefix(t0, t1) && Prefix(t1, t2)
    ensures Prefix(t0, t2)
    ensures forall e :: e in t1[|t0|..] ==> e in t2[|t0|..]
    ensures t2[|t0|..] == t1[|t0|..] + t2[|t1|..]
  {
    assert t2 == t1 + t2[|t1|..];
  }

  // ---------------------------------------------------------------------------
  // draw (lines 636-956)
  // ---------------------------------------------------------------------------

  /** Whether `draw` replaces the item's look (lines 645-653): a custom look is asked for and the item has a look to replace. */
  predicate Overrides(a: Appearance)
  {
    !a.style.useDefaultAppearance && a.item.Drawable? && a.item.look.Some?
  }

  /** The look the item is drawn with: the custom look, else the look recoloured by a "color" attribute, else its own. */
  function DressedLook(look: Look, style: Style, entries: map<string, AttrValue>): Look
  {
    if style.customAppearance.Some? then style.customAppearance.value
    else if "color" in entries && entries["color"].Vector? then look.(color := Some(entries["color"].v))
    else look
  }

  /** The item as drawn: with the dressed look when the appearance overrides it. */
  function Dressed(a: Appearance, entries: map<string, AttrValue>): Item
  {
    if Overrides(a) then a.item.(look := Some(DressedLook(a.item.look.value, a.style, entries))) else a.item
  }

  /** The look saved before the first override (line 647): kept once saved. */
  function Saved(a: Appearance): Option<Look>
  {
    if Overrides(a) && a.oldAppearance.None? then a.item.look else a.oldAppearance
  }

  /** The look a configuration is drawn on the world's first robot with (lines 792-803). */
  function RobotLook(style: Style): Option<Look>
  {
    if style.useDefaultAppearance then None else style.customAppearance
  }

  /** What a leaf appearance draws: the plan for its dressed item. */
  function LeafPlan(a: Appearance, entries: map<string, AttrValue>, world: Option<Item>): (p: Plan)
    ensures WellFormed(p)
  {
    PlanFor(Dressed(a, entries), RobotLinks(world), RobotLook(a.style))
  }

  /** Whether `draw` draws the appearance's own item rather than its sub-appearances (lines 655-657). */
  predicate IsLeaf(a: Appearance)
  {
    a.item.Drawable? || a.subAppearances == map[]
  }

  /** The labels after `drawText(text, point)` (lines 589-592): unchanged when names are hidden. */
  function Labelled(labels: seq<Label>, entries: map<string, AttrValue>, text: Name, point: Config): seq<Label>
  {
    if TextHidden(entries) then labels else Merged(labels, text, point, Black)
  }

  /** `drawText(text, point)`: the name is handed to the plugin as a black label, unless names are hidden. */
  method DrawText(attributes: AttributeMap, text: Name, point: Config, plugin: VisualizationPlugin)
    modifies plugin`labels
    ensures plugin.labels == Labelled(old(plugin.labels), attributes.entries, text, point)
  {
    if !TextHidden(attributes.entries) {
      plugin.AddLabel(text, point, Black);
    }
  }

  /** `while len(self.displayCache) < n: append(CachedGLObject())` (lines 839-840). */
  method GrowCaches(cs: seq<CachedGLObject>, n: nat) returns (r: seq<CachedGLObject>)
    requires Unrepeated(cs)
    ensures Unrepeated(r) && |r| >= |cs| && r[..|cs|] == cs
    ensures forall i :: |cs| <= i < |r| ==> fresh(r[i])
    ensures Views(r) == Grown(Views(cs), n)
  {
    r := cs;
    while |r| < n
      invariant Unrepeated(r) && |r| >= |cs| && r[..|cs|] == cs
      invariant forall i :: |cs| <= i < |r| ==> fresh(r[i])
      invariant Grown(Views(r), n) == Grown(Views(cs), n)
      decreases n - |r|
    {
      var c := new CachedGLObject();
      assert Views(r + [c]) == Views(r) + [Initial];
      r := r + [c];
    }
  }

  /** The cache draws of a plan, in order (lines 663-949). */
  method RunUses(cs: seq<CachedGLObject>, uses: seq<CacheUse>, gl: GLContext)
    requires gl.Valid() && Unrepeated(cs)
    requires forall i :: 0 <= i < |uses| ==> uses[i].slot < |cs|
    modifies (set c | c in cs), gl
    ensures gl.Valid()
    ensures Views(cs) == DrawUses(old(Views(cs)), uses, old(gl.nextHandle)).views
    ensures gl.trace == old(gl.trace) + DrawUses(old(Views(cs)), uses, old(gl.nextHandle)).events
    ensures gl.nextHandle == DrawUses(old(Views(cs)), uses, old(gl.nextHandle)).next
  {
    ghost var vs := Views(cs);
    ghost var next := gl.nextHandle;
    ghost var p := Pass(vs, [], next);
    var i := 0;
    while i < |uses|
      invariant 0 <= i <= |uses| && gl.Valid()
      invariant p == DrawUses(vs, uses[..i], next)
      invariant Tracks(cs, p, old(gl.trace), gl)
    {
      DrawUsesStep(vs, uses, i, next);
      p := RunUse(cs, uses[i], gl, p, old(gl.trace));
      i := i + 1;
    }
    assert uses[..|uses|] == uses;
  }

  /** The caches and the context are in the states a pass describes, its calls made after the trace t0. */
  ghost predicate Tracks(cs: seq<CachedGLObject>, p: Pass, t0: seq<GLEvent>, gl: GLContext)
    reads cs, gl
  {
    && |p.views| == |cs| && (forall j :: 0 <= j < |cs| ==> cs[j].View() == p.views[j])
    && gl.trace == t0 + p.events && gl.nextHandle == p.next
  }

  /** One cache draw of a plan, on the cache states and the next list name `p` holds. */
  method RunUse(cs: seq<CachedGLObject>, u: CacheUse, gl: GLContext, ghost p: Pass, ghost t0: seq<GLEvent>) returns (ghost q: Pass)
    requires gl.Valid() && Unrepeated(cs) && u.slot < |cs| && Tracks(cs, p, t0, gl)
    modifies cs[u.slot], gl
    ensures gl.Valid() && Tracks(cs, q, t0, gl)
    ensures q == Pass(p.views[u.slot := DrawStep(p.views[u.slot], u.params, p.next)],
                      p.events + DrawEvents(p.views[u.slot], u.render, u.xform, u.params, p.next),
                      if !p.views[u.slot].making && p.views[u.slot].list.None? then p.next + 1 else p.next)
  {
    var v := p.views[u.slot];
    cs[u.slot].Draw(u.render, u.xform, u.params, gl);
    q := Pass(p.views[u.slot := DrawStep(v, u.params, p.next)],
              p.events + DrawEvents(v, u.render, u.xform, u.params, p.next),
              if !v.making && v.list.None? then p.next + 1 else p.next);
  }

  /**
   * What `draw` does with an appearance whose own item is drawn (lines
   * 654-950): the plan carried out on the caches, the list grown first when
   * the plan asks for more caches, then the name label at the plan's label
   * position.
   */
  method DrawLeaf(a: Appearance, plan: Plan, gl: GLContext, plugin: VisualizationPlugin) returns (cs: seq<CachedGLObject>)
    requires gl.Valid() && Unrepeated(a.displayCache) && WellFormed(plan)
    modifies OwnCaches(a), gl, plugin`labels
    ensures gl.Valid() && Unrepeated(cs) && |cs| >= |a.displayCache| && cs[..|a.displayCache|] == a.displayCache
    ensures forall i :: |a.displayCache| <= i < |cs| ==> fresh(cs[i])
    ensures Views(cs) == Outcome(plan, old(Views(a.displayCache)), old(gl.nextHandle)).views
    ensures gl.trace == old(gl.trace) + Outcome(plan, old(Views(a.displayCache)), old(gl.nextHandle)).events
    ensures gl.nextHandle == Outcome(plan, old(Views(a.displayCache)), old(gl.nextHandle)).next
    ensures plugin.labels == NameLabels(old(plugin.labels), a, LabelAt(plan))
  {
    cs := a.displayCache;
    match plan {
      case NoDraw =>
      case NativeDraw(e) =>
        gl.Emit(e);
      case DirectDraw(x, s, _) =>
        gl.Emit(Push(x));
        gl.Emit(Direct(s));
        gl.Emit(Pop);
      case CacheDraw(n, uses, _) =>
        cs := GrowCaches(cs, n);
        RunUses(cs, uses, gl);
    }
    if a.name.Some? && LabelAt(plan).Some? {
      DrawText(a.attributes, a.name.value, LabelAt(plan).value, plugin);
    }
  }

  /** The labels after an appearance's name is drawn at `at`, if it has a name and there is a label position. */
  function NameLabels(labels: seq<Label>, a: Appearance, at: Option<Config>): seq<Label>
    reads a.attributes
  {
    if a.name.Some? && at.Some? then Labelled(labels, a.attributes.entries, a.name.value, at.value) else labels
  }

  /**
   * `draw(world)`. A hidden appearance draws nothing. Otherwise, when the
   * appearance overrides its item's look, the look is saved (once) and
   * dressed; the item itself is drawn when it draws itself or has no
   * sub-appearances, else every sub-appearance is drawn; finally the saved
   * look is put back. Drawing changes nothing but looks, caches and labels;
   * the only caches it adds are new ones, so the tree still holds no cache
   * twice, and none of them is among `avoid`, any caches that exist when
   * it is called.
   */
  method Draw(a: Appearance, world: Option<Item>, gl: GLContext, plugin: VisualizationPlugin, ghost avoid: set<CachedGLObject>) returns (r: Appearance)
    requires gl.Valid() && Distinct(a)
    modifies CachesOf(a), gl, plugin`labels
    decreases a, 2
    ensures gl.Valid() && Distinct(r) && AgreeUpToDrawing(r, a)
    ensures CachesOf(r) - CachesOf(a) !! avoid
    ensures Prefix(old(gl.trace), gl.trace)
    ensures a.style.hidden ==> r == a && gl.trace == old(gl.trace) && gl.nextHandle == old(gl.nextHandle) && plugin.labels == old(plugin.labels)
    ensures !a.style.hidden ==> r.oldAppearance == Saved(a) && r.item == if Overrides(a) then a.item.(look := Saved(a)) else a.item
    ensures !a.style.hidden && IsLeaf(a) ==>
      var plan := LeafPlan(a, a.attributes.entries, world);
      var out := Outcome(plan, old(Views(a.displayCache)), old(gl.nextHandle));
      && r.subAppearances == a.subAppearances
      && Views(r.displayCache) == out.views && gl.trace == old(gl.trace) + out.events && gl.nextHandle == out.next
      && plugin.labels == NameLabels(old(plugin.labels), a, LabelAt(plan))
  {
    if a.style.hidden {
      AgreeUpToDrawingReflexive(a);
      return a;
    }
    var saved := Saved(a);
    var item := if Overrides(a) then a.item.(look := saved) else a.item;
    if IsLeaf(a) {
      r := DrawSelf(a, world, gl, plugin);
    } else {
      var kids := DrawKids(a, world, gl, plugin, avoid);
      r := a.(item := item, subAppearances := kids, oldAppearance := saved);
      CachesOfParts(r);
    }
  }

  /**
   * The part of `draw` for an item that draws itself or has no
   * sub-appearances: the plan of the dressed item is carried out on the
   * appearance's own caches, and the look is saved and put back.
   */
  method DrawSelf(a: Appearance, world: Option<Item>, gl: GLContext, plugin: VisualizationPlugin) returns (r: Appearance)
    requires gl.Valid() && Distinct(a) && !a.style.hidden && IsLeaf(a)
    modifies OwnCaches(a), gl, plugin`labels
    ensures gl.Valid() && Distinct(r) && AgreeUpToDrawing(r, a)
    ensures fresh(CachesOf(r) - CachesOf(a))
    ensures r.oldAppearance == Saved(a) && r.item == (if Overrides(a) then a.item.(look := Saved(a)) else a.item)
    ensures
      var plan := LeafPlan(a, a.attributes.entries, world);
      var out := Outcome(plan, old(Views(a.displayCache)), old(gl.nextHandle));
      && r.subAppearances == a.subAppearances
      && Views(r.displayCache) == out.views && gl.trace == old(gl.trace) + out.events && gl.nextHandle == out.next
      && plugin.labels == NameLabels(old(plugin.labels), a, LabelAt(plan))
  {
    CachesAllocated(a);
    var saved := Saved(a);
    var item := if Overrides(a) then a.item.(look := saved) else a.item;
    var cs := DrawLeaf(a, LeafPlan(a, a.attributes.entries, world), gl, plugin);
    r := a.(item := item, displayCache := cs, oldAppearance := saved);
    GrownList(a.displayCache, cs);
    forall k | k in a.subAppearances
      ensures AgreeUpToDrawing(a.subAppearances[k], a.subAppearances[k])
      ensures (set c | c in cs) !! CachesOf(a.subAppearances[k])
    {
      AgreeUpToDrawingReflexive(a.subAppearances[k]);
    }
    CachesOfParts(r);
  }

  /** A cache of a list that extends `cs0` is one of `cs0` or one past its end. */
  lemma GrownList(cs0: seq<CachedGLObject>, cs: seq<CachedGLObject>)
    requires |cs| >= |cs0| && cs[..|cs0|] == cs0
    ensures forall c :: c in cs ==> c in cs0 || exists i :: |cs0| <= i < |cs| && cs[i] == c
  {
    forall c | c in cs ensures c in cs0 || exists i :: |cs0| <= i < |cs| && cs[i] == c {
      var i :| 0 <= i < |cs| && cs[i] == c;
      if i < |cs0| {
        assert cs0[i] == c;
      }
    }
  }

  /**
   * The loop of `draw` over the sub-appearances (lines 657-660), each drawn
   * in the same world. The drawn sub-appearances stay apart, and none of the
   * caches added is among `avoid`.
   */
  method DrawKids(a: Appearance, world: Option<Item>, gl: GLContext, plugin: VisualizationPlugin, ghost avoid: set<CachedGLObject>) returns (kids: map<SubKey, Appearance>)
    requires gl.Valid() && Distinct(a)
    modifies CachesOf(a), gl, plugin`labels
    decreases a, 1
    ensures gl.Valid() && DrawnKids(kids, a.subAppearances, OwnCaches(a))
    ensures CachesIn(kids) - CachesOf(a) !! avoid
    ensures Prefix(old(gl.trace), gl.trace)
  {
    kids := a.subAppearances;
    forall k | k in kids ensures AgreeUpToDrawing(kids[k], a.subAppearances[k]) {
      AgreeUpToDrawingReflexive(kids[k]);
    }
    var todo := kids.Keys;
    ghost var made: set<CachedGLObject> := {};
    while todo != {}
      invariant todo <= a.subAppearances.Keys && gl.Valid()
      invariant DrawnKids(kids, a.subAppearances, OwnCaches(a))
      invariant forall k :: k in todo ==> kids[k] == a.subAppearances[k]
      invariant made !! avoid && CachesIn(kids) <= CachesOf(a) + made
      invariant Prefix(old(gl.trace), gl.trace)
      decreases todo
    {
      var k :| k in todo;
      ghost var t1 := gl.trace;
      var next, added := DrawKid(a, kids, k, world, gl, plugin, avoid);
      Extended(old(gl.trace), t1, gl.trace);
      kids := next;
      made := made + added;
      todo := todo - {k};
    }
    assert CachesIn(kids) - CachesOf(a) <= made;
  }

  /**
   * Each drawn sub-appearance keeps its caches distinct, agrees with the one
   * it was drawn from and shares no cache with the parent's own list or with
   * another sub-appearance.
   */
  ghost predicate DrawnKids(kids: map<SubKey, Appearance>, subs: map<SubKey, Appearance>, own: set<CachedGLObject>)
  {
    && kids.Keys == subs.Keys && Disjoint(kids)
    && forall k :: k in kids ==> Distinct(kids[k]) && AgreeUpToDrawing(kids[k], subs[k]) && own !! CachesOf(kids[k])
  }

  /**
   * Drawing one sub-appearance keeps the sub-appearances apart, when the
   * only caches it adds are in none of them and not in the parent's own list.
   */
  lemma DrawnKidsUpdate(kids: map<SubKey, Appearance>, subs: map<SubKey, Appearance>, own: set<CachedGLObject>, k: SubKey, drawn: Appearance, added: set<CachedGLObject>)
    requires DrawnKids(kids, subs, own) && k in subs && Distinct(drawn) && AgreeUpToDrawing(drawn, subs[k])
    requires CachesOf(drawn) <= CachesOf(kids[k]) + added && added !! own + CachesIn(kids)
    ensures DrawnKids(kids[k := drawn], subs, own)
    ensures CachesIn(kids[k := drawn]) <= CachesIn(kids) + added
  {
    var next := kids[k := drawn];
    forall j | j in kids && j != k ensures CachesOf(drawn) !! CachesOf(kids[j]) {
      assert CachesOf(kids[k]) !! CachesOf(kids[j]);
    }
    DisjointUpdate(kids, k, drawn);
    assert next.Keys == subs.Keys;
    forall j | j in next ensures Distinct(next[j]) && AgreeUpToDrawing(next[j], subs[j]) && own !! CachesOf(next[j]) {
      if j == k {
        assert next[j] == drawn;
      } else {
        assert next[j] == kids[j];
      }
    }
  }

  /**
   * One turn of the loop of `draw` over the sub-appearances: the
   * sub-appearance at k is drawn. The caches it adds, `added`, are in no
   * sub-appearance, not in the parent's list and not among `avoid`.
   */
  method DrawKid(a: Appearance, kids: map<SubKey, Appearance>, k: SubKey, world: Option<Item>, gl: GLContext, plugin: VisualizationPlugin, ghost avoid: set<CachedGLObject>) returns (next: map<SubKey, Appearance>, ghost added: set<CachedGLObject>)
    requires gl.Valid() && Distinct(a) && DrawnKids(kids, a.subAppearances, OwnCaches(a))
    requires k in a.subAppearances && kids[k] == a.subAppearances[k]
    modifies CachesOf(a), gl, plugin`labels
    decreases a, 0
    ensures gl.Valid() && DrawnKids(next, a.subAppearances, OwnCaches(a))
    ensures forall j :: j in kids && j != k ==> next[j] == kids[j]
    ensures added !! avoid && CachesIn(next) <= CachesIn(kids) + added
    ensures Prefix(old(gl.trace), gl.trace)
  {
    ghost var before := OwnCaches(a) + CachesIn(kids);
    KidCaches(a, k);
    var drawn := Draw(a.subAppearances[k], world, gl, plugin, avoid + before);
    added := CachesOf(drawn) - CachesOf(a.subAppearances[k]);
    DrawnKidsUpdate(kids, a.subAppearances, OwnCaches(a), k, drawn, added);
    next := kids[k := drawn];
  }

  // ---------------------------------------------------------------------------
  // One item of display (lines 982-988)
  // ---------------------------------------------------------------------------

  /**
   * The body of the display loop for one item: `update(t)`, `swapDrawConfig`,
   * `draw(world)`, `swapDrawConfig`. The result is the updated tree up to
   * what drawing changes: every item keeps its configuration and every
   * drawConfig holds the pose at t. No cache it adds is among `avoid`.
   */
  method DrawFramed(v: Appearance, t: real, world: Option<Item>, gl: GLContext, plugin: VisualizationPlugin, ghost avoid: set<CachedGLObject>) returns (r: Appearance)
    requires gl.Valid() && Distinct(v)
    modifies CachesOf(v), gl, plugin`labels
    ensures gl.Valid() && Distinct(r) && AgreeUpToDrawing(r, Update(v, t))
    ensures CachesOf(r) - CachesOf(v) !! avoid
    ensures Prefix(old(gl.trace), gl.trace)
  {
    var u := Update(v, t);
    FrameKeepsCaches(v, t);
    FrameKeepsCaches(u, t);
    var s := SwapConfigs(u);
    SameCachesOf(v, u);
    SameCachesOf(u, s);
    SameCachesDistinct(v, u);
    SameCachesDistinct(u, s);
    var d := Draw(s, world, gl, plugin, avoid);
    r := SwapConfigs(d);
    FrameKeepsCaches(d, t);
    SameCachesOf(d, r);
    SameCachesDistinct(d, r);
    FramePassRestores(u, d);
  }

  /** The calls `_drawLabelRaw` makes for the collected labels, one text call per label. */
  function LabelEvents(labels: seq<Label>): (r: seq<GLEvent>)
    ensures |r| == |labels|
    ensures forall i :: 0 <= i < |labels| ==> r[i] == GLEvent.Text(labels[i].point, labels[i].texts, labels[i].color)
  {
    if labels == [] then [] else [GLEvent.Text(labels[0].point, labels[0].texts, labels[0].color)] + LabelEvents(labels[1..])
  }

  /** The world drawings are made in (line 980): the item registered as "world", if any. */
  function WorldOf(m: map<string, Appearance>): Option<Item>
  {
    if "world" in m then Some(m["world"].item) else None
  }

  /**
   * What `animate` promises for a list of milestones: started at `start`
   * with speed `speed`, the item shows milestone i once i/speed units of
   * animation time have passed.
   */
  lemma AnimatedMilestone(traj: Trajectory, poses: seq<Config>, speed: real, start: real, i: nat)
    requires traj.eval == Looped(poses) && speed != 0.0
    requires i + 1 < |poses| && |poses[i]| <= |poses[i + 1]|
    ensures Pose(Some(traj), speed, start, start + (i as real) / speed) == Some(poses[i])
  {
    assert speed * ((start + (i as real) / speed) - start) == i as real;
    MilestoneAtKnot(poses, i);
  }

  /**
   * The registry keeps every tree apart: no tree holds a cache twice, no two
   * trees share a cache, and no two trees share an attribute dictionary.
   */
  ghost predicate Registry(m: map<string, Appearance>)
  {
    && (forall k :: k in m ==> Distinct(m[k]))
    && Disjoint(m)
    && forall k, j :: k in m && j in m && k != j ==> m[k].attributes != m[j].attributes
  }

  /** A tree that shares nothing with the other trees can be registered under any name. */
  lemma RegistryUpdate(m: map<string, Appearance>, name: string, v: Appearance)
    requires Registry(m) && Distinct(v)
    requires forall j :: j in m && j != name ==> CachesOf(v) !! CachesOf(m[j]) && v.attributes != m[j].attributes
    ensures Registry(m[name := v])
  {
    DisjointUpdate(m, name, v);
  }

  /** Dropping a name keeps the registry apart. */
  lemma RegistryRemove(m: map<string, Appearance>, name: string)
    requires Registry(m)
    ensures Registry(m - {name})
  {
  }

  /** The items drawn so far each list no cache twice and are their update at t, up to what drawing changes. */
  ghost predicate Framed(drawn: map<string, Appearance>, m: map<string, Appearance>, t: real)
  {
    drawn.Keys <= m.Keys && forall k :: k in drawn ==> Distinct(drawn[k]) && AgreeUpToDrawing(drawn[k], Update(m[k], t))
  }

  lemma FramedUpdate(drawn: map<string, Appearance>, m: map<string, Appearance>, t: real, k: string, v: Appearance)
    requires Framed(drawn, m, t) && k in m && Distinct(v) && AgreeUpToDrawing(v, Update(m[k], t))
    ensures Framed(drawn[k := v], m, t)
  {
    var next := drawn[k := v];
    forall j | j in next ensures Distinct(next[j]) && AgreeUpToDrawing(next[j], Update(m[j], t)) {
      if j == k {
        assert next[j] == v;
      } else {
        assert next[j] == drawn[j];
      }
    }
  }

  /** A registry drawn in full, its trees sharing no cache, is kept apart as the one it was drawn from. */
  lemma FramedRegistry(drawn: map<string, Appearance>, m: map<string, Appearance>, t: real)
    requires Registry(m) && drawn.Keys == m.Keys && Framed(drawn, m, t) && Disjoint(drawn)
    ensures Registry(drawn)
  {
    forall k | k in drawn ensures drawn[k].attributes == m[k].attributes {
      assert AgreeUpToDrawing(drawn[k], Update(m[k], t));
    }
  }

  /**
   * The loop of `display` over the items (lines 982-988), each framed by
   * update and the two swaps. The drawn trees still share no cache.
   */
  method DrawAll(m: map<string, Appearance>, t: real, world: Option<Item>, gl: GLContext, plugin: VisualizationPlugin) returns (drawn: map<string, Appearance>)
    requires Registry(m) && gl.Valid()
    modifies CachesIn(m), gl, plugin`labels
    ensures gl.Valid() && drawn.Keys == m.Keys && Framed(drawn, m, t) && Registry(drawn)
    ensures Prefix(old(gl.trace), gl.trace)
  {
    drawn := map[];
    assert m + drawn == m;
    var todo := m.Keys;
    while todo != {}
      invariant todo <= m.Keys && drawn.Keys == m.Keys - todo
      invariant gl.Valid() && Framed(drawn, m, t) && Disjoint(m + drawn)
      invariant Prefix(old(gl.trace), gl.trace)
      decreases todo
    {
      var k :| k in todo;
      assert CachesOf(m[k]) <= CachesIn(m);
      ghost var t1 := gl.trace;
      var v := DrawNext(m, drawn, k, t, world, gl, plugin);
      Extended(old(gl.trace), t1, gl.trace);
      FramedUpdate(drawn, m, t, k, v);
      drawn := drawn[k := v];
      todo := todo - {k};
    }
    assert m + drawn == drawn;
    FramedRegistry(drawn, m, t);
  }

  /** One turn of the loop of `display`: the item k is drawn, and the trees still share no cache. */
  method DrawNext(m: map<string, Appearance>, drawn: map<string, Appearance>, k: string, t: real, world: Option<Item>, gl: GLContext, plugin: VisualizationPlugin) returns (v: Appearance)
    requires k in m && k !in drawn && Distinct(m[k]) && Disjoint(m + drawn) && gl.Valid()
    modifies CachesOf(m[k]), gl, plugin`labels
    ensures gl.Valid() && Distinct(v) && AgreeUpToDrawing(v, Update(m[k], t))
    ensures Disjoint(m + drawn[k := v])
    ensures Prefix(old(gl.trace), gl.trace)
  {
    ghost var cur := m + drawn;
    ghost var before := CachesIn(cur);
    v := DrawFramed(m[k], t, world, gl, plugin, before);
    ghost var added := CachesOf(v) - CachesOf(m[k]);
    assert forall j :: j in cur ==> CachesOf(cur[j]) <= before;
    MergeStep(m, drawn, k, v, added);
  }

  /**
   * One turn of the loop of `display` keeps the trees apart: the tree drawn
   * for k holds its old caches and caches in none of the current trees.
   */
  lemma MergeStep(m: map<string, Appearance>, drawn: map<string, Appearance>, k: string, v: Appearance, added: set<CachedGLObject>)
    requires k in m && k !in drawn && Disjoint(m + drawn)
    requires CachesOf(v) <= CachesOf(m[k]) + added
    requires forall j :: j in m + drawn ==> added !! CachesOf((m + drawn)[j])
    ensures Disjoint(m + drawn[k := v])
  {
    var cur := m + drawn;
    assert cur[k] == m[k];
    forall j | j in cur && j != k ensures CachesOf(v) !! CachesOf(cur[j]) {
      assert CachesOf(cur[k]) !! CachesOf(cur[j]);
    }
    DisjointUpdate(cur, k, v);
    assert cur[k := v] == m + drawn[k := v];
  }

  /** The text calls of labels followed by one more are those of the labels followed by its call. */
  lemma {:induction false} LabelEventsAppend(labels: seq<Label>, l: Label)
    ensures LabelEvents(labels + [l]) == LabelEvents(labels) + [GLEvent.Text(l.point, l.texts, l.color)]
  {
    var r, e := LabelEvents(labels + [l]), LabelEvents(labels) + [GLEvent.Text(l.point, l.texts, l.color)];
    assert |r| == |e|;
    forall i | 0 <= i < |r| ensures r[i] == e[i] {
      assert (labels + [l])[i] == if i < |labels| then labels[i] else l;
    }
  }

  /** Calls appended after a trace that extends t0 still extend t0, and end the new trace. */
  lemma EndsWith(t0: seq<GLEvent>, t1: seq<GLEvent>, tail: seq<GLEvent>)
    requires Prefix(t0, t1)
    ensures |t0| + |tail| <= |t1 + tail| && Prefix(t0, t1 + tail)
    ensures (t1 + tail)[|t1 + tail| - |tail|..] == tail
  {
    assert (t1 + tail)[..|t1|] == t1;
  }

  /** The clock time animations are shown at after an idle call at `now`: it runs on only while animating. */
  function Advanced(animate: bool, animationTime: real, before: real, now: real): (r: real)
    ensures animate ==> r - animationTime == now - before
    ensures !animate ==> r == animationTime
  {
    if animate then animationTime + (now - before) else animationTime
  }

  // ---------------------------------------------------------------------------
  // VisualizationPlugin (lines 959-1147)
  // ---------------------------------------------------------------------------

  /**
   * The registry of named items and the display loop. `t` is the clock time
   * of the last idle call and `animationTime` the time animations are shown
   * at; `labels` are the name labels collected by the current frame.
   */
  class VisualizationPlugin {
    var items: map<string, Appearance>
    var labels: seq<Label>
    var t: real
    var animate: bool
    var animationTime: real

    /** `__init__` (lines 960-966); the clock reading is a parameter. */
    constructor (now: real)
      ensures items == map[] && labels == [] && t == now && animate && animationTime == 0.0
    {
      items := map[];
      labels := [];
      t := now;
      animate := true;
      animationTime := 0.0;
    }

    /** The registered trees are kept apart: no cache occurs twice, and no attribute dictionary is shared between names. */
    ghost predicate Valid()
      reads this
    {
      Registry(items)
    }

    /** Every cache of a registered tree is an allocated object. */
    lemma CachesExist()
      ensures forall k, c :: k in items && c in CachesOf(items[k]) ==> allocated(c)
    {
      forall k | k in items ensures forall c :: c in CachesOf(items[k]) ==> allocated(c) {
        CachesAllocated(items[k]);
      }
    }

    /** Every display cache of every registered tree. */
    ghost function Caches(): set<CachedGLObject>
      reads this
    {
      CachesIn(items)
    }

    /** The attribute dictionaries of the registered appearances. */
    ghost function AttributeMaps(): set<AttributeMap>
      reads this
    {
      set k | k in items :: items[k].attributes
    }

    /** `getItemConfig` (lines 1091-1096): the configuration of the named item; none for an unknown name or an item without one. */
    function ItemConfig(name: string): (r: Option<Config>)
      reads this
      ensures r.Some? ==> name in items && GetConfig(items[name].item) == r
      ensures name in items ==> r == GetConfig(items[name].item)
    {
      if name in items then GetConfig(items[name].item) else None
    }

    /** `addLabel` (lines 971-976): the text joins the first label near the point in the same colour, else starts a new label. */
    method AddLabel(text: Name, point: Config, color: Config)
      modifies this`labels
      ensures labels == Merged(old(labels), text, point, color)
    {
      var i := FindLabel(labels, point, color);
      MergedAt(labels, text, point, color, i);
      if i < |labels| {
        labels := labels[i := labels[i].(texts := labels[i].texts + [text])];
      } else {
        labels := labels + [Label(point, [text], color)];
      }
    }

    /**
     * `display` (lines 978-991): the labels are cleared, every item is
     * updated to the animation time and drawn between two swaps, then the
     * collected labels are drawn. Every tree ends as its update at the
     * animation time, up to what drawing changes, and the last calls are
     * the label texts.
     */
    method Display(gl: GLContext)
      requires Valid() && gl.Valid()
      modifies this`items, this`labels, Caches(), gl
      ensures Valid() && gl.Valid()
      ensures items.Keys == old(items).Keys
      ensures forall k :: k in items ==> AgreeUpToDrawing(items[k], Update(old(items)[k], old(animationTime)))
      ensures |old(gl.trace)| + |labels| <= |gl.trace| && Prefix(old(gl.trace), gl.trace)
      ensures gl.trace[|gl.trace| - |labels|..] == LabelEvents(labels)
    {
      labels := [];
      DrawItems(gl);
      ghost var t1 := gl.trace;
      EmitLabels(gl);
      EndsWith(old(gl.trace), t1, LabelEvents(labels));
    }

    /** The loop of `display` over the items, drawn in the item registered as "world", if any. */
    method DrawItems(gl: GLContext)
      requires Valid() && gl.Valid()
      modifies this`items, this`labels, Caches(), gl
      ensures Valid() && gl.Valid()
      ensures items.Keys == old(items).Keys && Framed(items, old(items), old(animationTime))
      ensures Prefix(old(gl.trace), gl.trace)
    {
      var drawn := DrawAll(items, animationTime, WorldOf(items), gl, this);
      items := drawn;
    }

    /** The loop of `display` over the labels: one text call each, in order. */
    method EmitLabels(gl: GLContext)
      requires gl.Valid()
      modifies gl`trace
      ensures gl.Valid()
      ensures gl.trace == old(gl.trace) + LabelEvents(labels)
    {
      var i := 0;
      while i < |labels|
        invariant 0 <= i <= |labels| && gl.Valid()
        invariant gl.trace == old(gl.trace) + LabelEvents(labels[..i])
      {
        assert labels[..i + 1] == labels[..i] + [labels[i]];
        LabelEventsAppend(labels[..i], labels[i]);
        gl.Emit(GLEvent.Text(labels[i].point, labels[i].texts, labels[i].color));
        i := i + 1;
      }
      assert labels[..|labels|] == labels;
    }

    /** `idlefunc` (lines 1009-1014): the clock reading is a parameter; a running animation advances by the time since the last call. */
    method Idle(now: real) returns (redraw: bool)
      modifies this`t, this`animationTime
      ensures t == now && !redraw
      ensures animationTime == Advanced(animate, old(animationTime), old(t), now)
    {
      var oldt := t;
      t := now;
      if animate {
        animationTime := animationTime + (t - oldt);
      }
      redraw := false;
    }

    /**
     * `dirty(name)` (lines 1016-1024): "all" marks every cache of every tree
     * changed, any other name that item's tree and no other cache. An unknown
     * name is refused.
     */
    method Dirty(name: string) returns (ok: bool)
      requires Valid()
      modifies Caches()`changed
      ensures ok <==> name == "all" || name in items
      ensures name == "all" ==> forall c :: c in Caches() ==> c.changed
      ensures name in items ==> forall c :: c in CachesOf(items[name]) ==> c.changed
      ensures name != "all" ==>
        forall k, c :: k in items && k != name && c in CachesOf(items[k]) ==> old(allocated(c)) && c.changed == old(c.changed)
    {
      CachesExist();
      if name == "all" {
        MarkAll();
        ok := true;
      } else if name in items {
        MarkChanged(items[name]);
        ok := true;
      } else {
        ok := false;
      }
    }

    /** Every cache of every tree marked changed. */
    method MarkAll()
      modifies Caches()`changed
      ensures forall k :: k in items ==> forall c :: c in CachesOf(items[k]) ==> c.changed
      ensures forall c :: c in Caches() ==> c.changed
    {
      ghost var done: set<CachedGLObject> := {};
      var todo := items.Keys;
      while todo != {}
        invariant todo <= items.Keys
        invariant forall c :: c in done ==> c.changed
        invariant forall k :: k in items && k !in todo ==> CachesOf(items[k]) <= done
        decreases todo
      {
        var k :| k in todo;
        MarkChanged(items[k]);
        done := done + CachesOf(items[k]);
        todo := todo - {k};
      }
    }

    /** `clear()` (lines 1026-1032): every tree is destroyed and the registry emptied. */
    method Clear(gl: GLContext)
      requires gl.Valid()
      modifies this`items, Caches()`glDisplayList, gl`trace
      ensures Valid() && gl.Valid() && items == map[]
      ensures forall c :: c in old(Caches()) ==> c.glDisplayList.None?
      ensures Prefix(old(gl.trace), gl.trace)
      ensures OnlyFrees(gl.trace[|old(gl.trace)|..])
    {
      ghost var done: set<CachedGLObject> := {};
      var todo := items.Keys;
      while todo != {}
        invariant todo <= items.Keys && items == old(items)
        invariant forall c :: c in done ==> c.glDisplayList.None?
        invariant forall k :: k in items && k !in todo ==> CachesOf(items[k]) <= done
        invariant gl.Valid() && Prefix(old(gl.trace), gl.trace)
        invariant OnlyFrees(gl.trace[|old(gl.trace)|..])
        decreases todo
      {
        var k :| k in todo;
        assert CachesOf(items[k]) <= Caches();
        ghost var t1 := gl.trace;
        var _ := Destroy(items[k], gl);
        Extended(old(gl.trace), t1, gl.trace);
        done := done + CachesOf(items[k]);
        todo := todo - {k};
      }
      items := map[];
    }

    /**
     * `add(name, item, keepAppearance)` (lines 1035-1046). With
     * keepAppearance and a tree under the name, that tree takes the new item;
     * otherwise the tree under the name, if any, is destroyed and a new one
     * made for the item. No other name changes, and the other trees keep
     * their display lists.
     */
    method Add(name: string, item: Item, keepAppearance: bool, gl: GLContext)
      requires Valid() && gl.Valid()
      modifies this`items, Caches()`glDisplayList, gl`trace
      ensures Valid() && gl.Valid()
      ensures items.Keys == old(items).Keys + {name}
      ensures forall k :: k in old(items) && k != name ==> items[k] == old(items)[k]
      ensures forall k, c :: k in old(items) && k != name && c in CachesOf(old(items)[k]) ==>
        old(allocated(c)) && c.glDisplayList == old(c.glDisplayList)
      ensures keepAppearance && name in old(items) ==>
        && items[name] == old(items)[name].(item := item, subAppearances := items[name].subAppearances)
        && items[name].subAppearances.Keys == SubItems(item).Keys
        && (forall k :: k in items[name].subAppearances ==> Made(items[name].subAppearances[k], SubItems(item)[k], items[name].attributes))
        && (forall k :: k in items[name].subAppearances ==> fresh(CachesOf(items[name].subAppearances[k])))
        && gl.trace == old(gl.trace)
      ensures !(keepAppearance && name in old(items)) ==>
        && Shaped(items[name], item, Some(Named(name)))
        && fresh(CachesOf(items[name])) && (forall c :: c in CachesOf(items[name]) ==> c.View() == Initial)
        && Prefix(old(gl.trace), gl.trace)
        && OnlyFrees(gl.trace[|old(gl.trace)|..])
      ensures name in old(items) && !keepAppearance ==>
        forall c :: c in CachesOf(old(items)[name]) && old(allocated(c)) ==> c.glDisplayList.None?
    {
      CachesExist();
      if keepAppearance && name in items {
        KeepAppearance(name, item);
      } else {
        Renew(name, item, gl);
      }
    }

    /**
     * The branch of `add` that keeps the appearance: the tree under the name
     * takes the new item, with one new sub-appearance per member, each made
     * for that member and sharing the appearance's attribute dictionary.
     */
    method KeepAppearance(name: string, item: Item)
      requires Valid() && name in items
      modifies this`items
      ensures Valid()
      ensures items.Keys == old(items).Keys
      ensures forall k :: k in old(items) && k != name ==> items[k] == old(items)[k]
      ensures items[name] == old(items)[name].(item := item, subAppearances := items[name].subAppearances)
      ensures items[name].subAppearances.Keys == SubItems(item).Keys
      ensures forall k :: k in items[name].subAppearances ==> Made(items[name].subAppearances[k], SubItems(item)[k], items[name].attributes)
      ensures forall k :: k in items[name].subAppearances ==> fresh(CachesOf(items[name].subAppearances[k]))
    {
      CachesExist();
      var a := items[name];
      var r := SetItem(a, item);
      CachesOfParts(r);
      assert forall c :: c in r.displayCache ==> c in CachesOf(a);
      RegistryUpdate(items, name, r);
      items := items[name := r];
    }

    /** The other branch of `add`: the tree under the name, if any, is destroyed and a new one made. */
    method Renew(name: string, item: Item, gl: GLContext)
      requires Valid() && gl.Valid()
      modifies this`items, Caches()`glDisplayList, gl`trace
      ensures Valid() && gl.Valid()
      ensures items.Keys == old(items).Keys + {name}
      ensures forall k :: k in old(items) && k != name ==> items[k] == old(items)[k]
      ensures forall k, c :: k in old(items) && k != name && c in CachesOf(old(items)[k]) ==>
        old(allocated(c)) && c.glDisplayList == old(c.glDisplayList)
      ensures Shaped(items[name], item, Some(Named(name)))
      ensures fresh(CachesOf(items[name])) && forall c :: c in CachesOf(items[name]) ==> c.View() == Initial
      ensures Prefix(old(gl.trace), gl.trace)
      ensures OnlyFrees(gl.trace[|old(gl.trace)|..])
      ensures name in old(items) ==> forall c :: c in CachesOf(old(items)[name]) && old(allocated(c)) ==> c.glDisplayList.None?
    {
      CachesExist();
      if name in items {
        var old_ := items[name];
        assert CachesOf(old_) <= Caches();
        var _ := Destroy(old_, gl);
      }
      var a := NewAppearance(item, Some(Named(name)));
      RegistryUpdate(items, name, a);
      items := items[name := a];
    }

    /**
     * `animate(name, animation, speed)` (lines 1048-1059): a list of
     * milestones becomes a trajectory through them, one time unit apart; the
     * animation starts at the current animation time and the caches of that
     * tree, and no others, are marked changed. An unknown name is refused.
     */
    method Animate(name: string, animation: Animation, speed: real) returns (ok: bool)
      requires Valid()
      modifies this`items, Caches()`changed
      ensures Valid()
      ensures ok <==> name in old(items)
      ensures !ok ==> items == old(items)
      ensures ok ==> name in items
      ensures ok ==>
        var clock := items[name].clock;
        && items == old(items)[name := old(items)[name].(clock := clock)]
        && clock.animationStartTime == animationTime && clock.animationSpeed == speed && clock.animation.Some?
        && (animation.Path? ==> clock.animation == Some(animation.traj))
        && (animation.Milestones? ==> clock.animation.value.eval == Looped(animation.poses))
        && forall c :: c in CachesOf(old(items)[name]) ==> c.changed
      ensures forall k, c :: k in old(items) && k != name && c in CachesOf(old(items)[k]) ==>
        old(allocated(c)) && c.changed == old(c.changed)
    {
      CachesExist();
      if name !in items {
        return false;
      }
      var traj: Trajectory;
      match animation {
        case Path(given) => traj := given;
        case Milestones(poses) => traj := new Trajectory(Looped(poses));
      }
      var a := items[name];
      var v := a.(clock := Clock(Some(traj), animationTime, speed));
      RegistryUpdate(items, name, v);
      items := items[name := v];
      MarkChanged(a);
      ok := true;
    }

    /** `pauseAnimation(paused)` (lines 1061-1065). */
    method PauseAnimation(paused: bool)
      modifies this`animate
      ensures animate == !paused
    {
      animate := !paused;
    }

    /** `stepAnimation(amount)` (lines 1067-1071). */
    method StepAnimation(amount: real)
      modifies this`animationTime
      ensures animationTime == old(animationTime) + amount
    {
      animationTime := animationTime + amount;
    }

    /** `animationTime(newtime)` (lines 1073-1082): sets the animation time when one is given, and returns it. */
    method AnimationTime(newtime: Option<real>) returns (r: real)
      modifies this`animationTime
      ensures r == animationTime
      ensures newtime.Some? ==> animationTime == newtime.value
      ensures newtime.None? ==> animationTime == old(animationTime)
    {
      if newtime.Some? {
        animationTime := newtime.value;
      }
      r := animationTime;
    }

    /** `remove(name)` (lines 1084-1089): the tree is destroyed and the name dropped; the other trees keep their lists. An unknown name is refused. */
    method Remove(name: string, gl: GLContext) returns (ok: bool)
      requires Valid() && gl.Valid()
      modifies this`items, Caches()`glDisplayList, gl`trace
      ensures Valid() && gl.Valid()
      ensures ok <==> name in old(items)
      ensures !ok ==> items == old(items) && gl.trace == old(gl.trace)
      ensures ok ==>
        && items == old(items) - {name}
        && (forall c :: c in CachesOf(old(items)[name]) ==> c.glDisplayList.None?)
        && Prefix(old(gl.trace), gl.trace)
        && OnlyFrees(gl.trace[|old(gl.trace)|..])
      ensures forall k, c :: k in items && c in CachesOf(items[k]) ==> old(allocated(c)) && c.glDisplayList == old(c.glDisplayList)
    {
      CachesExist();
      if name !in items {
        return false;
      }
      var _ := Destroy(items[name], gl);
      RegistryRemove(items, name);
      items := items - {name};
      ok := true;
    }

    /** `setItemConfig(name, value)` (lines 1098-1102): the item takes the configuration, read back by `getItemConfig`. An unknown name or a configuration the item cannot take is refused. */
    method SetItemConfig(name: string, q: Config) returns (ok: bool)
      requires Valid()
      modifies this`items
      ensures Valid()
      ensures ok <==> name in old(items) && GetConfig(old(items)[name].item).Some? && |q| == |GetConfig(old(items)[name].item).value|
      ensures !ok ==> items == old(items)
      ensures ok ==> name in items && items == old(items)[name := old(items)[name].(item := items[name].item)]
      ensures ok ==> items[name].item == old(items)[name].item.(q := q)
      ensures ok ==> ItemConfig(name) == Some(q)
    {
      if name !in items {
        return false;
      }
      var a := items[name];
      var r := SetConfig(a.item, q);
      if r.None? {
        return false;
      }
      var v := a.(item := r.value);
      RegistryUpdate(items, name, v);
      items := items[name := v];
      ok := true;
    }

    /**
     * `hideLabel(name, hidden)` (lines 1104-1109): the "text_hidden" attribute
     * is set and the caches marked changed; the other names' attributes and
     * caches are left as they were. An unknown name is refused.
     */
    method HideLabel(name: string, hidden: bool) returns (ok: bool)
      requires Valid()
      modifies AttributeMaps()`entries, Caches()`changed
      ensures ok <==> name in items
      ensures ok ==> items[name].attributes.entries == old(items[name].attributes.entries)["text_hidden" := Flag(hidden)]
      ensures ok ==> TextHidden(items[name].attributes.entries) == hidden
      ensures ok ==> forall c :: c in CachesOf(items[name]) ==> c.changed
      ensures forall k :: k in items && k != name ==> items[k].attributes.entries == old(items[k].attributes.entries)
      ensures forall k, c :: k in items && k != name && c in CachesOf(items[k]) ==> old(allocated(c)) && c.changed == old(c.changed)
    {
      CachesExist();
      if name !in items {
        return false;
      }
      var attributes := items[name].attributes;
      attributes.entries := attributes.entries["text_hidden" := Flag(hidden)];
      MarkChanged(items[name]);
      ok := true;
    }

    /** `hide(name, hidden)` (lines 1111-1115): only the hidden flag changes; the caches are not marked. An unknown name is refused. */
    method Hide(name: string, hidden: bool) returns (ok: bool)
      requires Valid()
      modifies this`items
      ensures Valid()
      ensures ok <==> name in old(items)
      ensures !ok ==> items == old(items)
      ensures ok ==> items == old(items)[name := old(items)[name].(style := old(items)[name].style.(hidden := hidden))]
    {
      if name !in items {
        return false;
      }
      var a := items[name];
      var v := a.(style := a.style.(hidden := hidden));
      RegistryUpdate(items, name, v);
      items := items[name := v];
      ok := true;
    }

    /**
     * `setAppearance(name, appearance)` (lines 1117-1123): the custom look is
     * used from now on and the caches of that tree, and no others, are marked
     * changed. An unknown name is refused.
     */
    method SetAppearance(name: string, look: Look) returns (ok: bool)
      requires Valid()
      modifies this`items, Caches()`changed
      ensures Valid()
      ensures ok <==> name in old(items)
      ensures !ok ==> items == old(items)
      ensures ok ==>
        && items == old(items)[name := old(items)[name].(style := old(items)[name].style.(useDefaultAppearance := false, customAppearance := Some(look)))]
        && RobotLook(items[name].style) == Some(look)
        && forall c :: c in CachesOf(old(items)[name]) ==> c.changed
      ensures forall k, c :: k in old(items) && k != name && c in CachesOf(old(items)[k]) ==>
        old(allocated(c)) && c.changed == old(c.changed)
    {
      CachesExist();
      if name !in items {
        return false;
      }
      var a := items[name];
      var v := a.(style := a.style.(useDefaultAppearance := false, customAppearance := Some(look)));
      RegistryUpdate(items, name, v);
      items := items[name := v];
      MarkChanged(a);
      ok := true;
    }

    /**
     * `setAttribute(name, attr, value)` (lines 1125-1132): the attribute is
     * set, or removed for None, and the caches marked changed; the other
     * names' attributes and caches are left as they were. An unknown name is
     * refused.
     */
    method SetAttribute(name: string, attr: string, value: Option<AttrValue>) returns (ok: bool)
      requires Valid()
      modifies AttributeMaps()`entries, Caches()`changed
      ensures ok <==> name in items
      ensures ok ==> (attr in items[name].attributes.entries <==> value.Some?)
      ensures ok && value.Some? ==> items[name].attributes.entries == old(items[name].attributes.entries)[attr := value.value]
      ensures ok && value.None? ==> items[name].attributes.entries == old(items[name].attributes.entries) - {attr}
      ensures ok ==> forall c :: c in CachesOf(items[name]) ==> c.changed
      ensures forall k :: k in items && k != name ==> items[k].attributes.entries == old(items[k].attributes.entries)
      ensures forall k, c :: k in items && k != name && c in CachesOf(items[k]) ==> old(allocated(c)) && c.changed == old(c.changed)
    {
      CachesExist();
      if name !in items {
        return false;
      }
      var attributes := items[name].attributes;
      if value.Some? {
        attributes.entries := attributes.entries[attr := value.value];
      } else {
        attributes.entries := attributes.entries - {attr};
      }
      MarkChanged(items[name]);
      ok := true;
    }

    /**
     * `revertAppearance(name)` (lines 1134-1139): the default look is used
     * again and the caches of that tree, and no others, are marked changed.
     * An unknown name is refused.
     */
    method RevertAppearance(name: string) returns (ok: bool)
      requires Valid()
      modifies this`items, Caches()`changed
      ensures Valid()
      ensures ok <==> name in old(items)
      ensures !ok ==> items == old(items)
      ensures ok ==>
        && items == old(items)[name := old(items)[name].(style := old(items)[name].style.(useDefaultAppearance := true))]
        && !Overrides(items[name]) && RobotLook(items[name].style).None?
        && forall c :: c in CachesOf(old(items)[name]) ==> c.changed
      ensures forall k, c :: k in old(items) && k != name && c in CachesOf(old(items)[k]) ==>
        old(allocated(c)) && c.changed == old(c.changed)
    {
      CachesExist();
      if name !in items {
        return false;
      }
      var a := items[name];
      var v := a.(style := a.style.(useDefaultAppearance := true));
      RegistryUpdate(items, name, v);
      items := items[name := v];
      MarkChanged(a);
      ok := true;
    }

    /**
     * `setColor(name, r, g, b, a)` (lines 1141-1147): the colour attribute is
     * set, the default look dropped and the caches marked changed; the other
     * names' attributes and caches are left as they were. An unknown name is
     * refused.
     */
    method SetColor(name: string, red: real, green: real, blue: real, alpha: real) returns (ok: bool)
      requires Valid()
      modifies this`items, AttributeMaps()`entries, Caches()`changed
      ensures Valid()
      ensures ok <==> name in old(items)
      ensures !ok ==> items == old(items)
      ensures ok ==>
        && items == old(items)[name := old(items)[name].(style := old(items)[name].style.(useDefaultAppearance := false))]
        && items[name].attributes.entries == old(items[name].attributes.entries)["color" := Vector([red, green, blue, alpha])]
        && forall c :: c in CachesOf(old(items)[name]) ==> c.changed
      ensures forall k :: k in old(items) && k != name ==> items[k].attributes.entries == old(items[k].attributes.entries)
      ensures forall k, c :: k in old(items) && k != name && c in CachesOf(old(items)[k]) ==>
        old(allocated(c)) && c.changed == old(c.changed)
    {
      CachesExist();
      if name !in items {
        return false;
      }
      var a := items[name];
      a.attributes.entries := a.attributes.entries["color" := Vector([red, green, blue, alpha])];
      var v := a.(style := a.style.(useDefaultAppearance := false));
      RegistryUpdate(items, name, v);
      items := items[name := v];
      MarkChanged(a);
      ok := true;
    }
  }
}
