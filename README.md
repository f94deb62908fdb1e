# Klampt visualization: display caches, appearances and the item registry

This project models the drawing core of Klampt's Python visualizer,
`Python/klampt/vis/visualization.py`. The core has three classes:

- `CachedGLObject` draws an object through an OpenGL display list. The
  list is compiled once, with `GL_COMPILE_AND_EXECUTE`. It is replayed
  while it stays valid. It is recompiled when it is missing, when it is
  marked changed, or when it is drawn with other parameters. A guard
  makes a nested draw, issued while the list is compiling, run the render
  procedure directly.
- `VisAppearance` says how one scene item is shown: hidden or not, a
  custom look or a colour, an animation, shared attributes, a list of
  display caches, and one sub-appearance per member of a coordinate
  group or of a contact hold. Its `draw` chooses, by the item's kind,
  what to draw and through which caches. Its `update` and
  `swapDrawConfig` pose the item at the animation time around a draw.
- `VisualizationPlugin` is the registry of named items. It also holds
  the animation clock and the display loop, which updates, swaps, draws
  and swaps every item, then draws the collected name labels.

The model is written in these modules:

- `GLTrace` (`gl_trace.dfy`) models the OpenGL context. It is a trace of
  calls, plus an interpreter (`Run`) that gives display lists their
  meaning.
- `Cache` (`cache.dfy`) is the `CachedGLObject` class. Its methods are
  proved against pure functions of its four fields. The cache rules are
  lemmas about those functions, including that a draw executes exactly
  what a direct render would.
- `Items` (`items.dfy`) holds the item kinds `draw` distinguishes. It
  also holds the configuration adapter, the per-appearance swap, the
  filter for values of ambiguous type, and milestone animations.
- `AppearanceTree` (`tree.dfy`) says which sub-appearances `setItem`
  creates.
- `Appearances` (`appearance.dfy`) models an appearance as a value. Its
  caches and its attribute dictionary are heap objects, so they are
  shared as in the source. `update` and `swapDrawConfig` are functions
  over the tree.
- `DrawPlans` (`plan.dfy`) is `draw` for a leaf item, at the level of
  control. It decides which caches are drawn, with which parameters, and
  where the label goes.
- `Labels` (`labels.dfy`) models label merging by `addLabel`.
- `Visualization` (`visualization.dfy`) holds the methods of
  `VisAppearance` that touch caches, and the `VisualizationPlugin` class.

Errors the source raises as `KeyError` on an unknown item name are
modelled as methods that return `ok == false` and change nothing. That is
the evident intent, not what the source does: every plugin method takes
the global `_globalLock` (a plain `threading.Lock`, line 203) and releases
it only on the normal path, with no `finally`. After a `KeyError` the
lock stays held, and the display thread blocks at its next `acquire`
(1215).

Several lines of the source cannot run as written. Each is modelled as
its evident intent:

- In `add`, the `keepAppearance` branch never binds `app` (1038-1045).
  It is modelled as `setItem` on the existing appearance, which stays
  registered.
- `dirty('all')` tests an unbound tuple instead of looping (1020). It is
  modelled as a loop over every item.
- `revertAppearance` assigns the misspelled `useDefaultApperance`
  (1137). It is modelled as setting `useDefaultAppearance`.
- `setItemConfig` calls `getConfig` with unbound names (1101). It is
  modelled as `config.setConfig` on the item.
- For an IK goal without position dimensions, the name label is placed
  with `se3.apply` on `wp`, a bare point rather than a transform (950).
  It is modelled as the offset `vectorops.add` the other branch uses (920).
- The constructor sets the attributes `animate = True` and
  `animationTime = 0` (965-966), which shadow the methods `animate`
  (1048) and `animationTime` (1073) on every plugin object. The
  forwarding functions `vis.animate` (390) and `vis.animationTime` (411)
  therefore fail, calling a `bool` or an `int`. Both methods are modelled
  as callable, under the names `Animate` and `AnimationTime`, beside the
  two attributes.
- The `config` module is never imported. It is assumed to be available.
- The Config check in the ambiguous-type filter compares `len(t)` on the
  type name (776). It is modelled as comparing the value's length with
  the first robot's link count.

## Model

| member | source | states |
|---|---|---|
| GLTrace.GLContext.GenList | Python/klampt/vis/visualization.py:511-513 | `glGenLists(1)` hands out a positive name that no allocation in the trace has handed out before, and records the allocation; the context stays valid: every name handed out is below the next one |
| Cache.CachedGLObject.constructor | Python/klampt/vis/visualization.py:475-484 | a new cache has no list, is clean, has no parameters and is not compiling |
| Cache.CachedGLObject.Destroy | Python/klampt/vis/visualization.py:486-490 | the list, if any, is deleted with one `glDeleteLists` call and the cache is left without a list |
| Cache.CachedGLObject.MarkChanged | Python/klampt/vis/visualization.py:492-495 | only the dirty bit changes, and it is set |
| Cache.CachedGLObject.Draw | Python/klampt/vis/visualization.py:497-533 | the new fields and the calls made are exactly `DrawStep` / `DrawEvents`: a direct run while re-entered, a compile when stale, a replay otherwise; a new list name is taken only when none was held |
| Cache.CachedGLObject.CallList | Python/klampt/vis/visualization.py:527-533 | a valid list is replayed between a push and a pop of the transform, or bare without one |
| Cache.CachedGLObject.Recompile | Python/klampt/vis/visualization.py:508-526 | the parameters are stored, the dirty bit is cleared, a list is allocated if missing, and the list is compiled under the transform |
| Cache.CachedGLObject.CompileInto | Python/klampt/vis/visualization.py:515-526 | `glNewList`, the render calls and `glEndList`, framed by the transform, with the recursion guard set only in between |
| Cache.CachedGLObject.RunRender | Python/klampt/vis/visualization.py:505-507 | while compiling, the render procedure's nested draws of the same cache run directly, so only primitives are issued and no field changes |
| Cache.RecompileRule | Python/klampt/vis/visualization.py:508-533 | a draw that is not re-entered compiles if and only if the list is missing, dirty or built from other parameters, and replays if and only if not; a compile stores the parameters and clears the dirty bit; a replay changes nothing |
| Cache.NestedDrawIsDirect | Python/klampt/vis/visualization.py:505-507 | a draw while compiling allocates, compiles and replays nothing and changes no field |
| Cache.AllocatedOnce | Python/klampt/vis/visualization.py:511-513 | a draw allocates if and only if it is not re-entered and finds no list; an existing list is kept |
| Cache.RepeatedDrawReplays | Python/klampt/vis/visualization.py:508-510 | after a draw, drawing again with the same parameters is not stale |
| Cache.MarkedForcesCompile | Python/klampt/vis/visualization.py:492-495 | after `markChanged` the next draw compiles, whatever the parameters |
| Cache.DestroyIdempotent | Python/klampt/vis/visualization.py:486-490 | destroying twice releases nothing the second time, and the next draw must compile |
| Cache.SteadyDrawsReplay | Python/klampt/vis/visualization.py:508-533 | a valid cache drawn again and again with its own parameters never compiles |
| Cache.SteadyDrawsCompileOnce | Python/klampt/vis/visualization.py:501-533 | draws with unchanged parameters and no `markChanged` compile at most once: once if stale at the start, never otherwise |
| Cache.RunCompile | Python/klampt/vis/visualization.py:519-523 | `GL_COMPILE_AND_EXECUTE` executes the body and stores it in the list |
| Cache.CompileAround | Python/klampt/vis/visualization.py:515-526 | compiling under a transform executes the body under it and stores the bare body in the list |
| Cache.DrawExecutesDirectly | Python/klampt/vis/visualization.py:497-533 | if the list, when valid, holds the rendering (the determinism the docstring asks of callers), any draw that is not re-entered executes exactly the render calls under the transform, without GL error, and leaves the rendering in the list |
| Cache.StaleDrawExecutes | Python/klampt/vis/visualization.py:508-526 | the compile branch executes the rendering under the transform and stores it in the list |
| Cache.ValidDrawExecutes | Python/klampt/vis/visualization.py:527-533 | the replay branch executes the stored rendering under the transform and changes nothing else |
| Items.SetConfig | Python/klampt/vis/visualization.py:609-612 | the adapter succeeds if and only if the item has a configuration of the given length, and then the item reads back that configuration |
| Items.SetConfigRoundTrip | Python/klampt/vis/visualization.py:610-612 | posing an item and then posing it at its old configuration gives the item back |
| Items.Swapped | Python/klampt/vis/visualization.py:605-616 | a truthy drawConfig the adapter accepts is applied: the item takes the drawConfig and the drawConfig receives the old configuration; a falsy drawConfig, or a raised exception, leaves both |
| Items.SwapTwice | Python/klampt/vis/visualization.py:605-616 | two swaps in a row restore the item and its drawConfig |
| Items.SwapAroundDraw | Python/klampt/vis/visualization.py:986-988 | when the draw changes only the posed item's look, the second swap restores the item's configuration and the drawConfig |
| Items.SwappedIgnoresLook | Python/klampt/vis/visualization.py:605-616 | the swap does not depend on an item's look |
| Items.ValidTypes | Python/klampt/vis/visualization.py:773-781 | the kept candidates are exactly the admissible ones, and no more of them than were given |
| Items.ValidTypesEmpty | Python/klampt/vis/visualization.py:785-787 | nothing is kept if and only if no candidate is admissible |
| Items.ValidTypesSingle | Python/klampt/vis/visualization.py:782-788 | exactly one type is kept if and only if exactly one position holds an admissible type |
| Items.Resolve | Python/klampt/vis/visualization.py:770-788 | a single type is used as it is; among candidates drawing goes ahead if and only if exactly one is admissible, and then with that type |
| Items.MilestoneAtKnot | Python/klampt/vis/visualization.py:1051-1054 | the looping trajectory made from milestones shows every milestone but the last, milestone i, at time i |
| AppearanceTree.SubItemsOnlyComposites | Python/klampt/vis/visualization.py:555-574 | only groups and holds get sub-appearances |
| AppearanceTree.GroupSubItems | Python/klampt/vis/visualization.py:559-567 | a group gets one sub-appearance per member of each of its four dictionaries, keyed by the dictionary and named by the member |
| AppearanceTree.GroupKeysTagged | Python/klampt/vis/visualization.py:559-567 | a group has no other sub-appearance |
| AppearanceTree.HoldSubItems | Python/klampt/vis/visualization.py:568-572 | a hold gets "ikConstraint", named "ik", if and only if it has a constraint, and one ("contact", i) per contact, named i, and nothing else |
| Appearances.UpdatePoses | Python/klampt/vis/visualization.py:594-603 | `update(t)` gives every appearance of the tree the pose of its animation at t, or none, and changes nothing else |
| Appearances.SwapConfigsTwice | Python/klampt/vis/visualization.py:605-618 | two tree-wide swaps restore every item and every drawConfig |
| Appearances.FramePassRestores | Python/klampt/vis/visualization.py:985-988 | swap, draw, swap leaves the updated tree as it was, up to looks, caches and saved looks |
| Appearances.FrameKeepsCaches | Python/klampt/vis/visualization.py:594-618 | `update` and `swapDrawConfig` leave every cache list where it is |
| DrawPlans.IKPlan | Python/klampt/vis/visualization.py:835-950 | an IK goal draws nothing if and only if there is no robot; with one, the list is grown to three caches and the label goes at the goal's offset point; the plan draws each slot at most once, below that length |
| DrawPlans.PlanFor | Python/klampt/vis/visualization.py:654-950 | a plan draws each cache slot at most once, below the list length it asks for; the item is drawn natively if and only if it draws itself or is a configuration resolved for a robot, directly if and only if it is a frame; groups and holds draw nothing; a contact point is cached and unlabelled |
| DrawPlans.IKGrowth | Python/klampt/vis/visualization.py:836-840 | the cache list is grown to three slots if and only if the item is an IK goal with a robot; every other cached item uses one slot |
| DrawPlans.IKSlots | Python/klampt/vis/visualization.py:843-948 | an IK goal draws the connecting curve in slot 2 if and only if it has position dimensions, and draws nothing if and only if it constrains nothing |
| DrawPlans.AmbiguousSkip | Python/klampt/vis/visualization.py:770-788 | a value with no admissible candidate, or with several, is not drawn; with exactly one it is drawn as that type |
| DrawPlans.Grown | Python/klampt/vis/visualization.py:839-840 | growing keeps the existing caches, reaches the requested length, and adds only new caches |
| DrawPlans.DrawUsesSlots | Python/klampt/vis/visualization.py:843-947 | every slot a plan draws ends with a list valid for its parameters, keeping its list if it had one; every other slot is untouched; list names only move forward |
| DrawPlans.DrawUsesSteady | Python/klampt/vis/visualization.py:527-533 | a frame whose slots are all valid compiles nothing, allocates nothing and changes no cache |
| Labels.FindLabel | Python/klampt/vis/visualization.py:972-975 | the index found is the first label of the same colour within 0.1 of the point, or the end |
| Labels.MergedAt | Python/klampt/vis/visualization.py:971-976 | the text joins the first matching label and nothing else changes; with no match one new label holding only the text is appended |
| Labels.MergedAddsOneText | Python/klampt/vis/visualization.py:971-976 | adding a label adds exactly one text in total |
| Labels.MergedCount | Python/klampt/vis/visualization.py:971-976 | the number of labels grows by one if and only if no label matches; existing labels keep their point and colour, in order |
| Visualization.NewAppearance | Python/klampt/vis/visualization.py:536-554 | a new appearance has default settings, no animation, a new empty attribute dictionary, one cache of its own, and sub-appearances sharing its attributes; every cache of the tree is a newly made object in its initial state, and no cache occurs twice anywhere in the tree |
| Visualization.SetItem | Python/klampt/vis/visualization.py:555-574 | the item is replaced and the sub-appearances rebuilt, one per member, each with newly made caches and the parent's attribute dictionary; every other field is kept; a tree whose own list has no repeat then holds no cache twice |
| Visualization.NewMembers | Python/klampt/vis/visualization.py:559-574 | one appearance per member, under the member's key, with the shared attributes; every cache is newly made, and no two members share a cache |
| Visualization.MarkChanged | Python/klampt/vis/visualization.py:576-580 | every cache of the tree is marked changed |
| Visualization.MarkList | Python/klampt/vis/visualization.py:577-578 | every cache of the list is marked changed |
| Visualization.Destroy | Python/klampt/vis/visualization.py:582-587 | every cache of the tree loses its list, only deletions are issued, one for every list held, and the sub-appearances are dropped |
| Visualization.DestroyList | Python/klampt/vis/visualization.py:583-584 | every cache of the list loses its list, with a deletion for each list it held |
| Visualization.DrawText | Python/klampt/vis/visualization.py:589-592 | the name is added as a black label unless "text_hidden" is truthy |
| Visualization.GrowCaches | Python/klampt/vis/visualization.py:839-840 | the cache list is extended with new caches to the requested length, keeping the existing ones in place |
| Visualization.RunUses | Python/klampt/vis/visualization.py:673-947 | the cache draws of a plan, in order, leave the caches and the trace as `DrawUses` says |
| Visualization.DrawLeaf | Python/klampt/vis/visualization.py:654-950 | the leaf's plan is carried out on its caches (grown first if needed) with the outcome `Outcome` gives, then the name label is drawn at the plan's position |
| Visualization.Draw | Python/klampt/vis/visualization.py:636-956 | a hidden appearance draws nothing; otherwise the look is saved once and put back, a leaf is drawn by its plan, and nothing but looks, caches and labels changes; the caches it adds are none that existed before (`avoid`), so the tree still holds no cache twice |
| Visualization.DrawSelf | Python/klampt/vis/visualization.py:645-656 | an item that draws itself or has no sub-appearances is drawn by its plan on the appearance's own caches |
| Visualization.DrawKids | Python/klampt/vis/visualization.py:657-660 | every sub-appearance is drawn in the same world, each changing only what drawing changes; they still share no cache with each other or with the parent's list, and the caches added are none that existed before |
| Visualization.DrawFramed | Python/klampt/vis/visualization.py:982-989 | update, swap, draw and swap leave the item as its update at t, up to looks, caches and saved looks; the caches added are none that existed before |
| Visualization.LabelEvents | Python/klampt/vis/visualization.py:990-1003 | one text call per label, in order, with the label's point, texts and colour |
| Visualization.AnimatedMilestone | Python/klampt/vis/visualization.py:1048-1057 | an animation from milestones, started at s with speed v, shows every milestone but the last, milestone i, at time s + i/v |
| Visualization.DrawAll | Python/klampt/vis/visualization.py:982-989 | every registered item is drawn, each framed by update and the two swaps; the trees stay apart: no cache twice, none shared between names, no shared attribute dictionary |
| Visualization.Advanced | Python/klampt/vis/visualization.py:1009-1014 | the animation time advances by the elapsed clock time if and only if animating |
| Visualization.VisualizationPlugin.constructor | Python/klampt/vis/visualization.py:960-966 | an empty registry, no labels, the clock reading, animating, at animation time 0 |
| Visualization.VisualizationPlugin.ItemConfig | Python/klampt/vis/visualization.py:1091-1096 | the configuration of the named item, and none for an unknown name |
| Visualization.VisualizationPlugin.AddLabel | Python/klampt/vis/visualization.py:971-976 | the labels become `Merged`, which `MergedAt` and `MergedCount` characterise |
| Visualization.VisualizationPlugin.Display | Python/klampt/vis/visualization.py:978-991 | every item ends as its update at the animation time, up to what drawing changes; the trace only grows and ends with one text call per collected label |
| Visualization.VisualizationPlugin.DrawItems | Python/klampt/vis/visualization.py:980-989 | every item is drawn in the world registered as "world" and ends as its update, up to what drawing changes |
| Visualization.VisualizationPlugin.EmitLabels | Python/klampt/vis/visualization.py:990-991 | exactly the label text calls are appended |
| Visualization.VisualizationPlugin.Idle | Python/klampt/vis/visualization.py:1009-1014 | the clock is read, the animation time advances only while animating, and no redraw is requested |
| Visualization.VisualizationPlugin.Dirty | Python/klampt/vis/visualization.py:1016-1024 | "all" marks every cache changed and a known name marks that tree's caches and leaves every other tree's dirty bits as they were; any other name is refused |
| Visualization.VisualizationPlugin.MarkAll | Python/klampt/vis/visualization.py:1019-1021 | every cache of every tree is marked changed |
| Visualization.VisualizationPlugin.Clear | Python/klampt/vis/visualization.py:1026-1032 | every list of every tree is released with deletions only, and the registry is emptied; the context stays valid |
| Visualization.VisualizationPlugin.Add | Python/klampt/vis/visualization.py:1035-1046 | with keepAppearance and an existing entry, the entry takes the item, with one sub-appearance per member of the new item, made for it, sharing the entry's attribute dictionary and of newly made caches, and makes no GL call; otherwise the old tree is destroyed and a new one, all of newly made caches, registered; no other name changes and every other tree keeps its display lists; the trees stay apart |
| Visualization.VisualizationPlugin.KeepAppearance | Python/klampt/vis/visualization.py:1038-1039 | the existing appearance takes the new item and keeps all its settings; its new sub-appearances are one per member of the new item, each made for that member with default settings and the appearance's attribute dictionary, and of newly made caches; the trees stay apart |
| Visualization.VisualizationPlugin.Renew | Python/klampt/vis/visualization.py:1040-1046 | the old tree's lists are released and a new appearance, all of newly made caches in their initial state, is registered; every other tree keeps its lists; the trees stay apart |
| Visualization.VisualizationPlugin.Animate | Python/klampt/vis/visualization.py:1048-1059 | the animation (milestones become a looping trajectory) starts now with the given speed, and that tree's caches, and no other tree's, are marked changed; an unknown name is refused |
| Visualization.VisualizationPlugin.PauseAnimation | Python/klampt/vis/visualization.py:1061-1065 | animating becomes not paused |
| Visualization.VisualizationPlugin.StepAnimation | Python/klampt/vis/visualization.py:1067-1071 | the animation time advances by the amount |
| Visualization.VisualizationPlugin.AnimationTime | Python/klampt/vis/visualization.py:1073-1082 | a given time is set; the current time is returned |
| Visualization.VisualizationPlugin.Remove | Python/klampt/vis/visualization.py:1084-1089 | the tree's lists are released and the name dropped; every remaining tree keeps its lists; an unknown name is refused and nothing changes |
| Visualization.VisualizationPlugin.SetItemConfig | Python/klampt/vis/visualization.py:1098-1102 | the item takes the configuration and `ItemConfig` reads it back; an unknown name or a wrong length is refused |
| Visualization.VisualizationPlugin.HideLabel | Python/klampt/vis/visualization.py:1104-1109 | "text_hidden" is set, so labels are suppressed if and only if hidden, and the caches are marked changed; every other name keeps its attributes and its dirty bits |
| Visualization.VisualizationPlugin.Hide | Python/klampt/vis/visualization.py:1111-1115 | only the hidden flag changes |
| Visualization.VisualizationPlugin.SetAppearance | Python/klampt/vis/visualization.py:1117-1123 | the custom look is used from now on, including for configurations drawn on a robot, and the caches are marked changed; every other tree keeps its dirty bits |
| Visualization.VisualizationPlugin.SetAttribute | Python/klampt/vis/visualization.py:1125-1132 | the attribute is present afterwards if and only if the value is not None, holding the value; the caches are marked changed; every other name keeps its attributes and its dirty bits |
| Visualization.VisualizationPlugin.RevertAppearance | Python/klampt/vis/visualization.py:1134-1139 | the default look is used again, so `draw` overrides nothing, and the caches are marked changed; every other tree keeps its dirty bits |
| Visualization.VisualizationPlugin.SetColor | Python/klampt/vis/visualization.py:1141-1147 | the "color" attribute holds (r, g, b, a), the default look is dropped and the caches are marked changed; every other name keeps its attributes and its dirty bits |

## Left out

- The OpenGL window, the GL and Qt program classes, the threads and the global lock (lines 210-361 and 1154-1372) are not modelled. Every method runs as one atomic step, so the lock has no counterpart.
- The module-level aliases (365-465) only forward to the plugin, so they are not modelled.
- `Python/klampt/vis/glinit.py`, `Cpp/Main/SimTestQt/driveredit.cpp` and `Simulation/ODECustomGeometry.h` are not part of this model.
- Geometry is not modelled. The `se3`, `so3`, `vectorops`, `spline` and `gldraw` calls are left out. A transform is a placement at the item's own coordinates, parameters are the item's configuration, and each render procedure is a named shape. The caches' `name` field (551, 841-842) is not modelled either; it only labels the cache.
- `clearDisplayLists` (620-634) refreshes the items' own appearance objects. Those lie outside the model, so it is left out.
- `_drawLabelRaw` (993-1003) is modelled as one text call per label. The commas between texts, the per-text offset and the lighting and depth switches are left out. The `assert self.window != None` is not modelled either.
- The `self == None` branch of `animationTime` (1075-1077) cannot be reached through a plugin object, so it is left out.
- `time.time()` is a parameter of the constructor and of `Idle`.
- Appearances are values, not objects. A drawn tree is returned and stored again instead of being updated in place. The caches and attribute dictionaries stay shared heap objects.
- The `widget` back-reference is not a field. Drawing is given the plugin directly.
- `oldAppearance` is kept once saved, as in the source, and is never cleared.
- `setItem` does not destroy the old sub-appearances' caches; neither does the source.
- A plugin method and an attribute share the names `animate` and `animationTime`. The model keeps the attributes and gives the methods other names, so the methods stay callable; in the source the attributes hide them (965-966), as listed above.
- GLTrace.GLContext.GenList: a display-list name is never handed out twice. OpenGL may hand out again a name that `glDeleteLists` has freed; nothing in the visualizer depends on either behaviour.
- Items.SetConfig: the `config` adapter is not part of this model, and its behaviour is assumed. Only items that draw themselves, points, directions, frames, transforms and raw configurations have a configuration; IK goals, contact points, groups and holds have none. `setConfig` is assumed to raise exactly when the item has no configuration or the length differs, and otherwise to give the item posed at the new configuration. `Items.Swapped`, `Items.SwapTwice`, `Items.SwapAroundDraw` and `Appearances.SwapConfigsTwice` rest on these assumptions.
- DrawPlans.PlanFor: a "world" entry with no robot, or a truthy "world" entry that is not a world model, is taken as a world without robots, so a Config candidate is dropped and a Config value is not drawn. In the source `world.robot(0)` raises there (776, 790-791), and `display` (982-991) would abandon the rest of the frame and its labels.
- Items.Admissible: a Config candidate needs a first robot; where the source's `world.robot(0)` would raise (776), the candidate is dropped instead, as for `DrawPlans.PlanFor`.
- A "color" attribute that is not a vector is ignored by `DressedLook`. In the source it would raise.
- Render procedures are assumed not to raise. In the source one can, for instance `glColor4f` on a three-element "color" set through `setAttribute` (667, 682, 758, 811). Lines 519-523 have no `try`/`finally`, so the cache would stay marked as compiling, so every later draw of it would run directly, the open `glNewList` would never be closed, and `display` would abandon the frame.
- DrawPlans.IKPlan: the label of a named IK goal without position dimensions is placed at the goal's offset point. In the source, line 950 raises there, and `display` (982-991) would abandon the rest of the frame and its labels.
- Items.MilestonePose: the looping evaluation of a trajectory through milestones one time unit apart is assumed, because `Python/klampt/model/trajectory.py` is not part of this model. Empty milestones evaluate to the empty configuration.
- Items.MilestoneAtKnot: covers every milestone but the last. At the end of a period the loop shows the first milestone again, and the assumed looping semantics decides that case.
- Visualization.AnimatedMilestone: covers every milestone but the last, on the same assumed looping semantics as `Items.MilestonePose`.
- The loops over items and sub-appearances visit keys in an arbitrary order, standing for Python's `dict` order.
- A world item is captured by value when the display loop starts, as the source reads it once.
- Drawing a configuration on the world's first robot is one native call with the custom look. The source instead saves the robot's look and configuration, draws, and restores them.
- Visualization.Draw: for an appearance with sub-appearances it states only that the tree agrees with the input up to looks, caches and saved looks, and that the trace only grows. It does not state which calls are made.
- Visualization.DrawKids: states only agreement up to drawing and trace growth, as for `Draw`.
- Visualization.DrawFramed: states only agreement up to drawing and trace growth, not the calls made.
- Visualization.DrawAll: states only agreement up to drawing and trace growth, not the calls made.
- Visualization.VisualizationPlugin.DrawItems: states only agreement up to drawing and trace growth, not the calls made.
- Visualization.VisualizationPlugin.Display: states which calls end the trace, but not which labels were collected.
- Visualization.VisualizationPlugin.Add: the release of the old tree's lists is stated only for caches allocated before the call.
- Visualization.VisualizationPlugin.Renew: the release of the old tree's lists is stated only for caches allocated before the call.
- Visualization.VisualizationPlugin.Clear: states that every list is gone and that only deletions are issued. It does not pair each deletion with a list, as `Destroy` does.
- Visualization.VisualizationPlugin.Remove: states that every list is gone and that only deletions are issued. It does not pair each deletion with a list.
- Visualization.VisualizationPlugin.ItemConfig: None stands both for an unknown name (a `KeyError` in the source) and for an item without a configuration.
- Visualization.Destroy: each deletion is paired with its list only for caches allocated before the call, which every cache of a registered tree is.
