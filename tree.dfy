/**
 * The appearance tree as a value.
 *
 * `VisAppearance.setItem` (visualization.py:555-574) gives an appearance one
 * sub-appearance per member of a coordinate group or hold. This module states
 * which members these are, and holds the settings every appearance has.
 */
module AppearanceTree {
  import opened Wrappers
  import opened Items

  // ---------------------------------------------------------------------------
  // Sub-appearances (setItem, lines 555-574)
  // ---------------------------------------------------------------------------

  /** The keys of `subAppearances`: ("Frame", n), ("Point", n), ("Direction", n), ("Subgroup", n), "ikConstraint", ("contact", i). */
  datatype SubKey =
    | FrameKey(frame: string)
    | PointKey(point: string)
    | DirectionKey(direction: string)
    | SubgroupKey(subgroup: string)
    | IKConstraintKey
    | ContactKey(contact: nat)

  /** The four member dictionaries of a coordinate group. */
  datatype GroupPart = Frames | Points | Directions | Subgroups

  /** A member that gets its own appearance, with the name that appearance is given. */
  datatype Member = Member(item: Item, name: Name)

  function KeyOf(part: GroupPart, n: string): SubKey
  {
    match part
    case Frames => FrameKey(n)
    case Points => PointKey(n)
    case Directions => DirectionKey(n)
    case Subgroups => SubgroupKey(n)
  }

  /** One member dictionary of a group, keyed as `setItem` keys it. */
  function Tagged(m: map<string, Item>, part: GroupPart): map<SubKey, Member>
  {
    map n | n in m :: KeyOf(part, n) := Member(m[n], Named(n))
  }

  /** The sub-appearances `setItem` creates for an item: one per group member, or the constraint and the contacts of a hold. */
  function SubItems(item: Item): map<SubKey, Member>
  {
    match item
    case Group(fs, ps, ds, gs) => Tagged(fs, Frames) + Tagged(ps, Points) + Tagged(ds, Directions) + Tagged(gs, Subgroups)
    case Hold(ik, cs) =>
      (if ik.Some? then map[IKConstraintKey := Member(ik.value, Named("ik"))] else map[]) +
      Contacts(cs)
    case _ => map[]
  }

  /** The contacts of a hold, keyed and named by their index. */
  function Contacts(cs: seq<Item>): map<SubKey, Member>
  {
    map i | 0 <= i < |cs| :: ContactKey(i) := Member(cs[i], Numbered(i))
  }

  /** The contact keys are exactly the indices of the contacts. */
  lemma {:induction false} ContactsAt(cs: seq<Item>)
    ensures forall i: nat :: ContactKey(i) in Contacts(cs) <==> i < |cs|
    ensures forall i: nat :: i < |cs| ==> Contacts(cs)[ContactKey(i)] == Member(cs[i], Numbered(i))
    ensures forall k :: k in Contacts(cs) ==> k.ContactKey?
  {
    forall i: nat | i < |cs| ensures ContactKey(i) in Contacts(cs) && Contacts(cs)[ContactKey(i)] == Member(cs[i], Numbered(i)) {
    }
  }

  /** Only groups and holds get sub-appearances. */
  lemma {:induction false} SubItemsOnlyComposites(item: Item)
    ensures SubItems(item) != map[] ==> item.Group? || item.Hold?
  {
  }

  /** The dictionary of a group that a part names. */
  function Part(item: Item, part: GroupPart): map<string, Item>
    requires item.Group?
  {
    match part
    case Frames => item.frames
    case Points => item.points
    case Directions => item.directions
    case Subgroups => item.subgroups
  }

  /** The group dictionary a key comes from, if it comes from one. */
  function KeyPart(k: SubKey): Option<GroupPart>
  {
    match k
    case FrameKey(_) => Some(Frames)
    case PointKey(_) => Some(Points)
    case DirectionKey(_) => Some(Directions)
    case SubgroupKey(_) => Some(Subgroups)
    case _ => None
  }

  /** One member dictionary, keyed: a key per member, holding that member under its name. */
  lemma {:induction false} TaggedAt(m: map<string, Item>, part: GroupPart)
    ensures forall n :: KeyOf(part, n) in Tagged(m, part) <==> n in m
    ensures forall n :: n in m ==> Tagged(m, part)[KeyOf(part, n)] == Member(m[n], Named(n))
  {
    forall n | KeyOf(part, n) in Tagged(m, part) ensures n in m {
      var n' :| n' in m && KeyOf(part, n') == KeyOf(part, n);
    }
  }

  /** Every key of one member dictionary is tagged with that dictionary. */
  lemma {:induction false} TaggedPart(m: map<string, Item>, part: GroupPart)
    ensures forall k :: k in Tagged(m, part) ==> KeyPart(k) == Some(part)
  {
  }

  /**
   * A group gets one sub-appearance per member of each of its four
   * dictionaries, keyed by that dictionary and named by the member's name.
   */
  lemma {:induction false} GroupSubItems(item: Item, part: GroupPart)
    requires item.Group?
    ensures forall n :: KeyOf(part, n) in SubItems(item) <==> n in Part(item, part)
    ensures forall n :: n in Part(item, part) ==> SubItems(item)[KeyOf(part, n)] == Member(Part(item, part)[n], Named(n))
  {
    forall n
      ensures KeyOf(part, n) in SubItems(item) <==> n in Part(item, part)
      ensures n in Part(item, part) ==> SubItems(item)[KeyOf(part, n)] == Member(Part(item, part)[n], Named(n))
    {
      var k := KeyOf(part, n);
      assert k in Tagged(Part(item, part), part) <==> n in Part(item, part);
      forall other | other != part ensures k !in Tagged(Part(item, other), other) {
        TaggedPart(Part(item, other), other);
      }
    }
  }

  /** A group has no sub-appearance besides its members. */
  lemma {:induction false} GroupKeysTagged(item: Item)
    requires item.Group?
    ensures forall k :: k in SubItems(item) ==> KeyPart(k).Some?
  {
    TaggedPart(item.frames, Frames);
    TaggedPart(item.points, Points);
    TaggedPart(item.directions, Directions);
    TaggedPart(item.subgroups, Subgroups);
  }

  /**
   * A hold gets "ikConstraint" exactly when it has a constraint, named "ik",
   * and one ("contact", i) per contact, named by its index, and no other.
   */
  lemma {:induction false} HoldSubItems(item: Item)
    requires item.Hold?
    ensures IKConstraintKey in SubItems(item) <==> item.ikConstraint.Some?
    ensures IKConstraintKey in SubItems(item) ==> SubItems(item)[IKConstraintKey] == Member(item.ikConstraint.value, Named("ik"))
    ensures forall i: nat :: ContactKey(i) in SubItems(item) <==> i < |item.contacts|
    ensures forall i: nat :: i < |item.contacts| ==> SubItems(item)[ContactKey(i)] == Member(item.contacts[i], Numbered(i))
    ensures forall k :: k in SubItems(item) ==> k.IKConstraintKey? || k.ContactKey?
  {
    ContactsAt(item.contacts);
  }

  /** Every member is structurally smaller than the item it belongs to. */
  lemma {:induction false} SubItemsSmaller(item: Item)
    ensures forall k :: k in SubItems(item) ==> SubItems(item)[k].item < item
  {
    if item.Hold? {
      HoldSubItems(item);
      forall k | k in SubItems(item) ensures SubItems(item)[k].item < item {
        if k.ContactKey? {
          assert item.contacts[k.contact] in item.contacts;
        }
      }
    }
  }

  // ---------------------------------------------------------------------------
  // Settings
  // ---------------------------------------------------------------------------

  /** How an appearance is shown: `hidden`, `useDefaultAppearance`, `customAppearance`. */
  datatype Style = Style(hidden: bool, useDefaultAppearance: bool, customAppearance: Option<Look>)

  /** The animation of an appearance: `animation`, `animationStartTime`, `animationSpeed`. */
  datatype Clock = Clock(animation: Option<Trajectory>, animationStartTime: real, animationSpeed: real)

  /** The settings of a new appearance (lines 538-545): shown, default look, no animation. */
  const DefaultStyle := Style(false, true, None)
  const DefaultClock := Clock(None, 0.0, 1.0)
}
