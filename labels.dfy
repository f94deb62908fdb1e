/**
 * Text labels gathered during one frame (`VisualizationPlugin.addLabel`,
 * visualization.py:971-976). A label is a point, the texts drawn there and a
 * colour; a new text joins the first label of the same colour within 0.1 of
 * its point, and otherwise starts a label of its own.
 */
module Labels {
  import opened Items

  datatype Label = Label(point: Config, texts: seq<Name>, color: Config)

  /** Squared Euclidean distance over the common coordinates, as `vectorops` zips its arguments. */
  function SqDist(p: Config, q: Config): (r: real)
    ensures r >= 0.0
    decreases |p|
  {
    if |p| == 0 || |q| == 0 then 0.0
    else (p[0] - q[0]) * (p[0] - q[0]) + SqDist(p[1..], q[1..])
  }

  /** `vectorops.distance(p, q) < 0.1`, stated on squares (both sides are non-negative). */
  predicate Near(p: Config, q: Config)
  {
    SqDist(p, q) < 0.01
  }

  /** Whether a text at `point` in `color` joins label `l`. */
  predicate Joins(l: Label, point: Config, color: Config)
  {
    l.color == color && Near(l.point, point)
  }

  /** The labels after adding `text` at `point` in `color`. */
  function Merged(labels: seq<Label>, text: Name, point: Config, color: Config): seq<Label>
    decreases |labels|
  {
    if labels == [] then [Label(point, [text], color)]
    else if Joins(labels[0], point, color) then [labels[0].(texts := labels[0].texts + [text])] + labels[1..]
    else [labels[0]] + Merged(labels[1..], text, point, color)
  }

  /** The number of texts over all labels. */
  function TextCount(labels: seq<Label>): nat
    decreases |labels|
  {
    if labels == [] then 0 else |labels[0].texts| + TextCount(labels[1..])
  }

  /**
   * The search loop of `addLabel`: the index of the first label the text
   * joins, or `|labels|` when there is none.
   */
  method FindLabel(labels: seq<Label>, point: Config, color: Config) returns (i: nat)
    ensures i <= |labels|
    ensures i < |labels| ==> Joins(labels[i], point, color)
    ensures forall j :: 0 <= j < i ==> !Joins(labels[j], point, color)
  {
    i := 0;
    while i < |labels|
      invariant i <= |labels|
      invariant forall j :: 0 <= j < i ==> !Joins(labels[j], point, color)
    {
      if labels[i].color == color && SqDist(labels[i].point, point) < 0.01 {
        return;
      }
      i := i + 1;
    }
  }

  /**
   * `Merged` does what the loop of `addLabel` does: if `i` is the first label
   * the text joins, the text is appended to that label's texts and nothing
   * else changes; if the text joins no label, one new label holding only this
   * text is appended.
   */
  lemma {:induction false} MergedAt(labels: seq<Label>, text: Name, point: Config, color: Config, i: nat)
    requires i <= |labels|
    requires i < |labels| ==> Joins(labels[i], point, color)
    requires forall j :: 0 <= j < i ==> !Joins(labels[j], point, color)
    ensures i < |labels| ==> Merged(labels, text, point, color) == labels[i := labels[i].(texts := labels[i].texts + [text])]
    ensures i == |labels| ==> Merged(labels, text, point, color) == labels + [Label(point, [text], color)]
    decreases |labels|
  {
    if labels == [] {
    } else if i == 0 {
      assert Joins(labels[0], point, color);
      assert [labels[0].(texts := labels[0].texts + [text])] + labels[1..] == labels[0 := labels[0].(texts := labels[0].texts + [text])];
    } else {
      assert !Joins(labels[0], point, color);
      var rest := labels[1..];
      assert forall j :: 0 <= j < i - 1 ==> rest[j] == labels[j + 1];
      MergedAt(rest, text, point, color, i - 1);
      if i < |labels| {
        assert [labels[0]] + rest[i - 1 := rest[i - 1].(texts := rest[i - 1].texts + [text])] == labels[i := labels[i].(texts := labels[i].texts + [text])];
      } else {
        assert [labels[0]] + (rest + [Label(point, [text], color)]) == labels + [Label(point, [text], color)];
      }
    }
  }

  /** Adding a text adds exactly one text to the total. */
  lemma {:induction false} MergedAddsOneText(labels: seq<Label>, text: Name, point: Config, color: Config)
    ensures TextCount(Merged(labels, text, point, color)) == TextCount(labels) + 1
    decreases |labels|
  {
    var r := Merged(labels, text, point, color);
    if labels == [] {
      assert r[1..] == [];
    } else if Joins(labels[0], point, color) {
      assert r[1..] == labels[1..];
    } else {
      assert r[1..] == Merged(labels[1..], text, point, color);
      MergedAddsOneText(labels[1..], text, point, color);
    }
  }

  /** Whether the text would join one of the labels. */
  predicate Joinable(labels: seq<Label>, point: Config, color: Config)
  {
    exists j :: 0 <= j < |labels| && Joins(labels[j], point, color)
  }

  /**
   * The number of labels grows by one exactly when the text joins no existing
   * label, and otherwise stays the same; existing labels keep their point and
   * colour, in order.
   */
  lemma MergedCount(labels: seq<Label>, text: Name, point: Config, color: Config)
    ensures |Merged(labels, text, point, color)| == if Joinable(labels, point, color) then |labels| else |labels| + 1
    ensures forall j :: 0 <= j < |labels| ==>
      Merged(labels, text, point, color)[j].point == labels[j].point &&
      Merged(labels, text, point, color)[j].color == labels[j].color
  {
    MergedLength(labels, text, point, color);
    MergedKeeps(labels, text, point, color);
  }

  /** The length part of MergedCount. */
  lemma {:induction false} MergedLength(labels: seq<Label>, text: Name, point: Config, color: Config)
    ensures |Merged(labels, text, point, color)| == if Joinable(labels, point, color) then |labels| else |labels| + 1
    decreases |labels|
  {
    if labels != [] && !Joins(labels[0], point, color) {
      var rest := labels[1..];
      MergedLength(rest, text, point, color);
      if Joinable(rest, point, color) {
        var j :| 0 <= j < |rest| && Joins(rest[j], point, color);
        assert Joins(labels[j + 1], point, color);
      }
      if Joinable(labels, point, color) {
        var j :| 0 <= j < |labels| && Joins(labels[j], point, color);
        assert j > 0 && Joins(rest[j - 1], point, color);
      }
    } else if labels != [] {
      assert Joins(labels[0], point, color);
    }
  }

  /** The point and colour part of MergedCount. */
  lemma {:induction false} MergedKeeps(labels: seq<Label>, text: Name, point: Config, color: Config)
    ensures |Merged(labels, text, point, color)| >= |labels|
    ensures forall j :: 0 <= j < |labels| ==>
      Merged(labels, text, point, color)[j].point == labels[j].point &&
      Merged(labels, text, point, color)[j].color == labels[j].color
    decreases |labels|
  {
    MergedLength(labels, text, point, color);
    if labels != [] && !Joins(labels[0], point, color) {
      var rest := labels[1..];
      MergedKeeps(rest, text, point, color);
      var r := Merged(labels, text, point, color);
      assert r == [labels[0]] + Merged(rest, text, point, color);
      forall j | 0 < j < |labels|
        ensures r[j].point == labels[j].point && r[j].color == labels[j].color
      {
        assert r[j] == Merged(rest, text, point, color)[j - 1];
        assert labels[j] == rest[j - 1];
      }
    }
  }
}
