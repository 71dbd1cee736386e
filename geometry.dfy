/**
 * The detected-geometry payload of a stage result and the panel's hit test: which
 * model, if any, lies under an image pixel.
 */
module Geometry {
  import opened Options

  /** A point with fractional coordinates (OpenCV's Point, Java's double fields). */
  datatype Point2 = Point2(x: real, y: real)

  /** An image pixel, as the mouse reports it. */
  datatype Pixel = Pixel(x: int, y: int)

  /**
   * A result's model: one of the three shapes the hit test knows, a list of models
   * (whose entries may be null), or any other object.
   */
  datatype Model =
    | RotatedRect(center: Point2, width: real, height: real, angle: real)
    | KeyPoint(pt: Point2, size: real, angle: real)
    | Circle(x: real, y: real, diameter: real)
    | ModelList(items: seq<Option<Model>>)
    | Other(description: string)

  /** Per-axis distance, in pixels, below which a point hits a model. */
  const Tolerance: real := 5.0

  function Abs(v: real): real {
    if v < 0.0 then -v else v
  }

  /** The per-axis strict box test around a reference point. */
  predicate Near(p: Pixel, c: Point2) {
    Abs(p.x as real - c.x) < Tolerance && Abs(p.y as real - c.y) < Tolerance
  }

  /**
   * `isModelAtPoint`: a rotated rectangle is tested at its center, a key point at
   * its point, a circle at its own x and y; nothing else ever matches.
   */
  predicate IsModelAtPoint(model: Option<Model>, p: Pixel) {
    match model
    case Some(RotatedRect(c, _, _, _)) => Near(p, c)
    case Some(KeyPoint(pt, _, _)) => Near(p, pt)
    case Some(Circle(x, y, _)) => Near(p, Point2(x, y))
    case _ => false
  }

  /** The position of the first entry that matches, or -1 when none does. */
  function FirstMatch(items: seq<Option<Model>>, p: Pixel): (k: int)
    ensures -1 <= k < |items|
    ensures 0 <= k ==> IsModelAtPoint(items[k], p)
    ensures forall j :: 0 <= j < |items| && (k < 0 || j < k) ==> !IsModelAtPoint(items[j], p)
  {
    if items == [] then -1
    else if IsModelAtPoint(items[0], p) then 0
    else
      var k := FirstMatch(items[1..], p);
      assert forall j :: 1 <= j < |items| ==> items[j] == items[1..][j - 1];
      if k < 0 then -1 else k + 1
  }

  /**
   * The hit test behind `getModelAtPoint`: a list yields its first matching entry in
   * order, any other model itself when it matches; otherwise nothing.
   */
  function HitTest(model: Option<Model>, p: Pixel): (r: Option<Model>)
    ensures r.Some? ==> IsModelAtPoint(r, p)
    ensures model.None? ==> r.None?
    ensures model.Some? && !model.value.ModelList? ==>
      (r == model <==> IsModelAtPoint(model, p)) && (r.None? <==> !IsModelAtPoint(model, p))
    ensures model.Some? && model.value.ModelList? ==>
      (r.None? <==> forall j :: 0 <= j < |model.value.items| ==> !IsModelAtPoint(model.value.items[j], p))
  {
    match model
    case Some(ModelList(items)) =>
      var k := FirstMatch(items, p);
      if k < 0 then None else items[k]
    case _ =>
      if IsModelAtPoint(model, p) then model else None
  }

  /** A list entry that matches with no earlier match is what the hit test returns. */
  lemma HitTestFindsFirst(items: seq<Option<Model>>, p: Pixel, k: nat)
    requires k < |items| && IsModelAtPoint(items[k], p)
    requires forall j :: 0 <= j < k ==> !IsModelAtPoint(items[j], p)
    ensures HitTest(Some(ModelList(items)), p) == items[k]
  {
    var i := FirstMatch(items, p);
    assert i == k;
  }

  /** The model shifted by a whole-pixel vector, list entries included. */
  function Translated(m: Model, dx: int, dy: int): Model
    decreases m
  {
    match m
    case RotatedRect(c, w, h, a) => RotatedRect(Point2(c.x + dx as real, c.y + dy as real), w, h, a)
    case KeyPoint(pt, s, a) => KeyPoint(Point2(pt.x + dx as real, pt.y + dy as real), s, a)
    case Circle(x, y, d) => Circle(x + dx as real, y + dy as real, d)
    case ModelList(items) =>
      ModelList(seq(|items|, i requires 0 <= i < |items| =>
        match items[i]
        case None => None
        case Some(e) => Some(Translated(e, dx, dy))))
    case Other(s) => Other(s)
  }

  function TranslatedOption(o: Option<Model>, dx: int, dy: int): Option<Model> {
    match o
    case None => None
    case Some(m) => Some(Translated(m, dx, dy))
  }

  /** Shifting a model and the query point by the same vector does not change whether it matches. */
  lemma MatchTranslationInvariant(o: Option<Model>, p: Pixel, dx: int, dy: int)
    ensures IsModelAtPoint(TranslatedOption(o, dx, dy), Pixel(p.x + dx, p.y + dy)) == IsModelAtPoint(o, p)
  {
  }

  lemma {:induction false} FirstMatchTranslationInvariant(items: seq<Option<Model>>, p: Pixel, dx: int, dy: int)
    ensures var moved := seq(|items|, i requires 0 <= i < |items| => TranslatedOption(items[i], dx, dy));
      FirstMatch(moved, Pixel(p.x + dx, p.y + dy)) == FirstMatch(items, p)
    decreases |items|
  {
    var moved := seq(|items|, i requires 0 <= i < |items| => TranslatedOption(items[i], dx, dy));
    if items != [] {
      MatchTranslationInvariant(items[0], p, dx, dy);
      FirstMatchTranslationInvariant(items[1..], p, dx, dy);
      assert moved[1..] == seq(|items[1..]|, i requires 0 <= i < |items[1..]| => TranslatedOption(items[1..][i], dx, dy));
    }
  }

  /** The hit test commutes with translation: the shifted model is hit at the shifted point. */
  lemma HitTestTranslationInvariant(model: Option<Model>, p: Pixel, dx: int, dy: int)
    ensures HitTest(TranslatedOption(model, dx, dy), Pixel(p.x + dx, p.y + dy)) ==
      TranslatedOption(HitTest(model, p), dx, dy)
  {
    match model
    case Some(ModelList(items)) =>
      FirstMatchTranslationInvariant(items, p, dx, dy);
      var moved := seq(|items|, i requires 0 <= i < |items| => TranslatedOption(items[i], dx, dy));
      var shifted := Translated(model.value, dx, dy);
      assert forall i :: 0 <= i < |items| ==> shifted.items[i] == moved[i];
      assert shifted == ModelList(moved);
    case _ =>
      MatchTranslationInvariant(model, p, dx, dy);
  }

  /** Null entries, nested lists and other objects never match, whatever the point. */
  lemma OnlyShapesMatch(m: Model, p: Pixel)
    ensures !IsModelAtPoint(None, p)
    ensures m.ModelList? || m.Other? ==> !IsModelAtPoint(Some(m), p)
  {
  }

  /** The tolerance is a box, not a radius: a point 4 pixels off on both axes (5.66 away) hits. */
  lemma ToleranceIsABox()
    ensures IsModelAtPoint(Some(Circle(10.0, 10.0, 5.0)), Pixel(14, 14))
    ensures !IsModelAtPoint(Some(Circle(10.0, 10.0, 5.0)), Pixel(15, 10))
  {
  }
}
