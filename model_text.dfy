/**
 * The text the panel shows for a result's model. Java's `toString` of each model
 * object is not part of this model: it is the parameter `show`.
 */
module TextRendering {
  import opened Options
  import opened Geometry

  /** One list entry's text: its own string, or nothing for a null entry. */
  function EntryText(o: Option<Model>, show: Model -> string): string {
    match o
    case None => ""
    case Some(m) => show(m)
  }

  /** Every entry's text followed by a newline, in list order. */
  function ListText(items: seq<Option<Model>>, show: Model -> string): string {
    if items == [] then "" else EntryText(items[0], show) + "\n" + ListText(items[1..], show)
  }

  /** The text of the model pane: a list entry by entry, any other model its own string, null nothing. */
  function ModelText(model: Option<Model>, show: Model -> string): string {
    match model
    case None => ""
    case Some(ModelList(items)) => ListText(items, show)
    case Some(m) => show(m)
  }

  /** Appending an entry appends its text and a newline. */
  lemma {:induction false} ListTextSnoc(items: seq<Option<Model>>, o: Option<Model>, show: Model -> string)
    ensures ListText(items + [o], show) == ListText(items, show) + EntryText(o, show) + "\n"
    decreases |items|
  {
    if items == [] {
      assert [o][1..] == [];
    } else {
      assert (items + [o])[1..] == items[1..] + [o];
      ListTextSnoc(items[1..], o, show);
    }
  }

  /** The model-text loop of `updateAllEverything`. */
  method RenderModelText(model: Option<Model>, show: Model -> string) returns (s: string)
    ensures s == ModelText(model, show)
  {
    if model.Some? && model.value.ModelList? {
      var items := model.value.items;
      s := "";
      var i := 0;
      while i < |items|
        invariant 0 <= i <= |items|
        invariant s == ListText(items[..i], show)
      {
        var o := items[i];
        if o.Some? {
          s := s + show(o.value);
        }
        s := s + "\n";
        ListTextSnoc(items[..i], o, show);
        assert items[..i + 1] == items[..i] + [o];
        i := i + 1;
      }
      assert items[..i] == items;
    } else {
      s := if model.None? then "" else show(model.value);
    }
  }

  // ---------------------------------------------------------------------------
  // Reading the pane back line by line

  /** The position of the first newline, or the length when there is none. */
  function NewlineIndex(s: string): (k: nat)
    ensures k <= |s|
    ensures k < |s| ==> s[k] == '\n'
    ensures forall j :: 0 <= j < k ==> s[j] != '\n'
  {
    if s == [] then 0
    else if s[0] == '\n' then 0
    else
      var k := NewlineIndex(s[1..]);
      assert forall j :: 1 <= j < |s| ==> s[j] == s[1..][j - 1];
      1 + k
  }

  /** The lines of a text, each without its terminating newline. */
  function Lines(s: string): seq<string>
    decreases |s|
  {
    if s == [] then []
    else
      var k := NewlineIndex(s);
      if k == |s| then [s] else [s[..k]] + Lines(s[k + 1..])
  }

  lemma LinesCons(a: string, rest: string)
    requires '\n' !in a
    ensures Lines(a + "\n" + rest) == [a] + Lines(rest)
  {
    var s := a + "\n" + rest;
    var k := NewlineIndex(s);
    assert s[|a|] == '\n';
    assert forall j :: 0 <= j < |a| ==> s[j] == a[j];
    assert k == |a|;
    assert s[..k] == a;
    assert s[k + 1..] == rest;
  }

  /**
   * When no entry's text contains a newline, the pane shows exactly one line per
   * list entry, in order, an empty one for each null entry.
   */
  lemma {:induction false} ListTextLines(items: seq<Option<Model>>, show: Model -> string)
    requires forall i :: 0 <= i < |items| ==> '\n' !in EntryText(items[i], show)
    ensures Lines(ListText(items, show)) == seq(|items|, i requires 0 <= i < |items| => EntryText(items[i], show))
    decreases |items|
  {
    if items != [] {
      var rest := items[1..];
      assert forall i :: 0 <= i < |rest| ==> rest[i] == items[i + 1];
      LinesCons(EntryText(items[0], show), ListText(rest, show));
      ListTextLines(rest, show);
      var all := seq(|items|, i requires 0 <= i < |items| => EntryText(items[i], show));
      var tail := seq(|rest|, i requires 0 <= i < |rest| => EntryText(rest[i], show));
      assert all == [EntryText(items[0], show)] + tail;
    }
  }

  /** A null entry followed by a circle gives an empty line, then the circle's text. */
  lemma ScenarioNullThenCircle(show: Model -> string)
    ensures var circle := Circle(10.0, 10.0, 5.0);
      ModelText(Some(ModelList([None, Some(circle)])), show) == "\n" + show(circle) + "\n" &&
      HitTest(Some(ModelList([None, Some(circle)])), Pixel(10, 10)) == Some(circle)
  {
    var circle := Circle(10.0, 10.0, 5.0);
    var items := [None, Some(circle)];
    assert items[1..] == [Some(circle)];
    assert items[1..][1..] == [];
    HitTestFindsFirst(items, Pixel(10, 10), 1);
  }
}
