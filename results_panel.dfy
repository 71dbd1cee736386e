/**
 * The results panel of the vision pipeline editor: the state it keeps (selected
 * stage, pinned stage, true-colour mode), the widgets `updateAllEverything`
 * writes (model text, shown image, title, the enabled state of the four
 * navigation actions) and the toolbar actions.
 *
 * The pipeline is read afresh on every Java call through `editor.getPipeline()`,
 * so each method takes the pipeline as it is at that moment.
 */
module Panel {
  import opened Options
  import opened Navigation
  import opened Geometry
  import opened TextRendering
  import opened Colors

  /** A stage's computed result (CvStage.Result). */
  datatype StageResult = StageResult(
    image: Option<Image>,
    model: Option<Model>,
    colorSpace: Option<ColorSpace>,
    processingTimeNs: nat)

  /** What the panel reads of the pipeline: its stages, their results and the total run time. */
  datatype Pipeline = Pipeline(
    stages: seq<StageId>,
    results: map<StageId, StageResult>,
    totalProcessingTimeNs: nat)

  /** The library calls whose output this model does not define. */
  datatype Foreign = Foreign(
    cvtColor: (ColorCode, seq<int>) -> seq<int>,
    toText: Model -> string)

  /** The stage-name label: its placeholder before the first update, empty, or name and timings. */
  datatype Title =
    | Placeholder
    | NoTitle
    | StageTitle(stage: StageId, processingTimeNs: nat, totalProcessingTimeNs: nat)

  /** Everything `updateAllEverything` writes to the widgets. */
  datatype View = View(text: string, image: Option<Image>, title: Title, enabled: Enabled)

  /** `getResult(stage)`: null for a null stage or a stage without a result. */
  function ResultOf(p: Pipeline, stage: Option<StageId>): (r: Option<StageResult>)
    ensures r.Some? ==> stage.Some? && stage.value in p.results && r.value == p.results[stage.value]
    ensures r.None? ==> stage.None? || stage.value !in p.results
  {
    if stage.Some? && stage.value in p.results then Some(p.results[stage.value]) else None
  }

  /** The model of the result shown, or null. */
  function ShownModel(r: Option<StageResult>): Option<Model> {
    if r.Some? then r.value.model else None
  }

  /** The image shown for a result: its image converted for display, or none. */
  function ShownImage(r: Option<StageResult>, trueColors: bool, fx: Foreign): Option<Image> {
    if r.Some? && r.value.image.Some? then
      var img := r.value.image.value;
      Some(Normalized(img, ConversionFor(trueColors, r.value.colorSpace, img.channels), fx.cvtColor))
    else None
  }

  /** The colour space logged by the diagnostic branch, if it runs. */
  function Diagnostics(r: Option<StageResult>, trueColors: bool): seq<ColorSpace> {
    if r.Some? && r.value.image.Some? &&
       ConversionFor(trueColors, r.value.colorSpace, r.value.image.value.channels) == ChannelMismatch
    then [r.value.colorSpace.value]
    else []
  }

  /** What the widgets show for a navigation state. */
  function ViewOf(p: Pipeline, fx: Foreign, n: NavState, trueColors: bool): View {
    var stage := DisplayStage(n);
    var r := ResultOf(p, stage);
    View(
      ModelText(ShownModel(r), fx.toText),
      ShownImage(r, trueColors, fx),
      if r.Some? then StageTitle(stage.value, r.value.processingTimeNs, p.totalProcessingTimeNs) else NoTitle,
      Enablement(p.stages, n))
  }

  /**
   * The computation inside `updateAllEverything`: fetch the displayed stage's result,
   * prepare its image on a copy, render its model as text, and derive the title and
   * the enabled state of the navigation actions.
   */
  method ComputeView(p: Pipeline, fx: Foreign, selectedStage: Option<StageId>,
                     pinnedStage: Option<StageId>, displayTrueColors: bool)
    returns (view: View, logged: seq<ColorSpace>)
    ensures view == ViewOf(p, fx, NavState(selectedStage, pinnedStage), displayTrueColors)
    ensures logged == Diagnostics(ResultOf(p, DisplayStage(NavState(selectedStage, pinnedStage))), displayTrueColors)
  {
    var displayStage := if pinnedStage.Some? then pinnedStage else selectedStage;
    var result: Option<StageResult> := None;
    var image: Option<Image> := None;
    var model: Option<Model> := None;
    logged := [];
    if displayStage.Some? && displayStage.value in p.results {
      result := Some(p.results[displayStage.value]);
      if result.value.image.Some? {
        var shown, mismatch := PrepareImage(result.value.image.value, displayTrueColors,
                                            result.value.colorSpace, fx.cvtColor);
        image := Some(shown);
        if mismatch {
          logged := [result.value.colorSpace.value];
        }
      }
      model := result.value.model;
    }
    var text := RenderModelText(model, fx.toText);
    var heading := if result.None? || displayStage.None? then NoTitle
      else StageTitle(displayStage.value, result.value.processingTimeNs, p.totalProcessingTimeNs);
    var enabled := Enabled(false, false, false, false);
    if selectedStage.Some? {
      var index := IndexOf(p.stages, displayStage);
      enabled := Enabled(index > 0, index > 0, index < |p.stages| - 1, index < |p.stages| - 1);
    }
    view := View(text, image, heading, enabled);
  }

  class ResultsPanel {
    var selectedStage: Option<StageId>
    var pinnedStage: Option<StageId>
    var displayTrueColors: bool

    // The widgets written by updateAllEverything.
    var modelText: string
    var shownImage: Option<Image>
    var title: Title
    var firstEnabled: bool
    var previousEnabled: bool
    var nextEnabled: bool
    var lastEnabled: bool

    /** The colour spaces reported by the channel-mismatch diagnostic, oldest first. */
    var errorLog: seq<ColorSpace>

    function Nav(): NavState
      reads this
    {
      NavState(selectedStage, pinnedStage)
    }

    function Widgets(): View
      reads this
    {
      View(modelText, shownImage, title, Enabled(firstEnabled, previousEnabled, nextEnabled, lastEnabled))
    }

    /** The widgets show the current state of the pipeline `p`. */
    predicate Shows(p: Pipeline, fx: Foreign)
      reads this
    {
      Widgets() == ViewOf(p, fx, Nav(), displayTrueColors)
    }

    /** Nothing selected, true colours on, and every Swing action enabled, as actions start. */
    constructor ()
      ensures Nav() == NavState(None, None) && displayTrueColors
      ensures Widgets() == View("", None, Placeholder, Enabled(true, true, true, true))
      ensures errorLog == []
    {
      selectedStage, pinnedStage := None, None;
      displayTrueColors := true;
      modelText, shownImage, title := "", None, Placeholder;
      firstEnabled, previousEnabled, nextEnabled, lastEnabled := true, true, true, true;
      errorLog := [];
    }

    /** `updateAllEverything()`: recompute every widget from the displayed stage's result. */
    method UpdateAllEverything(p: Pipeline, fx: Foreign)
      modifies this
      ensures Nav() == old(Nav()) && displayTrueColors == old(displayTrueColors)
      ensures Shows(p, fx)
      ensures errorLog == old(errorLog) + Diagnostics(ResultOf(p, DisplayStage(Nav())), displayTrueColors)
    {
      var view, logged := ComputeView(p, fx, selectedStage, pinnedStage, displayTrueColors);
      modelText, shownImage, title := view.text, view.image, view.title;
      firstEnabled, previousEnabled := view.enabled.first, view.enabled.previous;
      nextEnabled, lastEnabled := view.enabled.next, view.enabled.last;
      errorLog := errorLog + logged;
    }

    /** `refresh()`: bring the two fields in line with the pipeline's stages, then redraw. */
    method Refresh(p: Pipeline, fx: Foreign)
      modifies this
      ensures Nav() == Refreshed(p.stages, old(Nav()))
      ensures displayTrueColors == old(displayTrueColors)
      ensures Shows(p, fx)
      ensures errorLog == old(errorLog) + Diagnostics(ResultOf(p, DisplayStage(Nav())), displayTrueColors)
    {
      var stages := p.stages;
      if stages == [] {
        selectedStage := None;
        pinnedStage := None;
      } else if selectedStage.None? || selectedStage.value !in stages {
        selectedStage := Some(stages[0]);
        pinnedStage := None;
      } else if !(pinnedStage.Some? && pinnedStage.value in stages) {
        pinnedStage := None;
      }
      UpdateAllEverything(p, fx);
    }

    /** `setSelectedStage(stage)`: take the selection as given, keep the pin, redraw. */
    method SetSelectedStage(stage: Option<StageId>, p: Pipeline, fx: Foreign)
      modifies this
      ensures Nav() == NavState(stage, old(pinnedStage))
      ensures displayTrueColors == old(displayTrueColors)
      ensures Shows(p, fx)
      ensures errorLog == old(errorLog) + Diagnostics(ResultOf(p, DisplayStage(Nav())), displayTrueColors)
    {
      selectedStage := stage;
      UpdateAllEverything(p, fx);
    }

    /** Write a navigation target to the pin when one is set, otherwise to the selection. */
    method MoveTo(stage: StageId)
      modifies this`selectedStage, this`pinnedStage
      ensures old(pinnedStage).Some? ==> Nav() == old(Nav()).(pinned := Some(stage))
      ensures old(pinnedStage).None? ==> Nav() == old(Nav()).(selected := Some(stage))
    {
      if pinnedStage.Some? {
        pinnedStage := Some(stage);
      } else {
        selectedStage := Some(stage);
      }
    }

    /**
     * The action of a navigation button, fetching `stages.get(k)`. `ok` is false when
     * that throws; then nothing has changed.
     */
    method NavigateTo(cmd: Command, k: int, p: Pipeline, fx: Foreign) returns (ok: bool)
      requires Target(cmd, p.stages, Nav()) == (if 0 <= k < |p.stages| then Some(p.stages[k]) else None)
      modifies this
      ensures ok <==> Navigated(cmd, p.stages, old(Nav())).Some?
      ensures ok ==> (Some(Nav()) == Navigated(cmd, p.stages, old(Nav())) && Shows(p, fx) &&
                      errorLog == old(errorLog) + Diagnostics(ResultOf(p, DisplayStage(Nav())), displayTrueColors))
      ensures !ok ==> Nav() == old(Nav()) && Widgets() == old(Widgets()) && errorLog == old(errorLog)
      ensures displayTrueColors == old(displayTrueColors)
    {
      if !(0 <= k < |p.stages|) {
        return false;
      }
      MoveTo(p.stages[k]);
      UpdateAllEverything(p, fx);
      ok := true;
    }

    /** `firstResultAction`. */
    method FirstResult(p: Pipeline, fx: Foreign) returns (ok: bool)
      modifies this
      ensures ok <==> Navigated(First, p.stages, old(Nav())).Some?
      ensures ok ==> (Some(Nav()) == Navigated(First, p.stages, old(Nav())) && Shows(p, fx) &&
                      errorLog == old(errorLog) + Diagnostics(ResultOf(p, DisplayStage(Nav())), displayTrueColors))
      ensures !ok ==> Nav() == old(Nav()) && Widgets() == old(Widgets()) && errorLog == old(errorLog)
      ensures displayTrueColors == old(displayTrueColors)
    {
      ok := NavigateTo(First, 0, p, fx);
    }

    /** `previousResultAction`. */
    method PreviousResult(p: Pipeline, fx: Foreign) returns (ok: bool)
      modifies this
      ensures ok <==> Navigated(Previous, p.stages, old(Nav())).Some?
      ensures ok ==> (Some(Nav()) == Navigated(Previous, p.stages, old(Nav())) && Shows(p, fx) &&
                      errorLog == old(errorLog) + Diagnostics(ResultOf(p, DisplayStage(Nav())), displayTrueColors))
      ensures !ok ==> Nav() == old(Nav()) && Widgets() == old(Widgets()) && errorLog == old(errorLog)
      ensures displayTrueColors == old(displayTrueColors)
    {
      var oldStage := if pinnedStage.Some? then pinnedStage else selectedStage;
      var index := IndexOf(p.stages, oldStage);
      ok := NavigateTo(Previous, index - 1, p, fx);
    }

    /** `nextResultAction`. */
    method NextResult(p: Pipeline, fx: Foreign) returns (ok: bool)
      modifies this
      ensures ok <==> Navigated(Next, p.stages, old(Nav())).Some?
      ensures ok ==> (Some(Nav()) == Navigated(Next, p.stages, old(Nav())) && Shows(p, fx) &&
                      errorLog == old(errorLog) + Diagnostics(ResultOf(p, DisplayStage(Nav())), displayTrueColors))
      ensures !ok ==> Nav() == old(Nav()) && Widgets() == old(Widgets()) && errorLog == old(errorLog)
      ensures displayTrueColors == old(displayTrueColors)
    {
      var oldStage := if pinnedStage.Some? then pinnedStage else selectedStage;
      var index := IndexOf(p.stages, oldStage);
      ok := NavigateTo(Next, index + 1, p, fx);
    }

    /** `lastResultAction`. */
    method LastResult(p: Pipeline, fx: Foreign) returns (ok: bool)
      modifies this
      ensures ok <==> Navigated(Last, p.stages, old(Nav())).Some?
      ensures ok ==> (Some(Nav()) == Navigated(Last, p.stages, old(Nav())) && Shows(p, fx) &&
                      errorLog == old(errorLog) + Diagnostics(ResultOf(p, DisplayStage(Nav())), displayTrueColors))
      ensures !ok ==> Nav() == old(Nav()) && Widgets() == old(Widgets()) && errorLog == old(errorLog)
      ensures displayTrueColors == old(displayTrueColors)
    {
      ok := NavigateTo(Last, |p.stages| - 1, p, fx);
    }

    /**
     * `pinResultAction`: pinning stores the selection and does not redraw; unpinning
     * clears the pin and redraws. Pinning needs no redraw: the view it would compute
     * is the one already shown.
     */
    method PinResult(p: Pipeline, fx: Foreign)
      modifies this
      ensures Nav() == PinToggled(old(Nav()))
      ensures displayTrueColors == old(displayTrueColors)
      ensures old(pinnedStage).None? ==> Widgets() == old(Widgets()) && errorLog == old(errorLog)
      ensures old(pinnedStage).None? && old(Shows(p, fx)) ==> Shows(p, fx)
      ensures old(pinnedStage).Some? ==> (Shows(p, fx) &&
        errorLog == old(errorLog) + Diagnostics(ResultOf(p, DisplayStage(Nav())), displayTrueColors))
    {
      if pinnedStage.None? {
        PinNeedsNoRedraw(p, fx, Nav(), displayTrueColors);
        pinnedStage := selectedStage;
      } else {
        pinnedStage := None;
        UpdateAllEverything(p, fx);
      }
    }

    /** `colorResultAction`: flip true-colour mode and redraw. */
    method ColorResult(p: Pipeline, fx: Foreign)
      modifies this
      ensures displayTrueColors == !old(displayTrueColors)
      ensures Nav() == old(Nav())
      ensures Shows(p, fx)
      ensures errorLog == old(errorLog) + Diagnostics(ResultOf(p, DisplayStage(Nav())), displayTrueColors)
    {
      displayTrueColors := !displayTrueColors;
      UpdateAllEverything(p, fx);
    }

    /** `getModelAtPoint`: the model under pixel `pt` in the displayed stage's result. */
    method GetModelAtPoint(p: Pipeline, pt: Pixel) returns (m: Option<Model>)
      ensures m == HitTest(ShownModel(ResultOf(p, DisplayStage(Nav()))), pt)
    {
      var displayStage := if pinnedStage.Some? then pinnedStage else selectedStage;
      var model: Option<Model> := None;
      if displayStage.Some? && displayStage.value in p.results {
        model := p.results[displayStage.value].model;
      }
      if model.Some? && model.value.ModelList? {
        var items := model.value.items;
        var i := 0;
        while i < |items|
          invariant 0 <= i <= |items|
          invariant forall j :: 0 <= j < i ==> !IsModelAtPoint(items[j], pt)
        {
          if IsModelAtPoint(items[i], pt) {
            HitTestFindsFirst(items, pt, i);
            return items[i];
          }
          i := i + 1;
        }
      } else if IsModelAtPoint(model, pt) {
        return model;
      }
      return None;
    }
  }

  // ---------------------------------------------------------------------------
  // Properties of the view

  /** Pinning keeps what the widgets show: the displayed stage and the enablement are unchanged. */
  lemma PinNeedsNoRedraw(p: Pipeline, fx: Foreign, n: NavState, trueColors: bool)
    requires n.pinned.None?
    ensures ViewOf(p, fx, PinToggled(n), trueColors) == ViewOf(p, fx, n, trueColors)
  {
    PinKeepsSelection(n);
  }

  /** With no stage displayed the text and title are blank, there is no image, and nothing is enabled. */
  lemma EmptyViewWithoutStage(p: Pipeline, fx: Foreign, n: NavState, trueColors: bool)
    requires DisplayStage(n).None?
    ensures ViewOf(p, fx, n, trueColors) == View("", None, NoTitle, Enabled(false, false, false, false))
  {
  }

  /** A displayed stage without a result shows blank text, no image and an empty title. */
  lemma BlankViewWithoutResult(p: Pipeline, fx: Foreign, n: NavState, trueColors: bool)
    requires DisplayStage(n).Some? && DisplayStage(n).value !in p.results
    ensures var v := ViewOf(p, fx, n, trueColors);
      v.text == "" && v.image.None? && v.title == NoTitle
  {
  }

  /** With true colours off the shown image is the result's image, whatever its space. */
  lemma RawImageWithoutTrueColors(p: Pipeline, fx: Foreign, n: NavState)
    ensures var r := ResultOf(p, DisplayStage(n));
      ViewOf(p, fx, n, false).image == (if r.Some? then r.value.image else None)
    ensures Diagnostics(ResultOf(p, DisplayStage(n)), false) == []
  {
  }
}
