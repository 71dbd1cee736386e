# Results panel of the OpenPnP vision pipeline editor, in Dafny

The results panel shows the output of one stage of a computer-vision pipeline:
the stage's image (converted to BGR for display when the stage declares another
colour space), a text dump of the geometry the stage detected, and a title with
the stage's timing. A toolbar moves between stages (first, previous, next,
last), pins one stage so that it stays shown while the selection moves
elsewhere, and switches true-colour display on and off. Mouse pointing over the
image asks which detected model, if any, lies under the pointer.

This project models that logic and proves its properties:

- `options.dfy` — `Option`, standing for Java's nullable references.
- `navigation.dfy` (module `Navigation`) — the selected and pinned stage as a
  value, `indexOf`, `refresh`, the four navigation commands (including the
  IndexOutOfBoundsException they throw off either end), their enabled state,
  and the pin toggle. The lemmas cover what refresh guarantees, which commands
  can throw, and the facts that an enabled command never throws and that
  navigating while pinned leaves the selection alone. They also cover
  previous/next undoing each other and three worked scenarios.
- `geometry.dfy` (module `Geometry`) — the model payload (rotated rectangle, key
  point, circle, list of models with null entries, any other object), the
  per-axis strict 5-pixel box test and the first-match hit test. It proves the
  hit test is unchanged by translation.
- `model_text.dfy` (module `TextRendering`) — the model-text loop, proved
  against a recursive definition. The pane read back line by line gives one
  line per list entry.
- `colors.dfy` (module `Colors`) — the colour-space dispatch, the in-place
  red/blue channel swap on a copy of the image, and the channel-mismatch
  diagnostic branch.
- `results_panel.dfy` (module `Panel`) — the class `ResultsPanel` with the
  fields the Java class updates (`selectedStage`, `pinnedStage`,
  `displayTrueColors`), the widgets `updateAllEverything` writes (model text,
  shown image, title, enabled flags of the four actions), a log of the
  diagnostics, and the toolbar actions. Each method is proved against the
  functions of the modules above.

The pipeline is re-read on every Java call (`editor.getPipeline()`). Each
method therefore takes it as a value `Pipeline`, holding the stage list, a map
from stage to result and the total processing time. Two library calls are
parameters, bundled in `Foreign`, because their output is defined outside this
code: OpenCV's `cvtColor` and Java's `toString` of a model. Stages are
identified by `nat` ids, standing for object identity. Coordinates of detected
models are `real`; pointer pixels are `int`.

The model follows the code in these details, which a reader might expect to be otherwise:

- The diagnostic branch runs for any non-Gray space on an image that does not
  have exactly three channels, not only for one-channel images.
- The pin action pins `selectedStage`, not "the displayed stage". The two are
  the same whenever the action pins.
- Toggling the pin twice restores the state only from the unpinned state. From a
  pin P it ends with the selection pinned (`Navigation.PinTwice`).
- Pinning does not redraw. `Panel.PinNeedsNoRedraw` proves that the redraw would
  show the same view.

## Model

| member | source | states |
|---|---|---|
| `Navigation.IndexOf` | src/main/java/org/openpnp/vision/pipeline/ui/ResultsPanel.java:306 | `indexOf` returns -1 exactly when the stage is null or absent, otherwise its first position |
| `Navigation.Refreshed` | src/main/java/org/openpnp/vision/pipeline/ui/ResultsPanel.java:184-199 | with no stages both fields are null; otherwise the selection is a member and the pin is null or a member |
| `Navigation.RefreshOutcome` | src/main/java/org/openpnp/vision/pipeline/ui/ResultsPanel.java:193-199 | the selection is kept exactly when it is a member; a missing or stale selection becomes the first stage and unpins; a kept selection keeps the pin exactly when the pin is a member |
| `Navigation.RefreshIdempotent` | src/main/java/org/openpnp/vision/pipeline/ui/ResultsPanel.java:187-199 | a second refresh against the same stages changes nothing |
| `Navigation.RefreshDisplaysMember` | src/main/java/org/openpnp/vision/pipeline/ui/ResultsPanel.java:193-199 | after refreshing a non-empty list the displayed stage has an in-range index |
| `Navigation.NavigationFailsExactly` | src/main/java/org/openpnp/vision/pipeline/ui/ResultsPanel.java:381-458 | first and last throw only on an empty list, previous only when the display index is below 1, next only when index + 1 is past the end |
| `Navigation.NavigationMovesOneField` | src/main/java/org/openpnp/vision/pipeline/ui/ResultsPanel.java:384-389 | a successful command writes the target to the pin when pinned (selection unchanged), otherwise to the selection (still unpinned); the target is then displayed |
| `Navigation.TargetsOfFirstAndLast` | src/main/java/org/openpnp/vision/pipeline/ui/ResultsPanel.java:383 | first targets `stages[0]` and last targets `stages[size-1]` |
| `Navigation.TargetsOfPreviousAndNext` | src/main/java/org/openpnp/vision/pipeline/ui/ResultsPanel.java:404-406 | previous and next target the stages at the display index minus and plus one |
| `Navigation.EnabledCommandSucceeds` | src/main/java/org/openpnp/vision/pipeline/ui/ResultsPanel.java:299-311 | an enabled command never throws; afterwards a stage is selected and the displayed stage's index is in range |
| `Navigation.ClicksStayInBounds` | src/main/java/org/openpnp/vision/pipeline/ui/ResultsPanel.java:381-458 | any sequence of presses, disabled buttons ignoring them, never throws. It keeps the selection null or non-null and never moves the selection while pinned. Unless it ends in the state it started from, and always when the first press is enabled, it leaves the display index in range |
| `Navigation.NextUndoesPrevious` | src/main/java/org/openpnp/vision/pipeline/ui/ResultsPanel.java:402-437 | over repeat-free stages, previous then next restores the whole state |
| `Navigation.PreviousUndoesNext` | src/main/java/org/openpnp/vision/pipeline/ui/ResultsPanel.java:402-437 | over repeat-free stages, next then previous restores the whole state when the displayed stage is a member |
| `Navigation.DisabledWithoutSelection` | src/main/java/org/openpnp/vision/pipeline/ui/ResultsPanel.java:299-304 | with no selection (or no stages) all four commands are disabled |
| `Navigation.NonMemberDisplay` | src/main/java/org/openpnp/vision/pipeline/ui/ResultsPanel.java:306-310 | with a non-member display (index -1), first and previous are disabled. Next and last are enabled exactly when there are stages, and next then goes to the first stage |
| `Navigation.EnablementAtEnds` | src/main/java/org/openpnp/vision/pipeline/ui/ResultsPanel.java:306-310 | over repeat-free stages, first/previous are disabled exactly on the first stage and next/last exactly on the last |
| `Navigation.PinKeepsSelection` | src/main/java/org/openpnp/vision/pipeline/ui/ResultsPanel.java:470-478 | the pin action never changes the selection. Unpinned, it pins the selection and keeps the displayed stage. Pinned, it unpins and the selection is displayed again |
| `Navigation.PinTwice` | src/main/java/org/openpnp/vision/pipeline/ui/ResultsPanel.java:470-478 | two presses restore an unpinned state; from a pinned state they leave the selection pinned |
| `Navigation.ScenarioNextTwice` | src/main/java/org/openpnp/vision/pipeline/ui/ResultsPanel.java:425-437 | on three stages, next twice from the first shows the third with only first/previous enabled |
| `Navigation.ScenarioPinThenFirst` | src/main/java/org/openpnp/vision/pipeline/ui/ResultsPanel.java:381-391 | pinning the second stage and pressing first moves the pin to the first stage, keeps the selection, and unpinning shows the second again |
| `Navigation.ScenarioShrink` | src/main/java/org/openpnp/vision/pipeline/ui/ResultsPanel.java:193-196 | when the selected stage disappears, the first stage is selected and the pin cleared |
| `Geometry.FirstMatch` | src/main/java/org/openpnp/vision/pipeline/ui/ResultsPanel.java:337-341 | the position found matches and no earlier entry matches; -1 means no entry matches |
| `Geometry.HitTest` | src/main/java/org/openpnp/vision/pipeline/ui/ResultsPanel.java:336-348 | the result always matches the point. A non-list model is returned exactly when it matches, a null model yields nothing, and a list yields nothing exactly when no entry matches |
| `Geometry.HitTestFindsFirst` | src/main/java/org/openpnp/vision/pipeline/ui/ResultsPanel.java:337-341 | a matching entry with no earlier match is the one returned, whatever follows it |
| `Geometry.MatchTranslationInvariant` | src/main/java/org/openpnp/vision/pipeline/ui/ResultsPanel.java:351-371 | shifting a model and the point by the same vector keeps whether it matches |
| `Geometry.FirstMatchTranslationInvariant` | src/main/java/org/openpnp/vision/pipeline/ui/ResultsPanel.java:337-341 | shifting every entry and the point keeps the position of the first match |
| `Geometry.HitTestTranslationInvariant` | src/main/java/org/openpnp/vision/pipeline/ui/ResultsPanel.java:336-371 | the hit test of the shifted model at the shifted point is the shifted hit |
| `Geometry.OnlyShapesMatch` | src/main/java/org/openpnp/vision/pipeline/ui/ResultsPanel.java:351-371 | null, nested lists and other objects never match |
| `Geometry.ToleranceIsABox` | src/main/java/org/openpnp/vision/pipeline/ui/ResultsPanel.java:364-368 | the test is a strict per-axis box: 4 pixels off on both axes (5.66 away) hits, 5 pixels off on one axis does not |
| `TextRendering.ListTextSnoc` | src/main/java/org/openpnp/vision/pipeline/ui/ResultsPanel.java:280-285 | one more entry appends that entry's text (empty for null) and a newline |
| `TextRendering.RenderModelText` | src/main/java/org/openpnp/vision/pipeline/ui/ResultsPanel.java:278-290 | the loop produces the pane text: entry texts each followed by a newline for a list, the model's own text otherwise, empty for null |
| `TextRendering.ListTextLines` | src/main/java/org/openpnp/vision/pipeline/ui/ResultsPanel.java:278-286 | when no entry's text holds a newline, reading the pane back line by line gives exactly the entries' texts in order, an empty line per null entry |
| `TextRendering.ScenarioNullThenCircle` | src/main/java/org/openpnp/vision/pipeline/ui/ResultsPanel.java:278-290 | the list [null, circle at (10,10)] shows an empty line then the circle's text, and the point (10,10) hits the circle |
| `Colors.SwapChannels` | src/main/java/org/openpnp/vision/pipeline/ui/ResultsPanel.java:230-240 | the in-place channel swap leaves the buffer equal to the red/blue-swapped original |
| `Colors.PrepareImage` | src/main/java/org/openpnp/vision/pipeline/ui/ResultsPanel.java:219-273 | the copy shown is the result image converted as the dispatch selects; the diagnostic is reported exactly in the mismatch branch |
| `Colors.NoConversionWithoutTrueColors` | src/main/java/org/openpnp/vision/pipeline/ui/ResultsPanel.java:221-223 | with true colours off or no declared space nothing is converted |
| `Colors.MismatchExactly` | src/main/java/org/openpnp/vision/pipeline/ui/ResultsPanel.java:224-270 | the diagnostic branch runs exactly for a non-Gray space on an image without three channels |
| `Colors.TransformsNeedThreeChannels` | src/main/java/org/openpnp/vision/pipeline/ui/ResultsPanel.java:224-255 | a swap or conversion happens only on three channels. The swap happens exactly for RGB and each Hls/HlsFull/Hsv/HsvFull selects its own BGR code |
| `Colors.GrayAndBgrAreIdentity` | src/main/java/org/openpnp/vision/pipeline/ui/ResultsPanel.java:226-229 | Gray (any channel count) and BGR show the image unchanged |
| `Colors.MismatchLeavesImage` | src/main/java/org/openpnp/vision/pipeline/ui/ResultsPanel.java:257-270 | an image in the diagnostic branch is shown as it is |
| `Colors.SwapPerPixel` | src/main/java/org/openpnp/vision/pipeline/ui/ResultsPanel.java:230-237 | in every pixel channels 0 and 2 are exchanged and channel 1 is kept |
| `Colors.SwapTwice` | src/main/java/org/openpnp/vision/pipeline/ui/ResultsPanel.java:230-237 | swapping twice restores the buffer |
| `Panel.ComputeView` | src/main/java/org/openpnp/vision/pipeline/ui/ResultsPanel.java:208-311 | the text, image, title and enabled flags computed are the view of the displayed stage's result, and the diagnostic is the one its image calls for |
| `Panel.PinNeedsNoRedraw` | src/main/java/org/openpnp/vision/pipeline/ui/ResultsPanel.java:470-473 | pinning leaves the view unchanged, so skipping the redraw there is sound |
| `Panel.EmptyViewWithoutStage` | src/main/java/org/openpnp/vision/pipeline/ui/ResultsPanel.java:295-304 | with no stage displayed the text and title are empty, no image is shown and nothing is enabled |
| `Panel.BlankViewWithoutResult` | src/main/java/org/openpnp/vision/pipeline/ui/ResultsPanel.java:216-297 | a displayed stage without a result shows empty text, no image and an empty title |
| `Panel.RawImageWithoutTrueColors` | src/main/java/org/openpnp/vision/pipeline/ui/ResultsPanel.java:220-222 | with true colours off the result's image is shown as it is and nothing is logged |
| `Panel.ResultsPanel.constructor` | src/main/java/org/openpnp/vision/pipeline/ui/ResultsPanel.java:46-182 | nothing selected or pinned, true colours on, the label showing its "New label" placeholder (line 74), an empty text pane (117) and an empty image view (127), the four actions enabled as Swing actions start |
| `Panel.ResultsPanel.UpdateAllEverything` | src/main/java/org/openpnp/vision/pipeline/ui/ResultsPanel.java:208-312 | the widgets show the view of the current state and the diagnostic is appended to the log; the state is unchanged |
| `Panel.ResultsPanel.Refresh` | src/main/java/org/openpnp/vision/pipeline/ui/ResultsPanel.java:184-201 | the state becomes the refreshed state, then the widgets show it |
| `Panel.ResultsPanel.SetSelectedStage` | src/main/java/org/openpnp/vision/pipeline/ui/ResultsPanel.java:203-206 | the selection becomes the given stage, the pin is kept, the widgets show it |
| `Panel.ResultsPanel.FirstResult` | src/main/java/org/openpnp/vision/pipeline/ui/ResultsPanel.java:381-391 | succeeds exactly when the first command does, with its new state shown; otherwise nothing changes |
| `Panel.ResultsPanel.PreviousResult` | src/main/java/org/openpnp/vision/pipeline/ui/ResultsPanel.java:402-414 | succeeds exactly when the previous command does, with its new state shown; otherwise nothing changes |
| `Panel.ResultsPanel.NextResult` | src/main/java/org/openpnp/vision/pipeline/ui/ResultsPanel.java:425-437 | succeeds exactly when the next command does, with its new state shown; otherwise nothing changes |
| `Panel.ResultsPanel.LastResult` | src/main/java/org/openpnp/vision/pipeline/ui/ResultsPanel.java:448-458 | succeeds exactly when the last command does, with its new state shown; otherwise nothing changes |
| `Panel.ResultsPanel.PinResult` | src/main/java/org/openpnp/vision/pipeline/ui/ResultsPanel.java:469-480 | the state becomes the toggled state. Pinning leaves the widgets alone and, if they were current, they stay current. Unpinning redraws |
| `Panel.ResultsPanel.ColorResult` | src/main/java/org/openpnp/vision/pipeline/ui/ResultsPanel.java:491-503 | true-colour mode flips, the stages are unchanged, the widgets show the new mode |
| `Panel.ResultsPanel.GetModelAtPoint` | src/main/java/org/openpnp/vision/pipeline/ui/ResultsPanel.java:320-349 | the loop returns the hit test of the displayed stage's result model at the point |

## Left out

- Swing construction, layout, icons, tooltips and action names (ResultsPanel.java:54-133, 176-181 and the `putValue` calls): presentation only.
- The mouse-motion listener (ResultsPanel.java:134-174): it samples screen pixels with `Robot`, formats RGB/HSB (float) status text, and converts the pointer into physical units through the camera calibration (`convertToUnits`, `multiply`, floating point). Only its call to the hit test is modelled, as `GetModelAtPoint`.
- The pixel output of `Imgproc.cvtColor` for Hls/HlsFull/Hsv/HsvFull: a foreign colorimetric transform, supplied as the parameter `Foreign.cvtColor`. The model fixes only which code is selected and that the copy, not the result image, is converted.
- Java `toString` of models: supplied as the parameter `Foreign.toText`.
- `Mat.release` and the conversion of the shown `Mat` into the view's image: memory management and display plumbing. The clone is modelled as a fresh array, and the result images are values that nothing can mutate.
- The log messages and the pipeline dump via `toXmlString` (ResultsPanel.java:258-269): I/O and a foreign call. `errorLog` records only the colour space for which the branch ran.
- The title's text (ResultsPanel.java:295-297): the stage name and the millisecond values are formatted with floating-point division. `Title` holds the stage id and the two raw nanosecond counts.
- What Swing does with the IndexOutOfBoundsException a navigation action throws: the model reports it as `ok == false` with nothing changed.
- The stored enabled flags are the ones computed at the last redraw. The model does not tie them to a later pipeline; `Navigation.EnabledCommandSucceeds` states enablement against the current stages.
