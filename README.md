# Frame overlay plugin — a Dafny model of its decision rules

The plugin lets a designer put a tinted "Overlay" layer over the frames they
select. It can also keep a small palette of custom overlay fills in the host's
client storage. Its one script, `src/code.ts`, is mostly calls into the host's
plugin API. This project models the rules under those calls, with every host
call replaced by plain values:

- **Hex formatting** (`componentToHex`): a colour channel becomes two
  upper-case hex digits. From 1 upwards the channel is clamped to 255;
  below 1 it is `floor(c * 256)`.
- **Opacity normalisation** (the block written three times in `applyFill`): a
  typed value of 1 or more is a percentage, divided by 100 and capped at 1. A
  value below 1 is kept. A value picked from the suggestions is used as it is.
- **The palette** (`saveColor`, `removeColor`): saving prepends a new entry
  and refuses an exact duplicate. Removing drops every entry whose data is
  the selector.
- **Suggestions** (the `parameters.on('input')` handler): entries whose name
  contains the query. For colours, the stored palette comes before the
  presets.
- **Overlay placement** (`createOverlay`): reuse the child called "Overlay".
  Otherwise create one and insert it just beneath the first child whose name
  contains a top-layer keyword, once lower-cased and with whitespace removed.
  With no such child, append it. Children are ordered back to front, so
  inserting at a child's index puts the new layer directly beneath it.
- **Choosing the fill to save** (`saveColor`): the node's fill style if it
  has one. Otherwise its first visible fill of kind SOLID, GRADIENT_* or
  IMAGE. A solid fill is named `#RRGGBB`; the other kinds get fixed names.

Modules:
- `Wrappers`: `Option`.
- `Text`: `includes`, and `toUpperCase`/`toLowerCase` on ASCII letters.
- `Hex`: hex formatting.
- `Fills`: colours, paints, palette entries.
- `Opacity`: the opacity parameter and its normalisation.
- `Palette`: save and remove as functions, plus the `ClientStorage` class
  holding the stored list.
- `Suggestions`: the parameter suggestions.
- `SaveColor`: the fill-choosing walk and the selection loop.
- `Placement`: the top-layer test and where a new overlay goes.
- `Overlay`: the `Layer` and `Frame` classes, `applyFill` and the
  `createOverlay` loop.

Host calls are modelled as values:
- Client storage is a `ClientStorage` object whose `palette` field the
  methods overwrite.
- A style lookup or library import is an `Option<string>` parameter (the
  resolved style id).
- `parseFloat` is taken as already applied: a typed opacity arrives as a
  `real`.
- The selection is a sequence of `Frame` objects (for `createOverlay`) or of
  `SceneNode` values (for `saveColor`).

Status messages given to `closePlugin` become small report datatypes. The
source does not return after `closePlugin`. So the model goes on exactly as
the code does:
- An empty selection is reported and the (empty) loop still runs.
- After a save, the `continue` at src/code.ts:278 and :358 moves on to the
  next node, so every visible node of the selection is processed and reported.

Entries are compared by structural equality. The source compares
`JSON.stringify` output, which also depends on key order.

## Model

| member | source | states |
|---|---|---|
| `Hex.ChannelByte` | src/code.ts:15 | the scaled channel is 255 from 1 upwards and the floor of c·256 below 1, so a byte whenever c ≥ 0 |
| `Hex.Radix16` | src/code.ts:18 | `toString(16)` of a non-negative integer is one or more lower-case hex digits, a single digit exactly below 16, at most two below 256 |
| `Hex.ComponentToHexIsByte` | src/code.ts:13-22 | for c ≥ 0 the result is exactly two upper-case hex digits, and they read back as the clamped scaled channel (0..255) |
| `Hex.ComponentToHexSaturates` | src/code.ts:15 | every channel ≥ 1 is written "FF" |
| `Hex.ComponentToHexNegative` | src/code.ts:15-21 | a negative channel gives a string starting with '-', not a colour byte |
| `Hex.ByteRoundTrip` | src/code.ts:13-22 | a channel stored as b/255 is written as the two hex digits of byte b, for every byte |
| `Text.ContainsAt` | src/code.ts:34 | `includes` holds exactly when some slice of the name equals the query |
| `Text.ToUpper` | src/code.ts:19 | upper-casing keeps the length; every lower-case ASCII letter becomes the capital whose lower case it is; every other character is kept; no lower-case letter is left |
| `Text.LowerChars` | src/code.ts:117 | lower-casing keeps the length; every upper-case ASCII letter becomes the small letter whose capital it is; every other character is kept; no capital is left |
| `Opacity.Normalise` | src/code.ts:169-174 | the result is at most 1; from 1 upwards it is at least 0.01 and either 1 or x/100; below 1 it is x |
| `Opacity.NormalisePercentage` | src/code.ts:186-192 | from 1 upwards the result is min(x/100, 1): x/100 up to 100, 1 from 100 on |
| `Opacity.NormaliseFixedPoints` | src/code.ts:209-215 | a value is left unchanged exactly when it is below 1 (so the rule is not idempotent at 1) |
| `Opacity.Effective` | src/code.ts:167-179 | an opacity is applied exactly when the parameter is given; a typed one is its normalised value, so at most 1 and unchanged below 1; a picked one is used as it is |
| `Palette.SavedIn` | src/code.ts:248-270 | an empty slot gets the one-entry palette; a stored palette becomes the saved palette (unchanged for a duplicate, the entry prepended otherwise); either way the entry is stored |
| `Palette.SavedShape` | src/code.ts:249-252 | saving an entry already present leaves the palette unchanged; a new one is put in front of the old palette, which stays in order, and the length grows by one |
| `Palette.SavedIdempotent` | src/code.ts:329-332 | saving the same entry twice is saving it once |
| `Palette.SavedKeepsNoDuplicates` | src/code.ts:329-332 | the duplicate check keeps a palette free of repeated entries |
| `Palette.RemovedMembers` | src/code.ts:373 | an entry survives removal exactly when it was present and its data differs from the selector |
| `Palette.RemovedAll` | src/code.ts:373 | no remaining entry has the selector as its data, and the palette does not grow |
| `Palette.RemovedConcat` | src/code.ts:373 | removal distributes over concatenation, so the remaining entries keep their relative order |
| `Palette.RemovedNothing` | src/code.ts:373 | the palette is unchanged exactly when no entry's data is the selector |
| `Palette.RemovedIdempotent` | src/code.ts:373 | removing the same selector again changes nothing |
| `Palette.RemovedKeepsNoDuplicates` | src/code.ts:373 | removal keeps a palette free of repeated entries |
| `Palette.RemoveAfterSave` | src/code.ts:369-376 | removing by the data of a just-saved entry gives what removing from the palette before the save gives, and undoes the save when nothing else had that data |
| `Palette.ClientStorage.Save` | src/code.ts:326-350 | the stored palette becomes the saved palette; the report is "already saved" exactly when the entry was stored, otherwise success with its name |
| `Palette.ClientStorage.Remove` | src/code.ts:369-385 | a stored palette is replaced by its filtered copy; with nothing stored, storage is left alone |
| `Suggestions.FilterByNameMembers` | src/code.ts:34 | a candidate is offered exactly when its name contains the query |
| `Suggestions.FilterByNameConcat` | src/code.ts:34 | filtering keeps the candidates' order and distributes over concatenation |
| `Suggestions.FilterByNameEmptyQuery` | src/code.ts:37 | an empty query offers every candidate |
| `Suggestions.FilterByNameKeepsAll` | src/code.ts:34 | a query that every candidate's name contains offers every candidate, in order |
| `Suggestions.ColorSuggestionsOrder` | src/code.ts:30-43 | every colour suggestion names the query and is stored or a preset; with a non-empty palette, the palette's matches come first, then the presets' |
| `Suggestions.ColorSuggestionsComplete` | src/code.ts:32-41 | every stored entry and every preset whose name contains the query is offered |
| `Suggestions.RemoveSuggestionsSound` | src/code.ts:52-59 | removal suggestions are offered only from a non-empty stored palette, and they are exactly its entries whose name contains the query |
| `Suggestions.OpacitySuggestionsExamples` | src/code.ts:47-49 | an empty query and the query "%" offer all five opacities in the listed order; "5" offers 50%, 25% and 75%, in that order |
| `SaveColor.FirstSavable` | src/code.ts:284-321 | the index found is of a visible fill of a recognised kind with none before it; with no index found, no fill qualifies |
| `SaveColor.ChooseFill` | src/code.ts:284-321 | the step-by-step walk over the fills yields the first savable fill, under the name its kind gives, or nothing |
| `SaveColor.SolidNameFormat` | src/code.ts:288 | a solid fill with channels ≥ 0 is named '#' and six upper-case hex digits, whose three bytes read back as the channels |
| `SaveColor.WhiteIsFFFFFF` | src/code.ts:288 | a white solid fill is named "#FFFFFF" |
| `SaveColor.StyleBeforeFills` | src/code.ts:234-278 | a visible node with a fill style is always saved by its style, never by its fills: the only entry it can add has the style's name and references a library style by its key, a local one by its id, with the remote flag |
| `SaveColor.RemoveStyleKeepsPaints` | src/code.ts:373 | removing by a style reference never drops a saved paint or preset |
| `SaveColor.SaveRunPrepends` | src/code.ts:232-276 | a run only prepends: a stored palette stays, in order, at the end of the new one; the slot stays empty only if it was empty |
| `SaveColor.SaveRunSavesEach` | src/code.ts:232-358 | every visible node that offers an entry has it in the palette afterwards, and no stored entry is lost |
| `SaveColor.SaveRunOnlyOffered` | src/code.ts:232-358 | nothing else enters the palette: every entry afterwards was stored before or is the entry of a visible node of the selection |
| `SaveColor.SaveRunReportsPrefix` | src/code.ts:232-366 | the reports of a prefix of the selection are a prefix of the reports of the whole selection |
| `SaveColor.SaveRunReportOf` | src/code.ts:232-366 | the visible node at position i gets the report numbered by the visible nodes before it: "invalid fill" exactly when it offers no entry (the palette is then unchanged), "already saved" exactly when its entry was stored, success with the entry's name otherwise, and the palette becomes the saved palette |
| `SaveColor.SaveRunUnique` | src/code.ts:329-332 | a run keeps a duplicate-free palette duplicate-free |
| `SaveColor.SaveRunReports` | src/code.ts:359-364 | each visible node gets exactly one report (saved, already saved, or invalid fill); hidden nodes none |
| `SaveColor.SaveColor` | src/code.ts:227-367 | the selection loop leaves storage and reports as the node-by-node run says, and reports an empty selection |
| `Placement.StripWhitespace` | src/code.ts:117 | removing whitespace leaves no `\s` character |
| `Placement.StripWhitespaceMembers` | src/code.ts:117 | whitespace is dropped, not replaced: a character survives exactly when it was in the name and is not whitespace |
| `Placement.StripWhitespaceConcat` | src/code.ts:117 | whitespace removal distributes over concatenation |
| `Placement.NormalisedIgnoresWhitespace` | src/code.ts:117 | inserting a whitespace character anywhere in a name does not change its normalised form |
| `Placement.NormalisedIgnoresCase` | src/code.ts:117 | upper-casing a name does not change its normalised form |
| `Placement.StatusBarIsTopLayer` | src/code.ts:11 | "Status Bar" is recognised as a top layer |
| `Placement.OverlayIsNotTopLayer` | src/code.ts:10-11 | the overlay's own name contains no keyword |
| `Placement.FirstNamed` | src/code.ts:100 | `findChild` by name: the first child with that name; nothing exactly when no child has it |
| `Placement.FirstTopLayer` | src/code.ts:117 | `findChild` by the keyword test: the first child that is a top layer; nothing when none is |
| `Placement.FirstTopLayerAt` | src/code.ts:117 | a top layer with no top layer before it is the one `findChild` finds |
| `Placement.InsertIndexes` | src/code.ts:124 | `insertChild(k, x)` puts x at index k, the children before k where they were and the others one place up |
| `Placement.InsertMembers` | src/code.ts:124 | an insertion adds the one child and keeps every other |
| `Placement.PlacementSpec` | src/code.ts:100-130 | with an overlay present nothing is added; otherwise exactly one child is added, the others keep their order, and it sits at the first top layer's index (directly beneath it), or at the end when there is none |
| `Placement.PlacementIdempotent` | src/code.ts:100-104 | after one run an overlay exists, so a second run adds nothing |
| `Placement.PlacementKeepsTopLayer` | src/code.ts:116-127 | the first top layer is still the first top layer, one position up, right above the new overlay |
| `Overlay.AppliedIdempotent` | src/code.ts:143-225 | applying the same fill and opacity twice is applying them once |
| `Overlay.AppliedChanges` | src/code.ts:143-225 | a style touches only the style and the layer's opacity; a copied paint or preset replaces the fills by one paint and keeps the rest; a copied paint is kept apart from its opacity; a preset becomes a visible solid paint of that colour |
| `Overlay.AppliedTypedOpacityAtMostOne` | src/code.ts:167-221 | a typed opacity lands as at most 1, on the layer for a style and on the paint otherwise |
| `Overlay.Layer.constructor` | src/code.ts:106-108 | a new overlay is a frame called "Overlay" with the host's default white fill |
| `Overlay.Layer.ApplyFill` | src/code.ts:143-225 | the layer's fills, opacity and style become the applied look; a missing style is reported |
| `Overlay.Frame.CreateOverlay` | src/code.ts:100-136 | the child list becomes the placed list: the existing overlay gets the fill and nothing is added, or a fresh overlay is inserted at the placement index with the fill on a new frame; other children keep their look |
| `Overlay.NamesInserted` | src/code.ts:124 | inserting a layer inserts its name at the same index |
| `Overlay.Looks` | src/code.ts:143-225 | the looks of a child list, one per child, in order |
| `Overlay.LooksInserted` | src/code.ts:124 | after an insertion, when the old children keep their looks, the looks are the old looks with the new layer's look inserted at the same index |
| `Overlay.ExistingOverlaid` | src/code.ts:100-104 | giving the fill to the first child called "Overlay" and to no other child is the overlaid state of a frame that had one |
| `Overlay.InsertedOverlaid` | src/code.ts:106-136 | inserting a new "Overlay" at the placement index, with the fill on a new frame's look and every old child keeping its look, is the overlaid state of a frame that had none |
| `Overlay.OverlayExisting` | src/code.ts:100-104 | with a child called "Overlay", the child list is unchanged, that child gets the fill, and every other child keeps its look |
| `Overlay.OverlayInserted` | src/code.ts:106-136 | without one, a fresh layer called "Overlay" is inserted at the placement index with the fill on a new frame's look, and every old child keeps its place order and look |
| `Overlay.OverlayFrame` | src/code.ts:100-136 | one eligible frame ends overlaid: placed names, the fill on the overlay, every other child's look kept, and any new child a fresh layer |
| `Overlay.ProcessNode` | src/code.ts:96-136 | a visible frame or component ends overlaid; any other node keeps its child list and every child's look |
| `Overlay.DoneKeeps` | src/code.ts:96-136 | processing a frame never drops one of its children |
| `Overlay.ProgressApart` | src/code.ts:96 | a step of the loop proof: before the i-th turn, the i-th frame still has its starting children, and no other frame has any of them |
| `Overlay.ProgressNext` | src/code.ts:96 | a step of the loop proof: a processed i-th frame whose new children are in no other frame's list extends the loop invariant by one frame |
| `Overlay.ProcessAt` | src/code.ts:96-140 | the i-th frame is processed; each child it gains is a fresh layer in no frame's list; every other frame keeps its child list and every child's look |
| `Overlay.StepAt` | src/code.ts:96-140 | one turn of the loop: the first i+1 frames are processed, the rest are as they were, the frames still share no child, and frame i's new children are fresh |
| `Overlay.ProcessAll` | src/code.ts:96-140 | the whole loop: every frame processed against its children and looks at the start, the frames still share no child, and every child a frame did not have is fresh |
| `Overlay.CreateOverlays` | src/code.ts:91-141 | an empty selection is reported; every eligible frame ends overlaid against its child list and looks at the start (placed names, the fill on the overlay, every other child's look kept); every other frame keeps its child list and every child's look; every child a frame gains is a fresh layer, and distinct frames still share no child, so the inserted overlay belongs to its frame alone |

## Left out

- Host geometry and layout, all of it floating point: the overlay's position
  and size (src/code.ts:110-113), its constraints, and absolute positioning
  in auto-layout frames (src/code.ts:132-134).
- How the host links `fills` and `fillStyleId`. The model treats them as
  independent fields. `Overlay.Layer.ApplyFill` records a resolved style id
  in `fillStyleId` and leaves `fills` as they were, although the host gives
  the layer the style's fills. Assigning `node.fills` for a copied paint or
  a preset keeps `fillStyleId` in the model, although the host detaches the
  layer from its fill style.
- The asynchronous storage calls and their rejection paths: a failed read or
  write and its error message.
- Library style imports that fail mid-run.
- A fill style whose lookup returns null. The source would throw reading
  `.name`; the model takes the style as given with the node.
- `figma.mixed` values for `fills` or `fillStyleId`.
- The exact status strings. For example, only one of the two success
  messages ends with a full stop. The model returns report values instead.
- Whether the host stops the script at the first `closePlugin`. The model
  processes the whole selection, as the code is written.
- `parseFloat`, and opacities that parse to NaN.
- Channels that are NaN or infinite. Channels are `real`s.
- Aliasing: `applyFill` writes the opacity into the colour object it was
  given. The model works on values and builds a new paint.
- Selection frames are assumed distinct (`CreateOverlays` requires it), as
  the host's selection is.
- Strings are sequences of Unicode scalar values. JavaScript strings are
  UTF-16 code units, so a character outside the Basic Multilingual Plane is
  one `char` here but two units there, and a lone surrogate cannot be
  represented.
- Text.ToUpper: only ASCII letters change case. JavaScript's `toUpperCase`
  also maps other letters; the hex digits are ASCII, so the hex output is
  unaffected.
- Text.LowerChars: only ASCII letters change case. Layer names with other
  letters are compared as if `toLowerCase` left those letters alone.
- The frames of a selection are assumed to share no child
  (`Overlay.CreateOverlays` requires it). A layer has one parent in the
  host's document tree, so this holds for every real selection.
- Palette.ClientStorage.Remove: its `NothingStored` report stands for a
  TypeError. With nothing stored, `value.filter` at src/code.ts:373 throws
  inside the storage callback, so `removeColor` rejects and the
  `closePlugin` at src/code.ts:88 is never reached. The model leaves
  storage alone and does not model the plugin staying open.
