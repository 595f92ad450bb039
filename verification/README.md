# Resin print quote calculator — Dafny model

This project models the pure logic of a browser tool that quotes resin 3D
printing jobs. The operator loads STL files. A 3D viewer measures the volume
and height of the file being viewed; a file not yet viewed keeps volume,
height and weight 0. The tool then prices the whole batch from a settings
record (resin price and density, printer power and cost, electricity price,
lifespan, vertical speed, post-processing fee, profit margin, manual time
override) and exports a PDF quote.

Modules, one per piece of the program:

- `Wrappers`: `Option`.
- `Seqs`: two sequence facts the list proofs share.
- `Types`: the three records of `types.ts`: `StlFile`, `CostSettings` and
  `QuoteResult`.
- `CostModel`: the batch quote computed in `App.tsx`. This covers total
  weight, tallest height, print time and the seven quote lines.
- `FileList`: the three writers of the file list in `App.tsx`: upload,
  geometry update and removal.
- `Geometry`: volume and height extraction in `components/Viewer3D.tsx`.
  The mesh is a sequence of triangles of real 3-vectors. The signed
  tetrahedron sum is taken after centring, as in the source.
- `SettingsForm`: the single-field edit of `components/Settings.tsx`. The
  ten fields form an enumeration. `parseFloat` is a parameter of type
  `string -> Option<real>`, where `None` stands for NaN.
- `QuoteText`: the project name, the PDF file name and the proposal fallback
  of `components/QuoteSummary.tsx`. Whitespace is the ECMAScript
  WhiteSpace and LineTerminator set, which `String.prototype.trim` and the
  regular-expression class `\s` share.
- `Constants`: `DEFAULT_SETTINGS`, plus a worked quote under it. The worked
  quote runs from a tetrahedron mesh, through upload and geometry delivery,
  to the final price.

Numbers are Dafny `real`, which is exact. The source divides by the printer
lifespan, and by the print speed when the height formula is used. In
JavaScript a zero divisor silently produces Infinity or NaN. The model
instead requires these divisors to be non-zero (`CostModel.Computable`).

Facts about the code that the model keeps:

- A record's weight is `volumeCm3 × resinDensity`, computed when its
  geometry is delivered (`App.tsx:60`). No handler reacts to a density
  change. The viewer is keyed by the open file's id (`App.tsx:156-161`).
  Opening a file again therefore remounts the viewer with its `processed`
  flag cleared (`components/Viewer3D.tsx:30-33`), so the geometry is
  delivered once more and the weight is recomputed with the density then in
  force. `Totals` itself does not read the density
  (`CostModel.QuoteIgnoresDensity`).
- For one 10 cm3, 50 mm file under the defaults, exact arithmetic on the
  code's formulas gives a subtotal of 25.0032 and a total of 32.50416
  (`Constants.OneFileQuote`).
- The code has no sentinel for a zero divisor.

## Model

| member | source | states |
|---|---|---|
| CostModel.TotalWeight | App.tsx:16 | no files weigh 0; when no weight is negative, every file's weight lies between 0 and the total |
| CostModel.MaxHeight | App.tsx:17 | 0 for an empty batch; otherwise one of the files' heights, and no height exceeds it |
| CostModel.MaxOf | App.tsx:17 | `Math.max` over a non-empty list's heights is one of those heights, and no height exceeds it |
| CostModel.EmptyBatchIsFree | App.tsx:16-36 | with no files, the print time and all seven quote fields are 0, for any settings with a non-zero lifespan |
| CostModel.ManualOverrideWins | App.tsx:21-23 | a positive manual time is the print time of every non-empty batch, whatever the heights |
| CostModel.PrintTime | App.tsx:20-27 | an empty batch takes 0 h; a positive manual time is the time of a non-empty batch; otherwise, with some file taller than 0, tallest height / speed + 0.5 h; never negative for a positive speed |
| CostModel.CalculatedPrintTime | App.tsx:17-26 | without a manual time, the time is tallest-height / speed + 0.5 h when some file is taller than 0, and 0 when none is |
| CostModel.Quote | App.tsx:29-36 | subtotal = resin + energy + depreciation + post-processing; profit = subtotal × margin / 100; total = subtotal + profit = subtotal × (100 + margin) / 100; the fee passes through; with no weight and no time the subtotal is the fee alone |
| CostModel.Totals | App.tsx:15-39 | the batch quote's lines add up to the subtotal, profit is the margin's share of it, total = subtotal + profit, and the post-processing fee is the setting for a non-empty batch and 0 for an empty one |
| CostModel.PostProcessingOncePerBatch | App.tsx:32 | any two non-empty batches pay the same post-processing fee, equal to the setting, whatever their file count |
| CostModel.QuoteIgnoresDensity | App.tsx:15-39 | the batch quote does not read the density setting: changing only the density leaves it unchanged |
| CostModel.TotalWeightAppend | App.tsx:16 | the weight sum of a concatenation is the sum of the parts' sums |
| CostModel.TotalWeightPermutation | App.tsx:16 | two lists with the same multiset of files have the same total weight |
| CostModel.MaxHeightPermutation | App.tsx:17 | two lists with the same multiset of files have the same tallest height |
| CostModel.QuoteIgnoresOrder | App.tsx:15-39 | reordering the files leaves the whole quote unchanged |
| CostModel.PrintTimeGrows | App.tsx:17-27 | with a positive speed, appending a file never shortens the print time |
| CostModel.SubtotalMonotone | App.tsx:29-34 | with non-negative settings and a positive lifespan, the subtotal is monotone in weight, hours and fee |
| CostModel.QuoteMonotone | App.tsx:29-36 | with non-negative settings and a positive lifespan, the total is monotone in weight, hours and fee |
| CostModel.AddingFileNeverLowersQuote | App.tsx:15-39 | with non-negative settings, a positive lifespan and a positive speed, appending a file of non-negative weight never lowers the subtotal or the total |
| FileList.Upload | App.tsx:41-55 | no file list leaves the list unchanged; otherwise one pending record per picked file is appended after the existing records, with its id, name and url, in order |
| FileList.UploadKeepsIdsUnique | App.tsx:43-52 | with fresh, distinct new ids, the ids stay unique after upload |
| FileList.UploadAddsNoWeight | App.tsx:47-52 | uploading does not change the batch weight |
| FileList.UpdateGeometry | App.tsx:57-64 | length and order are kept; records with other ids are unchanged; a record with the id gets the new volume and height and weight = volume × density, keeping its id, name, url and print time |
| FileList.UpdateAbsentIdIsNoOp | App.tsx:57-64 | a result for an id not in the list changes nothing |
| FileList.UpdateKeepsIds | App.tsx:58-63 | every position keeps its id, so unique ids stay unique |
| FileList.UpdateIdempotent | App.tsx:57-64 | delivering the same result twice is the same as delivering it once |
| FileList.UpdateShiftsWeight | App.tsx:57-64 | with unique ids, the batch weight changes by exactly the new weight minus the old weight |
| FileList.Remove | App.tsx:66-69 | the result holds exactly the records of the list whose id differs, and is no longer than the list |
| FileList.RemoveAppend | App.tsx:67 | removal distributes over concatenation, so the survivors keep their relative order |
| FileList.RemoveAbsentIsNoOp | App.tsx:67 | removing an absent id changes nothing |
| FileList.RemoveIdempotent | App.tsx:67 | removing the same id twice is the same as removing it once |
| FileList.RemoveAt | App.tsx:67 | with unique ids, removing the id at position k yields the list without position k |
| FileList.RemovePresentDropsOne | App.tsx:67 | with unique ids, removing a present id shortens the list by one and keeps ids unique |
| FileList.ExtractionAfterRemovalIsDiscarded | App.tsx:57-69 | a geometry result arriving after its file was removed does not bring the file back |
| Geometry.SignedVolume | components/Viewer3D.tsx:23 | a facet with two equal corners spans no signed volume |
| Geometry.SignedSum | components/Viewer3D.tsx:16-24 | a mesh without facets sums to 0 |
| Geometry.FlatFacetsSumToZero | components/Viewer3D.tsx:19-24 | facets that each span no signed volume sum to 0 |
| Geometry.MeshVolume | components/Viewer3D.tsx:13-26 | the reported volume is never negative, and is 0 for a mesh without facets |
| Geometry.SignedSumAppend | components/Viewer3D.tsx:19-24 | the signed sum of a concatenation is the sum of the parts' signed sums |
| Geometry.FlipAllKeepsVolume | components/Viewer3D.tsx:23-25 | reversing every facet's winding negates the signed sum and keeps the reported volume |
| Geometry.TetrahedronVolume | components/Viewer3D.tsx:13-26 | the outward-wound corner tetrahedron with legs a, b, c has signed sum and volume abc/6 |
| Geometry.BoundingBox | components/Viewer3D.tsx:36 | the box's low corner is at or below its high corner on every axis |
| Geometry.BoxIsTight | components/Viewer3D.tsx:36-42 | the bounding box corners hold the least and the greatest vertex coordinate on each axis, both attained |
| Geometry.Extent | components/Viewer3D.tsx:42 | the max − min extent of a non-empty mesh is never negative |
| Geometry.TranslateShiftsBox | components/Viewer3D.tsx:35-36 | translating a mesh moves both ends of its bounding box by the translation |
| Geometry.Center | components/Viewer3D.tsx:35 | the mesh keeps its facets and their order, and every facet is moved by minus the midpoint of the mesh's bounding box |
| Geometry.CenteredBoxIsSymmetric | components/Viewer3D.tsx:35-42 | after centring, the box is symmetric about the origin on every axis and every extent is unchanged |
| Geometry.Extract | components/Viewer3D.tsx:32-48 | the reported volume and height are never negative |
| Geometry.VolumeInCubicCentimetres | components/Viewer3D.tsx:38 | the reported cm3 volume is the centred mesh's mm3 volume divided by 1000 |
| Geometry.EmptyMeshMeasuresZero | components/Viewer3D.tsx:19-25 | a mesh without facets reports volume 0 (and height 0, see Left out) |
| Geometry.HeightIsZExtent | components/Viewer3D.tsx:35-43 | the reported height is the uncentred mesh's max z − min z |
| Geometry.TetrahedronExtraction | components/Viewer3D.tsx:32-48 | the viewer reports the corner tetrahedron as abc/6000 cm3 and c mm tall |
| Geometry.OpenMeshDependsOnPlacement | components/Viewer3D.tsx:35-38 | for an open mesh, centring before summing changes the volume: a lone facet at z = 1 sums to 1/6 in place and 0 once centred |
| SettingsForm.Set | components/Settings.tsx:13-16 | the edited field reads back the new value, and every other field reads as before |
| SettingsForm.ParsedOrZero | components/Settings.tsx:15 | a NaN parse result becomes 0, and any number, including 0 and negatives, is kept |
| SettingsForm.HandleChange | components/Settings.tsx:11-17 | the edited field gets the parsed number unclamped, or 0 when the text does not parse; the nine other fields are copied |
| SettingsForm.HandleChangeIdempotent | components/Settings.tsx:13-16 | making the same edit twice gives the same settings as making it once |
| SettingsForm.SetSameValueIsNoOp | components/Settings.tsx:13-15 | storing the value a field already holds leaves the settings unchanged |
| SettingsForm.EditsOfDifferentFieldsCommute | components/Settings.tsx:13-15 | edits of two different fields commute |
| QuoteText.TrimStart | components/QuoteSummary.tsx:68 | the result is a suffix of the input, preceded only by whitespace, and starts with non-whitespace when non-empty |
| QuoteText.TrimEnd | components/QuoteSummary.tsx:68 | the result is a prefix of the input, followed only by whitespace, and ends with non-whitespace when non-empty |
| QuoteText.Trim | components/QuoteSummary.tsx:68 | the trimmed string is no longer than the input, and both its ends are non-whitespace |
| QuoteText.TrimIsSlice | components/QuoteSummary.tsx:68 | the trimmed string is a contiguous slice of the input |
| QuoteText.TrimCutsWhitespace | components/QuoteSummary.tsx:68 | what trimming removes on either side is whitespace only |
| QuoteText.TrimEmptyIffBlank | components/QuoteSummary.tsx:68 | trimming gives the empty string exactly when the input is all whitespace |
| QuoteText.ProjectName | components/QuoteSummary.tsx:68 | never empty; blank input gives "Projeto Sem Nome"; any other input gives its trim, whose ends are non-whitespace |
| QuoteText.ReplaceWhitespaceRuns | components/QuoteSummary.tsx:147 | the result has no whitespace, and is non-empty for non-empty input |
| QuoteText.ReplaceMatchesRunStarts | components/QuoteSummary.tsx:147 | the replacement agrees with a character-by-character reference: run openers become `_`, run continuations vanish, other characters are kept |
| QuoteText.NoWhitespaceUnchanged | components/QuoteSummary.tsx:147 | text without whitespace is left as it is |
| QuoteText.ReplaceIdempotent | components/QuoteSummary.tsx:147 | replacing twice is replacing once |
| QuoteText.ReplaceKeepsVisible | components/QuoteSummary.tsx:147 | the characters other than whitespace and `_` survive in order, none added or dropped |
| QuoteText.PdfFileName | components/QuoteSummary.tsx:147 | the name is "Orcamento_" + the project name with each whitespace run made one `_` + ".pdf", and has no whitespace |
| QuoteText.FileNameKeepsName | components/QuoteSummary.tsx:147 | the middle of the file name keeps the project name's visible characters in order |
| QuoteText.ProposalText | components/QuoteSummary.tsx:135 | a present, non-empty generated text is used verbatim; otherwise the fixed default sentence is used; never empty |
| Constants.DefaultsArePositive | constants.ts:6-17 | every default is strictly positive except the manual time, which is 0; the defaults are non-negative |
| Constants.DefaultsQuoteEveryBatch | constants.ts:12-16 | under the defaults both divisions are defined for every batch, and a non-empty batch is timed as tallest height / 60 + 0.5 h when the tallest height is positive, else 0 h |
| Constants.OneMeasuredFile | App.tsx:41-64 | uploading one file and delivering (v, h) gives one record with volume v, height h and weight v × density |
| Constants.DefaultQuoteArithmetic | App.tsx:29-36 | 11.5 g and 4/3 h under the defaults cost 1.84 + 0.1632 + 3 + 20 = 25.0032, profit 7.50096, total 32.50416 |
| Constants.OneFileQuote | constants.ts:6-17 | one file of 10 cm3 and 50 mm under the defaults weighs 11.5 g, prints in 4/3 h and is quoted at 32.50416 |
| Constants.TetrahedronQuote | constants.ts:6-17 | a 50 mm tall corner tetrahedron with ab = 1200 measures 10 cm3 and 50 mm, and the uploaded, measured file is quoted at 32.50416 |

## Left out

- STL decoding (`STLLoader`), three.js `BufferGeometry` and `Box3` internals, and the canvas, camera and lighting. The model takes the triangles directly.
- Geometry.MeshVolume: the source loops `position.count / 3` times. When the vertex count is not a multiple of 3, that count is fractional. The model takes whole triangles only.
- Geometry.EmptyMeshMeasuresZero: states height 0 for a mesh without facets. The source's height there is −Infinity, from three.js's empty box; `real` has no infinities.
- Geometry.Extract: for a mesh without vertices, three.js's empty box makes the source's height max z − min z, which is −Infinity. The model reports 0, because `real` has no infinities.
- CostModel.Totals: a zero lifespan, or a zero speed while the height formula applies, is excluded by precondition. The source silently computes Infinity or NaN in those cases.
- IEEE-754 rounding throughout: all arithmetic is exact `real`.
- The limit on how many arguments `Math.max(...heights)` accepts. The model takes the maximum of any number of heights.
- `crypto.randomUUID` and `URL.createObjectURL`: the generated id and URL arrive with each picked file (`FileList.PickedFile`). Freshness is a precondition (`FileList.FreshIds`).
- `parseFloat` itself is a parameter, not modelled.
- PDF drawing, the date, and currency and number formatting (`Intl.NumberFormat`, `toFixed`): these are presentation through foreign libraries.
- The service that asks an external model for the proposal text, including its network call and prompt. Only its result, possibly absent, is an input (`QuoteText.ProposalText`).
- React state, hooks and rendering:
  - the selected file (`activeFileId`);
  - the viewer's `processed` flag;
  - extraction running only for the file being viewed.
  Each extraction is modelled as one delivered `UpdateGeometry` call.
- The refresh of a weight after a density change. It happens only when the file is opened again and the remounted viewer delivers its geometry once more. In the model that is one more `FileList.UpdateGeometry` call with the current density; the selection and the remount themselves are not modelled.
- Strings are sequences of Unicode scalar values. The whitespace characters are all in the Basic Multilingual Plane, so this agrees with JavaScript's UTF-16 code units for trimming and `\s`.
