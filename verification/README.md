# FormForge in Dafny

FormForge lets a user lay out fillable form fields on a page. Fields are text
inputs, dates, checkboxes, signature boxes and static labels. The user can
export the layout as a new fillable PDF, or place the fields on an uploaded PDF.
This project models and proves three parts of it.

1. **The field-placement engine of the PDF service**: module `PdfService`, file `pdf_service.dfy`.
   - `getPdfInfo` and the coordinate flip.
   - Build mode (`generatePdfFromLayout`). It groups fields by `page || 1`, creates `max(1, largest page)` blank pages, and walks the buckets in page order.
   - Augment mode (`addFieldsToExistingPdf`). It skips fields whose page the document lacks.
   - The per-type placement policy both modes share.
   - The PDF library is abstract. The engine produces a plan: the document's page list, the names held by its form, the fields placed, and one outcome per field (`Placed`, `Failed` or `Skipped`).
   - The backend calls a placed field makes are a sequence of actions (`CreateField`, `SetText`, `AlignLeft`, `EnableMultiline`, `DrawText`).
   - `Perform` runs those calls one at a time, as the try block does. Creating a form field under a name the form already holds throws. The per-field `catch` turns that into a `Failed` outcome, and the loop carries on.
   - The generator loops are methods, proved equal to the specification functions `BuildSpec` and `AugmentSpec`.
2. **The two editor pages**.
   - Module `FormBuilder` (`form_builder.dfy`) holds the builder's field list, selection and linear undo history. The history is a list of snapshots plus an index, with truncate-on-push, undo and redo. The page is the class `FormBuilderPage`. Each handler is proved against a function on the state value `EditorState`, and the history's promises are proved about those functions.
   - Module `PdfEditor` (`pdf_editor.dfy`) holds the existing-PDF page. It has no history and clamps page navigation to the document.
   - The list transforms both pages share are in `FieldList` (`field_list.dfy`): replace-by-id, delete-by-id, lookup, and the rule that a null id only deselects. The field record itself is in `FieldModel` (`field_model.dfy`).
3. **The editor's geometry and record rules**.
   - `Canvas` (`canvas.dfy`) covers both drop zones, whose modelled code is identical. The table cites `src/components/Canvas.js`. The same members model `src/components/PdfCanvas.js` (drop 86-108, move 115-120, resize 123-128, filter 137). They cover: the record built for a dropped field, the move and resize handlers, and the current-page filter.
   - `FieldRenderer` (`field_renderer.dfy`) covers the drag and resize clamps, the type icons and the label preview.
   - `PropertiesPanel` (`properties_panel.dfy`) covers attribute edits, the numeric fallbacks, the displayed defaults, Duplicate and Deselect.

Conventions used throughout:
- A field's `label` attribute is `labelText`, because `label` is a Dafny keyword. An absent label is `""`.
- An absent `page` or `fontSize` is `None`.
- JavaScript's `x || d` is written out. Both an absent value and 0 give the default (`PageOrDefault`, `FontSizeOrDefault`, `RealOr`).
- A null id is `None`, and `!id` also holds for `""` (`IsNullId`).
- Coordinates are `real`. Every division by the zoom requires `zoom > 0`.
- `Unknown(name)` stands for a type string other than the five palette names. The model does not exclude `Unknown("checkbox")` and the like, and such a value does not behave as the palette type of that name.

Two behaviours of the service are worth stating with numbers:
- **Label position.** A label with x=50, y=40, height=30 on a 792-point page is drawn at (50, 732). The y comes from the flip 792 − 40 − 30 = 722, plus half the height (15), minus 5 (`PdfService.LabelPositionExample`).
- **Unknown types.** A field of an unknown type creates no form field, but its caption is still drawn (`PdfService.UnknownTypeGetsOnlyCaption`).

The model also reproduces these behaviours of the code faithfully:
- A `label` field in augment mode produces nothing (`PdfService.AugmentLabelIsInert`).
- Page 0 is read as page 1 (`FieldModel.PageOrDefault`).
- The canvas filter compares `page` strictly. A field with no page is therefore never shown, although the service puts it on page 1 (`Canvas.PagelessFieldIsNeverShown`).
- Ids need not be unique (a loaded layout may repeat one). A move or resize then overwrites every field carrying the id with a copy of the first one (`Canvas.MoveCopiesFirstMatch`, `Canvas.ResizeCopiesFirstMatch`).
- The history starts empty, so the first field added to an empty builder cannot be undone (`FormBuilder.FirstAddCannotBeUndone`).
- Duplicate is lost; see Findings.

## Model

| member | source | states |
|---|---|---|
| FieldModel.PageOrDefault | server/services/pdfService.js:46 | `page \|\| 1`: never 0; a non-zero page is kept; an absent page or page 0 reads as 1 |
| FieldModel.FontSizeOrDefault | server/services/pdfService.js:137 | `fontSize \|\| 12`: never 0; a non-zero size is kept; absent or 0 gives 12 |
| FieldList.ReplaceById | src/pages/FormBuilder.js:46 | the `map` keeps the length, puts the updated record at every index whose id matches, and keeps every other record in place |
| FieldList.RemoveById | src/pages/FormBuilder.js:55 | the `filter` keeps exactly the records whose id differs, and never lengthens the list |
| FieldList.RemoveByIdKeepsOrder | src/pages/FormBuilder.js:55 | deleting distributes over concatenation, so the survivors keep their order |
| FieldList.RemoveAbsentId | src/pages/PdfEditor.js:73 | deleting an id no record carries leaves the list unchanged |
| FieldList.RemoveUniqueIdRemovesOne | src/pages/PdfEditor.js:73 | with unique ids, deleting a present id removes exactly one record |
| FieldList.FindById | src/pages/FormBuilder.js:164 | `find` returns nothing iff no record has the id; otherwise it returns the first record with that id |
| FieldList.FindUniqueId | src/components/Canvas.js:56 | with unique ids, `find` returns the record at any index that carries the id |
| FieldList.SelectedField | src/pages/PdfEditor.js:110 | `selectedField` is empty iff nothing is selected or no record has the selected id; otherwise it is a listed record with that id |
| FieldList.ApplyUpdate | src/pages/FormBuilder.js:39-50 | a null or empty id leaves the list alone; otherwise every record with the id is replaced and the others stay |
| PdfService.GetPdfInfo | server/services/pdfService.js:11-25 | `pageCount` is the number of pages; record i has `pageNumber` i+1 and the page's width and height |
| PdfService.ConvertCoordinates | server/services/pdfService.js:30-32 | the PDF y plus the height plus the screen y is the page height; a box inside the page stays inside it |
| PdfService.ConvertCoordinatesInvolutive | server/services/pdfService.js:30-32 | converting twice with the same height and page height gives back the screen y |
| PdfService.Keys | server/services/pdfService.js:44-51 | the keys of `fieldsByPage` never include 0, because `page \|\| 1` turns page 0 into 1 |
| PdfService.Bucket | server/services/pdfService.js:44-51 | `fieldsByPage[key]` is no longer than the layout and holds only fields with that key |
| PdfService.BucketMembers | server/services/pdfService.js:44-51 | every field of a bucket is a field of the layout with that bucket's key |
| PdfService.BucketEmpty | server/services/pdfService.js:47-49 | a key that no field has gets no bucket entries |
| PdfService.BucketAppend | server/services/pdfService.js:44-51 | grouping a concatenation concatenates the buckets, so input order is kept within a bucket |
| PdfService.BucketCount | server/services/pdfService.js:44-51 | a bucket holds each field of its key as often as the layout does, and no field of another key |
| PdfService.MaxKey | server/services/pdfService.js:54 | `Math.max(...keys, 1)` is at least 1, bounds every key, and is 1 or one of the keys |
| PdfService.BuildOrder | server/services/pdfService.js:67-72 | walking buckets 1..n visits only fields whose key lies in 1..n |
| PdfService.BuildOrderMembers | server/services/pdfService.js:67-72 | every field visited by the first n buckets has a key in 1..n |
| PdfService.BuildOrderCount | server/services/pdfService.js:67-72 | the first n buckets hold each field with key in 1..n as often as the layout does, and no other field |
| PdfService.BuildOrderPermutes | server/services/pdfService.js:44-72 | when every key lies in 1..n, walking buckets 1..n visits a permutation of the layout |
| PdfService.BuildOrderSorted | server/services/pdfService.js:67-72 | the buckets are walked in ascending page order |
| PdfService.BlankPages | server/services/pdfService.js:57-61 | n pages, every one of the requested size |
| PdfService.Caption | server/services/pdfService.js:144-252 | at most one call, never a form field: present iff the field is not a label and has a label, drawing that label on the field's page at (x, pdfY + height + 5) |
| PdfService.Widget | server/services/pdfService.js:75-241 | an interactive type first creates its form field under its id on its page at (x, pdfY), a checkbox iff the type is `checkbox`, and creates nothing after; other types create nothing and make at most one call; an unknown type, or a label in augment mode, makes none |
| PdfService.Perform | server/services/pdfService.js:74-156 | the calls run in order until one creates a name the form already holds; that call throws and stops the block; the form gains exactly the names the completed calls created |
| PdfService.PerformNoCreation | server/services/pdfService.js:132-153 | calls that create no form field never throw and leave the names alone |
| PdfService.FieldActions | server/services/pdfService.js:75-153 | an interactive field's first call creates the field under its id and no later call creates one; other types create none |
| PdfService.PerformFieldActions | server/services/pdfService.js:74-156 | a field's try block fails iff it is interactive and its id is already in the form; on success every call is made and the form gains exactly the id; on failure nothing is made |
| PdfService.CallsCreate | server/services/pdfService.js:75-142 | the calls of an interactive field create exactly its id; other types create nothing |
| PdfService.Step | server/services/pdfService.js:177-255 | one loop iteration never changes the page list |
| PdfService.PlaceAll | server/services/pdfService.js:177-256 | the field loop never changes the page list |
| PdfService.BuildSpec | server/services/pdfService.js:37-163 | build mode creates `MaxKey` pages of the requested size, and the new form holds exactly the ids of the interactive fields placed |
| PdfService.AugmentSpec | server/services/pdfService.js:168-261 | augment mode keeps the document's pages, and the form ends with its old names plus the ids of the interactive fields placed |
| PdfService.StepPlaces | server/services/pdfService.js:74-153 | if no call of a field on an existing page throws, the field is placed with all its calls made and the form gains the names they create |
| PdfService.StepFails | server/services/pdfService.js:154-156 | if a call throws, the field is reported as failed, none of its calls reaches the document, and the form is unchanged |
| PdfService.StepSkipsOffPage | server/services/pdfService.js:178-182 | a field whose page does not exist is skipped; the form and the document are unchanged |
| PdfService.AugmentLabelIsInert | server/services/pdfService.js:189-252 | in augment mode a label field registers no name and has no call to make |
| PdfService.PlaceAllOutcomes | server/services/pdfService.js:177-256 | every field gets exactly one outcome, in input order, under its own id; it is a skip iff its page does not exist; earlier outcomes and placements are kept; names only grow |
| PdfService.PlacementsOf | server/services/pdfService.js:74-153 | the placements a run records never outnumber its fields: one per `Placed` outcome, in input order |
| PdfService.PlacementsOfPages | server/services/pdfService.js:54-72 | each recorded placement is of a listed field, on the page its `page \|\| 1` key names, with its y flipped against that page's height |
| PdfService.StepPlacement | server/services/pdfService.js:74-156 | one iteration adds one outcome and appends to `placed` exactly the placement that outcome records |
| PdfService.PlaceAllPlacements | server/services/pdfService.js:177-256 | the loop appends to `placed` exactly, in input order, one placement per field reported `Placed`, on its key's page with its y flipped |
| PdfService.PlaceAllFromStart | server/services/pdfService.js:54-72 | starting from nothing placed or reported, `placed` is exactly the placements the outcomes record |
| PdfService.NoCreationNames | server/services/pdfService.js:132-153 | calls that create no form field create no names |
| PdfService.StepTracksNames | server/services/pdfService.js:74-156 | one iteration keeps the form equal to its initial names plus the ids of the placed interactive fields |
| PdfService.PlaceAllTracksNames | server/services/pdfService.js:177-256 | the whole loop keeps the form equal to its initial names plus the ids of the placed interactive fields |
| PdfService.PlaceAllNamesBound | server/services/pdfService.js:177-256 | the loop registers no name besides the ids of the interactive fields it is given |
| PdfService.PlaceAllNeverFails | server/services/pdfService.js:154-156 | interactive fields with distinct ids that are new to the form never fail |
| PdfService.BuildPlacesEveryField | server/services/pdfService.js:54-72 | build mode creates `MaxKey` pages of the requested size, visits a permutation of the layout, and gives each visited field one outcome, under its id, that is never a skip; `placed` is exactly the visited fields reported `Placed`, in visiting order, on their key's page |
| PdfService.AugmentReport | server/services/pdfService.js:177-256 | augment mode gives each field one outcome in input order, skips exactly the fields whose page is missing, ends with the old names plus the placed interactive ids, and never fails on fresh distinct ids; `placed` is exactly the fields reported `Placed`, in input order, on their key's page |
| PdfService.CheckboxIsSquare | server/services/pdfService.js:106-116 | in both modes a checkbox is created under its id at (x, pdfY), as a square whose side is the smaller of width and height |
| PdfService.BuildLabelDrawsText | server/services/pdfService.js:132-141 | a build-mode label creates no field; it draws `label \|\| 'Label'` at (x, pdfY + height/2 − 5), at size `fontSize \|\| 12`, bold iff `bold` |
| PdfService.CaptionRule | server/services/pdfService.js:144-153 | a non-label field with a label ends with a caption at (x, pdfY + height + 5): size 10 regular in build mode, size 9 bold in augment mode; any other field gets none |
| PdfService.UnknownTypeGetsOnlyCaption | server/services/pdfService.js:75-142 | an unknown type creates no form field; it gets a caption iff its label is non-empty |
| PdfService.LabelPositionExample | server/services/pdfService.js:134-138 | the label x=50, y=40, height=30, fontSize 14 on a 792-point page is drawn at (50, 732), size 14, regular |
| PdfService.GroupByPage | server/services/pdfService.js:44-51 | the `forEach` makes the dictionary's keys exactly the fields' page keys, each holding its bucket |
| PdfService.MaxPage | server/services/pdfService.js:54 | the page count is `MaxKey` of the layout |
| PdfService.CreatePages | server/services/pdfService.js:57-61 | the counting loop creates `maxPage` pages of `pageSize` |
| PdfService.PlaceField | server/services/pdfService.js:72-156 | one field's coordinate flip and try block compute `Step` |
| PdfService.PlacePageFields | server/services/pdfService.js:71-157 | the inner loop computes `PlaceAll` over the bucket |
| PdfService.PlaceBucket | server/services/pdfService.js:67-70 | one outer iteration extends the run by bucket `pageNum`, and passes over a page number with no bucket |
| PdfService.PlaceBuckets | server/services/pdfService.js:67-158 | the outer loop computes `PlaceAll` over buckets 1..maxPage in ascending order |
| PdfService.GeneratePdfFromLayout | server/services/pdfService.js:37-163 | `generatePdfFromLayout` computes `BuildSpec` |
| PdfService.AddFieldsToExistingPdf | server/services/pdfService.js:168-261 | `addFieldsToExistingPdf`, with its `continue` on a missing page, computes `AugmentSpec` |
| FormBuilder.Record | src/pages/FormBuilder.js:63-68 | `addToHistory` keeps `history[0..historyIndex]`, appends the new snapshot, points the index at it, and changes nothing else |
| FormBuilder.AddField | src/pages/FormBuilder.js:29-36 | the field is appended, the snapshots up to the old index are kept, the index advances, the field is selected, and the state stays valid |
| FormBuilder.UpdateField | src/pages/FormBuilder.js:39-50 | a null id only clears the selection; otherwise every record with the id is replaced, the others stay in place, a snapshot is recorded as the last one (nothing left to redo), and the state stays valid |
| FormBuilder.DeleteField | src/pages/FormBuilder.js:53-60 | the list becomes the `filter` of the records with a different id, in their order and multiplicity; it is recorded as the new last snapshot, so nothing is left to redo; the selection is cleared, and the state stays valid |
| FormBuilder.Undo | src/pages/FormBuilder.js:71-76 | only when the index is above 0: the index drops by one and the fields become that snapshot; the history and the selection never change |
| FormBuilder.Redo | src/pages/FormBuilder.js:79-84 | only when a later snapshot exists: the index rises by one and the fields become that snapshot; the history and the selection never change |
| FormBuilder.Clear | src/pages/FormBuilder.js:156-162 | on confirmation the list and the selection are emptied and an empty snapshot is recorded as the last one (nothing left to redo); otherwise nothing changes |
| FormBuilder.LoadLayout | src/pages/FormBuilder.js:138-153 | any parsed JSON value other than `null` has its `fields \|\| []` become the list, recorded as the last snapshot (nothing left to redo), and the selection is kept; no file, unparseable text or `null` changes nothing |
| FormBuilder.InitialIsValid | src/pages/FormBuilder.js:18-26 | the initial state (no fields, empty history, index −1) is valid, and undo and redo do nothing on it |
| FormBuilder.UndoThenRedo | src/pages/FormBuilder.js:71-84 | an allowed undo followed by a redo restores the state |
| FormBuilder.RedoThenUndo | src/pages/FormBuilder.js:71-84 | an allowed redo followed by an undo restores the state |
| FormBuilder.AddEndsRedo | src/pages/FormBuilder.js:63-68 | after an add there is nothing to redo |
| FormBuilder.UndoRevertsAdd | src/pages/FormBuilder.js:29-36 | once a snapshot has been recorded, an undo right after an add shows the list as it was before the add |
| FormBuilder.FirstAddCannotBeUndone | src/pages/FormBuilder.js:25-36 | starting from the empty history, undo after the first add changes nothing, so the field stays |
| FormBuilder.UndoRevertsDelete | src/pages/FormBuilder.js:53-60 | an undo right after a delete shows the list as it was before the delete |
| FormBuilder.Navigate | src/pages/FormBuilder.js:71-84 | any run of undo and redo clicks keeps the state valid |
| FormBuilder.NavigateKeepsSnapshots | src/pages/FormBuilder.js:71-84 | undo and redo clicks never change the snapshots or the selection, and never bring the index back to −1 |
| FormBuilder.UndoRepeatedly | src/pages/FormBuilder.js:71-76 | k undos from index i, with k ≤ i, land on snapshot i − k |
| FormBuilder.FormBuilderPage.constructor | src/pages/FormBuilder.js:18-26 | the page starts with no fields, no selection, an empty history at index −1, and a US Letter page |
| FormBuilder.FormBuilderPage.AddToHistory | src/pages/FormBuilder.js:63-68 | slicing and pushing computes `Record` |
| FormBuilder.FormBuilderPage.HandleFieldAdd | src/pages/FormBuilder.js:29-36 | the handler computes `AddField` |
| FormBuilder.FormBuilderPage.HandleFieldUpdate | src/pages/FormBuilder.js:39-50 | the handler computes `UpdateField` |
| FormBuilder.FormBuilderPage.HandleFieldDelete | src/pages/FormBuilder.js:53-60 | the handler computes `DeleteField` |
| FormBuilder.FormBuilderPage.HandleUndo | src/pages/FormBuilder.js:71-76 | the handler computes `Undo` |
| FormBuilder.FormBuilderPage.HandleRedo | src/pages/FormBuilder.js:79-84 | the handler computes `Redo` |
| FormBuilder.FormBuilderPage.HandleClear | src/pages/FormBuilder.js:156-162 | the handler computes `Clear` |
| FormBuilder.FormBuilderPage.HandleLoadLayout | src/pages/FormBuilder.js:146-147 | the handler computes `LoadLayout` |
| FormBuilder.FormBuilderPage.HandleExport | src/pages/FormBuilder.js:87-99 | nothing is posted iff the list is empty; otherwise the fields and the page size are posted |
| PdfEditor.PreviousPage | src/pages/PdfEditor.js:185 | `Math.max(1, cur - 1)` is at least 1, one page back when cur > 1, and 1 otherwise |
| PdfEditor.NextPage | src/pages/PdfEditor.js:195 | `Math.min(count, cur + 1)` is at most count, one page on when cur < count, and count otherwise |
| PdfEditor.NavigationStaysInRange | src/pages/PdfEditor.js:181-199 | from a page in [1, pageCount], both buttons stay in [1, pageCount] |
| PdfEditor.NextClicksStopAtLast | src/pages/PdfEditor.js:195 | k clicks on next from an in-range page reach min(cur + k, pageCount) |
| PdfEditor.FindPage | src/pages/PdfEditor.js:111 | `find` returns nothing iff no record has the number; otherwise it returns the first record with it |
| PdfEditor.CurrentPageInfoOfUpload | src/pages/PdfEditor.js:111 | on the page list of an upload, page n in range has record n − 1, and an out-of-range n has none |
| PdfEditor.PdfEditorPage.constructor | src/pages/PdfEditor.js:18-22 | no document, no pages, no fields, no selection, page 1 |
| PdfEditor.PdfEditorPage.HandleFileUpload | src/pages/PdfEditor.js:28-53 | a successful upload stores the document and its pages, goes to page 1, and empties the fields and the selection; no file or a failed request changes nothing |
| PdfEditor.PdfEditorPage.HandleFieldAdd | src/pages/PdfEditor.js:56-59 | the field is appended and selected; document, pages and page number are kept |
| PdfEditor.PdfEditorPage.HandleFieldUpdate | src/pages/PdfEditor.js:62-69 | the list becomes `ApplyUpdate` of the old one; a null id clears the selection, otherwise it is kept; no history |
| PdfEditor.PdfEditorPage.HandleFieldDelete | src/pages/PdfEditor.js:72-75 | the list becomes `RemoveById` of the old one and the selection is cleared |
| PdfEditor.PdfEditorPage.HandleNewPdf | src/pages/PdfEditor.js:168-174 | on confirmation, the document, fields and pages are dropped and the selection and page number stay; otherwise nothing changes |
| PdfEditor.PdfEditorPage.HandlePreviousPage | src/pages/PdfEditor.js:185 | the page becomes `PreviousPage` of the old one; nothing else changes |
| PdfEditor.PdfEditorPage.HandleNextPage | src/pages/PdfEditor.js:195 | the page becomes `NextPage` of the old one and the page count; nothing else changes |
| PdfEditor.PdfEditorPage.HandleExport | src/pages/PdfEditor.js:79-82 | nothing is posted iff there is no document (null or empty) or no field; otherwise the document and the fields are posted |
| PdfEditor.PdfEditorPage.CurrentPageInfo | src/pages/PdfEditor.js:111 | `currentPageInfo` is a listed record numbered `currentPage`, and is empty iff no record has that number |
| Canvas.DroppedField | src/components/Canvas.js:30-45 | the drop record has the given id and type, a position never negative that is cursor − (50, 15) when that is on the page, size 20×20 for a checkbox and 200×30 otherwise, the current page, the generated label, font size 12, not bold |
| Canvas.Capitalize | src/components/Canvas.js:42 | same length; the first letter upper-cased and the rest kept |
| Canvas.DefaultLabel | src/components/Canvas.js:42 | the label is the type name, with its first letter upper-cased and the rest kept, followed by " Field" |
| Canvas.LowerInitialLabel | src/components/Canvas.js:42 | a type name starting with a lower-case letter gives that letter upper-cased, then the rest, then " Field" |
| Canvas.MoveCall | src/components/Canvas.js:55-60 | no call iff no record has the id; otherwise the first record with the id, with only x and y replaced, is sent under the id |
| Canvas.MoveChangesOnlyPosition | src/components/Canvas.js:55-60 | with unique ids, applying the move changes only x and y of the record with the id; an unknown or empty id changes nothing |
| Canvas.MoveCopiesFirstMatch | src/components/Canvas.js:55-60 | with ids that may repeat, applying the move replaces every record carrying the id with the first such record moved, and keeps the others |
| Canvas.ResizeCall | src/components/Canvas.js:63-68 | no call iff no record has the id; otherwise the first record with the id, with only width and height replaced, is sent under the id |
| Canvas.ResizeChangesOnlySize | src/components/Canvas.js:63-68 | with unique ids, applying the resize changes only width and height of the record with the id; an unknown or empty id changes nothing |
| Canvas.ResizeCopiesFirstMatch | src/components/Canvas.js:63-68 | with ids that may repeat, applying the resize replaces every record carrying the id with the first such record resized, and keeps the others |
| Canvas.CurrentPageFields | src/components/Canvas.js:71 | the shown fields are exactly those whose `page` is strictly the current page |
| Canvas.CurrentPageFieldsKeepOrder | src/components/Canvas.js:71 | the filter distributes over concatenation, so list order is kept |
| Canvas.DroppedFieldIsShown | src/components/Canvas.js:41 | a dropped field is shown at once on the current page, after the fields already shown |
| Canvas.PagelessFieldIsNeverShown | src/components/Canvas.js:71 | a field with no page goes to page 1 in the service but is never shown by the canvas |
| FieldRenderer.DragItemOf | src/components/FieldRenderer.js:27-32 | the drag item records the field's id and position |
| FieldRenderer.DragEnd | src/components/FieldRenderer.js:37-47 | no move iff there is no drop or no offset; otherwise a move under the field's id to start + offset/zoom, clamped to ≥ 0 on each axis |
| FieldRenderer.DragEndInPlace | src/components/FieldRenderer.js:43-44 | a zero offset leaves an on-page field where it was |
| FieldRenderer.MouseDown | src/components/FieldRenderer.js:51-62 | a manual drag starts iff the left button is pressed off a resize handle, recording the pointer and the field's position |
| FieldRenderer.ManualDrag | src/components/FieldRenderer.js:67-75 | the move is the recorded position plus the pointer travel divided by the zoom, clamped to ≥ 0 |
| FieldRenderer.ManualDragAgreesWithDragEnd | src/components/FieldRenderer.js:68-72 | a manual drag and a drag-and-drop over the same distance request the same move |
| FieldRenderer.ResizeDimensions | src/components/FieldRenderer.js:103-116 | width changes only for 'e' (+dx) or 'w' (−dx, overriding 'e'), height only for 's' (+dy) or 'n' (−dy, overriding 's'), never below 20; an untouched dimension keeps its start value |
| FieldRenderer.HandlesResizeBothDimensions | src/components/FieldRenderer.js:235-238 | each of the four corner handles names exactly one horizontal and one vertical letter |
| FieldRenderer.FieldIcon | src/components/FieldRenderer.js:136-145 | the default icon is used iff the type is not one of the five |
| FieldRenderer.FieldIconDistinguishesTypes | src/components/FieldRenderer.js:136-145 | the five types have pairwise distinct icons |
| FieldRenderer.LabelContent | src/components/FieldRenderer.js:176-187 | a label previews `label \|\| 'Label Text'` at `fontSize \|\| 12`, bold iff `bold` |
| FieldRenderer.LabelPreviewMatchesBuild | src/components/FieldRenderer.js:181 | the preview has the size and weight the built PDF draws the label with, and the same text iff the label is non-empty |
| PropertiesPanel.ChangedAttrs | src/components/PropertiesPanel.js:31 | no attribute differs iff the records are equal |
| PropertiesPanel.WithProperty | src/components/PropertiesPanel.js:31 | the spread record holds the new value and differs from the shown one in that attribute at most |
| PropertiesPanel.HandleChange | src/components/PropertiesPanel.js:30-34 | the edited record holds the new value, differs from the shown one in that attribute only, and is reported under the original id |
| PropertiesPanel.HandleChangeReplacesRecord | src/components/PropertiesPanel.js:30-34 | with unique ids, a page applying the edit replaces just that record |
| PropertiesPanel.RealOr | src/components/PropertiesPanel.js:97 | `parseFloat(v) \|\| d`: a non-zero number is kept; NaN or 0 gives d |
| PropertiesPanel.XInput | src/components/PropertiesPanel.js:97 | the x input stores the parsed number, 0 included, and 0 when unreadable |
| PropertiesPanel.YInput | src/components/PropertiesPanel.js:106 | the y input stores the parsed number, 0 included, and 0 when unreadable |
| PropertiesPanel.WidthInput | src/components/PropertiesPanel.js:122 | the width input never stores 0 and keeps any other parsed number |
| PropertiesPanel.HeightInput | src/components/PropertiesPanel.js:131 | the height input never stores 0 and keeps any other parsed number |
| PropertiesPanel.PageInput | src/components/PropertiesPanel.js:144 | the page input never stores 0 and keeps any other parsed integer |
| PropertiesPanel.FontSizeInput | src/components/PropertiesPanel.js:157 | the font-size input never stores 0 and keeps any other parsed integer |
| PropertiesPanel.InputFallbacks | src/components/PropertiesPanel.js:97-157 | x and y fall back to 0; width and height to 20; page to 1; font size to 12; the size, page and font-size inputs never store 0 |
| PropertiesPanel.PageInputIsServerPage | src/components/PropertiesPanel.js:144 | a page typed in the panel is the page the service puts the field on |
| PropertiesPanel.Displayed | src/components/PropertiesPanel.js:143-167 | the label shows as is; page and font size show 1 and 12 when absent, and their own value when non-zero; bold shows as is |
| PropertiesPanel.DisplayedMatchesServer | src/components/PropertiesPanel.js:143-156 | the page shown is the service's page key; for a label, the size shown is the size the built PDF draws it at |
| PropertiesPanel.HandleDuplicate | src/components/PropertiesPanel.js:36-44 | the copy has the new id and is 20 further right and down, differing in nothing else, and is reported with a null id |
| PropertiesPanel.DeselectOnlyDeselects | src/components/PropertiesPanel.js:52 | `(null, null)` clears the selection and changes nothing else in either page |
| PropertiesPanel.DuplicateIsLost | src/components/PropertiesPanel.js:43 | as written, Duplicate only deselects: neither page's list changes |
| PropertiesPanel.DuplicateIntended | src/components/PropertiesPanel.js:36-44 | Duplicate as intended appends the copy, records it, selects it, and keeps the state valid |

## Findings

| source | as written | input that shows it | evidently intended | confidence | as-written member | corrected member |
|---|---|---|---|---|---|---|
| src/components/PropertiesPanel.js:43 | Duplicate hands the copy to `onFieldUpdate(null, newField)`; both pages read a null id as "deselect" and drop the copy | any selected field, then Duplicate: the list is unchanged and the selection is cleared | the copy is added to the list (as `onFieldAdd` would) and selected | high; not executed | PropertiesPanel.DuplicateIsLost | PropertiesPanel.DuplicateIntended |

## Left out

- PDF library internals are abstract. This covers document creation, loading and saving, font embedding, widget appearance, and drawing. The plan records the calls instead. Colours are opaque tags.
- The only backend failure modelled is creating a form field under a name the form already holds. Any other exception the library might raise inside a try block is not modelled.
- A failing try block leaves no trace in the plan. In the model, the only call that can throw is the first one, so nothing of the field has reached the document by then. In the library, the caption's `drawText` can also throw, on text the standard font cannot encode, after the form field was created; that widget and its name would stay in the document, and the model does not capture this.
- `GeneratePdfFromLayout` requires every page key to be ≥ 1. Otherwise the page lookup outside the try block throws and the whole export fails. That failure is not modelled.
- Page keys are integers. A fractional page in a layout is not modelled.
- `PdfService.PlaceBuckets` walks page numbers 1..maxPage, which matches `Object.entries` ordering for array-index keys. Keys of 2^32 − 1 and above are not modelled.
- HTTP routing, request validation, base64 conversion, file storage and the upload limits are I/O and are left out. The upload and export requests are values: `UploadResponse`, and the `ExportRequest` of each page.
- The outcome of an export request and the download are left out.
- PDF rendering in the PDF canvas, React and drag-and-drop plumbing, DOM measurement, and the busy flags (`isUploading`, `isExporting`) are left out. The drop point and the drag offsets are parameters.
- The following inputs become parameters:
  - `Date.now()` ids;
  - `window.confirm` answers;
  - the parsed layout file;
  - parsed numbers, with `None` for NaN.
- `alert`, `console` output, JSON parsing, `FileReader` and the Blob download are not modelled.
- React's stale-closure capture in the builder's `useCallback` handlers is not modelled. Each handler is modelled as written, over the current history and index.
- The zoom buttons' ±0.1 stepping and `Math.round` in the displayed x, y, width and height are not modelled. These are floating-point display details.
- `Canvas.UpperChar` upper-cases only a–z. Case mapping of other characters is not modelled.
- Save Layout (`handleSaveLayout`), the palette, the navigation bar and the `renderFieldContent` placeholders other than the label preview are not part of this model.
- The builder page's own `currentPage`, zoom and grid toggles are not part of this model.
