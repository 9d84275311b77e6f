# PDF layout annotation tool: a verified model of its core

The repository is a desktop tool for labelling the layout of PDF pages. A person draws
rectangles on a rendered page and tags each one with a label from a fixed catalog
(`TITLE`, `H1`, `H2`, `H3`, `H4`, `BODY`). The tool can propose heading boxes from font
sizes. It fills in each box's text from the page's characters, and it exports the whole
corpus as a COCO dataset (one JSON file) or a YOLO dataset (one label file per page). A
companion downloader saves fetched PDFs under names built from their running number,
document type and title.

This Dafny project models the parts of that system that are logic rather than GUI:

- `Labels` (Labels.dfy): the label catalog and its 1-based category IDs.
- `Annotations` (Annotations.dfy): the annotation record and its two coordinate spaces.
  Document space is the page's own geometry. Pixel space is the rendered raster at the
  current zoom.
- `Editor` (Editor.dfy): the annotation session as a class. Its fields are the
  session's state: page, zoom, label, annotation list, selection, drag and resize flags,
  handle, offsets, and rubber band. Its methods are the mouse and keyboard handlers. The
  handlers' geometry is written as functions beside the class.
- `TextExtract` (TextExtract.dfy): the precise text extractor. It collects the characters
  that overlap a box, sorts them by `(round(y, 1), x)`, drops adjacent twins, groups them
  into lines at vertical gaps over 3 points, then joins and strips.
- `Headings` (Headings.dfy): automatic heading detection by font size.
- `DatasetExport` (Export.dfy): the IDs, names, geometry and error behaviour of the COCO
  and YOLO exporters.
- `Downloader` (SafeFilename.dfy): the downloader's safe file name.
- `Wrappers`, `Seqs` and `Strings` (Base.dfy, Strings.dfy): the Python library behaviour
  the core relies on. This covers `str.strip`, `str.replace`, `"".join`, list
  comprehensions, and `format(i, '02d')`.

Character and span positions, page sizes and the labels read from annotation files are
inputs. Nothing is read from a file or rendered.

Two points about the code shape the model:

- The code never normalises a stored box: `fitz.Rect` keeps its corners as given, and so
  does the model. The hit tests, the extractor and the exporters use the raw corners.
- The resize handle table in `on_mouse_drag` does not match the handle order that
  `on_mouse_down` uses. The session's drag handler applies the table as written
  (`Editor.ResizedBoxAsWritten`). The intended table is `Editor.ResizedBox`, with its
  property proved beside it. See "## Findings".

## Model

| member | source | states |
|---|---|---|
| Labels.LabelId | main.py:14-15 | `LABEL_MAP[name]` is defined exactly for the catalog names. The ID of a name is its 1-based position in `LABEL_OPTIONS`. |
| Labels.LabelMapEnumeratesOptions | main.py:14-15 | `LABEL_MAP` has exactly the catalog names as keys. Position k maps to k + 1. |
| Labels.LabelIdInjective | main.py:15 | Distinct label names never share a category ID. |
| Annotations.ToDoc | main.py:193-195 | Dividing a pixel coordinate by the zoom gives the document coordinate that renders back at that pixel. |
| Annotations.RectToDoc | main.py:193-195 | A pixel rectangle taken to document space renders back as the same rectangle. |
| Annotations.DocPixelRoundTrip | main.py:166-171 | Rendering a document box at any positive zoom and mapping it back gives the same box. |
| Annotations.Abs | main.py:150 | `abs` is non-negative and equals the value or its negation. |
| Annotations.ToPixel | main.py:144 | Definition: a document coordinate times the zoom. |
| Annotations.RectToPixel | main.py:144 | Definition: the box with each corner coordinate times the zoom. |
| Annotations.Contains | main.py:154 | Definition: the inclusive test `x0 <= x <= x1 and y0 <= y <= y1` on the raw corners. |
| Editor.HandlePositions | main.py:145-148 | There are eight handles. Definition: the four corners (TL, TR, BL, BR), then the top and bottom midpoints, then the left and right midpoints. |
| Editor.NearHandle | main.py:150 | Definition: the pointer is within `HANDLE_SIZE` of the handle on both axes. |
| Editor.FirstNearHandle | main.py:149-153 | The scan returns the first handle within `HANDLE_SIZE` of the pointer on both axes, or reports that none is. |
| Editor.PressTargetOf | main.py:144-162 | A press picks the first near handle. Failing that, it picks the box body when the point is inside the raw box. Otherwise it is a press elsewhere. |
| Editor.Hit | main.py:203-204 | Definition: the annotation is on the current page and its pixel box contains the point. |
| Editor.FirstHit | main.py:203-208 | `select_box` picks the first annotation on the current page whose pixel box contains the point. `None` means no annotation there does. |
| Editor.FirstIndexOf | main.py:212 | Finds the first position holding a value, with no earlier one holding it. |
| Editor.RemoveFirst | main.py:212 | `list.remove` deletes exactly the first equal element. The list before it and the list after it are kept as they were. |
| Editor.ResizedBox | main.py:165-171 | A resize sets exactly the coordinates that the grabbed handle controls to the pointer, taken to document space. The other coordinates stay. This is the corrected handle table. |
| Editor.ResizeFollowsPointer | main.py:145-171 | After a corrected resize, the grabbed corner handle sits at the pointer. An edge handle follows the pointer along its own axis. |
| Editor.ResizedBoxAsWritten | main.py:165-171 | The handle table as written: x0 {0,4,6}, x1 {1,5,7}, y0 {0,1,4,5}, y1 {2,3,6,7}. |
| Editor.ResizeAsWrittenStrandsHandle | main.py:145-171 | With the table as written, dragging the bottom-left handle leaves x0 in place, so the handle does not follow the pointer. Dragging the top-middle handle also moves the left edge. |
| Editor.MovedBox | main.py:173-179 | A move puts the top-left corner at the pointer minus the grab offset, in document space. Width and height are kept. |
| Editor.MoveBackIsIdentity | main.py:154-179 | A drag to the point where the box was grabbed leaves the box unchanged. |
| Editor.CanvasRect | main.py:181-182 | The rubber band is the normalised rectangle spanned by the start point and the pointer, as the canvas stores it. |
| Editor.LargeEnough | main.py:192 | Definition: the rubber band is more than 10 pixels wide and more than 10 pixels tall. |
| Editor.DrawnRecord | main.py:190-195 | A drawn box is stored in document space with the current page and label and empty text. It renders back exactly as the rubber band, and a normalised band gives a normalised box. |
| Editor.AnnotationSession.constructor | main.py:19-38 | A new session starts on page 0 at zoom 1.5 with label `TITLE`. Nothing is selected, no drag or resize is active, and there is no rubber band on the canvas. |
| Editor.AnnotationSession.MouseDown | main.py:142-162 | A press on a handle starts a resize with that handle. A press on the body starts a drag with the grab offset. Any other press starts a rubber band at the point and puts it on the canvas. Nothing else changes. |
| Editor.AnnotationSession.MouseDrag | main.py:164-182 | A resize rewrites the selected box with the handle table as written. Otherwise a drag moves it. Either redraw deletes the rubber band from the canvas. With neither, a band still on the canvas follows the pointer, and a deleted one stays as it was. No other field changes. |
| Editor.AnnotationSession.MouseUp | main.py:184-199 | The release ends a drag, then a resize. From a rubber band wider and taller than 10 pixels, it appends the drawn record, and any band is cleared. When a redraw has deleted the band, the coordinate read raises: nothing is appended and the band stays set. |
| Editor.AnnotationSession.SelectBox | main.py:201-208 | The selection becomes the first hit, and the redraw deletes the rubber band. With no hit, both are kept. |
| Editor.AnnotationSession.DeleteSelected | main.py:210-214 | The first annotation equal to the selected one is removed, the selection is cleared, and the redraw deletes the rubber band. With nothing selected, nothing changes. |
| Editor.AnnotationSession.PrevPage | main.py:216-219 | Moves back one page and redraws, unless already on the first. |
| Editor.AnnotationSession.NextPage | main.py:221-224 | Moves forward one page and redraws, unless already on the last. |
| Editor.AnnotationSession.ChangeZoom | main.py:226-228 | The zoom becomes `max(0.5, zoom + delta)`, and the redraw deletes the rubber band. |
| Editor.AnnotationSession.ChooseLabel | main.py:50-52 | Any text picked or typed in the label combobox becomes the label of the boxes drawn next. |
| Editor.AnnotationSession.AutoDetectHeadings | main.py:297-320 | The detected records for the current page are appended after the existing annotations, and the redraw deletes the rubber band. |
| Editor.AnnotationSession.BackfillText | main.py:275-281 | The list keeps its length and order. Each annotation on an existing page gets the extracted text of its box, and the other fields are kept. An annotation whose page number is past the last page is untouched. |
| Editor.DrawScenario | main.py:142-199 | Pressing, dragging and releasing over a 50-by-50 pixel area at zoom 1 stores one `TITLE` box with those corners. |
| Editor.SmallDragScenario | main.py:184-199 | After a first box is drawn, a 5 by 5 drag adds nothing and clears the band. |
| Editor.ResizeScenario | main.py:164-214 | After a box is resized through its top-left handle and released, deleting it leaves an empty list and no selection. |
| Editor.LostBandScenario | main.py:112-214 | Deleting the selected box while a band is being drawn redraws the page. The release then raises, and nothing is recorded. |
| Headings.Classify | main.py:311-317 | Exactly: over 18 is `TITLE`, over 14 up to 18 is `H1`, over 12 up to 14 is `H2`, and 12 or less is `BODY`. `H3` and `H4` are never produced. |
| Headings.ClassifyMonotone | main.py:311-317 | A larger font never gets a label further down the catalog. |
| Headings.Qualifies | main.py:308-309 | Definition: a span qualifies when its stripped text is longer than 2 characters. |
| Headings.RecordOf | main.py:310-318 | Definition: the record of a span has the page, the span's box, the label by size and the stripped text. |
| Headings.Detect | main.py:303-320 | Every record is on the current page, has stripped text longer than 2 characters, and has a catalog label other than `H3` and `H4`. |
| Headings.Records | main.py:319 | One record per span, in order. |
| Headings.DetectIsRecordsOfQualifying | main.py:303-320 | Detection gives exactly one record per qualifying span, in span order. |
| Headings.DetectAppend | main.py:303-320 | Detecting over two runs of spans is detecting over each in turn. |
| TextExtract.RoundHalfEven | main.py:246 | `round(y, 1)` scaled by 10 lies within half a unit of the exact value. |
| TextExtract.Overlaps | main.py:239 | Definition: the strict overlap test of a character box with the rectangle on all four sides. |
| TextExtract.Kept | main.py:232-240 | Definition: the overlapping characters in page order. |
| TextExtract.RowKey | main.py:246 | Definition: `round(y, 1)` counted in tenths. |
| TextExtract.Insert | main.py:246 | Insertion adds exactly one element. |
| TextExtract.InsertSorted | main.py:246 | Insertion keeps a sorted sequence sorted. |
| TextExtract.SortGlyphs | main.py:246 | The sort is a permutation, ordered by `(round(y, 1), x)`. It is stable: for every key, the characters with that key keep their page order. |
| TextExtract.Twin | main.py:252 | Definition: the same glyph, less than 1.5 away on both axes. |
| TextExtract.Dedup | main.py:249-255 | Deduplication keeps a subsequence, is empty only for empty input, and leaves no two adjacent twins. The drop rule itself is in `DedupDropsOnlyTwins`. |
| TextExtract.DedupKeepsTwinFree | main.py:249-255 | A sequence with no adjacent twins passes deduplication unchanged. |
| TextExtract.DedupPrefix | main.py:249-255 | Deduplicating a prefix of the input gives a prefix of the result: the loop only appends. |
| TextExtract.DedupDropsOnlyTwins | main.py:249-255 | The first character is always kept. The characters kept before position i are a prefix of the result. Character i is dropped when it is a twin of the last of them. Otherwise it takes the next place of the result. |
| TextExtract.SubseqOfSorted | main.py:246-255 | Dropping characters from a sorted sequence keeps it sorted. |
| TextExtract.Group | main.py:258-269 | There are no lines only for no characters, and the last line is never empty. |
| TextExtract.AddGlyph | main.py:262-267 | A character more than 3 from the current anchor starts a new line; otherwise it joins the current line. The last line is never empty. |
| TextExtract.GroupFlattens | main.py:258-269 | Reading the lines end to end gives back the characters in order. |
| TextExtract.GroupSplitsAtGaps | main.py:258-269 | Each line's characters are within 3 points of its first character's y. Each new line starts more than 3 points from the previous line's start. |
| TextExtract.LineText | main.py:268 | The line's text is its characters in order. |
| TextExtract.LineTexts | main.py:268-271 | One text per line, in order. |
| TextExtract.NoOverlapGivesEmpty | main.py:242-243 | With no character strictly overlapping the box, the result is the empty string. |
| TextExtract.ExtractedLines | main.py:230-269 | Definition: collect, sort, deduplicate, then group into lines. |
| TextExtract.ExtractedLinesSound | main.py:230-269 | The lines contain only page characters that overlap the box. They are a subsequence of the sorted ones, still sorted, with no adjacent twins. |
| TextExtract.ExtractedLinesComplete | main.py:230-269 | The lines read end to end are the deduplicated sorted characters. Each overlapping character holds a place among the sorted ones. It is dropped only as a twin of the last character kept before it; otherwise it is in the lines at the next place. |
| TextExtract.ExtractedText | main.py:230-271 | Definition: empty when nothing overlaps the box, otherwise the stripped newline join of the lines' texts. |
| TextExtract.CollectOverlapping | main.py:232-240 | The collecting loop keeps exactly the strictly overlapping characters, in page order. |
| TextExtract.DropTwins | main.py:249-255 | The deduplicating loop computes the deduplication. |
| TextExtract.GroupIntoLines | main.py:258-269 | The grouping loop computes the line texts of the grouping. |
| TextExtract.ExtractTextPrecise | main.py:230-271 | The method returns the extracted text: empty when nothing overlaps, otherwise the stripped newline join of the lines. |
| Strings.IsSpace | main.py:271 | Definition: Python's `str.isspace` for one character. |
| Strings.Replace | pdf-downloader.py:221 | Definition: `str.replace`, replacing non-overlapping occurrences from left to right. |
| Strings.Join | main.py:268-271 | Definition: `sep.join(parts)`, with the separator between neighbouring parts only. |
| Strings.Strip | main.py:271 | `str.strip` removes exactly the leading and trailing whitespace: the result is the run that starts after the leading whitespace, followed only by whitespace, with no whitespace at either end. |
| Strings.StripIdempotent | main.py:308 | Stripping twice is stripping once. |
| Strings.StripKeepsTrimmed | pdf-downloader.py:217 | A string with no whitespace at either end is unchanged by stripping. |
| Strings.ReplaceKeepsAbsent | pdf-downloader.py:221 | `str.replace` introduces no character absent from both the input and the replacement. |
| Strings.ReplaceRemovesChar | pdf-downloader.py:221 | Replacing a single character with text that lacks it removes every occurrence. |
| Strings.ReplaceAfterClean | pdf-downloader.py:221 | A prefix without the pattern's first character passes through `str.replace` unchanged. |
| Strings.NatToStringRoundTrip | main.py:338 | The decimal rendering of a number reads back as that number. |
| Strings.NatToString | main.py:338 | The decimal form of a natural number: at least one digit, all digits, and no leading zero except for 0. |
| Strings.Format02 | pdf-downloader.py:223 | `{index:02d}` has at least two characters. For a non-negative index they are digits that read back as the index. An index below 10 gives exactly two characters, and an index of 10 or more has no leading zero. A negative index is `-` and its digits. |
| DatasetExport.DocPages | main.py:334-336 | A document contributes its pages in order, each carrying the document's annotations. |
| DatasetExport.AllPages | main.py:328-336 | Definition: the pages of all documents, document after document. |
| DatasetExport.AllPagesAppend | main.py:328 | The page sequence of two document runs is the concatenation of theirs. |
| DatasetExport.AllPagesAt | main.py:328-335 | Page p of document k sits at the offset of the earlier documents' pages plus p. |
| DatasetExport.ImageName | main.py:338 | Definition: `<base>_page_<n>.jpg` with n the 1-based page number. |
| DatasetExport.LabelFileName | main.py:373 | Definition: the image name with `.jpg` replaced by `.txt`. |
| DatasetExport.ImageNamesDistinct | main.py:338 | Two pages of one document never share an image name. |
| DatasetExport.LabelFileNameOfPlainBase | main.py:373 | For a base name without a dot, the label file is `<base>_page_<n>.txt`. |
| DatasetExport.CategoriesUpTo | main.py:326-327 | The categories are the catalog in order with IDs 1 to 6. |
| DatasetExport.Images | main.py:336-354 | Image IDs run from 1 over all pages of all documents, with each page's name and size. |
| DatasetExport.Tagged | main.py:342-343 | Each of a page's annotations is tagged with that page's image ID. |
| DatasetExport.PageAnnotations | main.py:342-343 | Definition: the annotations whose page number is the page index, in list order. |
| DatasetExport.Emissions | main.py:336-343 | Definition: each page's matching annotations tagged with the page's image ID, page after page. |
| DatasetExport.EmissionsSound | main.py:342-343 | Every emitted annotation comes from the annotations of the page whose image ID it carries, and its page number is that page's index. |
| DatasetExport.EmissionsComplete | main.py:342-343 | Every annotation whose page number matches a page is emitted with that page's image ID. |
| DatasetExport.EmissionsPrefix | main.py:328-354 | Later pages only add emissions after the earlier ones. |
| DatasetExport.CocoRecord | main.py:344-352 | A record carries `[x0, y0, w, h]` with x0 + w = x1 and y0 + h = y1, the image ID, the category ID, and `iscrowd` 0. |
| DatasetExport.CocoRecords | main.py:342-353 | Definition: the records of the emitted annotations in turn, stopping at the first unknown label. |
| DatasetExport.CocoRecordsSpec | main.py:342-353 | The records succeed exactly when every label is in the catalog. Then record k has ID k + 1 and its category. Otherwise the error names the first unknown label. |
| DatasetExport.CocoRecordsSticks | main.py:350 | Once a label lookup raises, later annotations change nothing. |
| DatasetExport.CocoExport | main.py:322-357 | Definition: the categories, the images of all pages and the records of all emissions, or the first error. |
| DatasetExport.CocoExportSucceedsIff | main.py:322-357 | The COCO export succeeds if and only if every emitted label is in the catalog. Otherwise the error names the first unknown one. |
| DatasetExport.CocoExportConsistent | main.py:322-357 | A successful dataset has one image per page with IDs from 1, the six categories, and one record per emitted annotation. Each record's image is the page it came from, and its category is its label's ID. Its box round-trips. |
| DatasetExport.CocoStopsAtPage | main.py:328-354 | An unknown label on some page ends the export with that error whatever follows. |
| DatasetExport.CocoCategories | main.py:326-327 | The category loop builds the category list. |
| DatasetExport.CocoStep | main.py:342-353 | One annotation step extends the records as `CocoRecords` does. |
| DatasetExport.CocoPage | main.py:336-354 | One page's loop extends the records by that page's emissions, or stops at the first unknown label. |
| DatasetExport.ExportCoco | main.py:322-357 | The exporter's loops compute the COCO export. |
| DatasetExport.YoloLineOf | main.py:377-386 | A zero page width or height raises division by zero. Otherwise a line fails exactly for a label outside the catalog, and its class is the label's position, which is `LABEL_MAP[label] - 1`. |
| DatasetExport.YoloLineRoundTrip | main.py:377-386 | Centre minus or plus half the size, times the page size, gives back the box corners. |
| DatasetExport.YoloLineInUnitRange | main.py:377-386 | A normalised box inside the page gives a centre and size within [0, 1]. |
| DatasetExport.YoloLines | main.py:374-386 | Definition: the lines of a page's annotations in turn, stopping at the first conversion error. |
| DatasetExport.YoloLinesSpec | main.py:374-386 | Line k is the conversion of annotation k. Either every annotation is converted, or the lines stop at the first failing one with its error. |
| DatasetExport.YoloLinesSticks | main.py:386 | Once a line raises, later annotations change nothing. |
| DatasetExport.YoloRun | main.py:360-387 | Definition: one label file per page in turn, stopping inside the page whose line fails. |
| DatasetExport.YoloExport | main.py:359-387 | Definition: the run over all pages of all documents. |
| DatasetExport.YoloRunSpec | main.py:360-387 | Files are written page after page with their label file names and lines. Only the last page written may be cut short by the error. |
| DatasetExport.YoloRunSticks | main.py:360-387 | Once a page raises, later pages change nothing. |
| DatasetExport.YoloStopsAtPage | main.py:360-387 | An error on some page ends the export there whatever follows. |
| DatasetExport.YoloExportComplete | main.py:359-387 | A complete run writes one label file per page. Each file has one line per annotation on that page, in order, whose class and box match it. |
| DatasetExport.CompleteFileMatches | main.py:374-386 | A page converted without error has one line per annotation, and each line is the conversion of its annotation: the same class, centre and size. |
| DatasetExport.YoloExportStops | main.py:359-387 | A failed run stops inside the last file written. The error is the conversion error of the first annotation not written. |
| DatasetExport.YoloStep | main.py:377-386 | One line's arithmetic is the conversion. |
| DatasetExport.YoloVisit | main.py:375-386 | One step of the page loop extends the lines, or reaches the page's final result at an error. |
| DatasetExport.YoloPage | main.py:373-386 | The page loop computes the page's lines and error. |
| DatasetExport.ExportYolo | main.py:359-387 | The exporter's loops compute the YOLO export, including the files written before an error. |
| Downloader.IsAlnum | pdf-downloader.py:217 | Definition: Python's `str.isalnum` on ASCII and Latin-1. |
| Downloader.TitleChar | pdf-downloader.py:217 | Definition: alphanumeric, space, `-` or `_`. |
| Downloader.SafeTitle | pdf-downloader.py:217-218 | The title keeps at most 40 characters, drawn from its alphanumerics, space, `-` and `_`, and it does not start with a space. `SafeTitleIsRun` pins the result. |
| Downloader.SafeTitleIsRun | pdf-downloader.py:217-218 | Of the title's allowed characters, the result is the run of at most 40 that starts after the leading spaces. When it is shorter than 40, only spaces follow it and it ends in a non-space. A non-space character sits at or after its last position, so stripping would not shorten it. |
| Downloader.SafeTitleIsSubseq | pdf-downloader.py:217-218 | The result keeps the title's characters in their original order. |
| Downloader.SafeTitleKeepsCleanTitle | pdf-downloader.py:217-218 | A title that is already clean, trimmed and at most 40 characters is kept as it is. |
| Downloader.TitleCharNotSpace | pdf-downloader.py:217 | Space is the only whitespace a cleaned title can hold. |
| Downloader.SafeDocType | pdf-downloader.py:221 | The cleaned document type holds no space and no `&`. |
| Downloader.SafeDocTypeKeepsAbsent | pdf-downloader.py:221 | Cleaning adds no character except `_`, `a`, `n` and `d`. |
| Downloader.SafeDocTypeOfPair | pdf-downloader.py:221 | A type of the form `X & Y`, with neither word holding a space or `&`, becomes `X_Y`. |
| Downloader.CreateSafeFilename | pdf-downloader.py:223 | The name has at least 8 characters. |
| Downloader.FilenameIndexRoundTrip | pdf-downloader.py:214-223 | The name starts with the zero-padded digits of the index, which read back as the index, then `_`. It ends with `.pdf`. |
| Downloader.Format02Excludes | pdf-downloader.py:223 | The number part holds only digits and possibly a minus sign. |
| Downloader.FilenameHasNoSeparator | pdf-downloader.py:214-223 | The name holds `/` or `\` only if the document type does. |

## Left out

- The Tk GUI is not modelled: window, widgets, key bindings, canvas drawing, message boxes
  and printing. The canvas matters in two ways. The first is the normalised rubber band
  (`Editor.CanvasRect`). The second is whether the band's item still exists
  (`bandShown`), since every redraw deletes all canvas items.
- File and PDF I/O are not modelled: folder loading, `load_folder`, `open_pdf`,
  `prev_pdf`, `next_pdf`, `load_annotations`, JSON reading and writing, and saving page
  pixmaps. The page count, page sizes, characters, spans and annotation lists are
  parameters.
- The output of `save_annotations` is left out, since writing JSON is I/O. Its text
  backfill is `Editor.AnnotationSession.BackfillText`.
- The downloader's network code is not modelled: searching, fetching and retries.
  `create_safe_filename` is its only modelled part.
- Floating point is not modelled. Coordinates are exact reals, so the
  document-to-pixel round trips hold exactly. `round(y, 1)` is written as
  round-half-even on the exact value.
- The `:.6f` formatting of YOLO lines is left out. A line is modelled by its class and
  four exact numbers.
- TextExtract.Dedup: its own contract states a twin-free subsequence. Which character is
  dropped, a twin of the last one kept before it, is stated by
  `TextExtract.DedupDropsOnlyTwins`.
- Downloader.IsAlnum: Python's `str.isalnum` is modelled on ASCII and Latin-1 only.
  Python also accepts letters and digits beyond U+00FF.
- Editor.AnnotationSession.MouseDrag: applies the handle table as written. Handles 2, 3
  and 5 leave their own edge behind. Handles 4, 6 and 7 follow the pointer along their own
  axis, but a second edge moves too: x0 for handle 4, y1 for handles 6 and 7. The
  corrected table is `Editor.ResizedBox`; no session method uses it.
- Editor.AnnotationSession: `selected_box` refers to a list element. It is modelled as an
  index into the annotation list. Deletion clears the selection, so the index never
  dangles in the modelled operations.
- Downloader.SafeTitle: its own contract does not pin the result. `SafeTitleIsRun` does.
  The title need not end without a space, because the cut to 40 characters can leave
  one.
- Downloader.CreateSafeFilename: states the shape of the name. `FilenameIndexRoundTrip`
  gives the index prefix and the extension, and `FilenameHasNoSeparator` the absence of
  path separators. Only the body places the cleaned document type and title.
- DatasetExport.YoloLineOf: division by a zero page width or height is an error value
  (`DivisionByZero`). It is checked before the label lookup, as the source divides before
  it looks up the label.
- DatasetExport.ExportCoco: an exception stops the COCO export before `coco.json` is
  written. The method returns the error and no dataset. The page images saved before the
  error are I/O and are not modelled.
- DatasetExport: the order of `LABEL_MAP.items()` is `LABEL_OPTIONS` order, since Python
  dictionaries keep insertion order.
- Headings: `auto_detect_headings` returns early when no document is open. A session
  always has a document here. The PyMuPDF span list is an input. Block and line structure
  is flattened to the spans in reading order.

## Findings

| source | as written | input that shows it | evidently intended | confidence | as-written member | corrected member |
|---|---|---|---|---|---|---|
| main.py:167-170 | The resize table moves x0 for handles {0,4,6}, x1 for {1,5,7}, y0 for {0,1,4,5} and y1 for {2,3,6,7}. The handles are listed in the order TL, TR, BL, BR, top-middle, bottom-middle, left-middle, right-middle (main.py:145-148). | Box (10,10,110,110) at zoom 1. Drag handle 2 (bottom-left) to (0,120): the box becomes (10,10,110,120), and the handle stays at x = 10. Drag handle 4 (top-middle) to (60,0): the left edge jumps to 60. | x0 for {0,2,6}, x1 for {1,3,7}, y0 for {0,1,4}, y1 for {2,3,5}, so the grabbed handle follows the pointer. | not executed | Editor.ResizeAsWrittenStrandsHandle | Editor.ResizeFollowsPointer |
