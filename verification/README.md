# CDR-to-PDF conversion and figure bounding box, modelled in Dafny

This project models two pieces of the box-catalogue application.

- `scripts/get_bounding_box.py` measures the figure on the first page of a PDF.
  - It collects the two corners `(x0, top)` and `(x1, bottom)` of every curve, line and rectangle.
  - It takes the extremes of those points and gives the figure's width and height in points.
  - `get_bounding_box_mm` converts both sides to millimetres (pt / 72 × 25.4). It rounds each side half-up to one decimal. It gives nothing when the page has no drawing objects.
  - `get_pdf_dimensions` gives the unrounded point sizes. It fails on the aspect ratio when the height is zero.
- `referencias/tasks.py` (`convert_cdr_to_pdf`) converts an uploaded CorelDRAW file through CloudConvert.
  - It checks that an API key is configured.
  - It resolves the CDR file: an absolute path first, then a legacy `BASE_DIR/cdr_files/<name>` location. A relative path is tried under `MEDIA_ROOT`, then under `BASE_DIR`.
  - It picks the first waiting `import/upload` task and the first `export/url` task of the job. After polling, it picks the finished export task with that id.
  - It stores the first exported file as `pdf_files/<base name without its last extension>.pdf`.

Modules:

- `Wrappers`: `Option` and `Result`.
- `Units`: the point-to-millimetre conversion and `ROUND_HALF_UP` quantisation to tenths.
- `BoundingBox`: drawing objects, point collection (a method with loops, proved equal to the `AllPoints` function), the min/max reduction, and both entry points.
- `PosixPath`: the POSIX `os.path` helpers the conversion uses (`isabs`, `join`, `basename`, `splitext`) and substring search.
- `Conversion`: settings, path resolution, the job's task records, the first-match task lookups, and the whole conversion.
  - The conversion is a function `Conversion`.
  - The step-by-step methods `ConvertCdrToPdf`, `RunJob` and `CollectPdf` are proved equal to it.

The outside world enters as parameters:

- the file system is the set `existing` of paths that exist;
- the job's task list returned on creation is `jobTasks`;
- the polling result (`Finished` with the final task list, `Failed` with an optional message, or `TimedOut`) is `poll`.

An outcome is one of:

- `MissingApiKey`;
- `CdrNotFound` with the paths the code reports as tried (lines 88-99 of `referencias/tasks.py`, as written);
- `Raised` with the exception that the outer `try` catches;
- `Saved`, which records:
  - the file that was uploaded;
  - the upload URL, form fields and file name;
  - the download URL;
  - the storage name.

## Model

| member | source | states |
|---|---|---|
| Units.PtToMm | scripts/get_bounding_box.py:143-146 | millimetres times 360 equal points times 127 (pt / 72 × 25.4); non-negative for non-negative input; zero exactly for zero |
| Units.PtToMmMonotone | scripts/get_bounding_box.py:145-146 | the conversion preserves order |
| Units.PtToMmExact | scripts/get_bounding_box.py:143-146 | 72 pt is 25.4 mm and 36 pt is 12.7 mm |
| Units.HalfUpTenths | scripts/get_bounding_box.py:148-150 | the integer number of tenths lies in the half-up window: within half a tenth of the value, ties away from zero |
| Units.HalfUpTenthsUnique | scripts/get_bounding_box.py:148-150 | exactly one integer lies in that window, so the rounding is determined by it |
| Units.QuantizeTenth | scripts/get_bounding_box.py:148-150 | the result is a whole number of tenths, lies within 0.05 of the value, and is non-negative for non-negative input |
| Units.TieRoundsAwayFromZero | scripts/get_bounding_box.py:148-150 | a value exactly halfway between two tenths rounds to the one farther from zero |
| Units.TieExamples | scripts/get_bounding_box.py:148-150 | 12.25 rounds to 12.3 and -12.25 to -12.3 |
| Units.QuantizeTenthIdempotent | scripts/get_bounding_box.py:148-150 | quantising an already quantised value changes nothing |
| Units.QuantizeTenthMonotone | scripts/get_bounding_box.py:148-150 | quantisation preserves order |
| BoundingBox.Corners | scripts/get_bounding_box.py:118-128 | one collection contributes two points per object |
| BoundingBox.AllPoints | scripts/get_bounding_box.py:115-128 | the page contributes two points per curve, line and rectangle |
| BoundingBox.CornersAt | scripts/get_bounding_box.py:118-128 | each object contributes exactly two points, `(x0, top)` then `(x1, bottom)`, at positions 2i and 2i+1 |
| BoundingBox.CornersMembership | scripts/get_bounding_box.py:118-128 | a point is collected from a list exactly when it is a corner of one of its objects |
| BoundingBox.PointCount | scripts/get_bounding_box.py:114-130 | the point list has 2·(curves + lines + rects) entries and is empty exactly when the page has no objects |
| BoundingBox.CollectPoints | scripts/get_bounding_box.py:115-128 | the three append loops build exactly the curves' corners, then the lines', then the rectangles' |
| BoundingBox.XCoords | scripts/get_bounding_box.py:131 | the i-th x coordinate is the i-th point's x |
| BoundingBox.YCoords | scripts/get_bounding_box.py:132 | the i-th y coordinate is the i-th point's y |
| BoundingBox.MinOf | scripts/get_bounding_box.py:134-137 | `min` returns an element no greater than any element |
| BoundingBox.MaxOf | scripts/get_bounding_box.py:134-137 | `max` returns an element no smaller than any element |
| BoundingBox.BoxOf | scripts/get_bounding_box.py:131-137 | the box encloses every point, each bound is attained by some coordinate, and min ≤ max on both axes |
| BoundingBox.PageBox | scripts/get_bounding_box.py:130-137 | the page's box encloses every collected point and has min ≤ max on both axes |
| BoundingBox.PageBoxFromExtremes | scripts/get_bounding_box.py:134-137 | coordinates that are attained and bound all collected coordinates are exactly the box's edges |
| BoundingBox.SizePt | scripts/get_bounding_box.py:140-141 | a well-formed box has non-negative sides; a side is zero exactly when its two edges coincide |
| BoundingBox.PageBoxIsTight | scripts/get_bounding_box.py:131-141 | both corners of every object lie in the box, every bound is attained by a collected point, and width and height are non-negative |
| BoundingBox.OnPageCollected | scripts/get_bounding_box.py:118-128 | both corners of every curve, line and rectangle are collected |
| BoundingBox.CollectedFromObject | scripts/get_bounding_box.py:118-128 | every collected point is a corner of an object on the page |
| BoundingBox.PoolingWidens | scripts/get_bounding_box.py:115-137 | a page holding all the objects of another has a box containing the other's box |
| BoundingBox.AddingRectWidens | scripts/get_bounding_box.py:126-137 | adding a rectangle never shrinks the box |
| BoundingBox.BoxDependsOnlyOnObjects | scripts/get_bounding_box.py:115-137 | two pages with the same objects, in whichever collections and order, have the same box |
| BoundingBox.RoundedMm | scripts/get_bounding_box.py:145-150 | a side in millimetres is a whole number of tenths, within 0.05 of pt / 72 × 25.4, and non-negative for a non-negative side |
| BoundingBox.BoundingBoxMm | scripts/get_bounding_box.py:105-154 | `get_bounding_box_mm` gives nothing exactly when curves, lines and rects are all empty |
| BoundingBox.GetBoundingBoxMm | scripts/get_bounding_box.py:105-154 | the step-by-step computation equals `BoundingBoxMm`, gives nothing exactly when there are no objects, and otherwise gives non-negative sides |
| BoundingBox.BoundingBoxMmNonNegative | scripts/get_bounding_box.py:140-152 | both rounded sides are non-negative |
| BoundingBox.WidthDependsOnlyOnX | scripts/get_bounding_box.py:145-149 | the width depends on the x coordinates alone |
| BoundingBox.HeightDependsOnlyOnY | scripts/get_bounding_box.py:146-150 | the height depends on the y coordinates alone |
| BoundingBox.DegenerateWidthIsZero | scripts/get_bounding_box.py:140-149 | objects that all sit on one vertical line give width 0.0, not nothing |
| BoundingBox.OneInchByHalfInch | scripts/get_bounding_box.py:105-152 | a single 72 × 36 pt rectangle measures 25.4 × 12.7 mm |
| BoundingBox.LineThenRectCoords | scripts/get_bounding_box.py:122-132 | a line's corners are collected before a rectangle's |
| BoundingBox.RectAndLinePooled | scripts/get_bounding_box.py:122-141 | a rectangle and a line to its right are measured as one figure spanning both |
| BoundingBox.DocumentBoundingBoxMm | scripts/get_bounding_box.py:105-106 | a document without pages is an error; otherwise only the first page is measured |
| BoundingBox.OnlyFirstPageCounts | scripts/get_bounding_box.py:106 | pages after the first do not change the result |
| BoundingBox.PdfDimensions | scripts/get_bounding_box.py:48-92 | `get_pdf_dimensions` gives nothing exactly when there are no objects; it fails exactly when there are objects and the height is 0; otherwise it gives the unrounded point sizes, with a positive height |
| BoundingBox.MmIsRoundedPdfDimensions | scripts/get_bounding_box.py:140-150 | where `get_pdf_dimensions` succeeds, `get_bounding_box_mm` is its sizes converted and rounded |
| PosixPath.IsAbs | referencias/tasks.py:49-95 | `os.path.isabs`: the path starts with a slash |
| PosixPath.Join | referencias/tasks.py:58-79 | an absolute second part replaces the first; otherwise the result is the first part, one slash when the first part is non-empty and does not end in one, then the second part |
| PosixPath.Join3 | referencias/tasks.py:58-99 | joining three parts ends with the last part when it is relative, and starts with the first part when the other two are relative |
| PosixPath.Contains | referencias/tasks.py:75 | `'cdr_files/' in path` holds exactly when the text occurs at some position |
| PosixPath.Basename | referencias/tasks.py:55-76 | the base name has no slash, is a suffix of the path, and is preceded by a slash when shorter than the path |
| PosixPath.BasenameOfName | referencias/tasks.py:200 | a name without slashes is its own base name |
| PosixPath.BasenameAfterSlash | referencias/tasks.py:200 | the base name of `dir/name` is `name` |
| PosixPath.LastIndexOf | referencias/tasks.py:200 | the position of the last occurrence of a character, or none exactly when it does not occur |
| PosixPath.LastDotDecidesExtension | referencias/tasks.py:200 | a name has an extension exactly when a non-dot precedes its last dot |
| PosixPath.SplitName | referencias/tasks.py:200 | root and extension concatenate to the name; the extension is empty or a dot followed by no dot; it is empty exactly when the name has no extension |
| PosixPath.SplitExt | referencias/tasks.py:200 | `splitext` of a path: the parts concatenate to the path, the extension holds no slash, and it is empty exactly when the base name has no extension |
| PosixPath.PdfFilename | referencias/tasks.py:200 | the PDF name ends in `.pdf`, holds no slash, and with the input's extension in place of `.pdf` gives back the input's base name |
| PosixPath.PdfFilenameWithoutExtension | referencias/tasks.py:200 | a base name without extension, leading dots included, keeps all of it before `.pdf` |
| PosixPath.PdfFilenameInDirectory | referencias/tasks.py:200 | the PDF name of `dir/name` depends on `name` alone |
| PosixPath.PdfFilenameDoubleExtension | referencias/tasks.py:200 | `dir/caja.v2.cdr` becomes `caja.v2.pdf`: only the last extension goes |
| PosixPath.PdfFilenameHiddenFile | referencias/tasks.py:200 | `dir/.hidden` becomes `.hidden.pdf`: a leading dot is not an extension |
| Conversion.FirstIndex | referencias/tasks.py:138-142 | the first position whose element satisfies the test, or none exactly when no element does |
| Conversion.FirstWhere | referencias/tasks.py:138-190 | the first element satisfying the test: it satisfies it and no earlier element does; none exactly when no element does |
| Conversion.FindFirst | referencias/tasks.py:138-190 | the `for … break` loop returns the first matching element, or none when no element matches |
| Conversion.LegacyOfAbsolute | referencias/tasks.py:55-58 | the legacy location is `BASE_DIR/cdr_files/<basename>` |
| Conversion.LegacyKeepsBasename | referencias/tasks.py:55-58 | the legacy location has the input's base name |
| Conversion.LegacyOfRelative | referencias/tasks.py:73-79 | the BASE_DIR candidate of a relative path is the legacy location when the path mentions `cdr_files/`, and `BASE_DIR/<path>` otherwise |
| Conversion.Candidates | referencias/tasks.py:49-82 | for an absolute path the path itself is checked first, then at most one legacy location; a relative path has at most two candidates; no candidate is empty |
| Conversion.ResolvedPath | referencias/tasks.py:47-84 | a resolved path exists and is a candidate; none is resolved exactly when no candidate exists |
| Conversion.ResolveCdrPath | referencias/tasks.py:47-84 | the nested branches assigning `cdr_file_full_path` give the first existing candidate |
| Conversion.ResolutionOrder | referencias/tasks.py:49-82 | an existing absolute path is used as is; a missing one falls back only to `BASE_DIR/cdr_files/<basename>`; an existing `MEDIA_ROOT/path` wins over `BASE_DIR`; under `BASE_DIR` the candidate is `cdr_files/<basename>` when the path mentions `cdr_files/`, else the path itself |
| Conversion.IsWaitingUpload | referencias/tasks.py:140 | the upload task's operation is `import/upload` and its status `waiting` |
| Conversion.IsUrlExport | referencias/tasks.py:159 | the export task's operation is `export/url` |
| Conversion.IsFinishedTask | referencias/tasks.py:188 | the final export task has the export id and status `finished` |
| Conversion.JobFailure | referencias/tasks.py:176-178 | the job-failed message is `CloudConvert job failed: ` followed by the job's message, or by `Unknown error` when there is none |
| Conversion.AfterPolling | referencias/tasks.py:169-205 | after polling the outcome is an exception or a save; a save happens only when the job finished and a finished export task was found, and it uploads `full` under the input's base name |
| Conversion.WithCdrFile | referencias/tasks.py:137-205 | once the file is found the outcome is an exception or a save, and a save uploads that file |
| Conversion.Conversion | referencias/tasks.py:38-213 | no API key exactly gives `MissingApiKey`; with a key, an unresolved path exactly gives `CdrNotFound`; a saved file is the resolved one |
| Conversion.ConvertCdrToPdf | referencias/tasks.py:38-103 | the step-by-step conversion equals `Conversion` |
| Conversion.AttemptedPaths | referencias/tasks.py:88-99 | the appends that build the "Tried:" list give `AttemptedPathsAsWritten` |
| Conversion.RunJob | referencias/tasks.py:137-164 | the upload-task and export-id lookups with their exceptions equal `WithCdrFile` |
| Conversion.CollectPdf | referencias/tasks.py:169-205 | the polling result, the final export-task lookup and the file checks equal `AfterPolling` |
| Conversion.MissingApiKeyStopsFirst | referencias/tasks.py:40-43 | without an API key the outcome does not depend on the path, the files or the job |
| Conversion.NotFoundStopsBeforeUpload | referencias/tasks.py:84-103 | with a key, `CdrNotFound` happens exactly when nothing resolves; it carries the list lines 88-99 build, and every location that was checked is missing |
| Conversion.SavedFromResolvedFile | referencias/tasks.py:40-84 | a saved PDF needs an API key and comes from the resolved file, which exists |
| Conversion.SavedThroughUploadTask | referencias/tasks.py:138-152 | a saved PDF was uploaded with the form of the first waiting `import/upload` task, under the input's base name |
| Conversion.SavedFromExportTask | referencias/tasks.py:157-195 | a saved PDF comes from the first file of the finished task whose id is the first `export/url` task's non-empty id, and only after the job finished |
| Conversion.SavedUnderPdfName | referencias/tasks.py:200-205 | a saved PDF is stored as `pdf_files/` plus the derived PDF name, which ends in `.pdf` |
| Conversion.ConversionSaved | referencias/tasks.py:84-137 | a saved outcome is the job run on the resolved file |
| Conversion.WithCdrFileSaved | referencias/tasks.py:138-164 | a save requires an upload task with a form and an export task with a non-empty id, and then equals the post-polling outcome |
| Conversion.AfterPollingSavesExactly | referencias/tasks.py:169-195 | the last stage saves exactly when the job finished and the first finished task with the export id has a non-empty `result.files` |
| Conversion.JobErrorRaises | referencias/tasks.py:176-181 | a failed job raises the job-failed exception and a timed-out one the timeout exception |
| Conversion.UnfinishedExportRaises | referencias/tasks.py:186-193 | without a finished task carrying the export id, `ValueError("Export task not completed or no files found")` is raised |
| Conversion.ExportFilesMissingRaises | referencias/tasks.py:192-193 | a finished export task without `result` or without `result.files` raises the same `ValueError` |
| Conversion.NoExportedFileRaises | referencias/tasks.py:195 | an empty file list raises `IndexError` |
| Conversion.AfterPollingSaved | referencias/tasks.py:186-205 | a save requires a finished export task with that id and a non-empty file list; it downloads the first file and stores it under the derived PDF name |
| Conversion.NoUploadTaskRaises | referencias/tasks.py:144-145 | with a resolved file and no waiting upload task, `ValueError("Upload task not found in job")` is raised |
| Conversion.NoExportTaskRaises | referencias/tasks.py:157-164 | with a usable upload task and no `export/url` task, `ValueError("Export task not found in job")` is raised |
| Conversion.AttemptedPathsAsWritten | referencias/tasks.py:88-99 | the diagnostic "Tried:" list, as the code builds it |
| Conversion.AttemptedPathsAgreeWhenLegacyNamed | referencias/tasks.py:88-99 | for an absolute path, or a relative one mentioning `cdr_files/`, the reported list is the list checked |
| Conversion.AttemptedPathsMisreport | referencias/tasks.py:73-99 | for a relative path without `cdr_files/` and with BASE_DIR set, the report differs from the list checked: it names `BASE_DIR/cdr_files/<basename>` instead of `BASE_DIR/<path>` |

## Left out

- Opening the PDF with pdfplumber and pypdf, and reading the MediaBox: these are foreign library calls. The model takes a page's three object lists as input.
- All `print` output and report formatting, and the command-line entry point. Only the aspect-ratio division is kept, because it can raise.
- Units.PtToMm, Units.QuantizeTenth: these use exact reals. The source's `Decimal(str(float))` conversion, the 28-digit context on the division by 72 and the final `float(...)` are not modelled. Values whose exact quotient needs more than 28 digits may round differently in the source.
- The HTTP calls, the daemon thread, upload and download, and the Django storage save and `Caja.objects.get`: these are network I/O, concurrency and the ORM. The polling loop's `time.sleep` and its 300 s clock are replaced by the `poll` parameter. `raise_for_status` failures are not modelled.
- Settings are optional strings. A `Path` setting counts as truthy only when non-empty, and `str(...)` of it is the string held.
- Task records: a `result` that is JSON null is treated like a missing key. For the upload task the model then raises `KeyError("result")`, where the source raises `TypeError` at line 147 of `referencias/tasks.py`. For the export task the model raises `ValueError`, where the source raises `TypeError` at line 192. A missing `url` or `parameters` key in the form, or a missing `url` in the file entry, is not modelled.
- Conversion.JobFailure: an error `message` key that is present but null is treated as missing. The source would print "None" instead of "Unknown error".
- BoundingBox.SizePt, BoundingBox.BoundingBoxMm: coordinates and the subtraction `max_x - min_x` are exact reals, not binary floats. Float rounding can change the result. Take one curve with x0 = 1e-17 and x1 = 18.0. In floats the width is 18.0, which gives 6.35 and then 6.4 mm. The model gives 6.3 mm.
- PosixPath: Windows path rules are not modelled.
- BoundingBox.DocumentBoundingBoxMm: a document without pages is an error value. In the source, `pdf.pages[0]` raises `IndexError` there.
- referencias/models.py and referencias/admin.py are not part of this model. They are ORM schema and admin configuration.

## Findings

| source | as written | input that shows it | evidently intended | confidence | as-written member | corrected member |
|---|---|---|---|---|---|---|
| referencias/tasks.py:97-99 | the "Tried:" report always names `BASE_DIR/cdr_files/<basename>` for the BASE_DIR candidate | the relative path `designs/box.cdr` with BASE_DIR `/srv` and no file found: `/srv/designs/box.cdr` was checked (line 79), but `/srv/cdr_files/box.cdr` is reported | report the locations actually checked (lines 49-82) | not executed | Conversion.AttemptedPathsMisreport | Conversion.NotFoundStopsBeforeUpload |

The model of the task reports the list as written: `Conversion.Conversion` and `Conversion.ConvertCdrToPdf` put `AttemptedPathsAsWritten` in `CdrNotFound`.
The corrected report is `Conversion.Candidates`: the locations that are checked, in order. `Conversion.ResolvedPath` takes the first existing location in it, and `Conversion.ResolutionOrder` proves that this is what the branches of lines 49-82 pick. `Conversion.NotFoundStopsBeforeUpload` proves that every location in it is missing when the outcome is `CdrNotFound`.
