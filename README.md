# Badge scanner core, modelled and proved in Dafny

The scanner photographs an airport access badge, cleans the photo up, reads
the badge text and turns it into a record. The record holds the issuing
authority, the location, the expiry date, the access areas, the name,
position, company and ID number. Records are kept in the browser's key-value
store, one list per calendar day. A dashboard shows them, narrowed by a
range of days and by scan area, with a bar chart of scans per area.

Each source file of the core has one module in this model:

- `OcrParser` (services/ocrParser.ts). The line pre-filter, the landmark
  search, access-area extraction, the header, expiry, company-block and
  ID-number passes, the final field clean-up and the corrections table. The
  pure passes are functions. The loops (`cleanFinalField`'s pops, the area
  letter scan, the bottom-up ID search, the corrections `forEach`) are
  methods proved equal to those functions. `OcrParserExample` works the
  parser through a six-line badge.
- `OcrService` (services/ocrService.ts). The in-place image pre-processing
  on the RGBA byte array: grey levels and histogram, Otsu's threshold, then
  black and white. Also the error handling of `processImageWithOCR`.
- `CameraView` (components/CameraView.tsx). The card detector (mean
  brightness of the central window, sampled every second pixel), the frame
  difference, and the stability counter. A first card frame is stored;
  the capture happens on the sixteenth still frame after it, which is the
  seventeenth card frame in a row.
- `StorageService` (services/storageService.ts). The day key
  `scan_data_YYYY-MM-DD`, saving (merge into the day's list, newest first),
  and loading (gather every prefixed key, filter by time, sort). The store is
  a class over a `map`.
- `Sorting`. The stable descending sort that both the store and the chart
  use through `Array.prototype.sort`.
- `ScanChart` (components/ScanChart.tsx). Counts per area, the ranking, the
  largest count, the bar widths and the active flags.
- `DashboardHomeView` (components/DashboardHomeView.tsx). The date filter,
  the area filter, the area toggle, the total and the last scan.
- `DateRangePicker` (components/DateRangePicker.tsx). The click state
  machine over the start and end dates, presets, apply, cancel and clear,
  the highlighted days and the month grid.
- `Days`. Timestamps (milliseconds) and day numbers: day `d` begins at
  `d * 86_400_000`.
- `Types` (types.ts) and `Text`. Text models the JavaScript string built-ins
  the parser uses: trim, split, upper-case, includes, startsWith and join.

Where a source operation has a loop or changes state in place, the model is
a method: over an `array` for the image passes, and over a class's fields
for the frame evaluator, the store and the picker. Each such method is
proved against a function, and the properties are lemmas about that
function.

Where the code and its documentation differ, the model follows the code.
Two such places:

- The corrections table in services/ocrParser.ts is applied key by key to
  the company value *as already corrected*. So `KANTOM` becomes `KANTOR`
  only when neither `PT ANGKAS` nor `ANGKASA PU` matched first, because
  `PT ANGKASA PURA` has no `KANTOM` in it.
- An image that fails to load rejects `preprocessImage` with its `error`
  event, which is not an `Error`. `processImageWithOCR` then reports its
  unknown-error message, not an "Offline OCR Error: …" message.

## Model

| member | source | states |
|---|---|---|
| OcrParser.KeepLines | services/ocrParser.ts:41-44 | the pre-filter never yields more lines than the text has |
| OcrParser.KeepLinesShape | services/ocrParser.ts:41-44 | every kept line is trimmed and has 1 to 49 characters |
| OcrParser.KeepLinesMembership | services/ocrParser.ts:41-44 | a line is kept iff it is the trim of some raw line and has 1 to 49 characters |
| OcrParser.KeepLinesAppend | services/ocrParser.ts:41-44 | the filter distributes over concatenation, so kept lines stay in their original order |
| OcrParser.LongLineDropped | services/ocrParser.ts:44 | a 50-character line is dropped; a trimmed line of 1 to 49 characters is kept |
| OcrParser.FindIndex | services/ocrParser.ts:49-50 | `findIndex`: -1 when no line qualifies, else the first qualifying index |
| OcrParser.AreaLineIndexIs | services/ocrParser.ts:49 | the area line is the first line whose upper case contains AREA |
| OcrParser.CompanyLineIndexIs | services/ocrParser.ts:50 | the company line is the first line whose upper case starts with PT |
| OcrParser.LeadNoise | services/ocrParser.ts:12 | the leading noise run is maximal: all of `=:-_` and spaces, and stops at the first other character |
| OcrParser.TrailNoise | services/ocrParser.ts:12 | the trailing noise run is maximal: all of `=-_` and spaces |
| OcrParser.CleanLineSpec | services/ocrParser.ts:11-13 | `cleanLine` returns a trimmed slice of the line; everything cut before it is leading noise and everything after it trailing noise; it neither starts nor ends with noise |
| OcrParser.CleanLineOfClean | services/ocrParser.ts:11-13 | a line without noise at either end is unchanged |
| OcrParser.KeepTokens | services/ocrParser.ts:26-36 | the popping loop keeps a non-empty prefix of the words; every popped word is garbage; a last kept word that is not the first is not garbage |
| OcrParser.CleanFinalField | services/ocrParser.ts:20-38 | the method with the `while`/`pop` loop computes `CleanedField` |
| OcrParser.CleanedFieldKeepsFirstToken | services/ocrParser.ts:23-37 | the result is the join of a non-empty prefix of the words, so the first word is never removed |
| OcrParser.CleanFinalFieldIdempotent | services/ocrParser.ts:20-38 | cleaning a cleaned field changes nothing |
| OcrParser.CleanedFieldDropsCodeToken | services/ocrParser.ts:29-32 | "JOHN DOE XYZ1" becomes "JOHN DOE" |
| OcrParser.CleanedFieldKeepsPlainWords | services/ocrParser.ts:29-34 | "JOHN DOE SMITH" is unchanged |
| OcrParser.AreaLetters | services/ocrParser.ts:76-83 | the collected letters have no duplicates; each is an upper-case letter of the text; every upper-case letter of the text is collected; order is first appearance |
| OcrParser.AreaLettersSnoc | services/ocrParser.ts:78-81 | one more character adds it at the end iff it is a new upper-case letter |
| OcrParser.CollectAccessAreas | services/ocrParser.ts:72-85 | the nested loops over the area zone compute `AreaLetters` of the zone's characters |
| OcrParser.StripLocationNoise | services/ocrParser.ts:94 | removes the longest prefix of `/ (0;):` characters, and no more |
| OcrParser.NoAuthorityLine | services/ocrParser.ts:91-92 | without an OTORITAS line the authority is unset |
| OcrParser.NoLocationLine | services/ocrParser.ts:93-94 | without a BANDAR UDARA line the location is unset |
| OcrParser.AuthorityLine | services/ocrParser.ts:91-92 | with an OTORITAS line, the authority is set from the first one: its cleaned text, or that text less a leading `Co`/`Lo` (any case) and one whitespace character |
| OcrParser.LocationLine | services/ocrParser.ts:93-94 | with a BANDAR UDARA line, the location is set from the first one: a suffix of its cleaned text, whose dropped lead is all `/ (0;):` or whitespace and which does not start with one of those |
| OcrParser.DateAt | services/ocrParser.ts:98 | two digits, spaces, a month name from the table, spaces and four digits match as a date |
| OcrParser.NoDateAtNonDigit | services/ocrParser.ts:98 | no date match starts at a non-digit |
| OcrParser.FirstDateFromIs | services/ocrParser.ts:98 | the expiry is the text of the leftmost date match |
| OcrParser.IdCandidateShape | services/ocrParser.ts:120-123 | an accepted ID has no whitespace, at least two dots and more than 10 characters |
| OcrParser.IdCandidateNeedsDotsAndLength | services/ocrParser.ts:123 | a line with fewer than two dots, or at most 10 characters, gives no ID |
| OcrParser.IdCandidateOfWholeLine | services/ocrParser.ts:120-123 | a whole line of ID shape (letters/dots, then digits/dots, two dots, more than 10 characters) is accepted as is |
| OcrParser.IdAcceptedWithTwoDots | services/ocrParser.ts:123 | "AB.CD.EF123" (two dots, 11 characters) is accepted |
| OcrParser.IdRejectedWithOneDot | services/ocrParser.ts:123 | "AB.CDEFG1234" (one dot) is rejected |
| OcrParser.IdRejectedWithTenChars | services/ocrParser.ts:123 | "AB.CD.E123" (10 characters) is rejected |
| OcrParser.LastFreeHitIsLowest | services/ocrParser.ts:117-128 | the bottom-up search picks the lowest line, not used by the company block, that yields an ID |
| OcrParser.FindIdNumber | services/ocrParser.ts:117-128 | the loop with `continue` and `break` computes that choice |
| OcrParser.IdOfBottomLine | services/ocrParser.ts:117-126 | a free bottom line with an ID wins |
| OcrParser.FixIdNumberKeepsShape | services/ocrParser.ts:143-145 | the BAPSTN to B.AP.STN rewrite keeps an ID's shape and adds two characters and two dots |
| OcrParser.CorrectionsClosedForm | services/ocrParser.ts:135-141 | the corrections fold yields PT ANGKASA PURA if PT ANGKAS or ANGKASA PU occurs, else KANTOR if KANTOM occurs, else the company unchanged |
| OcrParser.OrElse | services/ocrParser.ts:147-156 | a field's fallback makes it non-empty |
| OcrParser.ParseLines | services/ocrParser.ts:147-156 | every string field of the parsed record is non-empty |
| OcrParser.FindCompanyBlock | services/ocrParser.ts:103-114 | computes the company, position and name lines and the set of used lines |
| OcrParser.ApplyCorrections | services/ocrParser.ts:135-141 | the `forEach` over the table computes the corrections fold |
| OcrParser.FinishFields | services/ocrParser.ts:131-145 | the final clean-up, the corrections of a non-empty company, and the ID rewrite |
| OcrParser.ParsePasses | services/ocrParser.ts:46-156 | the four passes over the lines compute `ParseLines` |
| OcrParser.ParseOcrResult | services/ocrParser.ts:40-157 | `parseOcrResult` computes `Parse` of the text |
| OcrParser.ParseOfBlankText | services/ocrParser.ts:147-156 | whitespace-only text yields exactly the placeholder record |
| OcrParser.ParseAccessAreasFromZone | services/ocrParser.ts:72-85 | areas are non-empty only if the area line comes before the name line; each is an upper-case letter found on a line strictly between them |
| OcrParser.ParseWithoutCompanyLine | services/ocrParser.ts:103-114 | without a PT line, name, position and company are Not Found |
| OcrParser.ParseCompanyBlock | services/ocrParser.ts:103-114 | with company line `c`: the company is line c cleaned and corrected; the position is line c-1 cleaned if c>0, and Not Found if c=0; the name is line c-2 cleaned if c>1, and Not Found if c<2; a line that cleans to nothing gives Not Found |
| OcrParser.ParseIdShape | services/ocrParser.ts:116-128 | the ID is Not Found or an accepted ID of shape; it comes from the lowest free line that yields one |
| OcrParserExample.WorkedExample | services/ocrParser.ts:40-157 | the record parsed from a six-line badge, field by field |
| OcrService.Gray | services/ocrService.ts:35 | the rounded luminosity of a pixel is a byte |
| OcrService.GrayOfNeutral | services/ocrService.ts:35 | a grey pixel keeps its level |
| OcrService.HistogramCounts | services/ocrService.ts:27-39 | histogram entry `v` counts the pixels of grey level `v` |
| OcrService.GrayscaleAndHistogram | services/ocrService.ts:31-39 | the in-place loop writes each pixel's grey level into its red byte and builds the histogram |
| OcrService.HistogramTotal | services/ocrService.ts:27-39 | the histogram's counts sum to the number of pixels |
| OcrService.LevelPresent | services/ocrService.ts:31-39 | a level has a positive count iff some pixel has that level |
| OcrService.OtsuThreshold | services/ocrService.ts:41-71 | the threshold loop with `continue` and `break` returns the smallest level maximising the between-class variance, 0 if none is positive |
| OcrService.LevelSum | services/ocrService.ts:42-45 | the loop computes the histogram's first moment |
| OcrService.CandidateIffSplit | services/ocrService.ts:55-60 | a level is scored with a positive variance iff some pixel lies at or below it and some above |
| OcrService.OtsuSeparates | services/ocrService.ts:55-71 | with two distinct grey levels the threshold splits them; with one, it is 0 |
| OcrService.OtsuUnique | services/ocrService.ts:55-71 | the threshold is determined by the histogram |
| OcrService.ThresholdBelowWhite | services/ocrService.ts:55-71 | the threshold is below 255 |
| OcrService.BlackAndWhite | services/ocrService.ts:55-82 | an image with two grey levels has pixels on both sides of the threshold |
| OcrService.UniformThreshold | services/ocrService.ts:55-71 | a uniform image gets threshold 0 |
| OcrService.Colour | services/ocrService.ts:78 | a pixel becomes 255 iff its grey level exceeds the threshold, else 0 |
| OcrService.Binarize | services/ocrService.ts:75-82 | the loop sets red, green and blue of each pixel to its colour and leaves alpha |
| OcrService.PreprocessImage | services/ocrService.ts:25-82 | the whole pre-processing: an Otsu threshold of the grey histogram, and each pixel black or white by it |
| OcrService.PreprocessedPixel | services/ocrService.ts:31-82 | each output pixel is black or white by its grey level, with alpha kept |
| OcrService.PreprocessIdempotent | services/ocrService.ts:31-82 | pre-processing an already black-and-white image changes nothing |
| OcrService.OcrSucceeds | services/ocrService.ts:93-130 | recognition succeeds iff the engine is loaded, the image loads with a canvas, text comes back and the parser finds a name and ID |
| OcrService.OcrFailures | services/ocrService.ts:93-138 | the rejection for each failing step, including the unknown error for a non-`Error` throw |
| OcrService.OcrRejectionText | services/ocrService.ts:132-137 | every rejection message is the unknown-error message or starts with "Offline OCR Error: " |
| CameraView.CalculateFrameDifference | components/CameraView.tsx:23-34 | the sampling loop computes the mean absolute red difference over every tenth pixel, None for NaN |
| CameraView.DifferenceNonnegative | components/CameraView.tsx:23-34 | the difference is never negative |
| CameraView.DifferenceOfSame | components/CameraView.tsx:23-34 | a frame differs from itself by 0 |
| CameraView.DifferenceSymmetric | components/CameraView.tsx:23-34 | the difference of equal-size frames is symmetric |
| CameraView.DifferenceDefined | components/CameraView.tsx:29-33 | the difference is a number iff the first frame is non-empty and every sampled index exists in the second |
| CameraView.DetectCard | components/CameraView.tsx:36-63 | the nested sampling loops decide whether the central window's mean brightness lies strictly between 100 and 240 |
| CameraView.SampleWindow | components/CameraView.tsx:50-59 | the outer loop sums brightness and counts samples over the window |
| CameraView.SampleRow | components/CameraView.tsx:51-58 | the inner loop sums one row |
| CameraView.SampleCountIs | components/CameraView.tsx:42-59 | the window yields (⌊h/2⌋+1)/2 sampled rows of (⌊w/2⌋+1)/2 samples each, rounded down |
| CameraView.TinyFrameNoCard | components/CameraView.tsx:42-62 | a frame narrower or lower than 2 pixels is never a card (NaN mean) |
| CameraView.UniformFrameDetection | components/CameraView.tsx:36-63 | a uniform frame of at least 2x2 is a card iff its brightness is strictly between 100 and 240 |
| CameraView.UniformMean | components/CameraView.tsx:47-61 | the mean brightness of a uniform frame is its level |
| CameraView.StepKeepsRange | components/CameraView.tsx:77-105 | the stability counter stays in 0..15; a capture happens only at 15 and resets it to 0 |
| CameraView.HoldRaises | components/CameraView.tsx:84-96 | each still card frame raises the counter by one up to 15 |
| CameraView.SeventeenthFrameCaptures | components/CameraView.tsx:84-96 | holding a card still captures on the seventeenth frame, not earlier |
| CameraView.RunSnoc | components/CameraView.tsx:65-109 | a run of frames is frame-by-frame stepping, counting captures |
| CameraView.NoCardResets | components/CameraView.tsx:102-105 | a frame without a card resets counter and stored frame |
| CameraView.FrameEvaluator.constructor | components/CameraView.tsx:19-21 | starts with no card, counter 0 and no stored frame |
| CameraView.FrameEvaluator.ScanFrame | components/CameraView.tsx:65-107 | one frame updates the fields as `Step` does; without a frame nothing changes |
| CameraView.FrameEvaluator.Cleanup | components/CameraView.tsx:171-174 | the cleanup resets the fields |
| StorageService.StorageKey | services/storageService.ts:7-9 | a day's key starts with `scan_data_` |
| StorageService.DecimalRead | services/storageService.ts:8 | the decimal text of an integer reads back as that integer |
| StorageService.TwoDigits | services/storageService.ts:8 | a padded month or day is two digits and reads back |
| StorageService.KeyRoundTrip | services/storageService.ts:7-9 | the date is recovered from its key |
| StorageService.KeyInjective | services/storageService.ts:7-9 | different dates get different keys |
| StorageService.ScanStore.constructor | services/storageService.ts:5 | the store holds the given entries |
| StorageService.ScanStore.Save | services/storageService.ts:6-29 | saving succeeds iff the day's text parses and the write is accepted; it then stores the day's list plus the record, newest first; otherwise nothing changes |
| StorageService.SavedListContents | services/storageService.ts:19-21 | the saved list is newest first, holds the old list and the record, and is one longer |
| StorageService.SaveIntoSortedDay | services/storageService.ts:20-21 | on a sorted day list, saving inserts the record after every record at least as new |
| StorageService.ScanStore.Load | services/storageService.ts:31-63 | the gather loop over the keys computes `LoadResult` |
| StorageService.GatherFails | services/storageService.ts:36-61 | once a prefixed key's text fails to parse, the whole load yields nothing |
| StorageService.GatherFailsIff | services/storageService.ts:36-61 | the gather fails iff some prefixed key's text does not parse |
| StorageService.GatherSources | services/storageService.ts:36-45 | every gathered record comes from a prefixed key |
| StorageService.GatherComplete | services/storageService.ts:36-45 | every record under a prefixed key is gathered |
| StorageService.WithinCounts | services/storageService.ts:52-54 | the time filter keeps each record in the window as often as it occurs, and no other |
| StorageService.RangeFilterCounts | services/storageService.ts:47-55 | the same with the missing bounds defaulted (0 and now), and no filter without bounds |
| StorageService.LoadContents | services/storageService.ts:31-62 | a load is newest first; it is empty when a text fails to parse; it otherwise holds each gathered record in the window as often as gathered |
| StorageService.SaveThenLoad | services/storageService.ts:6-58 | a saved record in the window is among the loaded ones |
| Sorting.SortDescSorts | services/storageService.ts:21 | the comparator sort orders by descending key and is a permutation |
| Sorting.SortOfSorted | services/storageService.ts:58 | sorting a list already newest first leaves it unchanged |
| Sorting.SortAfterPush | services/storageService.ts:20-21 | pushing onto a sorted list and sorting inserts after every element with a key at least as large |
| Sorting.SortStable | services/storageService.ts:21 | the sort is stable: for every key value, the elements with that key come out in the order they went in |
| ScanChart.TallyCounts | components/ScanChart.tsx:12-16 | one reduce step adds one to the scan's area and nothing else |
| ScanChart.TallyTotal | components/ScanChart.tsx:12-16 | one reduce step keeps counts positive and adds one to the total |
| ScanChart.CountsByAreaCounts | components/ScanChart.tsx:11-17 | areas are distinct, counts positive and sum to the number of scans; each area's count is the number of its scans, an empty area counting as Unknown |
| ScanChart.ChartDataRanks | components/ScanChart.tsx:19 | the chart rows are the counts, by descending count, each the count of its area |
| ScanChart.MaxCountBounds | components/ScanChart.tsx:20 | the largest count bounds every row and is some row's count |
| ScanChart.MaxCountIsFirst | components/ScanChart.tsx:19-20 | the largest count is the first row's; it is 0 iff there are no scans |
| ScanChart.HasDataIff | components/ScanChart.tsx:21 | the chart has rows iff there are scans |
| ScanChart.WidthBounds | components/ScanChart.tsx:30 | a bar's width lies in (0, 100] and is 100 exactly for the largest count |
| ScanChart.RowsShape | components/ScanChart.tsx:29-32 | the rows follow the chart; widths in (0, 100], full iff largest; a row is active iff it is the active area; at most one row is active |
| Days.DayBounds | components/DashboardHomeView.tsx:29-30 | a timestamp falls on a day iff it lies between that day's midnight and its last millisecond |
| Days.DayOrder | components/DashboardHomeView.tsx:29-30 | a timestamp is on or after a day iff it is at or after that day's midnight, and on or before a day iff it is at or before that day's last millisecond |
| Days.DayOfMonotone | components/DateRangePicker.tsx:5-10 | a later date never formats to an earlier day |
| Days.DayOfShift | components/DateRangePicker.tsx:79-86 | going back n days goes back n day numbers |
| DashboardHomeView.DaysKeptAsWritten | components/DashboardHomeView.tsx:29-35 | with both days set, the view's filter keeps a scan iff it was taken on the start day or later and at or before 23:59:59.000 of the end day; every kept scan lies on a day from the start to the end day |
| DashboardHomeView.WholeDaysKept | components/DashboardHomeView.tsx:29-35 | with both days set, the corrected filter keeps a scan iff it was taken on a day from the start to the end day |
| DashboardHomeView.LastSecondDropped | components/DashboardHomeView.tsx:30 | as written, a scan in the last second of the end day is dropped, which the corrected filter keeps |
| DashboardHomeView.WithinAppend | components/DashboardHomeView.tsx:32-35 | the date filter distributes over concatenation, so it keeps the order |
| DashboardHomeView.DateFilterKeeps | components/DashboardHomeView.tsx:25-36 | no days give the history itself; otherwise each scan between the start day's midnight (or 0) and 23:59:59.000 of the end day (or now) is kept as often as it occurs, and no other |
| DashboardHomeView.MatchingCounts | components/DashboardHomeView.tsx:42 | the area filter keeps each scan of the area as often as it occurs, and no other |
| DashboardHomeView.MatchingAppend | components/DashboardHomeView.tsx:42 | the area filter distributes over concatenation, so it keeps the order |
| DashboardHomeView.MatchingBar | components/DashboardHomeView.tsx:38-43 | clicking a bar lists as many scans as the bar counts, except for Unknown, whose bar also counts scans with an empty area that the filter does not list |
| DashboardHomeView.MatchingShorter | components/DashboardHomeView.tsx:42 | the area filter never lengthens the list |
| DashboardHomeView.AreaFilterKeeps | components/DashboardHomeView.tsx:38-43 | a null filter gives the list itself; a non-empty one keeps that area's scans; the result is never longer |
| DashboardHomeView.AreaClick | components/DashboardHomeView.tsx:38-57 | from any state, clicking a bar selects its area, or clears the filter if that area is already selected; the dates stay; the table then shows that area's date-filtered scans, or all date-filtered scans; clicking no area clears the filter |
| DashboardHomeView.AreaToggles | components/DashboardHomeView.tsx:51-57 | clicking a bar filters by it and clicking it again clears the filter |
| DashboardHomeView.PresetShowsLastDays | components/DashboardHomeView.tsx:46-49 | applying an n-day preset keeps exactly the scans of the n-1 days before today and of today up to 23:59:59.000 |
| DashboardHomeView.TotalIgnoresArea | components/DashboardHomeView.tsx:59 | the total ignores the area filter and is at least the number of rows shown |
| DashboardHomeView.WithinNewestFirst | components/DashboardHomeView.tsx:32-35 | filtering a newest-first history by date keeps it newest first |
| DashboardHomeView.LastScanIsNewest | components/DashboardHomeView.tsx:59-60 | on a newest-first history, the last scan is the newest in range, and exists iff the total is positive |
| DateRangePicker.ClickCases | components/DateRangePicker.tsx:68-77 | with no start or both ends set, a click starts over; with only a start, an earlier day moves the start and any other sets the end; the result is ordered |
| DateRangePicker.ClicksKeepOrder | components/DateRangePicker.tsx:68-77 | every click sequence keeps the start not after the end |
| DateRangePicker.TwoClicks | components/DateRangePicker.tsx:68-77 | two clicks select the range between them, or restart at the second when it is earlier |
| DateRangePicker.HighlightedDays | components/DateRangePicker.tsx:137-140 | the ends are never in range; a calendar day is highlighted iff it is between the clicked days inclusive |
| DateRangePicker.PresetApplied | components/DateRangePicker.tsx:79-86 | a preset of n ≥ 1 days is ordered and applies as today-(n-1) to today |
| DateRangePicker.AppliedOrdered | components/DateRangePicker.tsx:57-60 | an ordered selection applies as ordered days |
| DateRangePicker.FormatParse | components/DateRangePicker.tsx:5-16 | a day text survives parse then format, so calendar selections survive Apply then Cancel |
| DateRangePicker.Picker.constructor | components/DateRangePicker.tsx:32-36 | the picker starts closed with the parsed dates and the current month |
| DateRangePicker.Picker.Toggle | components/DateRangePicker.tsx:117 | the button flips the open state and nothing else |
| DateRangePicker.Picker.DateClick | components/DateRangePicker.tsx:68-77 | a click updates the selection as `Click` does and leaves it ordered |
| DateRangePicker.Picker.Preset | components/DateRangePicker.tsx:79-86 | a preset selects n-1 days ago to now and shows now's month |
| DateRangePicker.Picker.Apply | components/DateRangePicker.tsx:57-60 | apply hands over the selected days and closes |
| DateRangePicker.Picker.Cancel | components/DateRangePicker.tsx:62-66 | cancel restores the dates from the given day texts and closes |
| DateRangePicker.Picker.Clear | components/DateRangePicker.tsx:173 | clear empties both dates |
| DateRangePicker.YearLength | components/DateRangePicker.tsx:92 | a year has 366 days iff it is a leap year, else 365 |
| DateRangePicker.MonthLength | components/DateRangePicker.tsx:92 | day 0 of the next month is the month's last day: the days from one first to the next is `DaysInMonth` |
| DateRangePicker.EpochIsThursday | components/DateRangePicker.tsx:91 | 1 January 1970 is day 0 and a Thursday |
| DateRangePicker.GenerateCalendar | components/DateRangePicker.tsx:88-99 | the grid is `firstDayOfMonth` blanks followed by days 1..daysInMonth in turn |
| DateRangePicker.CalendarColumns | components/DateRangePicker.tsx:88-99 | each day sits under its weekday, consecutive cells are a day apart, and a grid has at most 37 cells |

## Left out

- Rendering: JSX, CSS classes, React hooks and effect wiring. Also the pure UI
  components (App, Sidebar, DashboardLayout, ScanDetailModal, ResultsView,
  RecentScansPanel), the notification context and the scan views'
  orchestration. None holds logic beyond display and wiring.
- Camera plumbing: `getUserMedia`, the video element, canvas reads and
  `toDataURL`, and the `requestAnimationFrame` scheduling and cancellation.
  A frame arrives as a parameter of `ScanFrame`.
- `Image` decoding, the canvas and the recognition engine are foreign calls.
  Whether each succeeds, and the text recognised, are parameters of
  `OcrService.Recognise`. Pre-processing is modelled from the pixel buffer
  onwards.
- Console logging.
- Floating point. Luminosity rounding, the Otsu sums, means and bar widths
  are exact (`int` or `real`), so floating-point ties are not reproduced.
  NaN is modelled as `None`.
- `localStorage`, `JSON.parse` and `JSON.stringify`. The store is a map from
  key to entry. An entry is a list of records, an empty text, or
  `Malformed`. A text that parses to anything but a list counts as
  `Malformed`. A write quota is a parameter: a quota refusal is the
  `quotaExceeded` flag of `Save`.
- StorageService.ScanStore.Load: a stored JSON string, such as `"ab"`, is
  not an error in services/storageService.ts:41-42. Spreading it pushes its
  characters into the gathered list without throwing, so the source still
  returns the other records: with the characters when no range is given,
  and without them when one is, because the characters have no
  `scanTimestamp`. The model counts the string as `Malformed` and returns
  `[]`. A JSON list whose elements are not records cannot be represented
  at all. The app itself only writes record lists
  (services/storageService.ts:24).
- The order in which `localStorage.key(i)` enumerates keys is a parameter
  of `Load`.
- JavaScript `Date`, time zones and daylight saving. A day number begins at
  a multiple of 86 400 000 ms. The local date of a saved scan is a parameter
  of `Save`. `toLocaleString` and `formatDateForDisplay` are left out.
- `DateRangePicker.Picker.Preset` reads the clock once. The source calls
  `new Date()` twice; the model does not capture the millisecond between
  the two calls.
- The picker's month navigation (`prevMonth`, `nextMonth`), its
  click-outside handler and the prop-sync effect are left out. The effect
  does what `Cancel` does to the dates.
- `DateRangePicker.GenerateCalendar` takes the shown month's year and month
  index as parameters. Turning `currentMonth` into them is time-zone work.
- Invalid dates and NaN timestamps.
- Text.Upper: upper-cases ASCII letters only. JavaScript's `toUpperCase`
  also maps other letters, for example 'ß' to "SS" and 'ſ' to 'S'. The
  recognition engine only emits ASCII letters, digits, dots and spaces
  (services/ocrService.ts:115), so the parser never meets such letters.
- OcrParser.KeepLines: measures a line in characters. JavaScript's
  `length` (services/ocrParser.ts:44) counts UTF-16 code units, so a
  character outside the Basic Multilingual Plane counts twice there. The
  same character whitelist keeps such characters out of the text.
- ScanChart.Tally: keeps the areas in the order they first appear.
  JavaScript's `Object.entries` (components/ScanChart.tsx:12-19) lists
  integer-like keys such as "7" or "12" first, in ascending numeric order.
  The accumulator `{}` inherits from `Object.prototype`, so an area named
  `constructor` starts from an inherited value and `__proto__` is not an
  ordinary entry.
  Area names come from the area selector, which is not part of this model.

## Findings

| source | as written | input that shows it | evidently intended | confidence | as-written member | corrected member |
|---|---|---|---|---|---|---|
| components/DashboardHomeView.tsx:30 | the end bound is `${endDate}T23:59:59`, the first millisecond of the end day's last second | a scan taken at 23:59:59.500 on the end day, timestamp `Midnight(d) + 86_399_500`, is dropped although it is on day `d` | keep every scan of the end day, up to 23:59:59.999 | high; not executed | DashboardHomeView.LastSecondDropped | DashboardHomeView.WholeDaysKept |

The dashboard's own filter, `DashboardHomeView.DateFiltered`, and with it
the table, the total and the last scan, keep the bound as written
(`DashboardHomeView.EndBoundAsWritten`). The corrected filter is
`DashboardHomeView.DateFilteredWholeDays`, over `DashboardHomeView.EndBound`.
