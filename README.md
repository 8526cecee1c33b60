# Video annotator core, modelled in Dafny

A browser tool for attaching time-ranged text notes to a local video. Videos and
annotations are kept in two IndexedDB object stores, one for each. The
annotations are listed by start time and exported as CSV or as a plain-text
report. This project models the parts of the
tool that hold logic, and proves what they promise:

- **the timestamp formatter** (`formatTimestamp`). A time in whole milliseconds
  is split exactly into minutes, seconds and milliseconds and zero-padded as
  `MM:SS.mmm`. Negative times give `00:00.000`. Reading the output back gives
  the time, so distinct times give distinct strings.
- **the exports** (`exportAnnotationsToCSV`, `exportAnnotationsToTXT`).
  - CSV: the fixed header, then one row per annotation, with the text quoted as
    section 2, rule 7 of RFC 4180 asks.
  - TXT: the numbered block report.
  - Both name the download from a sanitised video name.
  - A reference CSV line reader shows that each row gives back its
    annotation's start, end and text.
- **the record store** (`useIndexedDB`). The object stores are maps keyed by
  id. Deleting a video cascades to its annotations through a cursor loop.
- **the annotation manager** (`AnnotationManager`). This is a class holding the
  pending marks, the edit target, the modal flag, the in-flight clip and the
  sorted list. The store, the user's confirmation answer and the store's
  success or failure are inputs to its methods.
- **the video player** (`VideoPlayer`): the clamped relative seek, the unclamped
  `seek` handle and the state kept by the element's events.

Times are integers counting milliseconds throughout. The application reads
them as seconds from the video element, but it only adds, compares, formats
and stores them.

Files:

| file | module |
|---|---|
| `types.dfy` | `Types`: records and `Option` |
| `decimal.dfy` | `Decimal`: `String(n)`, `padStart` and digit reading |
| `strings.dfy` | `Strings`: `join` and one-character `split` |
| `time.dfy` | `Time` |
| `filename.dfy` | `FileName`: the download-name sanitiser |
| `csv.dfy` | `Csv` |
| `txt.dfy` | `Txt` |
| `store.dfy` | `Store` |
| `manager.dfy` | `Manager` |
| `player.dfy` | `Player` |

Four details of the code:

- `seekBy` clamps `current + amount` but does not round it.
- There is no frame-index arithmetic. The frame buttons step by a fixed `1/30`
  second outside this core.
- `importAnnotationsFromCSV` is imported by the manager but defined nowhere, so
  there is no import to model.
- A create whose marks are missing returns without an alert. An update in the
  same situation alerts.

## Model

| member | source | states |
|---|---|---|
| `Types.WithId` | hooks/useIndexedDB.ts:79 | the stored record carries the given id, and dropping that id gives back exactly the draft |
| `Decimal.NatToString` | utils/time.ts:14-16 | `String(n)` is a non-empty digit string, with a leading zero only for 0 |
| `Decimal.ValueOfNatToString` | utils/time.ts:14-16 | reading `String(n)` back gives n |
| `Decimal.ValueIgnoresLeadingZeros` | utils/time.ts:14-16 | zero padding keeps the string all digits and keeps its value |
| `Decimal.NatToStringLength` | utils/time.ts:14-16 | `String(n)` has at most k digits exactly when n < 10^k |
| `Decimal.PadStart` | utils/time.ts:14-16 | `padStart`; its shape is stated by PadStartShape and its value by PaddedValue |
| `Decimal.PadStartShape` | utils/time.ts:14-16 | padding leaves a string that is already wide enough as it is; otherwise the string ends the result, all fill before it, and the result is exactly the width |
| `Decimal.PaddedValue` | utils/time.ts:14-16 | `String(n).padStart(w, '0')` is all digits, reads back as n, is at least w long, and is exactly w long when n fits in w digits |
| `Strings.Join` | utils/csv.ts:21 | `join`; SplitJoin and JoinSplit state that it inverts `split` |
| `Strings.SplitJoin` | utils/csv.ts:21 | joining pieces that are free of the separator and then splitting recovers the pieces |
| `Strings.JoinSplit` | utils/csv.ts:21 | joining the pieces of a split with the same separator gives the string back |
| `Time.FormatTimestamp` | utils/time.ts:1-18 | `formatTimestamp`; its layout, characters and read-back are stated by FormatLayout, FormatChars, ParseFormat and FormatInjective |
| `Time.Decompose` | utils/time.ts:9-12 | milliseconds < 1000 and seconds < 60, and minutes·60000 + seconds·1000 + milliseconds is the total exactly |
| `Time.ClockTextLayout` | utils/time.ts:14-18 | for seconds < 60 and milliseconds < 1000 the padded fields have widths ≥2, 2 and 3 around ':' and '.', read back as the clock's fields, and the whole reads back as its milliseconds |
| `Time.FormatLayout` | utils/time.ts:9-18 | the output is at least two minute digits, never truncated, then ':', two second digits, '.' and three millisecond digits; each field reads back as its part of the decomposition; the length is 9 exactly when minutes < 100 |
| `Time.NegativeAsZero` | utils/time.ts:3-5 | every negative time gives exactly `00:00.000`, which is also how 0 is written |
| `Time.FormatChars` | utils/time.ts:14-18 | the output holds only digits, ':' and '.' |
| `Time.ParseFormatNat` | utils/time.ts:9-18 | reading back the format of a non-negative time gives that time |
| `Time.ParseFormat` | utils/time.ts:3-18 | reading the output back gives the time, or 0 for a negative time |
| `Time.FormatInjective` | utils/time.ts:7-18 | distinct non-negative times give distinct strings |
| `FileName.SafeFileName` | utils/csv.ts:28 | the length is kept; every ASCII letter or digit becomes its lower-case form and everything else becomes `_`, so only `[a-z0-9_]` remains |
| `FileName.SafeFileNameIdempotent` | utils/txt.ts:23 | sanitising a sanitised name changes nothing |
| `Csv.ToFixed3` | utils/csv.ts:14-16 | `toFixed(3)` of a time in milliseconds; UnsignedFixed3Layout, FixedChars and ParseToFixed3 state what it writes |
| `Csv.UnsignedFixed3Layout` | utils/csv.ts:14-16 | whole seconds, '.', then three digits that read back as the milliseconds |
| `Csv.ParseSigned` | utils/csv.ts:14-16 | an unsigned rendering that reads back as n reads back as -n after a leading '-' |
| `Csv.ParseToFixed3` | utils/csv.ts:14-16 | the three-decimal seconds field reads back as the time, negative times included |
| `Csv.FixedChars` | utils/csv.ts:14-16 | the seconds field holds only digits, '.' and '-', so it never holds a comma or a line break |
| `Csv.EscapeQuotes` | utils/csv.ts:18 | doubling the quotes lengthens the text by its number of double quotes |
| `Csv.UnescapeEscape` | utils/csv.ts:18 | undoing the doubling recovers the text |
| `Csv.QuoteField` | utils/csv.ts:18 | the quoted text field; its length, its quotes and its read-back are stated by QuoteRoundTrip |
| `Csv.QuoteRoundTrip` | utils/csv.ts:18 | the field starts and ends with `"`, is 2 + (number of quotes) longer than the text, and unquoting it gives the text back |
| `Csv.CsvRow` | utils/csv.ts:13-21 | one annotation's line; RowRoundTrip states its fields and read-back |
| `Csv.CsvContent` | utils/csv.ts:21 | the whole content; ExportCsv and ExportLines state its lines |
| `Csv.CsvRows` | utils/csv.ts:13-19 | one row per annotation, in input order, and each row reads back as its annotation's start, end and text |
| `Csv.ExportCsv` | utils/csv.ts:7-29 | no file for an empty list; otherwise the name is the sanitised video name + `_annotations.csv`, the MIME type is `text/csv;charset=utf-8;`, and the content is the header line, a line break and the rows joined by line breaks, with no trailing break, whatever the texts hold |
| `Csv.RowRoundTrip` | utils/csv.ts:13-21 | a row's fields are, in order, start seconds, formatted start, end seconds, formatted end and the quoted text; reading the row gives back start, end and text |
| `Csv.ExportLines` | utils/csv.ts:12-21 | with line-break-free texts the content is exactly the header line and then one line per annotation in order, with no trailing line break, each reading back as its annotation |
| `Txt.TxtBlock` | utils/txt.ts:12-15 | one annotation's block; ExportLines states its lines |
| `Txt.TxtContent` | utils/txt.ts:12-16 | the whole report; ContentAsLines and ExportLines state its lines |
| `Txt.ExportTxt` | utils/txt.ts:7-24 | no file for an empty list; otherwise the name is the sanitised video name + `_annotations.txt`, the MIME type is `text/plain;charset=utf-8;`, and the content is the blocks joined by `\n---\n\n` |
| `Txt.ContentAsLines` | utils/txt.ts:12-16 | the blocks joined by the separator are the report's lines joined by line breaks |
| `Txt.LayoutAt` | utils/txt.ts:12-16 | the report of n blocks has 6n-2 lines; block k takes lines 6k to 6k+2 and line 6k+3 is empty, and `---` and an empty line follow it when another block comes |
| `Txt.LinesAvoidNewline` | utils/txt.ts:12-15 | when no text holds a line break, no line of the report holds one |
| `Txt.ExportLines` | utils/txt.ts:12-16 | with line-break-free texts, line 6k is `Annotation {k+1}:`, 6k+1 is `Time: {start} --> {end}`, 6k+2 is `Text: ` plus the text verbatim and 6k+3 is empty; between blocks come `---` and an empty line, so n blocks have n-1 separators |
| `Store.WithoutVideo` | hooks/useIndexedDB.ts:60-66 | after the cascade, a key stays exactly when its record belongs to another video, and its record is unchanged |
| `Store.CascadeEffect` | hooks/useIndexedDB.ts:56-67 | the deleted video has no annotations left and every other video keeps exactly its own |
| `Store.AddEffect` | hooks/useIndexedDB.ts:76-82 | adding under a new key gives one video exactly one more annotation and leaves every other video's annotations as they were |
| `Store.DeleteEffect` | hooks/useIndexedDB.ts:89-92 | deleting by id takes exactly that record from its video's annotations |
| `Store.AnnotationDb.constructor` | hooks/useIndexedDB.ts:15-29 | both stores are empty and the video list is empty |
| `Store.AnnotationDb.GetVideos` | hooks/useIndexedDB.ts:32-36 | the list holds every stored video exactly once and nothing else |
| `Store.AnnotationDb.AddVideo` | hooks/useIndexedDB.ts:45-54 | stores `{fresh id, file.name, file}` and the refreshed list holds it; a key already in use is refused and nothing changes |
| `Store.AnnotationDb.DeleteVideo` | hooks/useIndexedDB.ts:56-69 | removes the video and, by the cursor loop, exactly its annotations; other videos and their annotations are untouched; the list is refreshed |
| `Store.AnnotationDb.GetAnnotationsForVideo` | hooks/useIndexedDB.ts:71-74 | returns exactly the annotations whose `videoId` matches, each once |
| `Store.AnnotationDb.AddAnnotation` | hooks/useIndexedDB.ts:76-82 | stores and returns the draft plus the fresh id; a key already in use fails and nothing is stored |
| `Store.AnnotationDb.UpdateAnnotation` | hooks/useIndexedDB.ts:84-87 | the whole record is written under its id, inserted if absent; no other record changes |
| `Store.AnnotationDb.DeleteAnnotation` | hooks/useIndexedDB.ts:89-92 | only the record with that id is removed |
| `Manager.Trim` | components/AnnotationManager.tsx:67 | `text.trim()`; TrimEmpty states when it is empty |
| `Manager.TrimEmpty` | components/AnnotationManager.tsx:67 | `text.trim()` is empty exactly when every character is JavaScript white space or a line terminator |
| `Manager.DecideSave` | components/AnnotationManager.tsx:66-99 | a save reaches the store exactly when the text is not blank, both marks are set and start <= end; start == end is allowed and the marks are never swapped; an update keeps the id and videoId and replaces start, end and text; a create carries the current video's id; start > end alerts in both modes, missing marks alert only in update mode |
| `Manager.InsertByStart` | components/AnnotationManager.tsx:46 | insertion adds exactly the one element |
| `Manager.InsertSorted` | components/AnnotationManager.tsx:46 | insertion into a list sorted by start time keeps it sorted |
| `Manager.SortByStart` | components/AnnotationManager.tsx:46 | the result is ascending by start time and is a permutation of the input |
| `Manager.InsertKeepsTies` | components/AnnotationManager.tsx:46 | insertion puts the new element ahead of the elements with the same start time |
| `Manager.SortIsStable` | components/AnnotationManager.tsx:46 | annotations with equal start times keep their fetched order |
| `Manager.InsertDistinct` | components/AnnotationManager.tsx:46 | inserting an annotation whose id is new into a list of distinct ids keeps the ids distinct |
| `Manager.SortDistinct` | components/AnnotationManager.tsx:46 | sorting keeps the ids distinct |
| `Manager.SortKeepsSorted` | components/AnnotationManager.tsx:46 | an already sorted list is unchanged |
| `Manager.ClipFileName` | components/AnnotationManager.tsx:184-187 | sanitised name + `_clip_` + start stamp + `_to_` + end stamp + `.mp4`, where each stamp holds only digits and '-' and reads back as its time (0 for a negative time) |
| `Manager.DashedParse` | components/AnnotationManager.tsx:185-186 | dashing a stamp whose colon and period sit in their places reads back, with '-' as both separators, as the stamp's own value |
| `Manager.DashedStampBack` | components/AnnotationManager.tsx:185-186 | the dashed stamp in a clip name holds only digits and '-' and reads back as the time (0 for a negative time) |
| `Manager.SpliceInFlight` | components/AnnotationManager.tsx:166 | the truthiness of `splicingAnnotationId`: null and the empty id are falsy; BeginSplice uses it as its guard |
| `Manager.AnnotationManager.constructor` | components/AnnotationManager.tsx:33-41 | empty list, no marks, no edit target, modal closed, no clip in flight, progress 0 |
| `Manager.AnnotationManager.FetchAnnotations` | components/AnnotationManager.tsx:44-48 | the list becomes this video's stored annotations, each once, sorted ascending by start time |
| `Manager.AnnotationManager.SaveFromModal` | components/AnnotationManager.tsx:66-108 | does what DecideSave decides; after a successful store call the modal is closed, the edit target and both marks are cleared and the list is refetched sorted, each annotation once; when nothing is sent or the store call fails, no state and no store changes |
| `Manager.AnnotationManager.SendToStore` | components/AnnotationManager.tsx:84-99 | when the store call succeeds, an update is written whole under its id and a create is added under the fresh id unless that key is taken; it reports whether the record was stored, and when it was not the store is unchanged |
| `Manager.AnnotationManager.Edit` | components/AnnotationManager.tsx:110-114 | the annotation becomes the edit target and its start and end become the marks |
| `Manager.AnnotationManager.OpenNewAnnotationModal` | components/AnnotationManager.tsx:116-127 | opens the modal in create mode exactly when both marks are set and start <= end; otherwise alerts and changes nothing |
| `Manager.AnnotationManager.CancelEdit` | components/AnnotationManager.tsx:129-133 | clears the edit target and both marks |
| `Manager.AnnotationManager.OpenUpdateModal` | components/AnnotationManager.tsx:135-144 | opens the modal exactly when editing with both marks set and start <= end; alerts only for start > end |
| `Manager.AnnotationManager.CloseModal` | components/AnnotationManager.tsx:146-152 | closes the modal; while editing it also clears the edit target and both marks, otherwise the marks stay |
| `Manager.AnnotationManager.Delete` | components/AnnotationManager.tsx:154-163 | nothing without confirmation; deleting the record under edit cancels the edit, any other delete leaves it; a successful delete removes only that id and refetches the sorted list, each annotation once |
| `Manager.AnnotationManager.SetStartMark` | components/AnnotationManager.tsx:312 | the start mark becomes the current playback time |
| `Manager.AnnotationManager.SetEndMark` | components/AnnotationManager.tsx:319 | the end mark becomes the current playback time |
| `Manager.AnnotationManager.BeginSplice` | components/AnnotationManager.tsx:166-169 | refused, with nothing changed, while a clip is in flight; otherwise records the annotation's id and restarts the progress at 0 |
| `Manager.AnnotationManager.ReportSpliceProgress` | components/AnnotationManager.tsx:176-178 | the progress becomes the reported value |
| `Manager.AnnotationManager.FinishSplice` | components/AnnotationManager.tsx:184-198 | offers the clip under ClipFileName on success and alerts nothing; on failure offers no file and returns the failure alert; on success and failure alike, no clip is in flight afterwards and the progress is 0 |
| `Player.ClampSeek` | components/VideoPlayer.tsx:107 | the target is within [0, duration]; it is exactly current + amount when that lies inside, 0 below and duration above |
| `Player.SeekBeforeMetadata` | components/VideoPlayer.tsx:107 | with the initial duration 0, every relative seek lands on 0 |
| `Player.ClampMonotone` | components/VideoPlayer.tsx:107 | a larger amount never lands earlier |
| `Player.VideoPlayer.constructor` | components/VideoPlayer.tsx:25-30 | not playing, duration 0, time 0, rate 1 |
| `Player.VideoPlayer.Seek` | components/VideoPlayer.tsx:33-39 | sets the element's time to the value given, unclamped; nothing happens without an element |
| `Player.VideoPlayer.SeekBy` | components/VideoPlayer.tsx:105-112 | the clamped target is written to the element and to the state and is reported, the same value all three times; nothing happens without an element |
| `Player.VideoPlayer.ScrubTo` | components/VideoPlayer.tsx:97-103 | the progress bar's value goes to the element and to the state |
| `Player.VideoPlayer.OnTimeUpdate` | components/VideoPlayer.tsx:45-49 | the state follows the element's time, and that time is reported |
| `Player.VideoPlayer.OnLoadedMetadata` | components/VideoPlayer.tsx:51-54 | the duration becomes the element's |
| `Player.VideoPlayer.OnPlay` | components/VideoPlayer.tsx:58 | playing |
| `Player.VideoPlayer.OnPause` | components/VideoPlayer.tsx:59 | not playing |
| `Player.VideoPlayer.SetPlaybackRate` | components/VideoPlayer.tsx:69-73 | the rate state changes and is copied to the element when there is one |

## Left out

- Float arithmetic:
  - `Math.round(seconds * 1000)` (utils/time.ts:7) is not modelled, because times are already whole milliseconds here.
  - `toFixed(3)` is modelled as fixed-point rendering of those milliseconds. Its exponent form for magnitudes of 10^21 and above is not modelled, and neither is that of `String(n)` (utils/time.ts:14): a minutes value of 10^21 or more prints as `1e+21` and the like in the application, while Decimal.NatToString always writes all the digits.
  - NaN has no counterpart, and neither does the `Infinity` that `video.duration` can report: the duration is a natural number of milliseconds.
- utils/video.ts (the ffmpeg-based clip cutter) is not part of this model. It loads a foreign library over the network, so the cut is an input that succeeds or fails, and its progress values are taken as given.
- The CSV import and `addMultipleAnnotations` are not modelled: neither is defined in the application's code.
- Browser effects are not modelled: Blob, object URLs, the hidden download link and its click, `alert` (the manager's validation alerts and the clip-failure alert are returned as messages; the "No annotations to export." alert of both exports shows only as the missing file, `None`), `console.error`, and the click-outside listeners. The `Download` value stands for the file offered.
- Opening the database and the cached `dbPromise` connection (hooks/useIndexedDB.ts:10-26, 38-43) are not modelled; the stores start empty in the constructor. Each store call is one atomic step, and the interleaving of asynchronous calls (stale fetches, overlapping saves) is not modelled. `fetchAnnotations` after a save or delete is not awaited in the application; here it runs to completion. The `getVideos` refresh after `addVideo` and `deleteVideo` is modelled as completing.
- Store.AnnotationDb.GetVideos: the order of `getAll` (key order in IndexedDB) is not modelled; only which records the list holds is stated.
- Store.AnnotationDb.GetAnnotationsForVideo: the order of `getAllFromIndex` is not modelled. The manager sorts the list by start time anyway, and then only the order of equal start times depends on it.
- Store.AnnotationDb.DeleteVideo: a failure part-way through the transaction is not modelled.
- Store.AnnotationDb.UpdateAnnotation: a failing `put` is not modelled. The manager treats a failing store call on its side with an explicit success flag.
- Manager.SortByStart: `Array.prototype.sort` sorts the fetched array in place. This model sorts the sequence as a value, a stable insertion sort with the ordering, permutation and stability facts proved. In-place reordering and aliasing of the array are not captured.
- Text is a sequence of Unicode characters. JavaScript strings are UTF-16 code units, so a character outside the Basic Multilingual Plane counts as one here and two there.
- FileName.SafeFileName: `toLowerCase` is modelled for ASCII only. That is exact here, because the regular expression (no `u` flag) has already replaced every non-ASCII character with `_`.
- Pure interface code is not modelled: the download menu, the speed menu, play/pause toggling (`togglePlay` only asks the element to play or pause, and the play and pause events are modelled), the list's click-to-seek, the highlighted row, layout, App.tsx, VideoList.tsx, VideoWorkspace.tsx, FrameControls.tsx and AnnotationEditorModal.tsx (its own trim check repeats the manager's).
- The manager is modelled for one fixed video. In the application the component is not keyed by the selected video (components/VideoWorkspace.tsx:76-85). Its marks, edit target and in-flight clip therefore survive a video switch, and the refetch when the video changes (components/AnnotationManager.tsx:50-52) is not modelled.
- The frame step goes through `videoPlayerRef.current?.seekBy` (components/VideoWorkspace.tsx:44), which the player's handle does not expose (components/VideoPlayer.tsx:20-22). That call is not modelled.
- Player.VideoPlayer.Seek: the media element's own clamping of `currentTime` is not modelled; the element's time is taken to be the value assigned.
