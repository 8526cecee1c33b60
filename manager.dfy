/** The annotation list of one video (components/AnnotationManager.tsx): the
    pending start and end marks, the annotation under edit, the editor modal,
    the one clip being cut, and the list itself, refreshed from the store and
    ordered by start time. */
module Manager {
  import opened Types
  import opened FileName
  import opened Time
  import opened Store

  const MissingMarks: string := "A valid start and end time must be set."
  const StartAfterEnd: string := "Start time cannot be after end time."
  const MarksFirst: string := "Please set a start and end time first."
  const ClipFailed: string := "An error occurred while creating the video clip. Check the console for details."

  // ---------------------------------------------------------------------------
  // `String.prototype.trim`

  /** White space and line terminators as `trim` removes them: TAB, LF, VT,
      FF, CR, SPACE, NBSP, the other space separators, LS, PS and the BOM. */
  predicate IsJsSpace(c: char) {
    var n := c as int;
    (0x09 <= n <= 0x0D) || n == 0x20 || n == 0xA0 || n == 0x1680
    || (0x2000 <= n <= 0x200A) || n == 0x2028 || n == 0x2029 || n == 0x202F
    || n == 0x205F || n == 0x3000 || n == 0xFEFF
  }

  predicate IsBlank(s: string) {
    forall i :: 0 <= i < |s| ==> IsJsSpace(s[i])
  }

  function TrimStart(s: string): (r: string)
    ensures |r| == 0 || !IsJsSpace(r[0])
    ensures |r| <= |s| && r == s[|s| - |r|..]
    decreases |s|
  {
    if |s| > 0 && IsJsSpace(s[0]) then TrimStart(s[1..]) else s
  }

  function TrimEnd(s: string): (r: string)
    ensures |r| == 0 || !IsJsSpace(r[|r| - 1])
    ensures |r| <= |s| && r == s[..|r|]
    decreases |s|
  {
    if |s| > 0 && IsJsSpace(s[|s| - 1]) then TrimEnd(s[..|s| - 1]) else s
  }

  function Trim(s: string): string {
    TrimEnd(TrimStart(s))
  }

  lemma {:induction false} TrimStartEmpty(s: string)
    ensures TrimStart(s) == "" <==> IsBlank(s)
    decreases |s|
  {
    if |s| > 0 && IsJsSpace(s[0]) {
      TrimStartEmpty(s[1..]);
      assert IsBlank(s[1..]) ==> IsBlank(s) by {
        if IsBlank(s[1..]) {
          forall i | 0 <= i < |s| ensures IsJsSpace(s[i]) {
            if i > 0 { assert s[i] == s[1..][i - 1]; }
          }
        }
      }
    }
  }

  lemma {:induction false} TrimEndEmpty(s: string)
    ensures TrimEnd(s) == "" <==> IsBlank(s)
    decreases |s|
  {
    if |s| > 0 && IsJsSpace(s[|s| - 1]) {
      var init := s[..|s| - 1];
      TrimEndEmpty(init);
      assert IsBlank(init) ==> IsBlank(s) by {
        if IsBlank(init) {
          forall i | 0 <= i < |s| ensures IsJsSpace(s[i]) {
            if i < |s| - 1 { assert s[i] == init[i]; }
          }
        }
      }
    }
  }

  /** `!text.trim()` holds exactly when the text is empty or all white space. */
  lemma TrimEmpty(s: string)
    ensures Trim(s) == "" <==> IsBlank(s)
  {
    var t := TrimStart(s);
    TrimStartEmpty(s);
    TrimEndEmpty(t);
  }

  // ---------------------------------------------------------------------------
  // The save rule of `handleSaveFromModal`

  /** What a save from the modal does: nothing, an alert, a whole-record put
      of the edited annotation, or an add of a new one. */
  datatype SaveStep = Ignored | Alerted(message: string) | Put(record: Annotation) | Add(draft: NewAnnotation)

  /** A save reaches the store exactly when the text is not blank, both marks
      are set and start <= end (equal is allowed); the marks are used as they
      are, never swapped. An update keeps the edited annotation's id and
      video and replaces start, end and text; a create carries the current
      video's id. Missing marks alert only while editing; start after end
      always alerts. */
  function DecideSave(text: string, editing: Option<Annotation>, start: Option<int>, end: Option<int>,
                      videoId: Id): (d: SaveStep)
    ensures (d.Put? || d.Add?) <==> !IsBlank(text) && start.Some? && end.Some? && start.value <= end.value
    ensures d.Put? <==> editing.Some? && (d.Put? || d.Add?)
    ensures d.Put? ==> d.record.id == editing.value.id && d.record.videoId == editing.value.videoId
    ensures d.Put? ==> d.record.startTime == start.value && d.record.endTime == end.value && d.record.text == text
    ensures d.Add? ==> d.draft == NewAnnotation(videoId, start.value, end.value, text)
    ensures d == Alerted(StartAfterEnd) <==> !IsBlank(text) && start.Some? && end.Some? && start.value > end.value
    ensures d == Alerted(MissingMarks) <==> !IsBlank(text) && editing.Some? && (start.None? || end.None?)
    ensures d.Alerted? ==> d.message == StartAfterEnd || d.message == MissingMarks
  {
    TrimEmpty(text);
    if Trim(text) == "" then Ignored
    else if editing.Some? then
      if start.None? || end.None? then Alerted(MissingMarks)
      else if start.value > end.value then Alerted(StartAfterEnd)
      else Put(editing.value.(startTime := start.value, endTime := end.value, text := text))
    else if start.None? || end.None? then Ignored
    else if start.value > end.value then Alerted(StartAfterEnd)
    else Add(NewAnnotation(videoId, start.value, end.value, text))
  }

  // ---------------------------------------------------------------------------
  // `fetchedAnnotations.sort((a, b) => a.startTime - b.startTime)`

  predicate SortedByStart(s: seq<Annotation>) {
    forall i, j :: 0 <= i < j < |s| ==> s[i].startTime <= s[j].startTime
  }

  /** The annotations of `s` that start at `t`, in their order in `s`. */
  function StartingAt(s: seq<Annotation>, t: int): seq<Annotation> {
    if |s| == 0 then []
    else (if s[0].startTime == t then [s[0]] else []) + StartingAt(s[1..], t)
  }

  /** Puts `x` in front of the first element that starts no earlier. */
  function InsertByStart(x: Annotation, s: seq<Annotation>): (r: seq<Annotation>)
    ensures multiset(r) == multiset(s) + multiset{x}
    decreases |s|
  {
    if |s| == 0 then [x]
    else if x.startTime <= s[0].startTime then [x] + s
    else
      assert s == [s[0]] + s[1..];
      [s[0]] + InsertByStart(x, s[1..])
  }

  /** No annotation of `s` starts before `lo`. */
  predicate StartsNoEarlier(s: seq<Annotation>, lo: int) {
    forall i :: 0 <= i < |s| ==> lo <= s[i].startTime
  }

  lemma ConsSorted(a: Annotation, s: seq<Annotation>)
    requires SortedByStart(s) && StartsNoEarlier(s, a.startTime)
    ensures SortedByStart([a] + s)
  {
    var r := [a] + s;
    forall i, j | 0 <= i < j < |r| ensures r[i].startTime <= r[j].startTime {
      assert r[j] == s[j - 1];
      if i > 0 {
        assert r[i] == s[i - 1];
      }
    }
  }

  lemma {:induction false} InsertLowerBound(x: Annotation, s: seq<Annotation>, lo: int)
    requires StartsNoEarlier(s, lo) && lo <= x.startTime
    ensures StartsNoEarlier(InsertByStart(x, s), lo)
    decreases |s|
  {
    if |s| > 0 && x.startTime > s[0].startTime {
      InsertLowerBound(x, s[1..], lo);
      var r := [s[0]] + InsertByStart(x, s[1..]);
      assert InsertByStart(x, s) == r;
      forall i | 0 <= i < |r| ensures lo <= r[i].startTime {
        if i > 0 {
          assert r[i] == InsertByStart(x, s[1..])[i - 1];
        }
      }
    }
  }

  lemma {:induction false} InsertSorted(x: Annotation, s: seq<Annotation>)
    requires SortedByStart(s)
    ensures SortedByStart(InsertByStart(x, s))
    decreases |s|
  {
    if |s| == 0 {
    } else if x.startTime <= s[0].startTime {
      ConsSorted(x, s);
    } else {
      var tail := s[1..];
      assert SortedByStart(tail) by {
        forall i, j | 0 <= i < j < |tail| ensures tail[i].startTime <= tail[j].startTime {
          assert tail[i] == s[i + 1] && tail[j] == s[j + 1];
        }
      }
      assert StartsNoEarlier(tail, s[0].startTime) by {
        forall i | 0 <= i < |tail| ensures s[0].startTime <= tail[i].startTime {
          assert tail[i] == s[i + 1];
        }
      }
      InsertSorted(x, tail);
      InsertLowerBound(x, tail, s[0].startTime);
      ConsSorted(s[0], InsertByStart(x, tail));
    }
  }

  /** The sort the list refresh applies: ascending by start time, a
      permutation of its input (stable: see SortIsStable). */
  function SortByStart(s: seq<Annotation>): (r: seq<Annotation>)
    ensures SortedByStart(r)
    ensures multiset(r) == multiset(s)
    ensures |r| == |s|
    decreases |s|
  {
    if |s| == 0 then []
    else
      assert s == [s[0]] + s[1..];
      var rest := SortByStart(s[1..]);
      InsertSorted(s[0], rest);
      InsertByStart(s[0], rest)
  }

  lemma StartingAtCons(a: Annotation, s: seq<Annotation>, t: int)
    ensures StartingAt([a] + s, t) == (if a.startTime == t then [a] else []) + StartingAt(s, t)
  {
    assert ([a] + s)[0] == a && ([a] + s)[1..] == s;
  }

  lemma {:induction false} InsertKeepsTies(x: Annotation, s: seq<Annotation>, t: int)
    ensures StartingAt(InsertByStart(x, s), t) == (if x.startTime == t then [x] else []) + StartingAt(s, t)
    decreases |s|
  {
    if |s| == 0 {
      StartingAtCons(x, s, t);
    } else if x.startTime <= s[0].startTime {
      StartingAtCons(x, s, t);
    } else {
      var rest := InsertByStart(x, s[1..]);
      assert InsertByStart(x, s) == [s[0]] + rest;
      InsertKeepsTies(x, s[1..], t);
      StartingAtCons(s[0], rest, t);
      StartingAtCons(s[0], s[1..], t);
      assert s == [s[0]] + s[1..];
    }
  }

  /** No two annotations of the list share an id. */
  predicate DistinctIds(s: seq<Annotation>) {
    forall i, j :: 0 <= i < j < |s| ==> s[i].id != s[j].id
  }

  lemma ConsDistinct(a: Annotation, s: seq<Annotation>)
    requires DistinctIds(s) && forall b :: b in s ==> b.id != a.id
    ensures DistinctIds([a] + s)
  {
    var r := [a] + s;
    forall i, j | 0 <= i < j < |r| ensures r[i].id != r[j].id {
      assert r[j] == s[j - 1];
      if i > 0 {
        assert r[i] == s[i - 1];
      }
    }
  }

  lemma {:induction false} InsertDistinct(x: Annotation, s: seq<Annotation>)
    requires DistinctIds(s) && forall b :: b in s ==> b.id != x.id
    ensures DistinctIds(InsertByStart(x, s))
    decreases |s|
  {
    if |s| == 0 {
      ConsDistinct(x, s);
    } else if x.startTime <= s[0].startTime {
      ConsDistinct(x, s);
    } else {
      var tail := s[1..];
      assert DistinctIds(tail) by {
        forall i, j | 0 <= i < j < |tail| ensures tail[i].id != tail[j].id {
          assert tail[i] == s[i + 1] && tail[j] == s[j + 1];
        }
      }
      InsertDistinct(x, tail);
      var rest := InsertByStart(x, tail);
      forall b | b in rest ensures b.id != s[0].id {
        assert b in multiset(rest);
        if b != x {
          assert b in multiset(tail);
          var k :| 0 <= k < |tail| && tail[k] == b;
          assert s[k + 1] == b;
        }
      }
      ConsDistinct(s[0], rest);
    }
  }

  /** Sorting keeps the ids distinct, so each fetched record stays listed once. */
  lemma {:induction false} SortDistinct(s: seq<Annotation>)
    requires DistinctIds(s)
    ensures DistinctIds(SortByStart(s))
    decreases |s|
  {
    if |s| > 0 {
      var tail := s[1..];
      assert DistinctIds(tail) by {
        forall i, j | 0 <= i < j < |tail| ensures tail[i].id != tail[j].id {
          assert tail[i] == s[i + 1] && tail[j] == s[j + 1];
        }
      }
      SortDistinct(tail);
      var sorted := SortByStart(tail);
      forall b | b in sorted ensures b.id != s[0].id {
        assert b in multiset(tail);
        var k :| 0 <= k < |tail| && tail[k] == b;
        assert s[k + 1] == b;
      }
      InsertDistinct(s[0], sorted);
    }
  }

  /** Annotations with equal start times keep their fetched order. */
  lemma {:induction false} SortIsStable(s: seq<Annotation>, t: int)
    ensures StartingAt(SortByStart(s), t) == StartingAt(s, t)
    decreases |s|
  {
    if |s| > 0 {
      SortIsStable(s[1..], t);
      InsertKeepsTies(s[0], SortByStart(s[1..]), t);
    }
  }

  /** A list that is already in order is left as it is. */
  lemma {:induction false} SortKeepsSorted(s: seq<Annotation>)
    requires SortedByStart(s)
    ensures SortByStart(s) == s
    decreases |s|
  {
    if |s| > 0 {
      assert SortedByStart(s[1..]);
      SortKeepsSorted(s[1..]);
      if |s| > 1 {
        assert s[0].startTime <= s[1].startTime;
        assert [s[0]] + s[1..] == s;
      }
    }
  }

  // ---------------------------------------------------------------------------
  // The clip download name of `handleSpliceAndDownload`

  /** `replace(/[:.]/g, '-')`. */
  function Dashed(s: string): (r: string)
    ensures |r| == |s|
    ensures forall i :: 0 <= i < |s| ==> r[i] == (if s[i] == ':' || s[i] == '.' then '-' else s[i])
  {
    seq(|s|, i requires 0 <= i < |s| => if s[i] == ':' || s[i] == '.' then '-' else s[i])
  }

  /** The clip's download name: the sanitised video name, `_clip_`, the dashed
      start stamp, `_to_`, the dashed end stamp and `.mp4`. Each stamp holds
      digits and '-' only (so no '_' of the template can be mistaken for part
      of it) and reads back as its time, negative times as 0. */
  function ClipFileName(videoName: string, a: Annotation): (r: string)
    ensures var d1, d2 := Dashed(FormatTimestamp(a.startTime)), Dashed(FormatTimestamp(a.endTime));
      && r == SafeFileName(videoName) + "_clip_" + d1 + "_to_" + d2 + ".mp4"
      && StampShaped(d1) && ParseStamp(d1, '-', '-') == Some(if a.startTime < 0 then 0 else a.startTime)
      && StampShaped(d2) && ParseStamp(d2, '-', '-') == Some(if a.endTime < 0 then 0 else a.endTime)
  {
    DashedStampBack(a.startTime);
    DashedStampBack(a.endTime);
    SafeFileName(videoName) + "_clip_" + Dashed(FormatTimestamp(a.startTime))
      + "_to_" + Dashed(FormatTimestamp(a.endTime)) + ".mp4"
  }

  /** Dashing keeps a slice of digits as it is. */
  lemma DashedKeepsDigits(s: string, i: int, j: int)
    requires 0 <= i <= j <= |s| && Decimal.AllDigits(s[i..j])
    ensures Dashed(s)[i..j] == s[i..j]
  {
    forall k | i <= k < j ensures Dashed(s)[k] == s[k] {
      assert s[k] == s[i..j][k - i];
    }
  }

  /** A stamp with ':' and '.' reads the same with both dashed. */
  lemma DashedParse(s: string)
    requires ParseStamp(s, ':', '.').Some?
    ensures ParseStamp(Dashed(s), '-', '-') == ParseStamp(s, ':', '.')
  {
    var n := |s|;
    var d := Dashed(s);
    assert d[n - 7] == '-' && d[n - 4] == '-';
    assert s[0..n - 7] == s[..n - 7] && d[0..n - 7] == d[..n - 7];
    assert s[n - 3..n] == s[n - 3..] && d[n - 3..n] == d[n - 3..];
    DashedKeepsDigits(s, 0, n - 7);
    DashedKeepsDigits(s, n - 6, n - 4);
    DashedKeepsDigits(s, n - 3, n);
    assert d[..n - 7] == s[..n - 7] && d[n - 6..n - 4] == s[n - 6..n - 4] && d[n - 3..] == s[n - 3..];
  }

  /** Digits and '-' only. */
  predicate StampShaped(d: string) {
    forall i :: 0 <= i < |d| ==> Decimal.IsDigit(d[i]) || d[i] == '-'
  }

  /** The dashed stamp in a clip name holds digits and '-' only, and reads back
      as the time it was made from (negative times as 0). */
  lemma DashedStampBack(t: int)
    ensures var d := Dashed(FormatTimestamp(t));
      && StampShaped(d)
      && ParseStamp(d, '-', '-') == Some(if t < 0 then 0 else t)
  {
    var s := FormatTimestamp(t);
    FormatChars(t);
    ParseFormat(t);
    DashedParse(s);
  }

  /** JavaScript truthiness of `splicingAnnotationId`: null and "" are falsy. */
  predicate SpliceInFlight(splicingId: Option<Id>) {
    splicingId.Some? && splicingId.value != ""
  }

  // ---------------------------------------------------------------------------

  class AnnotationManager {
    const video: Video
    var annotations: seq<Annotation>
    var newStartTime: Option<int>
    var newEndTime: Option<int>
    var editing: Option<Annotation>
    var isModalOpen: bool
    var splicingId: Option<Id>
    var spliceProgress: int

    constructor (v: Video)
      ensures video == v && annotations == []
      ensures newStartTime.None? && newEndTime.None? && editing.None?
      ensures !isModalOpen && splicingId.None? && spliceProgress == 0
    {
      video := v;
      annotations := [];
      newStartTime, newEndTime := None, None;
      editing := None;
      isModalOpen := false;
      splicingId := None;
      spliceProgress := 0;
    }

    /** `fetchAnnotations`: this video's annotations from the store, sorted by
        start time. */
    method FetchAnnotations(db: AnnotationDb) returns (fetched: seq<Annotation>)
      requires db.Valid()
      modifies this`annotations
      ensures annotations == SortByStart(fetched)
      ensures SortedByStart(annotations)
      ensures forall a :: a in annotations <==> a in RecordsOf(db.annotationStore, video.id)
      ensures DistinctIds(annotations)
    {
      fetched := db.GetAnnotationsForVideo(video.id);
      SortDistinct(fetched);
      annotations := SortByStart(fetched);
      assert forall a :: a in annotations <==> a in multiset(fetched);
    }

    /** The awaited store call of a save: `updateAnnotation` for a put,
        `addAnnotation` for an add, none otherwise. A call that throws
        (`storeOk` false, or an add under a key already in use) stores
        nothing. */
    static method SendToStore(step: SaveStep, db: AnnotationDb, storeOk: bool, freshId: Id) returns (saved: bool)
      requires db.Valid()
      modifies db`annotationStore
      ensures db.Valid()
      ensures saved == (storeOk && (step.Put? || (step.Add? && freshId !in old(db.annotationStore))))
      ensures saved && step.Put? ==> db.annotationStore == old(db.annotationStore)[step.record.id := step.record]
      ensures saved && step.Add? ==> db.annotationStore == old(db.annotationStore)[freshId := WithId(step.draft, freshId)]
      ensures !saved ==> db.annotationStore == old(db.annotationStore)
    {
      saved := false;
      if !storeOk {
        return;
      }
      match step {
        case Put(record) =>
          db.UpdateAnnotation(record);
          saved := true;
        case Add(draft) =>
          var added := db.AddAnnotation(draft, freshId);
          saved := added.Some?;
        case _ =>
      }
    }

    /** `handleSaveFromModal(text)`, with `storeOk` whether the store call
        succeeds and `freshId` the id an add would get. When DecideSave sends
        a record to the store and the store accepts it, the modal closes, the
        edit and both marks are cleared and the list is refetched; otherwise
        no state and no store changes. */
    method SaveFromModal(text: string, db: AnnotationDb, storeOk: bool, freshId: Id)
      returns (alert: Option<string>, saved: bool)
      requires db.Valid()
      modifies this`annotations, this`isModalOpen, this`editing, this`newStartTime, this`newEndTime
      modifies db`annotationStore
      ensures db.Valid()
      ensures var d := DecideSave(text, old(editing), old(newStartTime), old(newEndTime), video.id);
        && alert == (if d.Alerted? then Some(d.message) else None)
        && saved == (storeOk && (d.Put? || (d.Add? && freshId !in old(db.annotationStore))))
        && (saved && d.Put? ==> db.annotationStore == old(db.annotationStore)[d.record.id := d.record])
        && (saved && d.Add? ==> db.annotationStore == old(db.annotationStore)[freshId := WithId(d.draft, freshId)])
      ensures saved ==> !isModalOpen && editing.None? && newStartTime.None? && newEndTime.None?
      ensures saved ==> SortedByStart(annotations)
      ensures saved ==> forall a :: a in annotations <==> a in RecordsOf(db.annotationStore, video.id)
      ensures saved ==> DistinctIds(annotations)
      ensures !saved ==> db.annotationStore == old(db.annotationStore) && annotations == old(annotations)
      ensures !saved ==> isModalOpen == old(isModalOpen) && editing == old(editing)
      ensures !saved ==> newStartTime == old(newStartTime) && newEndTime == old(newEndTime)
    {
      var step := DecideSave(text, editing, newStartTime, newEndTime, video.id);
      alert := if step.Alerted? then Some(step.message) else None;
      saved := SendToStore(step, db, storeOk, freshId);
      if saved {
        isModalOpen := false;
        editing := None;
        newStartTime, newEndTime := None, None;
        var _ := FetchAnnotations(db);
      }
    }

    /** `handleEdit`: the annotation becomes the edit target and its times
        become the marks. */
    method Edit(a: Annotation)
      modifies this`editing, this`newStartTime, this`newEndTime
      ensures editing == Some(a) && newStartTime == Some(a.startTime) && newEndTime == Some(a.endTime)
    {
      editing := Some(a);
      newStartTime, newEndTime := Some(a.startTime), Some(a.endTime);
    }

    /** `handleOpenNewAnnotationModal`: opens the modal in create mode only
        when both marks are set and start <= end, and otherwise alerts. */
    method OpenNewAnnotationModal() returns (alert: Option<string>)
      modifies this`editing, this`isModalOpen
      ensures var marksOk := newStartTime.Some? && newEndTime.Some? && newStartTime.value <= newEndTime.value;
        && alert.None? == marksOk
        && (marksOk ==> editing.None? && isModalOpen)
        && (!marksOk ==> editing == old(editing) && isModalOpen == old(isModalOpen))
        && (alert.Some? ==> alert.value == (if newStartTime.None? || newEndTime.None? then MarksFirst else StartAfterEnd))
    {
      if newStartTime.None? || newEndTime.None? {
        return Some(MarksFirst);
      }
      if newStartTime.value > newEndTime.value {
        return Some(StartAfterEnd);
      }
      editing := None;
      isModalOpen := true;
      alert := None;
    }

    /** `handleCancelEdit`: no edit target, no marks. */
    method CancelEdit()
      modifies this`editing, this`newStartTime, this`newEndTime
      ensures editing.None? && newStartTime.None? && newEndTime.None?
    {
      editing := None;
      newStartTime, newEndTime := None, None;
    }

    /** `handleOpenUpdateModal`: opens the modal only while editing with both
        marks set and start <= end; start after end alerts, the other refused
        cases are silent. */
    method OpenUpdateModal() returns (alert: Option<string>)
      modifies this`isModalOpen
      ensures var opens := editing.Some? && newStartTime.Some? && newEndTime.Some?
                           && newStartTime.value <= newEndTime.value;
        && isModalOpen == (opens || old(isModalOpen))
        && (alert.Some? <==> editing.Some? && newStartTime.Some? && newEndTime.Some?
                              && newStartTime.value > newEndTime.value)
        && (alert.Some? ==> alert.value == StartAfterEnd)
    {
      alert := None;
      if editing.None? || newStartTime.None? || newEndTime.None? {
        return;
      }
      if newStartTime.value > newEndTime.value {
        return Some(StartAfterEnd);
      }
      isModalOpen := true;
    }

    /** `handleCloseModal`: closes the modal and, while editing, also cancels
        the edit; without an edit target the marks stay. */
    method CloseModal()
      modifies this`isModalOpen, this`editing, this`newStartTime, this`newEndTime
      ensures !isModalOpen && editing.None?
      ensures old(editing).Some? ==> newStartTime.None? && newEndTime.None?
      ensures old(editing).None? ==> newStartTime == old(newStartTime) && newEndTime == old(newEndTime)
    {
      isModalOpen := false;
      if editing.Some? {
        CancelEdit();
      }
    }

    /** `handleDelete(id)` with the user's answer to the confirmation: nothing
        happens unless confirmed; deleting the annotation under edit cancels
        the edit (before the store call, so also when that call fails), any
        other leaves the edit as it is; after a successful delete the list is
        refetched. */
    method Delete(id: Id, confirmed: bool, db: AnnotationDb, storeOk: bool)
      requires db.Valid()
      modifies this`annotations, this`editing, this`newStartTime, this`newEndTime, db`annotationStore
      ensures db.Valid()
      ensures var cancels := confirmed && old(editing).Some? && old(editing).value.id == id;
        && (cancels ==> editing.None? && newStartTime.None? && newEndTime.None?)
        && (!cancels ==> editing == old(editing) && newStartTime == old(newStartTime) && newEndTime == old(newEndTime))
      ensures confirmed && storeOk ==> db.annotationStore == old(db.annotationStore) - {id}
      ensures confirmed && storeOk ==> SortedByStart(annotations)
      ensures confirmed && storeOk ==> forall a :: a in annotations <==> a in RecordsOf(db.annotationStore, video.id)
      ensures confirmed && storeOk ==> DistinctIds(annotations)
      ensures !(confirmed && storeOk) ==> db.annotationStore == old(db.annotationStore) && annotations == old(annotations)
    {
      if !confirmed {
        return;
      }
      if editing.Some? && editing.value.id == id {
        CancelEdit();
      }
      if !storeOk {
        return;
      }
      db.DeleteAnnotation(id);
      var _ := FetchAnnotations(db);
    }

    /** The start mark's Set button: the mark becomes the player's current time. */
    method SetStartMark(currentTime: int)
      modifies this`newStartTime
      ensures newStartTime == Some(currentTime)
    {
      newStartTime := Some(currentTime);
    }

    /** The end mark's Set button. */
    method SetEndMark(currentTime: int)
      modifies this`newEndTime
      ensures newEndTime == Some(currentTime)
    {
      newEndTime := Some(currentTime);
    }

    /** The admission step of `handleSpliceAndDownload`: refused while another
        clip is in flight; otherwise the annotation's id is recorded and the
        progress restarts at 0. */
    method BeginSplice(a: Annotation) returns (started: bool)
      modifies this`splicingId, this`spliceProgress
      ensures started == !SpliceInFlight(old(splicingId))
      ensures started ==> splicingId == Some(a.id) && spliceProgress == 0
      ensures !started ==> splicingId == old(splicingId) && spliceProgress == old(spliceProgress)
    {
      if splicingId.Some? && splicingId.value != "" {
        return false;
      }
      splicingId := Some(a.id);
      spliceProgress := 0;
      started := true;
    }

    /** The progress callback handed to the clip cutter. */
    method ReportSpliceProgress(progress: int)
      modifies this`spliceProgress
      ensures spliceProgress == progress
    {
      spliceProgress := progress;
    }

    /** The end of `handleSpliceAndDownload`: on success the clip is offered
        under ClipFileName and nothing is alerted; on failure no clip is
        offered and the failure is alerted; on success and on failure alike no
        clip is in flight afterwards and the progress is 0. */
    method FinishSplice(a: Annotation, succeeded: bool) returns (fileName: Option<string>, alert: Option<string>)
      modifies this`splicingId, this`spliceProgress
      ensures fileName == (if succeeded then Some(ClipFileName(video.name, a)) else None)
      ensures alert == (if succeeded then None else Some(ClipFailed))
      ensures splicingId.None? && spliceProgress == 0
    {
      if succeeded {
        fileName, alert := Some(ClipFileName(video.name, a)), None;
      } else {
        fileName, alert := None, Some(ClipFailed);
      }
      splicingId := None;
      spliceProgress := 0;
    }
  }
}
