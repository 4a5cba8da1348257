/**
 Splitting a text into overlapping byte windows that never cut a character (oracle-core/src/embed/mod.rs:200-350),
 and putting the text together again.
 */
module TextWindows {
  import opened Numbers
  import opened Results

  type Text = seq<bv8>

  datatype Window = Window(text: Text, start: nat, end: nat)

  /** UTF-8: a byte 10xxxxxx continues a character. */
  predicate IsBoundary(s: Text, i: nat) {
    i == 0 || i == |s| || (i < |s| && s[i] & 0xC0 != 0x80)
  }

  /** The last boundary at or below the index. */
  ghost predicate FloorBoundary(s: Text, index: nat, i: nat) {
    i <= |s| && i <= index && IsBoundary(s, i) && forall j :: i < j <= index && j <= |s| ==> !IsBoundary(s, j)
  }

  method FloorCharBoundary(s: Text, index: nat) returns (i: nat)
    ensures FloorBoundary(s, index, i)
  {
    if index >= |s| {
      return |s|;
    }
    i := index;
    while i > 0 && !IsBoundary(s, i)
      invariant i <= index && forall j :: i < j <= index ==> !IsBoundary(s, j)
    {
      i := i - 1;
    }
  }

  ghost predicate NextBoundary(s: Text, index: nat, i: nat) {
    index < i <= |s| && IsBoundary(s, i) && forall j :: index < j < i ==> !IsBoundary(s, j)
  }

  method NextCharBoundary(s: Text, index: nat) returns (i: nat)
    ensures if index >= |s| then i == |s| else NextBoundary(s, index, i)
  {
    if index >= |s| {
      return |s|;
    }
    i := index + 1;
    while i < |s| && !IsBoundary(s, i)
      invariant index < i <= |s| && forall j :: index < j < i ==> !IsBoundary(s, j)
    {
      i := i + 1;
    }
  }

  lemma OneNextBoundary(s: Text, index: nat, i: nat, j: nat)
    ensures NextBoundary(s, index, i) && NextBoundary(s, index, j) ==> i == j
  {
  }

  predicate IsSeparator(b: bv8) {
    b == 0x0A || b == 0x20 || b == 0x09
  }

  ghost predicate SoftCut(s: Text, from: nat, end: nat, i: nat, cut: nat) {
    from <= i < end <= |s| && IsBoundary(s, i) && IsSeparator(s[i]) && NextBoundary(s, i, cut) && cut <= end
  }

  /** The cut after the last separator of the range. */
  ghost predicate LastSoftCut(text: Text, from: nat, end: nat, cut: nat) {
    exists i :: SoftCut(text, from, end, i, cut) && forall j, other :: j > i ==> !SoftCut(text, from, end, j, other)
  }

  ghost predicate NoSoftCut(text: Text, from: nat, end: nat) {
    forall i, cut :: !SoftCut(text, from, end, i, cut)
  }

  /** The cut after the last separator in the range, when there is one. */
  method PreferSoftCut(s: Text, from: nat, end: nat) returns (r: Option<nat>)
    ensures r.None? <==> NoSoftCut(s, from, end)
    ensures r.Some? ==> LastSoftCut(s, from, end, r.value)
  {
    if from >= end || end > |s| {
      return None;
    }
    var i := end;
    while i > from
      invariant from <= i <= end
      invariant forall j, cut :: j >= i ==> !SoftCut(s, from, end, j, cut)
    {
      i := i - 1;
      if IsBoundary(s, i) && IsSeparator(s[i]) {
        var after := NextCharBoundary(s, i);
        if after > from && after <= end {
          assert SoftCut(s, from, end, i, after);
          return Some(after);
        }
        forall cut ensures !SoftCut(s, from, end, i, cut) {
          OneNextBoundary(s, i, after, cut);
        }
      }
    }
    r := None;
  }

  /** A window of the text: whole characters, not empty, and no longer than asked for unless it is one character. */
  ghost predicate Fits(text: Text, windowBytes: nat, w: Window) {
    && w.start < w.end <= |text| && w.text == text[w.start..w.end]
    && IsBoundary(text, w.start) && IsBoundary(text, w.end)
    && (w.end - w.start <= Max(windowBytes, 1) || NextBoundary(text, w.start, w.end))
  }

  /** The windows start at the beginning, move on, and leave no gap. */
  ghost predicate Chained(text: Text, windowBytes: nat, ws: seq<Window>) {
    && (forall k :: 0 <= k < |ws| ==> Fits(text, windowBytes, ws[k]))
    && (|ws| > 0 ==> ws[0].start == 0)
    && forall k :: 0 < k < |ws| ==> ws[k - 1].start < ws[k].start <= ws[k - 1].end
  }

  ghost predicate Covers(text: Text, windowBytes: nat, ws: seq<Window>) {
    Chained(text, windowBytes, ws) && if text == [] then ws == [] else |ws| > 0 && ws[|ws| - 1].end == |text|
  }

  // ----- where a window is cut

  /** Some boundary lies past the start and at or before the index. */
  ghost predicate Reaches(text: Text, start: nat, index: nat) {
    exists i :: i > start && FloorBoundary(text, index, i)
  }

  /** The end that the budget allows: the last boundary within it, or the end of one character if that is too long. */
  ghost predicate HardEnd(text: Text, start: nat, windowBytes: nat, hard: nat) {
    if Reaches(text, start, start + windowBytes) then FloorBoundary(text, start + windowBytes, hard)
    else NextBoundary(text, start, hard)
  }

  /** Where the last 15% of a window begin. */
  function SoftFrom(start: nat, hard: nat): nat
    requires start <= hard
  {
    start + (hard - start) * 85 / 100
  }

  /** A window ends where the budget does, or after the last separator in the last 15% before that; the end of the text
      is never given up for a separator. */
  ghost predicate EndsAt(text: Text, start: nat, windowBytes: nat, hard: nat, end: nat) {
    && HardEnd(text, start, windowBytes, hard) && start < end <= hard <= |text|
    && if hard == |text| || NoSoftCut(text, SoftFrom(start, hard), hard) then end == hard
       else LastSoftCut(text, SoftFrom(start, hard), hard, end)
  }

  /** Where the window from `start` ends. */
  method WindowEnd(text: Text, start: nat, windowBytes: nat) returns (end: nat, ghost hard: nat)
    requires start < |text| && IsBoundary(text, start) && windowBytes > 0
    ensures start < end <= |text| && Fits(text, windowBytes, Window(text[start..end], start, end))
    ensures EndsAt(text, start, windowBytes, hard, end)
  {
    hide *;
    end := FloorCharBoundary(text, if start + windowBytes < |text| then start + windowBytes else |text|);
    assert end <= |text| by {
      FloorInText(text, if start + windowBytes < |text| then start + windowBytes else |text|, end);
    }
    ghost var floor := end;
    if end <= start {
      end := NextCharBoundary(text, start);
    }
    hard := end;
    HardIs(text, start, windowBytes, floor, hard);
    if end < |text| {
      var from := start + (end - start) * 85 / 100;
      assert from == SoftFrom(start, hard) by { SoftFromIs(start, hard); }
      var soft := PreferSoftCut(text, from, end);
      assert soft.Some? ==> start <= from < soft.value <= hard by {
        if soft.Some? { SoftCutInRange(text, from, hard, soft.value); }
      }
      if soft.Some? && soft.value > start {
        end := soft.value;
      }
    }
    EndIs(text, start, windowBytes, hard, end);
  }

  lemma FloorInText(text: Text, index: nat, i: nat)
    requires FloorBoundary(text, index, i)
    ensures i <= |text|
  {
  }

  lemma SoftFromIs(start: nat, hard: nat)
    requires start <= hard
    ensures SoftFrom(start, hard) == start + (hard - start) * 85 / 100 >= start
  {
  }

  lemma HardIs(text: Text, start: nat, windowBytes: nat, floor: nat, hard: nat)
    requires start < |text|
    requires FloorBoundary(text, if start + windowBytes < |text| then start + windowBytes else |text|, floor)
    requires if floor <= start then NextBoundary(text, start, hard) else hard == floor
    ensures HardEnd(text, start, windowBytes, hard) && start < hard <= |text|
  {
    FloorIsLast(text, start + windowBytes, floor);
    assert start < hard <= |text|;
    hide FloorBoundary, NextBoundary;
    var index := start + windowBytes;
    assert FloorBoundary(text, index, floor);
    assert Reaches(text, start, index) <==> floor > start;
  }

  /** Putting it together. */
  lemma EndIs(text: Text, start: nat, windowBytes: nat, hard: nat, end: nat)
    requires start < hard <= |text| && HardEnd(text, start, windowBytes, hard)
    requires windowBytes > 0 && IsBoundary(text, start)
    requires if hard == |text| || NoSoftCut(text, SoftFrom(start, hard), hard) then end == hard
             else LastSoftCut(text, SoftFrom(start, hard), hard, end)
    ensures start < end <= |text| && Fits(text, windowBytes, Window(text[start..end], start, end))
    ensures EndsAt(text, start, windowBytes, hard, end)
  {
    if end != hard {
      SoftCutInRange(text, SoftFrom(start, hard), hard, end);
      SoftCutIsBoundary(text, SoftFrom(start, hard), hard, end);
    }
    HardIsBoundary(text, start, windowBytes, hard);
    hide NoSoftCut, LastSoftCut, IsBoundary, Reaches;
  }

  lemma SoftCutIsBoundary(text: Text, from: nat, end: nat, cut: nat)
    requires LastSoftCut(text, from, end, cut)
    ensures IsBoundary(text, cut)
  {
  }

  /** The source looks no further than the end of the text. */
  lemma FloorIsLast(text: Text, index: nat, i: nat)
    requires FloorBoundary(text, if index < |text| then index else |text|, i)
    ensures forall j :: FloorBoundary(text, index, j) <==> j == i
  {
    assert FloorBoundary(text, index, i);
    forall j | FloorBoundary(text, index, j) ensures j == i {}
  }

  lemma OneSoftCut(text: Text, from: nat, end: nat, a: nat, b: nat)
    requires LastSoftCut(text, from, end, a) && LastSoftCut(text, from, end, b)
    ensures a == b
  {
    hide IsBoundary;
    var i :| SoftCut(text, from, end, i, a) && forall k, other :: k > i ==> !SoftCut(text, from, end, k, other);
    var j :| SoftCut(text, from, end, j, b) && forall k, other :: k > j ==> !SoftCut(text, from, end, k, other);
    assert i == j;
    OneNextBoundary(text, i, a, b);
  }

  /** There is one such end. */
  lemma OneEnd(text: Text, start: nat, windowBytes: nat, hardA: nat, a: nat, hardB: nat, b: nat)
    requires EndsAt(text, start, windowBytes, hardA, a) && EndsAt(text, start, windowBytes, hardB, b)
    ensures a == b && hardA == hardB
  {
    OneHardEnd(text, start, windowBytes, hardA, hardB);
    hide HardEnd, LastSoftCut, NoSoftCut;
    if LastSoftCut(text, SoftFrom(start, hardA), hardA, a) && LastSoftCut(text, SoftFrom(start, hardA), hardA, b) {
      OneSoftCut(text, SoftFrom(start, hardA), hardA, a, b);
    }
  }

  lemma OneHardEnd(text: Text, start: nat, windowBytes: nat, a: nat, b: nat)
    requires HardEnd(text, start, windowBytes, a) && HardEnd(text, start, windowBytes, b)
    ensures a == b
  {
    OneNextBoundary(text, start, a, b);
    OneFloor(text, start + windowBytes, a, b);
    hide FloorBoundary, NextBoundary;
  }

  lemma OneFloor(text: Text, index: nat, a: nat, b: nat)
    ensures FloorBoundary(text, index, a) && FloorBoundary(text, index, b) ==> a == b
  {
  }

  /** The next window starts at the last boundary that leaves the overlap, if that is past this start, else at the next
      character. */
  ghost predicate StartsAt(text: Text, start: nat, end: nat, overlapBytes: nat, next: nat) {
    var back := if end < overlapBytes then 0 else end - overlapBytes;
    if Reaches(text, start, back) then FloorBoundary(text, back, next)
    else NextBoundary(text, start, next)
  }

  lemma OneStart(text: Text, start: nat, end: nat, overlapBytes: nat, a: nat, b: nat)
    requires StartsAt(text, start, end, overlapBytes, a) && StartsAt(text, start, end, overlapBytes, b)
    ensures a == b
  {
    OneNextBoundary(text, start, a, b);
    OneFloor(text, if end < overlapBytes then 0 else end - overlapBytes, a, b);
    hide FloorBoundary, NextBoundary;
  }

  /** Where the next window starts: back by the overlap, but past this start, and not past this end. */
  method NextStart(text: Text, start: nat, end: nat, overlapBytes: nat) returns (next: nat)
    requires start < end < |text| && IsBoundary(text, start) && IsBoundary(text, end)
    ensures start < next <= end && IsBoundary(text, next)
    ensures StartsAt(text, start, end, overlapBytes, next)
  {
    var back := if end < overlapBytes then 0 else end - overlapBytes;
    next := FloorCharBoundary(text, back);
    FloorIsLast(text, back, next);
    if next <= start {
      next := NextCharBoundary(text, start);
    }
    if next <= start {
      next := end;
    }
  }

  /** Every window ends and starts where it should, and only the last one reaches the end of the text. */
  ghost predicate Cut(text: Text, windowBytes: nat, overlapBytes: nat, ws: seq<Window>, hards: seq<nat>) {
    && |hards| == |ws|
    && (forall k :: 0 <= k < |ws| ==> EndsAt(text, ws[k].start, Max(windowBytes, 1), hards[k], ws[k].end))
    && (forall k :: 0 <= k < |ws| - 1 ==> ws[k].end < |text|)
    && forall k :: 0 < k < |ws| ==> StartsAt(text, ws[k - 1].start, ws[k - 1].end, overlapBytes, ws[k].start)
  }

  /** The windows of a text. */
  ghost predicate Windows(text: Text, windowBytes: nat, overlapBytes: nat, ws: seq<Window>) {
    Covers(text, windowBytes, ws) && exists hards :: Cut(text, windowBytes, overlapBytes, ws, hards)
  }

  lemma ChainedMore(text: Text, windowBytes: nat, ws: seq<Window>, w: Window)
    requires Chained(text, windowBytes, ws) && Fits(text, windowBytes, w)
    requires if ws == [] then w.start == 0 else ws[|ws| - 1].start < w.start <= ws[|ws| - 1].end
    ensures Chained(text, windowBytes, ws + [w])
  {
    hide Fits;
  }

  /** The windows so far, and where the next one starts. */
  ghost predicate Underway(text: Text, windowBytes: nat, overlapBytes: nat, ws: seq<Window>, hards: seq<nat>,
                           start: nat) {
    && start < |text| && IsBoundary(text, start)
    && Chained(text, windowBytes, ws) && Cut(text, windowBytes, overlapBytes, ws, hards)
    && if ws == [] then start == 0 else
      var last := ws[|ws| - 1];
      last.start < start <= last.end < |text| && StartsAt(text, last.start, last.end, overlapBytes, start)
  }

  method WindowText(text: Text, windowBytes: nat, overlapBytes: nat) returns (windows: seq<Window>)
    ensures Windows(text, windowBytes, overlapBytes, windows)
  {
    windows := [];
    ghost var hards: seq<nat> := [];
    assert Cut(text, windowBytes, overlapBytes, windows, hards);
    if text == [] {
      return;
    }
    var start := 0;
    assert Underway(text, windowBytes, overlapBytes, windows, hards, start);
    hide Chained, Cut, IsBoundary, NextBoundary, EndsAt, StartsAt, Fits;
    var width := if windowBytes < 1 then 1 else windowBytes;
    while true
      invariant Underway(text, windowBytes, overlapBytes, windows, hards, start)
      decreases |text| - start
    {
      var end;
      ghost var hard;
      end, hard := WindowEnd(text, start, width);
      var w := Window(text[start..end], start, end);
      FitsWidth(text, windowBytes, w);
      ChainedMore(text, windowBytes, windows, w);
      CutMore(text, windowBytes, overlapBytes, windows, hards, w, hard);
      windows, hards := windows + [w], hards + [hard];
      if end >= |text| {
        return;
      }
      BoundaryOf(text, windowBytes, w);
      start := NextStart(text, start, end, overlapBytes);
    }
  }

  lemma FitsWidth(text: Text, windowBytes: nat, w: Window)
    requires Fits(text, Max(windowBytes, 1), w)
    ensures Fits(text, windowBytes, w)
  {
  }

  lemma BoundaryOf(text: Text, windowBytes: nat, w: Window)
    requires Fits(text, windowBytes, w)
    ensures IsBoundary(text, w.end)
  {
  }

  lemma CutMore(text: Text, windowBytes: nat, overlapBytes: nat, ws: seq<Window>, hards: seq<nat>, w: Window, hard: nat)
    requires Cut(text, windowBytes, overlapBytes, ws, hards)
    requires EndsAt(text, w.start, Max(windowBytes, 1), hard, w.end)
    requires ws != [] ==>
      ws[|ws| - 1].end < |text| && StartsAt(text, ws[|ws| - 1].start, ws[|ws| - 1].end, overlapBytes, w.start)
    ensures Cut(text, windowBytes, overlapBytes, ws + [w], hards + [hard])
  {
    hide EndsAt, StartsAt;
  }

  // ----- what follows about the windows

  /** Two listings agree as far as both of them go. */
  lemma {:induction false} SameWindows(text: Text, windowBytes: nat, overlapBytes: nat, a: seq<Window>,
                                       hardsA: seq<nat>, b: seq<Window>, hardsB: seq<nat>, n: nat)
    requires Chained(text, windowBytes, a) && Cut(text, windowBytes, overlapBytes, a, hardsA)
    requires Chained(text, windowBytes, b) && Cut(text, windowBytes, overlapBytes, b, hardsB)
    requires n <= |a| && n <= |b|
    ensures a[..n] == b[..n]
  {
    hide EndsAt, StartsAt, IsBoundary, NextBoundary;
    if n > 0 {
      var m := n - 1;
      SameWindows(text, windowBytes, overlapBytes, a, hardsA, b, hardsB, m);
      if m > 0 {
        assert a[..m][m - 1] == b[..m][m - 1];
        OneStart(text, a[m - 1].start, a[m - 1].end, overlapBytes, a[m].start, b[m].start);
      }
      OneEnd(text, a[m].start, Max(windowBytes, 1), hardsA[m], a[m].end, hardsB[m], b[m].end);
      assert Fits(text, windowBytes, a[m]) && Fits(text, windowBytes, b[m]);
      assert a[..n] == a[..m] + [a[m]] && b[..n] == b[..m] + [b[m]];
    }
  }

  /** The text, the size and the overlap determine the windows. */
  lemma WindowsAreUnique(text: Text, windowBytes: nat, overlapBytes: nat, a: seq<Window>, b: seq<Window>)
    requires Windows(text, windowBytes, overlapBytes, a) && Windows(text, windowBytes, overlapBytes, b)
    ensures a == b
  {
    hide Fits, EndsAt, StartsAt;
    var hardsA :| Cut(text, windowBytes, overlapBytes, a, hardsA);
    var hardsB :| Cut(text, windowBytes, overlapBytes, b, hardsB);
    var n := if |a| < |b| then |a| else |b|;
    SameWindows(text, windowBytes, overlapBytes, a, hardsA, b, hardsB, n);
    if n > 0 {
      assert a[..n][n - 1] == b[..n][n - 1];
      assert a[n - 1].end == |text|;
    }
    assert a[..n] == a && b[..n] == b;
  }

  lemma ReachesAll(text: Text, start: nat, index: nat)
    requires start < |text| <= index
    ensures Reaches(text, start, index) && forall i :: FloorBoundary(text, index, i) <==> i == |text|
  {
    assert FloorBoundary(text, index, |text|);
    forall i | FloorBoundary(text, index, i) ensures i == |text| {}
  }

  lemma CutAt(text: Text, windowBytes: nat, overlapBytes: nat, ws: seq<Window>, k: nat) returns (hard: nat)
    requires Windows(text, windowBytes, overlapBytes, ws) && k < |ws|
    ensures EndsAt(text, ws[k].start, Max(windowBytes, 1), hard, ws[k].end) && Fits(text, windowBytes, ws[k])
    ensures k == 0 ==> ws[k].start == 0
    ensures if k + 1 == |ws| then ws[k].end == |text| else
      ws[k].end < |text| && StartsAt(text, ws[k].start, ws[k].end, overlapBytes, ws[k + 1].start)
  {
    hide Fits, EndsAt, StartsAt;
    var hards :| Cut(text, windowBytes, overlapBytes, ws, hards);
    hard := hards[k];
  }

  /** A window from which the whole rest fits the budget takes it. */
  lemma RestFits(text: Text, windowBytes: nat, overlapBytes: nat, ws: seq<Window>, k: nat)
    requires Windows(text, windowBytes, overlapBytes, ws) && k < |ws|
    requires |text| <= ws[k].start + Max(windowBytes, 1)
    ensures ws[k].end == |text| && k == |ws| - 1
  {
    var hard := CutAt(text, windowBytes, overlapBytes, ws, k);
    EndsWithText(text, ws[k].start, Max(windowBytes, 1), hard, ws[k].end);
    hide *;
  }

  lemma EndsWithText(text: Text, start: nat, windowBytes: nat, hard: nat, end: nat)
    requires EndsAt(text, start, windowBytes, hard, end) && |text| <= start + windowBytes
    ensures end == |text|
  {
    hide FloorBoundary, NextBoundary, LastSoftCut, NoSoftCut;
    ReachesAll(text, start, start + windowBytes);
  }

  /** A text that fits the budget is one window. */
  lemma SmallTextIsOneWindow(text: Text, windowBytes: nat, overlapBytes: nat, ws: seq<Window>)
    requires Windows(text, windowBytes, overlapBytes, ws) && 0 < |text| <= Max(windowBytes, 1)
    ensures ws == [Window(text, 0, |text|)]
  {
    var hard := CutAt(text, windowBytes, overlapBytes, ws, 0);
    RestFits(text, windowBytes, overlapBytes, ws, 0);
    assert text[0..|text|] == text;
  }

  /** From `hard` on, one more character does not fit the budget, and the window takes more than 85% of the span up to
      there. */
  ghost predicate Long(text: Text, windowBytes: nat, w: Window, hard: nat) {
    && w.start < w.end <= hard < |text| && IsBoundary(text, hard)
    && (forall next: nat :: NextBoundary(text, hard, next) ==> next > w.start + windowBytes)
    && 100 * (w.end - w.start) > 85 * (hard - w.start)
  }

  /** Windows are as long as the budget allows, up to 15%, but for the last one. */
  lemma WindowsAreLong(text: Text, windowBytes: nat, overlapBytes: nat, ws: seq<Window>, k: nat) returns (hard: nat)
    requires Windows(text, windowBytes, overlapBytes, ws) && k + 1 < |ws|
    ensures Long(text, Max(windowBytes, 1), ws[k], hard)
  {
    hard := CutAt(text, windowBytes, overlapBytes, ws, k);
    hide Windows, Fits;
    EndIsLong(text, Max(windowBytes, 1), ws[k], hard);
  }

  lemma EndIsLong(text: Text, windowBytes: nat, w: Window, hard: nat)
    requires EndsAt(text, w.start, windowBytes, hard, w.end) && w.end < |text|
    ensures Long(text, windowBytes, w, hard)
  {
    hide HardEnd, LastSoftCut, NoSoftCut, IsBoundary, NextBoundary;
    HardIsMaximal(text, w.start, windowBytes, hard);
    HardIsBoundary(text, w.start, windowBytes, hard);
    if w.end != hard {
      SoftCutInRange(text, SoftFrom(w.start, hard), hard, w.end);
    }
  }

  lemma SoftCutInRange(text: Text, from: nat, end: nat, cut: nat)
    requires LastSoftCut(text, from, end, cut)
    ensures from < cut <= end
  {
  }

  lemma HardIsBoundary(text: Text, start: nat, windowBytes: nat, hard: nat)
    requires HardEnd(text, start, windowBytes, hard)
    ensures IsBoundary(text, hard)
  {
  }

  lemma ReachesPast(text: Text, start: nat, i: nat, index: nat)
    requires start < i <= index && i <= |text| && IsBoundary(text, i)
    ensures Reaches(text, start, index) && forall j :: FloorBoundary(text, index, j) ==> i <= j
  {
    var last := LastBoundary(text, i, index);
    forall j | FloorBoundary(text, index, j) ensures i <= j {
      OneFloor(text, index, last, j);
    }
  }

  lemma HardIsMaximal(text: Text, start: nat, windowBytes: nat, hard: nat)
    requires HardEnd(text, start, windowBytes, hard) && start < hard
    ensures forall next: nat :: NextBoundary(text, hard, next) ==> next > start + windowBytes
  {
    forall next: nat | NextBoundary(text, hard, next) ensures next > start + windowBytes {
      if next <= start + windowBytes {
        ReachesPast(text, start, next, start + windowBytes);
      }
    }
  }

  /** Some boundary is the last one up to the index. */
  lemma {:induction false} LastBoundary(text: Text, i: nat, index: nat) returns (last: nat)
    requires i <= index && i <= |text| && IsBoundary(text, i)
    ensures i <= last && FloorBoundary(text, index, last)
    decreases index - i
  {
    last := i;
    if j: nat :| i < j <= index && j <= |text| && IsBoundary(text, j) {
      last := LastBoundary(text, j, index);
    }
  }

  /** The next window goes back by the overlap at least, unless it would not move on by more than a character; and no
      later boundary does. */
  ghost predicate Overlaps(text: Text, overlapBytes: nat, start: nat, end: nat, next: nat) {
    && (next + overlapBytes <= end || NextBoundary(text, start, next))
    && forall i: nat :: next < i <= |text| && IsBoundary(text, i) ==> i + overlapBytes > end
  }

  lemma WindowsOverlap(text: Text, windowBytes: nat, overlapBytes: nat, ws: seq<Window>, k: nat)
    requires Windows(text, windowBytes, overlapBytes, ws) && k + 1 < |ws|
    ensures Overlaps(text, overlapBytes, ws[k].start, ws[k].end, ws[k + 1].start)
  {
    var hard := CutAt(text, windowBytes, overlapBytes, ws, k);
    hide Windows, EndsAt;
    StartOverlaps(text, overlapBytes, ws[k].start, ws[k].end, ws[k + 1].start);
  }

  lemma StartOverlaps(text: Text, overlapBytes: nat, start: nat, end: nat, next: nat)
    requires start < end && StartsAt(text, start, end, overlapBytes, next)
    ensures Overlaps(text, overlapBytes, start, end, next)
  {
    forall i: nat | next < i <= |text| && IsBoundary(text, i) ensures i + overlapBytes > end {
      if i + overlapBytes <= end {
        ReachesPast(text, start, i, end - overlapBytes);
      }
    }
  }

  // ----- reconstruction

  datatype Rebuilt = Rebuilt(out: Text, cursor: nat)

  function Rebuild(ws: seq<Window>): Rebuilt {
    if ws == [] then Rebuilt([], 0)
    else
      var w := ws[|ws| - 1];
      var r := if |ws| == 1 then Rebuilt([], w.start) else Rebuild(ws[..|ws| - 1]);
      if w.end <= r.cursor then r
      else
        var skip := if r.cursor < w.start then 0 else r.cursor - w.start;
        Rebuilt(r.out + (if skip < |w.text| then w.text[skip..] else []), w.end)
  }

  method ReconstructFromWindows(windows: seq<Window>) returns (out: Text)
    ensures out == Rebuild(windows).out
  {
    if windows == [] {
      return [];
    }
    out := [];
    var cursor := windows[0].start;
    for k := 0 to |windows|
      invariant k == 0 ==> out == [] && cursor == windows[0].start
      invariant k > 0 ==> out == Rebuild(windows[..k]).out && cursor == Rebuild(windows[..k]).cursor
    {
      var w := windows[k];
      assert windows[..k + 1][..k] == windows[..k];
      if w.end > cursor {
        var skip := if cursor < w.start then 0 else cursor - w.start;
        if skip < |w.text| {
          out := out + w.text[skip..];
        }
        cursor := w.end;
      }
    }
    assert windows[..|windows|] == windows;
  }

  lemma {:induction false} RebuildIsPrefix(text: Text, windowBytes: nat, ws: seq<Window>)
    requires Chained(text, windowBytes, ws) && |ws| > 0
    ensures var r := Rebuild(ws); ws[|ws| - 1].end <= r.cursor <= |text| && r.out == text[..r.cursor]
  {
    var w, init := ws[|ws| - 1], ws[..|ws| - 1];
    hide IsBoundary, NextBoundary;
    if init == [] {
      assert text[0..w.end] == text[..w.end] && w.text[0..] == w.text;
    } else {
      RebuildIsPrefix(text, windowBytes, init);
      assert init[|init| - 1] == ws[|ws| - 2];
      Extend(text, Rebuild(init), w);
    }
  }

  lemma Extend(text: Text, r: Rebuilt, w: Window)
    requires w.start <= r.cursor <= |text| && r.out == text[..r.cursor]
    requires w.start < w.end <= |text| && w.text == text[w.start..w.end]
    ensures r.cursor < w.end ==> r.out + w.text[r.cursor - w.start..] == text[..w.end]
  {
    if r.cursor < w.end {
      assert w.text[r.cursor - w.start..] == text[r.cursor..w.end];
      assert text[..r.cursor] + text[r.cursor..w.end] == text[..w.end];
    }
  }

  /** Windows that cover a text give it back, however much they overlap. */
  lemma ReconstructsText(text: Text, windowBytes: nat, ws: seq<Window>)
    requires Covers(text, windowBytes, ws)
    ensures Rebuild(ws).out == text
  {
    if text != [] {
      RebuildIsPrefix(text, windowBytes, ws);
    }
  }
}

/**
 The size of a window and the tokenizer's limit (oracle-core/src/embed/mod.rs:43-69, 95-108): a byte-level tokenizer
 makes at most one token of a byte, and adds a few special ones.
 */
module WindowSize {
  import opened Numbers
  import opened Results
  import opened TextWindows

  const DEFAULT_WINDOW_BYTES: nat := 2556

  const SPECIAL_TOKEN_RESERVE: nat := 4

  /** A positive request, else the default; clamped to what the limit leaves beside the special tokens. */
  function EffectiveWindowBytes(requested: Option<nat>, maxSeq: nat): (r: nat)
    ensures 0 < r && (maxSeq > SPECIAL_TOKEN_RESERVE ==> r + SPECIAL_TOKEN_RESERVE <= maxSeq)
    ensures (requested.None? || requested.value == 0) && 2560 <= maxSeq ==> r == 2556
    ensures requested.Some? && 0 < requested.value && requested.value + SPECIAL_TOKEN_RESERVE <= maxSeq ==>
      r == requested.value
    ensures requested.Some? && maxSeq > SPECIAL_TOKEN_RESERVE && requested.value + SPECIAL_TOKEN_RESERVE > maxSeq ==>
      r + SPECIAL_TOKEN_RESERVE == maxSeq
  {
    var wanted := if requested.Some? && requested.value > 0 then requested.value else DEFAULT_WINDOW_BYTES;
    var cap := Max(if maxSeq < SPECIAL_TOKEN_RESERVE then 0 else maxSeq - SPECIAL_TOKEN_RESERVE, 1);
    if wanted > cap then cap else wanted
  }

  /** Even one token for each byte and all special tokens stay within the limit. */
  predicate NeverTruncated(maxSeq: nat, w: Window) {
    |w.text| + SPECIAL_TOKEN_RESERVE <= maxSeq
  }

  /** Every character of the text fits beside the special tokens. */
  ghost predicate CharactersFit(text: Text, maxSeq: nat) {
    maxSeq > SPECIAL_TOKEN_RESERVE &&
    forall i: nat, j: nat :: IsBoundary(text, i) && NextBoundary(text, i, j) ==> j - i <= maxSeq - SPECIAL_TOKEN_RESERVE
  }

  /** Every byte lies in some window. */
  lemma {:induction false} ByteHasWindow(text: Text, windowBytes: nat, ws: seq<Window>, i: nat) returns (k: nat)
    requires ws != [] && Chained(text, windowBytes, ws) && i < ws[|ws| - 1].end
    ensures k < |ws| && ws[k].start <= i < ws[k].end
  {
    hide Fits;
    var last := |ws| - 1;
    if ws[last].start <= i {
      k := last;
    } else {
      k := ByteHasWindow(text, windowBytes, ws[..last], i);
    }
  }

  /** A character lies in one window as a whole. */
  lemma CharacterHasWindow(text: Text, windowBytes: nat, ws: seq<Window>, i: nat, j: nat) returns (k: nat)
    requires text != [] && Covers(text, windowBytes, ws) && NextBoundary(text, i, j)
    ensures k < |ws| && ws[k].start <= i && j <= ws[k].end
  {
    k := ByteHasWindow(text, windowBytes, ws, i);
    assert Fits(text, windowBytes, ws[k]);
  }

  /** The promise that no window of a text can be truncated holds exactly when the limit leaves room for a byte, and for
      every single character of the text, beside the special tokens. */
  lemma NeverTruncatedIff(text: Text, requested: Option<nat>, maxSeq: nat, ws: seq<Window>)
    requires text != [] && Covers(text, EffectiveWindowBytes(requested, maxSeq), ws)
    ensures (forall k :: 0 <= k < |ws| ==> NeverTruncated(maxSeq, ws[k])) <==> CharactersFit(text, maxSeq)
  {
    var size := EffectiveWindowBytes(requested, maxSeq);
    if forall k :: 0 <= k < |ws| ==> NeverTruncated(maxSeq, ws[k]) {
      CoversSomething(text, size, ws);
      assert NeverTruncated(maxSeq, ws[0]);
      forall i: nat, j: nat | IsBoundary(text, i) && NextBoundary(text, i, j)
          ensures j - i <= maxSeq - SPECIAL_TOKEN_RESERVE {
        var k := CharacterHasWindow(text, size, ws, i, j);
        assert NeverTruncated(maxSeq, ws[k]) && Fits(text, size, ws[k]);
      }
    }
    if CharactersFit(text, maxSeq) {
      forall k | 0 <= k < |ws| ensures NeverTruncated(maxSeq, ws[k]) {
        assert Fits(text, size, ws[k]);
      }
    }
  }

  lemma CoversSomething(text: Text, windowBytes: nat, ws: seq<Window>)
    requires text != [] && Covers(text, windowBytes, ws)
    ensures |ws| > 0 && |ws[0].text| > 0
  {
    assert Fits(text, windowBytes, ws[0]);
  }

  /** UTF-8 has no character of more than four bytes, so a limit of eight tokens is enough for every text and every
      request. */
  lemma NothingIsTruncated(text: Text, requested: Option<nat>, maxSeq: nat, ws: seq<Window>, tokens: Text -> nat)
    requires text != [] && Covers(text, EffectiveWindowBytes(requested, maxSeq), ws) && Utf8Narrow(text)
    requires maxSeq >= 8 && forall t :: tokens(t) <= |t| + SPECIAL_TOKEN_RESERVE
    ensures forall k :: 0 <= k < |ws| ==> tokens(ws[k].text) <= maxSeq
  {
    NeverTruncatedIff(text, requested, maxSeq, ws);
    forall k | 0 <= k < |ws| ensures tokens(ws[k].text) <= maxSeq {
      assert NeverTruncated(maxSeq, ws[k]);
    }
  }

  ghost predicate Utf8Narrow(text: Text) {
    forall i: nat, j: nat :: IsBoundary(text, i) && NextBoundary(text, i, j) ==> j - i <= 4
  }

  /** With a limit of four or less, a tokenizer that uses its whole reserve makes more tokens of a single byte than the
      limit allows; with a limit of one, so does one that adds a single special token. */
  lemma TinyLimitTruncates(b: bv8, requested: Option<nat>, maxSeq: nat, ws: seq<Window>)
    requires maxSeq <= SPECIAL_TOKEN_RESERVE && Covers([b], EffectiveWindowBytes(requested, maxSeq), ws)
    ensures |ws| == 1 && !NeverTruncated(maxSeq, ws[0])
    ensures var full := (t: Text) => |t| + SPECIAL_TOKEN_RESERVE; full(ws[0].text) > maxSeq
    ensures var plain := (t: Text) => |t| + 1;
      (forall t :: plain(t) <= |t| + SPECIAL_TOKEN_RESERVE) && (maxSeq <= 1 ==> plain(ws[0].text) > maxSeq)
  {
    var size := EffectiveWindowBytes(requested, maxSeq);
    assert Fits([b], size, ws[0]);
    assert |ws| > 1 ==> Fits([b], size, ws[1]);
  }
}
