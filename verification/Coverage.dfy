/** Run-length masks: the cursor check accepts exactly the masks whose runs tile every channel in order. */
module Coverage {
  datatype Run = Run(channel: nat, start: nat, count: nat)

  datatype Mask = Mask(channels: nat, frames: nat, runs: seq<Run>)

  /** The order on positions: by channel, then by start. */
  predicate Before(a: Run, b: Run) {
    a.channel < b.channel || (a.channel == b.channel && a.start < b.start)
  }

  predicate Covers(r: Run, c: nat, f: nat) {
    r.channel == c && r.start <= f < r.start + r.count
  }

  /** The frames that the first `n` runs add to channel `c`. */
  function Cursor(runs: seq<Run>, n: nat, c: nat): nat
    requires n <= |runs|
  {
    if n == 0 then 0 else Cursor(runs, n - 1, c) + if runs[n - 1].channel == c then runs[n - 1].count else 0
  }

  /** Run `i` continues its channel and comes after the run before it. */
  predicate Continues(m: Mask, i: nat)
    requires i < |m.runs|
  {
    && m.runs[i].channel < m.channels && m.runs[i].start == Cursor(m.runs, i, m.runs[i].channel)
    && (i > 0 ==> Before(m.runs[i - 1], m.runs[i]))
  }

  predicate Full(m: Mask, c: nat) {
    Cursor(m.runs, |m.runs|, c) == m.frames
  }

  predicate Accepts(m: Mask) {
    (forall i :: 0 <= i < |m.runs| ==> Continues(m, i)) && forall c :: 0 <= c < m.channels ==> Full(m, c)
  }

  /** The check, with the cursors in an array. */
  method ExactCoverage(m: Mask) returns (ok: bool)
    ensures ok <==> Accepts(m)
  {
    var cursors := new nat[m.channels](_ => 0);
    for i := 0 to |m.runs|
      invariant forall c :: 0 <= c < m.channels ==> cursors[c] == Cursor(m.runs, i, c)
      invariant forall k :: 0 <= k < i ==> Continues(m, k)
    {
      var run := m.runs[i];
      if run.channel >= m.channels || run.start != cursors[run.channel] || (i > 0 && !Before(m.runs[i - 1], run)) {
        assert !Continues(m, i);
        return false;
      }
      cursors[run.channel] := cursors[run.channel] + run.count;
    }
    for c := 0 to m.channels
      invariant forall k :: 0 <= k < c ==> Full(m, k)
    {
      if cursors[c] != m.frames {
        assert !Full(m, c);
        return false;
      }
    }
    ok := true;
  }

  // ------------------------------------------------------------ what a mask should be

  predicate Ordered(m: Mask) {
    forall i, j :: 0 <= i < j < |m.runs| ==> Before(m.runs[i], m.runs[j])
  }

  predicate InBounds(m: Mask) {
    forall i :: 0 <= i < |m.runs| ==> m.runs[i].channel < m.channels && m.runs[i].start + m.runs[i].count <= m.frames
  }

  predicate CoveredBy(m: Mask, n: nat, c: nat, f: nat)
    requires n <= |m.runs|
  {
    exists i :: 0 <= i < n && Covers(m.runs[i], c, f)
  }

  predicate CoveredOnce(m: Mask, c: nat, f: nat) {
    && CoveredBy(m, |m.runs|, c, f)
    && forall i, j :: 0 <= i < j < |m.runs| ==> !(Covers(m.runs[i], c, f) && Covers(m.runs[j], c, f))
  }

  /** The runs are in order and in bounds, and place every frame of every channel in exactly one run. */
  ghost predicate Tiles(m: Mask) {
    Ordered(m) && InBounds(m) && forall c: nat, f: nat :: c < m.channels && f < m.frames ==> CoveredOnce(m, c, f)
  }

  predicate Positive(m: Mask) {
    forall i :: 0 <= i < |m.runs| ==> m.runs[i].count > 0
  }

  /** An empty run stands behind the last frame, where it cannot be in the way of another run. */
  predicate EmptyAtEnd(m: Mask) {
    forall i :: 0 <= i < |m.runs| && m.runs[i].count == 0 ==> m.runs[i].start == m.frames
  }

  // ------------------------------------------------------------ accepted masks are tilings

  lemma {:induction false} CursorGrows(runs: seq<Run>, m: nat, n: nat, c: nat)
    requires m <= n <= |runs|
    ensures Cursor(runs, m, c) <= Cursor(runs, n, c)
    decreases n
  {
    if m < n {
      CursorGrows(runs, m, n - 1, c);
    }
  }

  /** While the runs continue their channels, the first `n` cover exactly what lies below the cursor. */
  lemma {:induction false} CoveredBelow(m: Mask, n: nat, c: nat, f: nat)
    requires n <= |m.runs| && forall i :: 0 <= i < n ==> Continues(m, i)
    ensures CoveredBy(m, n, c, f) <==> f < Cursor(m.runs, n, c)
  {
    if n > 0 {
      CoveredBelow(m, n - 1, c, f);
      assert Continues(m, n - 1);
      if Covers(m.runs[n - 1], c, f) {
        assert CoveredBy(m, n, c, f);
      } else if CoveredBy(m, n - 1, c, f) {
        var i :| 0 <= i < n - 1 && Covers(m.runs[i], c, f);
        assert Covers(m.runs[i], c, f);
      }
    }
  }

  lemma {:induction false} NoOverlap(m: Mask, i: nat, j: nat, c: nat, f: nat)
    requires i < j < |m.runs| && Continues(m, i) && Continues(m, j)
    ensures !(Covers(m.runs[i], c, f) && Covers(m.runs[j], c, f))
  {
    CursorGrows(m.runs, i + 1, j, c);
  }

  lemma {:induction false} StepsOrder(m: Mask, i: nat, j: nat)
    requires i < j < |m.runs| && forall k :: 0 <= k < |m.runs| ==> Continues(m, k)
    ensures Before(m.runs[i], m.runs[j])
    decreases j
  {
    assert Continues(m, j);
    if i < j - 1 {
      StepsOrder(m, i, j - 1);
    }
  }

  lemma {:induction false} AcceptedTiles(m: Mask)
    requires Accepts(m)
    ensures Tiles(m)
  {
    forall i, j | 0 <= i < j < |m.runs| ensures Before(m.runs[i], m.runs[j]) {
      StepsOrder(m, i, j);
    }
    forall i | 0 <= i < |m.runs|
      ensures m.runs[i].channel < m.channels && m.runs[i].start + m.runs[i].count <= m.frames
    {
      assert Continues(m, i);
      CursorGrows(m.runs, i + 1, |m.runs|, m.runs[i].channel);
      assert Full(m, m.runs[i].channel);
    }
    forall c: nat, f: nat | c < m.channels && f < m.frames ensures CoveredOnce(m, c, f) {
      CoveredBelow(m, |m.runs|, c, f);
      assert Full(m, c);
      forall i, j | 0 <= i < j < |m.runs| ensures !(Covers(m.runs[i], c, f) && Covers(m.runs[j], c, f)) {
        NoOverlap(m, i, j, c, f);
      }
    }
  }

  /** An empty run at the cursor leaves the frame it starts at to no run: later ones start behind it. */
  lemma {:induction false} EmptyCoversNothing(m: Mask, i: nat)
    requires Ordered(m) && i < |m.runs| && m.runs[i].count == 0 && forall k :: 0 <= k <= i ==> Continues(m, k)
    ensures !CoveredBy(m, |m.runs|, m.runs[i].channel, m.runs[i].start)
  {
    var c, f := m.runs[i].channel, m.runs[i].start;
    assert Continues(m, i);
    CoveredBelow(m, i, c, f);
    assert forall j :: 0 <= j < i ==> !Covers(m.runs[j], c, f);
    forall j | 0 <= j < |m.runs| ensures !Covers(m.runs[j], c, f) {
      if j > i {
        assert Before(m.runs[i], m.runs[j]);
      }
    }
  }

  lemma {:induction false} AcceptedEmptyAtEnd(m: Mask, i: nat)
    requires Accepts(m) && i < |m.runs| && m.runs[i].count == 0
    ensures m.runs[i].start == m.frames
  {
    AcceptedTiles(m);
    EmptyCoversNothing(m, i);
    if m.runs[i].start < m.frames {
      TiledCovers(m, m.runs[i].channel, m.runs[i].start);
    }
  }

  // ------------------------------------------------------------ tilings are accepted

  /** In a tiling no earlier run covers the frame that a run starts at. */
  lemma {:induction false} StartIsNew(m: Mask, i: nat)
    requires Tiles(m) && i < |m.runs| && m.runs[i].count > 0
    ensures !CoveredBy(m, i, m.runs[i].channel, m.runs[i].start)
  {
    var c, f := m.runs[i].channel, m.runs[i].start;
    assert CoveredOnce(m, c, f) && Covers(m.runs[i], c, f);
    forall k | 0 <= k < i ensures !Covers(m.runs[k], c, f) {
    }
  }

  /** In a tiling every run starts at the cursor: lower would cover a frame twice, higher would leave one out. */
  lemma {:induction false} TiledContinues(m: Mask, i: nat)
    requires Tiles(m) && EmptyAtEnd(m) && i < |m.runs|
    ensures forall k :: 0 <= k <= i ==> Continues(m, k)
  {
    if i > 0 {
      TiledContinues(m, i - 1);
    }
    var run := m.runs[i];
    var cursor := Cursor(m.runs, i, run.channel);
    CursorInBounds(m, i, run.channel);
    if run.count > 0 {
      StartIsNew(m, i);
      CoveredBelow(m, i, run.channel, run.start);
    }
    if run.start > cursor {
      TiledCovers(m, run.channel, cursor);
      NotCovered(m, i, cursor);
    }
  }

  lemma {:induction false} NotCovered(m: Mask, i: nat, cursor: nat)
    requires Ordered(m) && i < |m.runs| && forall k :: 0 <= k < i ==> Continues(m, k)
    requires cursor == Cursor(m.runs, i, m.runs[i].channel) < m.runs[i].start
    ensures !CoveredBy(m, |m.runs|, m.runs[i].channel, cursor)
  {
    var c := m.runs[i].channel;
    CoveredBelow(m, i, c, cursor);
    assert forall j :: 0 <= j < i ==> !Covers(m.runs[j], c, cursor);
    forall j | 0 <= j < |m.runs| ensures !Covers(m.runs[j], c, cursor) {
      if j > i {
        assert Before(m.runs[i], m.runs[j]);
      }
    }
  }

  lemma {:induction false} CursorInBounds(m: Mask, n: nat, c: nat)
    requires n <= |m.runs| && InBounds(m) && forall i :: 0 <= i < n ==> Continues(m, i)
    ensures Cursor(m.runs, n, c) <= m.frames
  {
    if n > 0 {
      CursorInBounds(m, n - 1, c);
      assert Continues(m, n - 1);
    }
  }

  lemma {:induction false} TiledCovers(m: Mask, c: nat, f: nat)
    requires Tiles(m) && c < m.channels && f < m.frames
    ensures CoveredBy(m, |m.runs|, c, f)
  {
    assert CoveredOnce(m, c, f);
  }

  lemma {:induction false} TilingIsAccepted(m: Mask)
    requires Tiles(m) && EmptyAtEnd(m)
    ensures Accepts(m)
  {
    if |m.runs| > 0 {
      TiledContinues(m, |m.runs| - 1);
    }
    forall c | 0 <= c < m.channels ensures Full(m, c) {
      CursorInBounds(m, |m.runs|, c);
      var cursor := Cursor(m.runs, |m.runs|, c);
      CoveredBelow(m, |m.runs|, c, cursor);
      if cursor < m.frames {
        TiledCovers(m, c, cursor);
      }
    }
  }

  /** The check accepts exactly the tilings whose empty runs, if any, stand behind the last frame; with runs of
      positive length, the only ones a valid mask has, these are all tilings. */
  lemma {:induction false} CoverageIsTiling(m: Mask)
    ensures Accepts(m) <==> Tiles(m) && EmptyAtEnd(m)
    ensures Positive(m) ==> (Accepts(m) <==> Tiles(m))
  {
    if Accepts(m) {
      AcceptedTiles(m);
      forall i: nat | i < |m.runs| && m.runs[i].count == 0 ensures m.runs[i].start == m.frames {
        AcceptedEmptyAtEnd(m, i);
      }
    }
    if Tiles(m) && EmptyAtEnd(m) {
      TilingIsAccepted(m);
    }
  }

  /** An empty run before the last frame makes the check refuse a mask, even a tiling such as this one. */
  lemma {:induction false} EmptyRunIsRefused(m: Mask, i: nat)
    requires i < |m.runs| && m.runs[i].count == 0 && m.runs[i].start < m.frames
    ensures !Accepts(m)
    ensures Tiles(Mask(1, 2, [Run(0, 0, 2), Run(0, 1, 0)])) && !Accepts(Mask(1, 2, [Run(0, 0, 2), Run(0, 1, 0)]))
  {
    CoverageIsTiling(m);
    var t := Mask(1, 2, [Run(0, 0, 2), Run(0, 1, 0)]);
    forall c: nat, f: nat | c < 1 && f < 2 ensures CoveredOnce(t, c, f) {
      assert Covers(t.runs[0], c, f);
    }
    CoverageIsTiling(t);
    assert t.runs[1].count == 0;
  }

  // ------------------------------------------------------------ lengths

  function Lengths(runs: seq<Run>, n: nat): nat
    requires n <= |runs|
  {
    if n == 0 then 0 else Lengths(runs, n - 1) + runs[n - 1].count
  }

  /** The cursors of the channels below `c`, added up. */
  function CursorSum(runs: seq<Run>, n: nat, c: nat): nat
    requires n <= |runs|
  {
    if c == 0 then 0 else CursorSum(runs, n, c - 1) + Cursor(runs, n, c - 1)
  }

  lemma {:induction false} SumStep(runs: seq<Run>, n: nat, c: nat)
    requires 0 < n <= |runs|
    ensures CursorSum(runs, n, c) == CursorSum(runs, n - 1, c) + if runs[n - 1].channel < c then runs[n - 1].count
        else 0
    decreases c
  {
    if c > 0 {
      SumStep(runs, n, c - 1);
    }
  }

  lemma {:induction false} NoCursors(runs: seq<Run>, c: nat)
    ensures CursorSum(runs, 0, c) == 0
  {
    if c > 0 {
      NoCursors(runs, c - 1);
    }
  }

  lemma {:induction false} LengthsAreCursors(runs: seq<Run>, n: nat, channels: nat)
    requires n <= |runs| && forall i :: 0 <= i < n ==> runs[i].channel < channels
    ensures Lengths(runs, n) == CursorSum(runs, n, channels)
  {
    if n > 0 {
      LengthsAreCursors(runs, n - 1, channels);
      SumStep(runs, n, channels);
    } else {
      NoCursors(runs, channels);
    }
  }

  lemma {:induction false} FullCursors(m: Mask, c: nat)
    requires c <= m.channels && forall k :: 0 <= k < c ==> Full(m, k)
    ensures CursorSum(m.runs, |m.runs|, c) == c * m.frames
  {
    if c > 0 {
      FullCursors(m, c - 1);
      assert Full(m, c - 1);
    }
  }

  /** The runs of an accepted mask have as many frames as the channels together. */
  lemma {:induction false} LengthsAddUp(m: Mask)
    requires Accepts(m)
    ensures Lengths(m.runs, |m.runs|) == m.channels * m.frames
  {
    forall i | 0 <= i < |m.runs| ensures m.runs[i].channel < m.channels {
      assert Continues(m, i);
    }
    LengthsAreCursors(m.runs, |m.runs|, m.channels);
    FullCursors(m, m.channels);
  }
}
