/** The frames of the artifact analysis: their size and where they start. */
module Frames {
  predicate PowerOfTwo(n: nat) {
    n == 1 || (n > 1 && n % 2 == 0 && PowerOfTwo(n / 2))
  }

  /** The smallest power of two that is at least `n`, searched upward from the power `p`. */
  function NextPowerFrom(n: nat, p: nat): (r: nat)
    requires PowerOfTwo(p)
    ensures PowerOfTwo(r) && r >= n && r >= p
    decreases n - p
  {
    if p >= n then p
    else
      assert 2 * p / 2 == p;
      NextPowerFrom(n, 2 * p)
  }

  function NextPowerOfTwo(n: nat): nat {
    NextPowerFrom(n, 1)
  }

  /** No power of two lies strictly between a power and its double. */
  lemma {:induction false} PowersApart(p: nat, q: nat)
    requires PowerOfTwo(p) && PowerOfTwo(q) && p < q
    ensures 2 * p <= q
  {
    if p > 1 {
      PowersApart(p / 2, q / 2);
    }
  }

  lemma {:induction false} NextIsSmallest(n: nat, p: nat, q: nat)
    requires PowerOfTwo(p) && PowerOfTwo(q) && q >= n && q >= p
    ensures NextPowerFrom(n, p) <= q
    decreases n - p
  {
    if p < n {
      PowersApart(p, q);
      assert 2 * p / 2 == p;
      NextIsSmallest(n, 2 * p, q);
    }
  }

  function Min(a: nat, b: nat): nat {
    if a <= b then a else b
  }

  function Max(a: nat, b: nat): nat {
    if a >= b then a else b
  }

  function ArtifactFrameSize(frames: nat): nat {
    Min(NextPowerOfTwo(Max(Min(frames, 1024), 64)), 1024)
  }

  lemma {:induction false} Double(p: nat)
    requires PowerOfTwo(p)
    ensures PowerOfTwo(2 * p)
  {
    assert 2 * p / 2 == p;
  }

  lemma {:induction false} LargestSize()
    ensures PowerOfTwo(1024)
  {
    Double(1); Double(2); Double(4); Double(8); Double(16);
    Double(32); Double(64); Double(128); Double(256); Double(512);
  }

  /** The frame size is a power of two in [64, 1024], and the smallest one that holds all frames if any does. */
  lemma {:induction false} FrameSizeIsPower(frames: nat)
    ensures var size := ArtifactFrameSize(frames);
            && PowerOfTwo(size) && 64 <= size <= 1024
            && (frames <= 1024 ==> frames <= size)
            && (forall q :: PowerOfTwo(q) && 64 <= q && frames <= q ==> size <= q)
  {
    LargestSize();
    var wanted := Max(Min(frames, 1024), 64);
    NextIsSmallest(wanted, 1, 1024);
    forall q | PowerOfTwo(q) && 64 <= q && frames <= q ensures ArtifactFrameSize(frames) <= q {
      NextIsSmallest(wanted, 1, q);
    }
  }

  /** How many frames there are. */
  function FrameCount(frames: nat, size: nat, hop: nat): nat
    requires hop > 0
  {
    if frames == 0 then 0
    else if frames <= size then 1
    else (frames - size + hop - 1) / hop + 1
  }

  ghost predicate Starts(starts: seq<nat>, hop: nat) {
    forall n :: 0 <= n < |starts| ==> starts[n] == n * hop
  }

  /** The starts of the frames. The loop leaves by its break as soon as there is a sample, so the last frame
      reaches the end. */
  method FrameStarts(frames: nat, size: nat, hop: nat) returns (starts: seq<nat>)
    requires 0 < hop <= size
    ensures Starts(starts, hop) && |starts| == FrameCount(frames, size, hop)
    ensures frames > 0 ==> starts != [] && starts[|starts| - 1] < frames <= starts[|starts| - 1] + size
  {
    starts := [];
    var start := 0;
    ghost var broke := false;
    while start < frames
      invariant start == |starts| * hop && Starts(starts, hop)
      invariant |starts| > 0 ==> starts[|starts| - 1] + size < frames && start < frames
      decreases frames - start
    {
      starts := starts + [start];
      if start >= (if frames >= size then frames - size else 0) {
        broke := true;
        break;
      }
      Next(|starts| - 1, hop);
      start := start + hop;
    }
    assert broke || frames == 0;
    if frames > 0 {
      CountIs(frames, size, hop, |starts| - 1);
    }
  }

  lemma {:induction false} Next(n: nat, hop: nat)
    ensures n * hop + hop == (n + 1) * hop
  {
  }

  /** The last start determines the count. */
  lemma {:induction false} CountIs(frames: nat, size: nat, hop: nat, last: nat)
    requires 0 < hop <= size && frames > 0 && last * hop < frames <= last * hop + size
    requires last > 0 ==> (last - 1) * hop + size < frames
    ensures FrameCount(frames, size, hop) == last + 1
  {
    if frames <= size {
      if last > 0 {
        Below(0, last - 1, hop);
      }
    } else {
      Ceiling(frames - size, hop, last);
    }
  }

  lemma {:induction false} Ceiling(x: nat, hop: nat, last: nat)
    requires hop > 0 && last > 0 && (last - 1) * hop < x <= last * hop
    ensures (x + hop - 1) / hop == last
  {
    var q := (x + hop - 1) / hop;
    assert q * hop <= x + hop - 1 < (q + 1) * hop;
    assert (last - 1) * hop == last * hop - hop;
    if q < last {
      Below(q + 1, last, hop);
    }
    if q > last {
      Below(last + 1, q, hop);
    }
  }

  ghost predicate InFrame(starts: seq<nat>, size: nat, sample: nat) {
    exists n :: 0 <= n < |starts| && starts[n] <= sample < starts[n] + size
  }

  /** Every sample lies in a frame. */
  lemma {:induction false} FramesCover(frames: nat, size: nat, hop: nat, starts: seq<nat>, sample: nat)
    requires 0 < hop <= size && Starts(starts, hop) && sample < frames
    requires starts != [] && starts[|starts| - 1] < frames <= starts[|starts| - 1] + size
    ensures InFrame(starts, size, sample)
  {
    var last, n := |starts| - 1, sample / hop;
    Quotient(sample, hop);
    if n <= last {
      assert starts[n] == n * hop;
      assert starts[n] <= sample < starts[n] + size;
    } else {
      Below(last, n, hop);
      assert starts[last] <= sample < starts[last] + size;
    }
  }

  /** The count never exceeds the reserved capacity. */
  lemma {:induction false} CapacityHolds(frames: nat, hop: nat, starts: seq<nat>)
    requires 0 < hop && Starts(starts, hop) && starts != [] && starts[|starts| - 1] < frames
    ensures |starts| <= frames / hop + 1
  {
    var last := |starts| - 1;
    Quotient(frames, hop);
    assert starts[last] == last * hop;
    if last > frames / hop {
      Below(frames / hop + 1, last, hop);
    }
  }

  lemma {:induction false} Quotient(x: nat, hop: nat)
    requires hop > 0
    ensures x / hop * hop <= x < (x / hop + 1) * hop == x / hop * hop + hop
  {
  }

  lemma {:induction false} Below(m: nat, n: nat, hop: nat)
    requires m <= n
    ensures m * hop <= n * hop
  {
  }
}
