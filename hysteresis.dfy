/** Per-zone hit detection with hysteresis (drum.py:86-99).
    The pixel counts of the two stick masks inside a zone are inputs here;
    the mask arithmetic that produces them is OpenCV's. */
module Hysteresis {
  import opened Sequences

  /** Stick pixels found inside one zone in one frame. */
  datatype Counts = Counts(left: nat, right: nat)

  /** A zone's state after one frame, and whether that frame emitted a hit. */
  datatype Verdict = Verdict(active: bool, hit: bool)

  /** Either stick covers strictly more than `threshold` pixels. */
  predicate Above(c: Counts, threshold: real) {
    c.left as real > threshold || c.right as real > threshold
  }

  /** Both sticks cover strictly fewer than `threshold / 2` pixels. */
  predicate BelowRelease(c: Counts, threshold: real) {
    c.left as real < threshold / 2.0 && c.right as real < threshold / 2.0
  }

  /** One frame for one zone (drum.py:95-99), `active` being `prev_hits[drum]`. */
  function Next(active: bool, c: Counts, threshold: real): (v: Verdict)
    // rising edge: a hit is emitted exactly when the zone was idle and a stick is above threshold
    ensures v.hit <==> !active && Above(c, threshold)
    ensures v.hit ==> v.active
    // release and hold: without a hit, the zone is active afterwards exactly when it was
    // active and not both sticks are below half the threshold; an idle zone stays idle
    ensures !v.hit ==> v.active == (active && !BelowRelease(c, threshold))
  {
    if Above(c, threshold) && !active then Verdict(true, true)
    else if BelowRelease(c, threshold) then Verdict(false, false)
    else Verdict(active, false)
  }

  // ---------------------------------------------------------------------
  // One zone over a trace of frames

  /** The verdicts of successive frames for one zone, starting from `active`. */
  function Replay(trace: seq<Counts>, threshold: real, active: bool): (vs: seq<Verdict>)
    ensures |vs| == |trace|
  {
    if trace == [] then []
    else
      var v := Next(active, trace[0], threshold);
      [v] + Replay(trace[1..], threshold, v.active)
  }

  /** The zone's state before frame `k` of a replay that started from `active`. */
  function StateBefore(vs: seq<Verdict>, active: bool, k: nat): bool
    requires k <= |vs|
  {
    if k == 0 then active else vs[k - 1].active
  }

  /** Frame `k` took the zone from active to idle. */
  predicate ReleasedAt(vs: seq<Verdict>, active: bool, k: nat)
    requires k < |vs|
  {
    StateBefore(vs, active, k) && !vs[k].active
  }

  function CountHits(vs: seq<Verdict>): nat {
    if vs == [] then 0 else (if vs[0].hit then 1 else 0) + CountHits(vs[1..])
  }

  /** Every frame of a replay is one application of `Next` to the state the previous frame left. */
  lemma {:induction false} ReplayStep(trace: seq<Counts>, threshold: real, active: bool, k: nat)
    requires k < |trace|
    ensures Replay(trace, threshold, active)[k]
         == Next(StateBefore(Replay(trace, threshold, active), active, k), trace[k], threshold)
  {
    if k > 0 {
      var v := Next(active, trace[0], threshold);
      ReplayStep(trace[1..], threshold, v.active, k - 1);
    }
  }

  /** Replaying two traces one after the other is replaying their concatenation. */
  lemma {:induction false} ReplayAppend(x: seq<Counts>, y: seq<Counts>, threshold: real, active: bool)
    ensures Replay(x + y, threshold, active)
         == Replay(x, threshold, active)
          + Replay(y, threshold, StateBefore(Replay(x, threshold, active), active, |x|))
  {
    if x == [] {
      assert x + y == y;
    } else {
      var v := Next(active, x[0], threshold);
      assert (x + y)[1..] == x[1..] + y;
      ReplayAppend(x[1..], y, threshold, v.active);
    }
  }

  lemma {:induction false} CountHitsAppend(u: seq<Verdict>, w: seq<Verdict>)
    ensures CountHits(u + w) == CountHits(u) + CountHits(w)
  {
    if u == [] {
      assert u + w == w;
    } else {
      assert (u + w)[1..] == u[1..] + w;
      CountHitsAppend(u[1..], w);
    }
  }

  /** With no release after frame `i`, the zone is still active at frame `j`. */
  lemma {:induction false} StaysActive(vs: seq<Verdict>, active: bool, i: nat, j: nat)
    requires i <= j < |vs| && vs[i].active
    requires forall k :: i < k <= j ==> !ReleasedAt(vs, active, k)
    ensures vs[j].active
  {
    if j > i {
      StaysActive(vs, active, i, j - 1);
      assert !ReleasedAt(vs, active, j);
    }
  }

  /** One hit per entry: between any two hits of a zone there is a release. */
  lemma OneHitPerEntry(trace: seq<Counts>, threshold: real, active: bool, i: nat, j: nat)
    requires i < j < |trace|
    requires Replay(trace, threshold, active)[i].hit && Replay(trace, threshold, active)[j].hit
    ensures exists k :: i < k < j && ReleasedAt(Replay(trace, threshold, active), active, k)
  {
    var vs := Replay(trace, threshold, active);
    ReplayStep(trace, threshold, active, i);
    ReplayStep(trace, threshold, active, j);
    if forall k :: i < k < j ==> !ReleasedAt(vs, active, k) {
      StaysActive(vs, active, i, j - 1);
      assert false;
    }
  }

  /** A zone that is active stays active, silently, while no frame falls below the release level. */
  lemma {:induction false} Linger(trace: seq<Counts>, threshold: real)
    requires forall k :: 0 <= k < |trace| ==> !BelowRelease(trace[k], threshold)
    ensures CountHits(Replay(trace, threshold, true)) == 0
    ensures StateBefore(Replay(trace, threshold, true), true, |trace|)
  {
    if trace != [] {
      assert !BelowRelease(trace[0], threshold);
      Linger(trace[1..], threshold);
    }
  }

  /** A stick that enters, lingers any number of frames above the release
      level and leaves produces exactly one hit, on entry, and a release on exit. */
  lemma OneShotPerEntry(enter: Counts, linger: seq<Counts>, exit: Counts, threshold: real)
    requires Above(enter, threshold) && BelowRelease(exit, threshold)
    requires forall k :: 0 <= k < |linger| ==> !BelowRelease(linger[k], threshold)
    ensures var vs := Replay([enter] + linger + [exit], threshold, false);
            && vs[0].hit && CountHits(vs) == 1
            && ReleasedAt(vs, false, |vs| - 1)
  {
    var head := Replay([enter], threshold, false);
    assert head == [Verdict(true, true)];
    Linger(linger, threshold);
    var mid := Replay(linger, threshold, true);
    var tail := Replay([exit], threshold, StateBefore(mid, true, |linger|));
    assert tail == [Verdict(false, false)];
    ReplayAppend([enter], linger, threshold, false);
    ReplayAppend([enter] + linger, [exit], threshold, false);
    var all := head + mid + tail;
    assert StateBefore(head + mid, false, |linger| + 1) == StateBefore(mid, true, |linger|);
    assert Replay([enter] + linger + [exit], threshold, false) == all;
    CountHitsAppend(head, mid);
    CountHitsAppend(head + mid, tail);
  }

  /** Re-trigger: an entry, a release and a second entry give two hits. */
  lemma TwoEntriesTwoHits(first: seq<Counts>, second: seq<Counts>, threshold: real,
                          enter1: Counts, linger1: seq<Counts>, exit1: Counts,
                          enter2: Counts, linger2: seq<Counts>, exit2: Counts)
    requires first == [enter1] + linger1 + [exit1] && second == [enter2] + linger2 + [exit2]
    requires Above(enter1, threshold) && BelowRelease(exit1, threshold)
    requires Above(enter2, threshold) && BelowRelease(exit2, threshold)
    requires forall k :: 0 <= k < |linger1| ==> !BelowRelease(linger1[k], threshold)
    requires forall k :: 0 <= k < |linger2| ==> !BelowRelease(linger2[k], threshold)
    ensures CountHits(Replay(first + second, threshold, false)) == 2
  {
    OneShotPerEntry(enter1, linger1, exit1, threshold);
    OneShotPerEntry(enter2, linger2, exit2, threshold);
    ReplayAppend(first, second, threshold, false);
    var r1 := Replay(first, threshold, false);
    assert !StateBefore(r1, false, |first|);
    CountHitsAppend(r1, Replay(second, threshold, false));
  }

  /** The trace `[0, 120, 140, 90, 90, 40]` against threshold 100: one hit on the
      second frame, a release on the last. */
  lemma ExampleTrace()
    ensures var vs := Replay([Counts(0, 0), Counts(120, 0), Counts(140, 0), Counts(90, 0),
                              Counts(90, 0), Counts(40, 0)], 100.0, false);
            && CountHits(vs) == 1 && vs[1].hit && ReleasedAt(vs, false, 5)
  {
    var linger := [Counts(140, 0), Counts(90, 0), Counts(90, 0)];
    OneShotPerEntry(Counts(120, 0), linger, Counts(40, 0), 100.0);
    var entry := [Counts(120, 0)] + linger + [Counts(40, 0)];
    ReplayAppend([Counts(0, 0)], entry, 100.0, false);
    assert [Counts(0, 0)] + entry == [Counts(0, 0), Counts(120, 0), Counts(140, 0), Counts(90, 0),
                                      Counts(90, 0), Counts(40, 0)];
    CountHitsAppend(Replay([Counts(0, 0)], 100.0, false), Replay(entry, 100.0, false));
  }

  /** A zero-area zone (threshold 0) never releases: no count is below 0. */
  lemma {:induction false} ZeroThresholdNeverReleases(trace: seq<Counts>)
    ensures forall k :: 0 <= k < |trace| ==> Replay(trace, 0.0, true)[k] == Verdict(true, false)
  {
    if trace != [] {
      ZeroThresholdNeverReleases(trace[1..]);
    }
  }

  /** ... so over any trace it fires at most once. */
  lemma ZeroThresholdFiresAtMostOnce(trace: seq<Counts>, active: bool)
    ensures CountHits(Replay(trace, 0.0, active)) <= 1
  {
    if trace != [] {
      var v := Next(active, trace[0], 0.0);
      ZeroThresholdNeverReleases(trace[1..]);
      if v.active {
        NoHitsWhenAllQuiet(Replay(trace[1..], 0.0, true));
      } else {
        ZeroThresholdFiresAtMostOnce(trace[1..], false);
      }
    }
  }

  lemma {:induction false} NoHitsWhenAllQuiet(vs: seq<Verdict>)
    requires forall k :: 0 <= k < |vs| ==> !vs[k].hit
    ensures CountHits(vs) == 0
  {
    if vs != [] {
      NoHitsWhenAllQuiet(vs[1..]);
    }
  }

  // ---------------------------------------------------------------------
  // All zones in one frame

  /** Every zone named in `names` has an entry in `m`. */
  predicate Covers<K, V>(names: seq<K>, m: map<K, V>) {
    forall d :: d in names ==> d in m
  }

  /** `hits_to_play` after the zone loop of drum.py:86-99 has visited `names`. */
  function HitsOf<K>(names: seq<K>, prev: map<K, bool>,
                     counts: map<K, Counts>, thresholds: map<K, real>): seq<K>
    requires Covers(names, prev) && Covers(names, counts) && Covers(names, thresholds)
  {
    if names == [] then []
    else
      var d := names[|names| - 1];
      HitsOf(names[..|names| - 1], prev, counts, thresholds)
        + (if Next(prev[d], counts[d], thresholds[d]).hit then [d] else [])
  }

  /** `prev_hits` after the zone loop of drum.py:86-99 has visited `names`,
      each zone updated once from its flag before the loop. */
  function FlagsAfter<K>(names: seq<K>, prev: map<K, bool>,
                         counts: map<K, Counts>, thresholds: map<K, real>): map<K, bool>
    requires Covers(names, prev) && Covers(names, counts) && Covers(names, thresholds)
  {
    if names == [] then prev
    else
      var d := names[|names| - 1];
      FlagsAfter(names[..|names| - 1], prev, counts, thresholds)[d := Next(prev[d], counts[d], thresholds[d]).active]
  }

  /** The loop keeps the zone set, moves each visited zone one `Next` step
      and leaves the others alone. */
  lemma {:induction false} FlagsAfterSpec<K>(names: seq<K>, prev: map<K, bool>,
                                          counts: map<K, Counts>, thresholds: map<K, real>)
    requires Covers(names, prev) && Covers(names, counts) && Covers(names, thresholds)
    ensures FlagsAfter(names, prev, counts, thresholds).Keys == prev.Keys
    ensures forall d :: d in prev ==>
              FlagsAfter(names, prev, counts, thresholds)[d]
                == if d in names then Next(prev[d], counts[d], thresholds[d]).active else prev[d]
  {
    if names != [] {
      var init, last := names[..|names| - 1], names[|names| - 1];
      FlagsAfterSpec(init, prev, counts, thresholds);
      assert names == init + [last];
      var before := FlagsAfter(init, prev, counts, thresholds);
      var after := FlagsAfter(names, prev, counts, thresholds);
      assert after == before[last := Next(prev[last], counts[last], thresholds[last]).active];
      forall d | d in prev
        ensures after[d] == if d in names then Next(prev[d], counts[d], thresholds[d]).active else prev[d]
      {
        if d != last {
          assert d in names <==> d in init;
        }
      }
    }
  }

  /** Visiting one more zone updates that zone's flag. */
  lemma FlagsAfterStep<K>(names: seq<K>, i: nat, prev: map<K, bool>,
                          counts: map<K, Counts>, thresholds: map<K, real>)
    requires i < |names|
    requires Covers(names, prev) && Covers(names, counts) && Covers(names, thresholds)
    ensures var d := names[i];
            FlagsAfter(names[..i + 1], prev, counts, thresholds)
              == FlagsAfter(names[..i], prev, counts, thresholds)[d := Next(prev[d], counts[d], thresholds[d]).active]
  {
    assert names[..i + 1][..i] == names[..i];
  }

  /** Visiting one more zone appends at most that zone to the hit list. */
  lemma HitsOfStep<K>(names: seq<K>, i: nat, prev: map<K, bool>,
                      counts: map<K, Counts>, thresholds: map<K, real>)
    requires i < |names|
    requires Covers(names, prev) && Covers(names, counts) && Covers(names, thresholds)
    ensures var d := names[i];
            HitsOf(names[..i + 1], prev, counts, thresholds)
              == HitsOf(names[..i], prev, counts, thresholds)
                 + (if Next(prev[d], counts[d], thresholds[d]).hit then [d] else [])
  {
    assert names[..i + 1][..i] == names[..i];
  }

  /** A zone is in the hit list exactly when its own `Next` emits a hit. */
  lemma {:induction false} HitsOfMembership<K>(names: seq<K>, prev: map<K, bool>,
                                            counts: map<K, Counts>, thresholds: map<K, real>)
    requires Covers(names, prev) && Covers(names, counts) && Covers(names, thresholds)
    ensures forall d :: d in HitsOf(names, prev, counts, thresholds)
                    <==> d in names && Next(prev[d], counts[d], thresholds[d]).hit
  {
    if names != [] {
      var init := names[..|names| - 1];
      HitsOfMembership(init, prev, counts, thresholds);
      assert names == init + [names[|names| - 1]];
    }
  }

  /** Every element of `hits` is in `names`, and they come in the order of their first
      positions in `names`. */
  predicate InOrderOf<K(==)>(hits: seq<K>, names: seq<K>) {
    && (forall d :: d in hits ==> d in names)
    && forall i, j :: 0 <= i < j < |hits| ==> FirstIndex(names, hits[i]) < FirstIndex(names, hits[j])
  }

  /** The hit list follows zone order and, as zone names are distinct, names no zone twice. */
  lemma {:induction false} HitsOfOrdered<K>(names: seq<K>, prev: map<K, bool>,
                                         counts: map<K, Counts>, thresholds: map<K, real>)
    requires Distinct(names)
    requires Covers(names, prev) && Covers(names, counts) && Covers(names, thresholds)
    ensures InOrderOf(HitsOf(names, prev, counts, thresholds), names)
    ensures Distinct(HitsOf(names, prev, counts, thresholds))
  {
    if names != [] {
      var n := |names| - 1;
      var init := names[..n];
      var hs := HitsOf(init, prev, counts, thresholds);
      var all := HitsOf(names, prev, counts, thresholds);
      HitsOfOrdered(init, prev, counts, thresholds);
      FirstIndexOfDistinct(names, n);
      assert names[n] !in init;
      forall d | d in hs
        ensures d in names && FirstIndex(names, d) == FirstIndex(init, d) < n
      {
        FirstIndexOfPrefix(names, n, d);
      }
      assert all == hs || all == hs + [names[n]];
      forall i, j | 0 <= i < j < |all|
        ensures FirstIndex(names, all[i]) < FirstIndex(names, all[j])
      {
        assert all[i] == hs[i] && all[i] in hs;
        if j < |hs| {
          assert all[j] == hs[j] && all[j] in hs;
        }
      }
      forall i, j | 0 <= i < j < |all| ensures all[i] != all[j] {
        assert FirstIndex(names, all[i]) < FirstIndex(names, all[j]);
      }
    }
  }

  /** One pass of the zone loop (drum.py:88-99) for zone `d` with stick
      counts `c` and threshold `t`: the `if`/`elif` on `prev_hits[d]`. */
  method VisitZone<K>(d: K, c: Counts, t: real, prev: map<K, bool>, hits: seq<K>)
    returns (prev': map<K, bool>, hits': seq<K>)
    requires d in prev
    ensures prev' == prev[d := Next(prev[d], c, t).active]
    ensures hits' == hits + (if Next(prev[d], c, t).hit then [d] else [])
  {
    prev', hits' := prev, hits;
    if (c.left as real > t || c.right as real > t) && !prev[d] {
      hits' := hits' + [d];
      prev' := prev'[d := true];
    } else if c.left as real < t / 2.0 && c.right as real < t / 2.0 {
      prev' := prev'[d := false];
    }
  }

  /** The zone loop of drum.py:86-99: visits the zones in order, updating
      `prev_hits` in place and collecting the zones that fire. */
  method EvaluateZones<K>(names: seq<K>, prev: map<K, bool>,
                       counts: map<K, Counts>, thresholds: map<K, real>)
    returns (next: map<K, bool>, hits: seq<K>)
    requires Distinct(names)
    requires Covers(names, prev) && Covers(names, counts) && Covers(names, thresholds)
    ensures next.Keys == prev.Keys
    ensures forall d :: d in prev ==>
              next[d] == if d in names then Next(prev[d], counts[d], thresholds[d]).active else prev[d]
    ensures hits == HitsOf(names, prev, counts, thresholds)
  {
    next, hits := prev, [];
    var i := 0;
    while i < |names|
      invariant 0 <= i <= |names|
      invariant next == FlagsAfter(names[..i], prev, counts, thresholds)
      invariant hits == HitsOf(names[..i], prev, counts, thresholds)
    {
      var d := names[i];
      assert d !in names[..i];
      FlagsAfterSpec(names[..i], prev, counts, thresholds);
      next, hits := VisitZone(d, counts[d], thresholds[d], next, hits);
      FlagsAfterStep(names, i, prev, counts, thresholds);
      HitsOfStep(names, i, prev, counts, thresholds);
      i := i + 1;
    }
    assert names[..i] == names;
    FlagsAfterSpec(names, prev, counts, thresholds);
  }
}
