/**
 * Properties of the PHOS digitization specification: how the cursors of the
 * inputs delimit each channel's summable digits, what a merged digit holds,
 * which digits survive suppression, and the order and numbering of the
 * final list.
 */
module PhosProperties {
  import opened Wrappers
  import opened PhosDigits

  lemma {:induction false} MatchingAppend(a: seq<Digit>, b: seq<Digit>, c: int)
    ensures Matching(a + b, c) == Matching(a, c) + Matching(b, c)
  {
    if b == [] {
      assert a + b == a;
    } else {
      var b' := b[..|b| - 1];
      assert (a + b)[..|a + b| - 1] == a + b';
      MatchingAppend(a, b', c);
    }
  }

  lemma {:induction false} MatchingNone(s: seq<Digit>, c: int)
    requires forall k :: 0 <= k < |s| ==> s[k].id != c
    ensures Matching(s, c) == []
  {
    if s != [] {
      MatchingNone(s[..|s| - 1], c);
    }
  }

  lemma {:induction false} MatchingAll(s: seq<Digit>, c: int)
    requires forall k :: 0 <= k < |s| ==> s[k].id == c
    ensures Matching(s, c) == s
  {
    if s != [] {
      MatchingAll(s[..|s| - 1], c);
      assert s[..|s| - 1] + [s[|s| - 1]] == s;
    }
  }

  /** A channel's summable digits are exactly those with its id: none of them is skipped. */
  lemma MatchingEmptyIff(s: seq<Digit>, c: int)
    ensures Matching(s, c) == [] <==> forall k :: 0 <= k < |s| ==> s[k].id != c
  {
    if k :| 0 <= k < |s| && s[k].id == c {
      assert s == s[..k] + [s[k]] + s[k + 1..];
      MatchingAppend(s[..k] + [s[k]], s[k + 1..], c);
      MatchingAppend(s[..k], [s[k]], c);
      assert Matching([s[k]], c) == [s[k]] by {
        assert [s[k]][..0] == [];
      }
    } else {
      MatchingNone(s, c);
    }
  }

  /** The position for channel c+1 is never before the position for channel c. */
  lemma CursorOrder(s: seq<Digit>, k: int, k': int, c: int)
    requires AtChannel(s, k, c) && AtChannel(s, k', c + 1)
    ensures k <= k'
  {
    assert k' < |s| ==> c + 1 <= s[k'].id;
  }

  /**
   * The cursor of an input moves, during channel c, from its position for c
   * to its position for c+1, and what it passes over is every summable digit
   * of channel c.
   */
  lemma MatchingBlock(s: seq<Digit>, k: int, k': int, c: int)
    requires AtChannel(s, k, c) && AtChannel(s, k', c + 1)
    ensures k <= k' && Matching(s, c) == s[k..k']
  {
    CursorOrder(s, k, k', c);
    MatchingBelow(s, k, k', c);
    var after := s[k'..];
    forall j | 0 <= j < |after| ensures after[j].id != c {
      assert after[j] == s[k' + j];
    }
    MatchingNone(after, c);
    assert s[..k'] + after == s;
    MatchingAppend(s[..k'], after, c);
  }

  /** Below the position for channel c+1, the digits of channel c are those from the position for c on. */
  lemma MatchingBelow(s: seq<Digit>, k: int, k': int, c: int)
    requires AtChannel(s, k, c) && AtChannel(s, k', c + 1) && k <= k'
    ensures Matching(s[..k'], c) == s[k..k']
  {
    var before, block := s[..k], s[k..k'];
    forall j | 0 <= j < |before| ensures before[j].id != c {
      assert before[j] == s[j];
    }
    forall j | 0 <= j < |block| ensures block[j].id == c {
      assert block[j] == s[k + j];
    }
    MatchingNone(before, c);
    MatchingAll(block, c);
    assert before + block == s[..k'];
    MatchingAppend(before, block, c);
  }

  lemma {:induction false} ContributionsEmpty(inputs: seq<seq<Digit>>, masks: Option<seq<int>>, c: int, n: nat)
    requires n <= |inputs| && MasksCover(masks, n)
    ensures Contributions(inputs, masks, c, n) == [] <==> forall i :: 0 <= i < n ==> Matching(inputs[i], c) == []
  {
    if n > 0 {
      ContributionsEmpty(inputs, masks, c, n - 1);
    }
  }

  /** A channel receives no contribution exactly when no input holds a summable digit with its id. */
  lemma NoContributionIff(inputs: seq<seq<Digit>>, masks: Option<seq<int>>, c: int)
    requires MasksCover(masks, |inputs|)
    ensures Contributions(inputs, masks, c, |inputs|) == [] <==>
            forall i, k :: 0 <= i < |inputs| && 0 <= k < |inputs[i]| ==> inputs[i][k].id != c
  {
    ContributionsEmpty(inputs, masks, c, |inputs|);
    forall i | 0 <= i < |inputs| {
      MatchingEmptyIff(inputs[i], c);
    }
  }

  lemma {:induction false} SumsAppend(ss: seq<Digit>, x: Digit)
    ensures SumAmps(ss + [x]) == SumAmps(ss) + x.amp
    ensures PrimariesOf(ss + [x]) == PrimariesOf(ss) + x.primaries
  {
    if ss == [] {
      assert [x][1..] == [];
    } else {
      assert (ss + [x])[1..] == ss[1..] + [x];
      SumsAppend(ss[1..], x);
    }
  }

  /** Folding summable digits into a digit adds their amplitudes and appends their primaries, in order. */
  lemma {:induction false} AddAllSums(d: Digit, ss: seq<Digit>)
    ensures AddAll(d, ss) == d.(amp := d.amp + SumAmps(ss), primaries := d.primaries + PrimariesOf(ss))
  {
    if ss != [] {
      var ss' := ss[..|ss| - 1];
      AddAllSums(d, ss');
      SumsAppend(ss', ss[|ss| - 1]);
      assert ss' + [ss[|ss| - 1]] == ss;
    }
  }

  /**
   * A merged digit keeps its channel id, holds the noise amplitude plus the
   * amplitude of every contribution and the primaries of every contribution
   * in folding order, and has the front-edge time of its contributions when
   * it is an EMC channel that received signal, the time of noise otherwise.
   */
  lemma MergedDigitContents(c: int, noiseAmp: int, inputs: seq<seq<Digit>>, masks: Option<seq<int>>, emc: bool)
    requires MasksCover(masks, |inputs|)
    ensures var d := MergedDigit(c, noiseAmp, inputs, masks, emc);
            var cs := Contributions(inputs, masks, c, |inputs|);
            && d.id == c && d.indexInList == -1
            && d.amp == noiseAmp + SumAmps(cs)
            && d.primaries == PrimariesOf(cs)
            && d.time == (if emc && cs != [] then FrontEdge(Times(cs)) else TimeOfNoise())
  {
    AddAllSums(NoiseDigit(c, noiseAmp), Contributions(inputs, masks, c, |inputs|));
  }

  /**
   * Before suppression every channel 1..nCPV has its digit at position id-1;
   * a channel no input contributes to holds exactly its noise digit.
   */
  lemma MergedChannels(nEMC: nat, nCPV: nat, noise: seq<int>, cal: Calibration,
                       inputs: seq<seq<Digit>>, masks: Option<seq<int>>, k: int)
    requires |noise| == nCPV && MasksCover(masks, |inputs|) && 0 <= k < nCPV
    ensures var ms := Merged(nEMC, nCPV, noise, cal, inputs, masks);
            && |ms| == nCPV
            && ms[k].id == k + 1
            && ((forall i, j :: 0 <= i < |inputs| && 0 <= j < |inputs[i]| ==> inputs[i][j].id != k + 1) ==>
                  ms[k] == NoiseDigit(k + 1, cal.digitize(noise[k])))
            && (nEMC <= k ==> ms[k].time == TimeOfNoise() == 1)
  {
    var ms := Merged(nEMC, nCPV, noise, cal, inputs, masks);
    assert ms[k] == MergedDigit(k + 1, cal.digitize(noise[k]), inputs, masks, k < nEMC);
    MergedDigitContents(k + 1, cal.digitize(noise[k]), inputs, masks, k < nEMC);
    NoContributionIff(inputs, masks, k + 1);
  }

  /**
   * Without a run digitizer, the primaries of two different inputs can never
   * be confused once shifted, provided each input numbers its primaries
   * below the 10000000 stride and both inputs come before input 214, from
   * which on the shifted primaries no longer fit an Int_t.
   */
  lemma ShiftedPrimariesDisjoint(a: seq<int>, b: seq<int>, i: nat, j: nat)
    requires i != j && i < LastUnwrappedInput && j < LastUnwrappedInput
    requires forall k :: 0 <= k < |a| ==> 0 <= a[k] < InputPrimaryStride
    requires forall k :: 0 <= k < |b| ==> 0 <= b[k] < InputPrimaryStride
    ensures forall x, y :: x in Shifted(a, PrimaryOffset(None, i)) && y in Shifted(b, PrimaryOffset(None, j)) ==> x != y
  {
    forall x, y | x in Shifted(a, PrimaryOffset(None, i)) && y in Shifted(b, PrimaryOffset(None, j))
      ensures x != y
    {
      var p :| 0 <= p < |a| && Shifted(a, PrimaryOffset(None, i))[p] == x;
      var q :| 0 <= q < |b| && Shifted(b, PrimaryOffset(None, j))[q] == y;
      if i < j {
        assert InputPrimaryStride * i + InputPrimaryStride <= InputPrimaryStride * j;
      } else {
        assert InputPrimaryStride * j + InputPrimaryStride <= InputPrimaryStride * i;
      }
    }
  }

  /**
   * Past input 214 the Int_t offset wraps around: the offset of input 430 is
   * 5032704, so its primary 0 becomes the same id as input 0's primary 5032704.
   */
  lemma WrappedOffsetCollides()
    ensures PrimaryOffset(None, 430) == 5032704
    ensures Shifted([0], PrimaryOffset(None, 430)) == Shifted([5032704], PrimaryOffset(None, 0))
  {
  }

  /** The next signal channel is below or at every pending id and, unless it is NoSignal, is one of them. */
  lemma {:induction false} NextSignalIsNextPending(inputs: seq<seq<Digit>>, cursors: seq<int>, n: nat)
    requires n <= |inputs| && |cursors| == |inputs|
    ensures NextSignal(inputs, cursors, n) <= NoSignal
    ensures forall i :: 0 <= i < n && Pending(inputs, cursors, i) ==>
              NextSignal(inputs, cursors, n) <= inputs[i][cursors[i]].id
    ensures NextSignal(inputs, cursors, n) < NoSignal ==>
              exists i :: 0 <= i < n && Pending(inputs, cursors, i) &&
                          inputs[i][cursors[i]].id == NextSignal(inputs, cursors, n)
  {
    if n > 0 {
      NextSignalIsNextPending(inputs, cursors, n - 1);
    }
  }

  /** When every pending id is at least c (and c is not above NoSignal), so is the next signal channel. */
  lemma {:induction false} NextSignalLowerBound(inputs: seq<seq<Digit>>, cursors: seq<int>, n: nat, c: int)
    requires n <= |inputs| && |cursors| == |inputs| && c <= NoSignal
    requires forall i :: 0 <= i < n && Pending(inputs, cursors, i) ==> c <= inputs[i][cursors[i]].id
    ensures c <= NextSignal(inputs, cursors, n)
  {
    if n > 0 {
      NextSignalLowerBound(inputs, cursors, n - 1, c);
    }
  }

  /**
   * A channel below the next signal channel receives nothing, and every
   * cursor is already positioned for the channel after it.
   */
  lemma QuietChannel(inputs: seq<seq<Digit>>, masks: Option<seq<int>>, cursors: seq<int>, c: int)
    requires ValidInputs(inputs) && MasksCover(masks, |inputs|) && CursorsAt(inputs, cursors, c)
    requires c < NextSignal(inputs, cursors, |inputs|)
    ensures Contributions(inputs, masks, c, |inputs|) == []
    ensures CursorsAt(inputs, cursors, c + 1)
  {
    NextSignalIsNextPending(inputs, cursors, |inputs|);
    forall i | 0 <= i < |inputs|
      ensures Matching(inputs[i], c) == [] && AtChannel(inputs[i], cursors[i], c + 1)
    {
      var s := inputs[i];
      assert AtChannel(s, cursors[i], c);
      forall j | cursors[i] <= j < |s|
        ensures c + 1 <= s[j].id
      {
        assert ValidInput(s);
        assert s[cursors[i]].id <= s[j].id;
      }
      MatchingNone(s, c);
    }
    ContributionsEmpty(inputs, masks, c, |inputs|);
  }

  /** The channel the cursors point at, when it is a channel, receives at least one contribution. */
  lemma SignalChannelContributes(inputs: seq<seq<Digit>>, masks: Option<seq<int>>, cursors: seq<int>, c: int)
    requires MasksCover(masks, |inputs|) && CursorsAt(inputs, cursors, c)
    requires c == NextSignal(inputs, cursors, |inputs|) && c < NoSignal
    ensures Contributions(inputs, masks, c, |inputs|) != []
  {
    NextSignalIsNextPending(inputs, cursors, |inputs|);
    var i :| 0 <= i < |inputs| && Pending(inputs, cursors, i) && inputs[i][cursors[i]].id == c;
    MatchingEmptyIff(inputs[i], c);
    ContributionsEmpty(inputs, masks, c, |inputs|);
  }

  predicate SlotsById(slots: seq<Option<Digit>>)
  {
    forall k :: 0 <= k < |slots| && slots[k].Some? ==> slots[k].value.id == k + 1
  }

  /** Every compacted digit comes from the slot of its own channel. */
  lemma {:induction false} CompactMembers(slots: seq<Option<Digit>>)
    requires SlotsById(slots)
    ensures forall j :: 0 <= j < |Compact(slots)| ==>
              1 <= Compact(slots)[j].id <= |slots| && slots[Compact(slots)[j].id - 1] == Some(Compact(slots)[j])
  {
    if slots != [] {
      var n := |slots| - 1;
      var p := slots[..n];
      assert SlotsById(p);
      CompactMembers(p);
      assert Compact(slots) == Compact(p) + (if slots[n].Some? then [slots[n].value] else []);
    }
  }

  /** Compacting slots that hold channel k+1 at position k keeps the survivors in ascending channel order. */
  lemma {:induction false} CompactSorted(slots: seq<Option<Digit>>)
    requires SlotsById(slots)
    ensures forall j, k :: 0 <= j < k < |Compact(slots)| ==> Compact(slots)[j].id < Compact(slots)[k].id
  {
    if slots != [] {
      var n := |slots| - 1;
      var p := slots[..n];
      assert SlotsById(p);
      CompactSorted(p);
      CompactMembers(p);
      var rp := Compact(p);
      var r := Compact(slots);
      assert r == rp + (if slots[n].Some? then [slots[n].value] else []);
      forall j, k | 0 <= j < k < |r|
        ensures r[j].id < r[k].id
      {
        if k == |rp| {
          assert r[j] == rp[j];
        }
      }
    }
  }

  predicate HasChannel(ds: seq<Digit>, c: int)
  {
    exists j :: 0 <= j < |ds| && ds[j].id == c
  }

  /** Compaction drops no occupied slot. */
  lemma {:induction false} CompactComplete(slots: seq<Option<Digit>>)
    requires SlotsById(slots)
    ensures forall k :: 0 <= k < |slots| && slots[k].Some? ==> HasChannel(Compact(slots), k + 1)
  {
    if slots != [] {
      var n := |slots| - 1;
      var p := slots[..n];
      assert SlotsById(p);
      CompactComplete(p);
      var rp := Compact(p);
      var r := Compact(slots);
      assert r == rp + (if slots[n].Some? then [slots[n].value] else []);
      forall k | 0 <= k < |slots| && slots[k].Some?
        ensures HasChannel(r, k + 1)
      {
        if k < n {
          assert p[k] == slots[k];
          var j :| 0 <= j < |rp| && rp[j].id == k + 1;
          assert r[j] == rp[j];
        } else {
          assert r[|rp|].id == k + 1;
        }
      }
    }
  }

  lemma MergedById(nEMC: nat, nCPV: nat, noise: seq<int>, cal: Calibration, cfg: Config, inputs: seq<seq<Digit>>)
    requires |noise| == nCPV && MasksCover(cfg.masks, |inputs|)
    ensures SlotsById(Suppressed(Merged(nEMC, nCPV, noise, cal, inputs, cfg.masks), nEMC, cal, cfg))
  {
    var ms := Merged(nEMC, nCPV, noise, cal, inputs, cfg.masks);
    forall k | 0 <= k < nCPV
      ensures ms[k].id == k + 1
    {
      MergedChannels(nEMC, nCPV, noise, cal, inputs, cfg.masks, k);
    }
  }

  /** The final digits are in strictly ascending channel order and digit i has index i in the list. */
  lemma DigitizedOrderedAndIndexed(nEMC: nat, nCPV: nat, noise: seq<int>, cal: Calibration, cfg: Config,
                                   inputs: seq<seq<Digit>>)
    requires |noise| == nCPV && MasksCover(cfg.masks, |inputs|)
    ensures var ds := Digitized(nEMC, nCPV, noise, cal, cfg, inputs);
            && (forall j, k :: 0 <= j < k < |ds| ==> ds[j].id < ds[k].id)
            && (forall j :: 0 <= j < |ds| ==> ds[j].indexInList == j)
  {
    MergedById(nEMC, nCPV, noise, cal, cfg, inputs);
    var r := Compact(Suppressed(Merged(nEMC, nCPV, noise, cal, inputs, cfg.masks), nEMC, cal, cfg));
    CompactSorted(Suppressed(Merged(nEMC, nCPV, noise, cal, inputs, cfg.masks), nEMC, cal, cfg));
    assert Digitized(nEMC, nCPV, noise, cal, cfg, inputs) == Indexed(r);
  }

  /** Every final digit is the merged digit of its channel, numbered by its position in the list. */
  lemma DigitizedFromMerged(nEMC: nat, nCPV: nat, noise: seq<int>, cal: Calibration, cfg: Config,
                            inputs: seq<seq<Digit>>)
    requires |noise| == nCPV && MasksCover(cfg.masks, |inputs|)
    ensures forall j :: 0 <= j < |Digitized(nEMC, nCPV, noise, cal, cfg, inputs)| ==>
              var d := Digitized(nEMC, nCPV, noise, cal, cfg, inputs)[j];
              1 <= d.id <= nCPV &&
              d == Merged(nEMC, nCPV, noise, cal, inputs, cfg.masks)[d.id - 1].(indexInList := j) &&
              Threshold(d.id - 1, nEMC, cfg) <= cal.calibrate(d.amp)
  {
    var ms := Merged(nEMC, nCPV, noise, cal, inputs, cfg.masks);
    var sl := Suppressed(ms, nEMC, cal, cfg);
    MergedById(nEMC, nCPV, noise, cal, cfg, inputs);
    CompactMembers(sl);
    assert Digitized(nEMC, nCPV, noise, cal, cfg, inputs) == Indexed(Compact(sl));
  }

  /**
   * Suppression removes exactly the digits whose calibrated amplitude is
   * below their region's threshold: channel c has a digit in the final list
   * if and only if it is a channel and its merged digit passes.
   */
  lemma DigitizedSurvivors(nEMC: nat, nCPV: nat, noise: seq<int>, cal: Calibration, cfg: Config,
                           inputs: seq<seq<Digit>>, c: int)
    requires |noise| == nCPV && MasksCover(cfg.masks, |inputs|)
    ensures HasChannel(Digitized(nEMC, nCPV, noise, cal, cfg, inputs), c) <==>
            1 <= c <= nCPV &&
            Threshold(c - 1, nEMC, cfg) <= cal.calibrate(Merged(nEMC, nCPV, noise, cal, inputs, cfg.masks)[c - 1].amp)
  {
    if HasChannel(Digitized(nEMC, nCPV, noise, cal, cfg, inputs), c) {
      SurvivorPasses(nEMC, nCPV, noise, cal, cfg, inputs, c);
    }
    if 1 <= c <= nCPV && Threshold(c - 1, nEMC, cfg) <= cal.calibrate(Merged(nEMC, nCPV, noise, cal, inputs, cfg.masks)[c - 1].amp) {
      SurvivorKept(nEMC, nCPV, noise, cal, cfg, inputs, c);
    }
  }

  lemma SurvivorPasses(nEMC: nat, nCPV: nat, noise: seq<int>, cal: Calibration, cfg: Config,
                       inputs: seq<seq<Digit>>, c: int)
    requires |noise| == nCPV && MasksCover(cfg.masks, |inputs|)
    requires HasChannel(Digitized(nEMC, nCPV, noise, cal, cfg, inputs), c)
    ensures 1 <= c <= nCPV
    ensures Threshold(c - 1, nEMC, cfg) <= cal.calibrate(Merged(nEMC, nCPV, noise, cal, inputs, cfg.masks)[c - 1].amp)
  {
    var ms := Merged(nEMC, nCPV, noise, cal, inputs, cfg.masks);
    var ds := Digitized(nEMC, nCPV, noise, cal, cfg, inputs);
    DigitizedFromMerged(nEMC, nCPV, noise, cal, cfg, inputs);
    var j :| 0 <= j < |ds| && ds[j].id == c;
    assert ds[j].amp == ms[c - 1].amp;
  }

  lemma SurvivorKept(nEMC: nat, nCPV: nat, noise: seq<int>, cal: Calibration, cfg: Config,
                     inputs: seq<seq<Digit>>, c: int)
    requires |noise| == nCPV && MasksCover(cfg.masks, |inputs|) && 1 <= c <= nCPV
    requires Threshold(c - 1, nEMC, cfg) <= cal.calibrate(Merged(nEMC, nCPV, noise, cal, inputs, cfg.masks)[c - 1].amp)
    ensures HasChannel(Digitized(nEMC, nCPV, noise, cal, cfg, inputs), c)
  {
    var sl := Suppressed(Merged(nEMC, nCPV, noise, cal, inputs, cfg.masks), nEMC, cal, cfg);
    MergedById(nEMC, nCPV, noise, cal, cfg, inputs);
    CompactComplete(sl);
    assert sl[c - 1].Some?;
    var j :| 0 <= j < |Compact(sl)| && Compact(sl)[j].id == c;
    assert Digitized(nEMC, nCPV, noise, cal, cfg, inputs)[j].id == c;
  }

  /**
   * A channel that received no signal and whose noise calibrates below its
   * threshold leaves no digit.
   */
  lemma QuietChannelSuppressed(nEMC: nat, nCPV: nat, noise: seq<int>, cal: Calibration, cfg: Config,
                               inputs: seq<seq<Digit>>, c: int)
    requires |noise| == nCPV && MasksCover(cfg.masks, |inputs|) && 1 <= c <= nCPV
    requires forall i, k :: 0 <= i < |inputs| && 0 <= k < |inputs[i]| ==> inputs[i][k].id != c
    requires cal.calibrate(cal.digitize(noise[c - 1])) < Threshold(c - 1, nEMC, cfg)
    ensures !HasChannel(Digitized(nEMC, nCPV, noise, cal, cfg, inputs), c)
  {
    MergedChannels(nEMC, nCPV, noise, cal, inputs, cfg.masks, c - 1);
    DigitizedSurvivors(nEMC, nCPV, noise, cal, cfg, inputs, c);
  }
}
