/**
 * The imperative digitization of AliPHOSDigitizer::Digitize: the output
 * digits live in a resizable array of slots (the TClonesArray), the inputs
 * are read through one cursor each, and every step is proved against the
 * specification functions of module PhosDigits.
 */
module PhosDigitizer {
  import opened Wrappers
  import opened PhosDigits
  import opened PhosProperties

  /** The TClonesArray of output digits: slot k is empty or holds one digit. */
  class DigitList {
    var slots: array<Option<Digit>>

    constructor ()
      ensures fresh(slots) && slots.Length == 0
    {
      slots := new Option<Digit>[0];
    }

    /** TClonesArray::Clear: every slot becomes empty, the capacity stays. */
    method Clear()
      modifies slots
      ensures slots[..] == Nones(slots.Length)
    {
      for k := 0 to slots.Length
        invariant slots[..k] == Nones(k)
      {
        slots[k] := None;
      }
    }

    /** TClonesArray::Expand: resize to n slots, keeping the first ones and adding empty ones. */
    method Expand(n: nat)
      modifies this
      ensures fresh(slots) && slots.Length == n
      ensures slots[..] == if n <= old(slots.Length) then old(slots[..])[..n]
                           else old(slots[..]) + Nones(n - old(slots.Length))
    {
      var a := new Option<Digit>[n](_ => None);
      var src := slots;
      var m := if n <= src.Length then n else src.Length;
      for k := 0 to m
        invariant a[..k] == src[..k]
        invariant forall j :: k <= j < n ==> a[j] == None
      {
        a[k] := src[k];
      }
      slots := a;
      if n <= src.Length {
        assert slots[..] == src[..][..n];
      } else {
        assert slots[..] == src[..] + Nones(n - src.Length);
      }
    }

    /** TClonesArray::RemoveAt: slot k becomes empty, nothing moves. */
    method RemoveAt(k: nat)
      requires k < slots.Length
      modifies slots
      ensures slots[..] == old(slots[..])[k := None]
    {
      slots[k] := None;
    }

    /** TObjArray::Compress: the occupied slots move to the front, in order, and the rest empty. */
    method Compress()
      modifies slots
      ensures slots[..] == SomeAll(Compact(old(slots[..]))) + Nones(slots.Length - |Compact(old(slots[..]))|)
    {
      var j := PackFront();
      ClearFrom(j);
    }

    /** The occupied slots copied to the front, in order; returns their number. */
    method PackFront() returns (j: nat)
      modifies slots
      ensures j == |Compact(old(slots[..]))| <= slots.Length
      ensures slots[..j] == SomeAll(Compact(old(slots[..])))
    {
      ghost var s0 := slots[..];
      j := 0;
      for i := 0 to slots.Length
        invariant j == |Compact(s0[..i])| <= i
        invariant slots[..j] == SomeAll(Compact(s0[..i]))
        invariant slots[i..] == s0[i..]
      {
        assert s0[..i + 1][..i] == s0[..i];
        assert slots[i] == s0[i];
        if slots[i].Some? {
          slots[j] := slots[i];
          j := j + 1;
        }
      }
      assert s0[..slots.Length] == s0;
    }

    /** Every slot from j on becomes empty. */
    method ClearFrom(j: nat)
      requires j <= slots.Length
      modifies slots
      ensures slots[..] == old(slots[..j]) + Nones(slots.Length - j)
    {
      ghost var front := slots[..j];
      var k := j;
      while k < slots.Length
        invariant j <= k <= slots.Length
        invariant slots[..j] == front
        invariant forall m :: j <= m < k ==> slots[m] == None
      {
        slots[k] := None;
        k := k + 1;
      }
      assert slots[..] == front + Nones(slots.Length - j);
    }

    /** TObjArray::GetEntriesFast: one past the last occupied slot. */
    method EntriesFast() returns (n: nat)
      ensures n <= slots.Length
      ensures n == 0 || slots[n - 1].Some?
      ensures forall k :: n <= k < slots.Length ==> slots[k] == None
    {
      n := slots.Length;
      while n > 0 && slots[n - 1] == None
        invariant n <= slots.Length
        invariant forall k :: n <= k < slots.Length ==> slots[k] == None
      {
        n := n - 1;
      }
    }
  }

  /**
   * AliPHOSDigitizer::FrontEdgeTime: the smallest time read before the
   * first zero (TArrayF::At reads zero past the end of the array).
   */
  method FrontEdgeTime(times: seq<int>) returns (time: int)
    ensures time == FrontEdge(times)
  {
    ghost var l := LeadingNonZero(times);
    var curtime := if 0 < |times| then times[0] else 0;
    time := curtime;
    var i := 1;
    while curtime != 0
      invariant 1 <= i <= |l| + 1
      invariant curtime == if i - 1 < |l| then l[i - 1] else 0
      invariant i == 1 ==> time == curtime
      invariant i > 1 ==> time in l[..i - 1] && forall k :: 0 <= k < i - 1 ==> time <= l[k]
      decreases |l| + 1 - i
    {
      if time > curtime {
        time := curtime;
      }
      curtime := if i < |times| then times[i] else 0;
      i := i + 1;
    }
    if l != [] {
      assert l[..i - 1] == l;
      var f := FrontEdge(times);
      assert f <= time && time <= f;
    }
  }

  /**
   * The scan for the next signal channel, started afresh from 200000 and
   * skipping exhausted inputs (lines 204-210, 258-263 and 296-301 with the
   * two defects corrected: see module PhosFindings).
   */
  method ScanNextSignal(inputs: seq<seq<Digit>>, index: array<int>) returns (nextSig: int)
    requires index.Length == |inputs|
    ensures nextSig == NextSignal(inputs, index[..], |inputs|)
  {
    nextSig := NoSignal;
    for i := 0 to |inputs|
      invariant nextSig == NextSignal(inputs, index[..], i) && nextSig <= NoSignal
    {
      assert index[..][i] == index[i];
      assert NextSignal(inputs, index[..], i + 1) ==
             Min(NextSignal(inputs, index[..], i), PendingId(inputs, index[..], i));
      if 0 <= index[i] < |inputs[i]| {
        var curNext := inputs[i][index[i]].id;
        if curNext < nextSig {
          nextSig := curNext;
        }
      }
    }
  }

  /**
   * The while loop over one input for channel absID (lines 233-250 and
   * 278-293): every summable digit of that channel under the cursor is
   * shifted by the input's primary offset and added to the digit, its time
   * is recorded, and the cursor moves past it.
   */
  method AddInput(absID: int, s: seq<Digit>, offset: int, k0: int, d0: Digit, times0: seq<int>)
    returns (d: Digit, times: seq<int>, k: int)
    requires 0 <= k0 <= |s|
    ensures k0 <= k <= |s| && (k == |s| || s[k].id != absID)
    ensures forall j :: k0 <= j < k ==> s[j].id == absID
    ensures d == AddAll(d0, ShiftAll(s[k0..k], offset))
    ensures times == times0 + Times(s[k0..k])
  {
    d, times, k := d0, times0, k0;
    while k < |s| && s[k].id == absID
      invariant k0 <= k <= |s|
      invariant forall j :: k0 <= j < k ==> s[j].id == absID
      invariant d == AddAll(d0, ShiftAll(s[k0..k], offset))
      invariant times == times0 + Times(s[k0..k])
      decreases |s| - k
    {
      var cur := ShiftPrimary(s[k], offset);
      AddInputStep(d0, s, k0, k, offset);
      d := Add(d, cur);
      times := times + [cur.time];
      k := k + 1;
    }
  }

  /** One more summable digit folded: the digit gains it and the time list gains its time. */
  lemma AddInputStep(d0: Digit, s: seq<Digit>, k0: int, k: int, offset: int)
    requires 0 <= k0 <= k < |s|
    ensures AddAll(d0, ShiftAll(s[k0..k + 1], offset)) ==
            Add(AddAll(d0, ShiftAll(s[k0..k], offset)), ShiftPrimary(s[k], offset))
    ensures Times(s[k0..k + 1]) == Times(s[k0..k]) + [s[k].time]
  {
    var before := ShiftAll(s[k0..k], offset);
    assert ShiftAll(s[k0..k + 1], offset)[..|before|] == before;
  }

  /** A cursor stopped after the run of channel absID is positioned for the next channel, past exactly that run. */
  lemma CursorPastChannel(s: seq<Digit>, k0: int, k: int, absID: int)
    requires SortedById(s) && AtChannel(s, k0, absID) && k0 <= k <= |s|
    requires forall j :: k0 <= j < k ==> s[j].id == absID
    requires k == |s| || s[k].id != absID
    ensures AtChannel(s, k, absID + 1) && Matching(s, absID) == s[k0..k]
  {
    forall j | k <= j < |s|
      ensures absID + 1 <= s[j].id
    {
      assert s[k].id <= s[j].id;
    }
    MatchingBlock(s, k0, k, absID);
  }

  /**
   * Input i's turn in the loop over the inputs for channel absID: its run
   * of that channel is folded into the digit and its cursor moves past it.
   */
  method AdvanceInput(absID: int, inputs: seq<seq<Digit>>, masks: Option<seq<int>>, index: array<int>, i: nat,
                      ghost d0: Digit, dOld: Digit, tOld: seq<int>)
    returns (d: Digit, times: seq<int>)
    requires i < |inputs| && MasksCover(masks, |inputs|) && ValidInput(inputs[i])
    requires CursorsSplit(inputs, index[..], i, absID)
    requires dOld == AddAll(d0, Contributions(inputs, masks, absID, i))
    requires tOld == Times(Contributions(inputs, masks, absID, i))
    modifies index
    ensures CursorsSplit(inputs, index[..], i + 1, absID)
    ensures d == AddAll(d0, Contributions(inputs, masks, absID, i + 1))
    ensures times == Times(Contributions(inputs, masks, absID, i + 1))
  {
    ghost var before := index[..];
    assert AtChannel(inputs[i], before[i], absID);
    var k;
    d, times, k := AddInput(absID, inputs[i], PrimaryOffset(masks, i), index[i], dOld, tOld);
    CursorPastChannel(inputs[i], before[i], k, absID);
    AddInputsStep(inputs, masks, absID, i, d0, dOld, tOld, inputs[i][before[i]..k], d, times);
    index[i] := k;
    assert index[..] == before[i := k];
    CursorsAdvance(inputs, before, i, absID, k);
  }

  /**
   * The loop over the inputs for channel absID: afterwards every cursor is
   * past the channel, the digit holds every contribution in folding order
   * and times lists the contributions' times.
   */
  method AddInputs(absID: int, inputs: seq<seq<Digit>>, masks: Option<seq<int>>, index: array<int>, d0: Digit)
    returns (d: Digit, times: seq<int>)
    requires MasksCover(masks, |inputs|) && ValidInputs(inputs)
    requires CursorsAt(inputs, index[..], absID)
    modifies index
    ensures CursorsAt(inputs, index[..], absID + 1)
    ensures d == AddAll(d0, Contributions(inputs, masks, absID, |inputs|))
    ensures times == Times(Contributions(inputs, masks, absID, |inputs|))
  {
    d := d0;
    times := [];
    for i := 0 to |inputs|
      invariant CursorsSplit(inputs, index[..], i, absID)
      invariant d == AddAll(d0, Contributions(inputs, masks, absID, i))
      invariant times == Times(Contributions(inputs, masks, absID, i))
    {
      d, times := AdvanceInput(absID, inputs, masks, index, i, d0, d, times);
    }
    CursorsAtNext(inputs, index[..], absID);
  }

  lemma CursorsAdvance(inputs: seq<seq<Digit>>, cursors: seq<int>, i: nat, c: int, k: int)
    requires CursorsSplit(inputs, cursors, i, c) && i < |inputs| && AtChannel(inputs[i], k, c + 1)
    ensures CursorsSplit(inputs, cursors[i := k], i + 1, c)
  {
  }

  lemma CursorsAtNext(inputs: seq<seq<Digit>>, cursors: seq<int>, c: int)
    requires CursorsSplit(inputs, cursors, |inputs|, c)
    ensures CursorsAt(inputs, cursors, c + 1)
  {
  }

  /** Folding input i's run of channel absID extends the contributions of inputs 0..i-1 to those of 0..i. */
  lemma AddInputsStep(inputs: seq<seq<Digit>>, masks: Option<seq<int>>, absID: int, i: nat,
                      d0: Digit, dOld: Digit, tOld: seq<int>, run: seq<Digit>, d: Digit, times: seq<int>)
    requires i < |inputs| && MasksCover(masks, |inputs|)
    requires dOld == AddAll(d0, Contributions(inputs, masks, absID, i))
    requires tOld == Times(Contributions(inputs, masks, absID, i))
    requires run == Matching(inputs[i], absID)
    requires d == AddAll(dOld, ShiftAll(run, PrimaryOffset(masks, i)))
    requires times == tOld + Times(run)
    ensures d == AddAll(d0, Contributions(inputs, masks, absID, i + 1))
    ensures times == Times(Contributions(inputs, masks, absID, i + 1))
  {
    var cs := Contributions(inputs, masks, absID, i);
    AddAllAppend(d0, cs, ShiftAll(run, PrimaryOffset(masks, i)));
    TimesAppend(cs, run, PrimaryOffset(masks, i));
  }

  lemma {:induction false} AddAllAppend(d: Digit, xs: seq<Digit>, ys: seq<Digit>)
    ensures AddAll(d, xs + ys) == AddAll(AddAll(d, xs), ys)
  {
    if ys != [] {
      var ys' := ys[..|ys| - 1];
      assert (xs + ys)[..|xs + ys| - 1] == xs + ys';
      AddAllAppend(d, xs, ys');
    } else {
      assert xs + ys == xs;
    }
  }

  lemma TimesAppend(cs: seq<Digit>, m: seq<Digit>, offset: int)
    ensures Times(cs + ShiftAll(m, offset)) == Times(cs) + Times(m)
  {
  }

  /**
   * The work for channel absID inside a channel loop: its noise digit, and,
   * when the cursors point at it, every contribution, the front-edge time
   * for an EMC channel, and the scan for the next signal channel.
   */
  method MergeChannel(absID: int, emc: bool, noiseAmp: int, inputs: seq<seq<Digit>>, masks: Option<seq<int>>,
                      index: array<int>, nextSig0: int)
    returns (digit: Digit, nextSig: int)
    requires absID < NoSignal
    requires MasksCover(masks, |inputs|) && ValidInputs(inputs) && CursorsAt(inputs, index[..], absID)
    requires nextSig0 == NextSignal(inputs, index[..], |inputs|) && absID <= nextSig0
    modifies index
    ensures digit == MergedDigit(absID, noiseAmp, inputs, masks, emc)
    ensures CursorsAt(inputs, index[..], absID + 1)
    ensures nextSig == NextSignal(inputs, index[..], |inputs|) && absID + 1 <= nextSig
  {
    nextSig := nextSig0;
    digit := NoiseDigit(absID, noiseAmp);
    if absID == nextSig {
      SignalChannelContributes(inputs, masks, index[..], absID);
      var times;
      digit, times := AddInputs(absID, inputs, masks, index, digit);
      if emc {
        var time := FrontEdgeTime(times);
        digit := digit.(time := time);
      }
      nextSig := ScanNextSignal(inputs, index);
      NextSignalAbove(inputs, index[..], absID + 1);
    } else {
      QuietChannel(inputs, masks, index[..], absID);
    }
  }

  /** Cursors positioned for channel c leave no pending id below c, so the next signal channel is not below c. */
  lemma NextSignalAbove(inputs: seq<seq<Digit>>, cursors: seq<int>, c: int)
    requires CursorsAt(inputs, cursors, c) && c <= NoSignal
    ensures c <= NextSignal(inputs, cursors, |inputs|)
  {
    forall i | 0 <= i < |inputs| && Pending(inputs, cursors, i)
      ensures c <= inputs[i][cursors[i]].id
    {
      assert AtChannel(inputs[i], cursors[i], c);
    }
    NextSignalLowerBound(inputs, cursors, |inputs|, c);
  }

  /** prev with the slots of channels lo..upto-1 holding their merged digits. */
  ghost function Filled(prev: seq<Option<Digit>>, lo: int, upto: int, nEMC: nat, noise: seq<int>, cal: Calibration,
                        inputs: seq<seq<Digit>>, masks: Option<seq<int>>): seq<Option<Digit>>
    requires |noise| == |prev| && MasksCover(masks, |inputs|)
  {
    seq(|prev|, k requires 0 <= k < |prev| =>
      if lo - 1 <= k < upto - 1 then Some(MergedDigit(k + 1, cal.digitize(noise[k]), inputs, masks, k < nEMC))
      else prev[k])
  }

  lemma FilledStep(prev: seq<Option<Digit>>, lo: int, a: int, nEMC: nat, noise: seq<int>, cal: Calibration,
                   inputs: seq<seq<Digit>>, masks: Option<seq<int>>)
    requires |noise| == |prev| && MasksCover(masks, |inputs|) && 1 <= lo <= a <= |prev|
    ensures Filled(prev, lo, a + 1, nEMC, noise, cal, inputs, masks)
            == Filled(prev, lo, a, nEMC, noise, cal, inputs, masks)[a - 1 :=
                 Some(MergedDigit(a, cal.digitize(noise[a - 1]), inputs, masks, a - 1 < nEMC))]
  {
  }

  /**
   * One of the two channel loops of Digitize (lines 221-265 for the EMC
   * channels, with emc set, and lines 270-304 for the CPV channels): slot
   * k of every channel k+1 in lo..hi receives the merged digit of its
   * channel.
   */
  method MergeChannels(slots: array<Option<Digit>>, lo: int, hi: int, emc: bool, nEMC: nat, noise: seq<int>,
                       cal: Calibration, inputs: seq<seq<Digit>>, masks: Option<seq<int>>,
                       index: array<int>, nextSig0: int)
    returns (nextSig: int)
    requires 1 <= lo <= hi + 1 && hi <= slots.Length && hi < NoSignal && |noise| == slots.Length
    requires if emc then hi <= nEMC else nEMC <= lo - 1
    requires MasksCover(masks, |inputs|) && ValidInputs(inputs) && CursorsAt(inputs, index[..], lo)
    requires nextSig0 == NextSignal(inputs, index[..], |inputs|) && lo <= nextSig0
    modifies slots, index
    ensures slots[..] == Filled(old(slots[..]), lo, hi + 1, nEMC, noise, cal, inputs, masks)
    ensures CursorsAt(inputs, index[..], hi + 1)
    ensures nextSig == NextSignal(inputs, index[..], |inputs|) && hi + 1 <= nextSig
  {
    ghost var prev := slots[..];
    nextSig := nextSig0;
    var absID := lo;
    assert prev == Filled(prev, lo, lo, nEMC, noise, cal, inputs, masks);
    while absID <= hi
      invariant lo <= absID <= hi + 1
      invariant slots[..] == Filled(prev, lo, absID, nEMC, noise, cal, inputs, masks)
      invariant CursorsAt(inputs, index[..], absID)
      invariant nextSig == NextSignal(inputs, index[..], |inputs|) && absID <= nextSig
    {
      nextSig := FillChannel(slots, lo, absID, emc, nEMC, noise, cal, inputs, masks, index, nextSig, prev);
      absID := absID + 1;
    }
  }

  /** One iteration of a channel loop: channel absID is merged into its slot. */
  method FillChannel(slots: array<Option<Digit>>, lo: int, absID: int, emc: bool, nEMC: nat, noise: seq<int>,
                     cal: Calibration, inputs: seq<seq<Digit>>, masks: Option<seq<int>>,
                     index: array<int>, nextSig0: int, ghost prev: seq<Option<Digit>>)
    returns (nextSig: int)
    requires 1 <= lo <= absID <= slots.Length && absID < NoSignal && |noise| == slots.Length == |prev|
    requires emc == (absID - 1 < nEMC)
    requires MasksCover(masks, |inputs|) && ValidInputs(inputs) && CursorsAt(inputs, index[..], absID)
    requires nextSig0 == NextSignal(inputs, index[..], |inputs|) && absID <= nextSig0
    requires slots[..] == Filled(prev, lo, absID, nEMC, noise, cal, inputs, masks)
    modifies slots, index
    ensures slots[..] == Filled(prev, lo, absID + 1, nEMC, noise, cal, inputs, masks)
    ensures CursorsAt(inputs, index[..], absID + 1)
    ensures nextSig == NextSignal(inputs, index[..], |inputs|) && absID + 1 <= nextSig
  {
    var digit;
    digit, nextSig := MergeChannel(absID, emc, cal.digitize(noise[absID - 1]), inputs, masks, index, nextSig0);
    FilledStep(prev, lo, absID, nEMC, noise, cal, inputs, masks);
    slots[absID - 1] := Some(digit);
  }

  /** Filling the EMC channels and then the CPV channels fills every slot with its merged digit. */
  lemma FilledAll(nEMC: nat, nCPV: nat, noise: seq<int>, cal: Calibration, inputs: seq<seq<Digit>>,
                  masks: Option<seq<int>>)
    requires nEMC <= nCPV && |noise| == nCPV && MasksCover(masks, |inputs|)
    ensures Filled(Filled(Nones(nCPV), 1, nEMC + 1, nEMC, noise, cal, inputs, masks), nEMC + 1, nCPV + 1,
                   nEMC, noise, cal, inputs, masks)
            == SomeAll(Merged(nEMC, nCPV, noise, cal, inputs, masks))
  {
  }

  /** Lines 205-216: one cursor per input, at its first summable digit, and the first signal channel. */
  method StartCursors(inputs: seq<seq<Digit>>) returns (index: array<int>, nextSig: int)
    requires ValidInputs(inputs)
    ensures fresh(index)
    ensures CursorsAt(inputs, index[..], 1)
    ensures nextSig == NextSignal(inputs, index[..], |inputs|) && 1 <= nextSig
  {
    index := new int[|inputs|](_ => 0);
    CursorsAtStart(inputs, index[..]);
    nextSig := ScanNextSignal(inputs, index);
    NextSignalAbove(inputs, index[..], 1);
  }

  /** Lines 200-304: the digit list emptied, sized to every channel, and every channel merged in its slot. */
  method MergeAll(digits: DigitList, nEMC: nat, nCPV: nat, noise: seq<int>, cal: Calibration,
                  inputs: seq<seq<Digit>>, masks: Option<seq<int>>)
    requires nEMC <= nCPV < NoSignal && |noise| == nCPV
    requires ValidInputs(inputs) && MasksCover(masks, |inputs|)
    modifies digits, digits.slots
    ensures fresh(digits.slots)
    ensures digits.slots[..] == SomeAll(Merged(nEMC, nCPV, noise, cal, inputs, masks))
  {
    digits.Clear();
    digits.Expand(nCPV);
    assert digits.slots[..] == Nones(nCPV);
    MergeRegions(digits.slots, nEMC, nCPV, noise, cal, inputs, masks);
  }

  /** Lines 200-304 after the list is sized: the EMC loop, then the CPV loop, fill every empty slot. */
  method MergeRegions(slots: array<Option<Digit>>, nEMC: nat, nCPV: nat, noise: seq<int>, cal: Calibration,
                      inputs: seq<seq<Digit>>, masks: Option<seq<int>>)
    requires nEMC <= nCPV < NoSignal && |noise| == nCPV
    requires ValidInputs(inputs) && MasksCover(masks, |inputs|)
    requires slots[..] == Nones(nCPV)
    modifies slots
    ensures slots[..] == SomeAll(Merged(nEMC, nCPV, noise, cal, inputs, masks))
  {
    var index, nextSig := StartCursors(inputs);
    nextSig := MergeChannels(slots, 1, nEMC, true, nEMC, noise, cal, inputs, masks, index, nextSig);
    nextSig := MergeChannels(slots, nEMC + 1, nCPV, false, nEMC, noise, cal, inputs, masks, index, nextSig);
    FilledAll(nEMC, nCPV, noise, cal, inputs, masks);
  }

  /** Lines 312-318: every digit whose calibrated amplitude is below its region's threshold is removed. */
  method RemoveBelowThreshold(digits: DigitList, nEMC: nat, cal: Calibration, cfg: Config, ghost ds: seq<Digit>)
    requires digits.slots[..] == SomeAll(ds)
    modifies digits.slots
    ensures digits.slots[..] == Suppressed(ds, nEMC, cal, cfg)
  {
    var n := digits.slots.Length;
    ghost var sup := Suppressed(ds, nEMC, cal, cfg);
    var absID := 0;
    while absID < nEMC && absID < n
      invariant 0 <= absID <= n && absID <= nEMC
      invariant forall k :: 0 <= k < absID ==> digits.slots[k] == sup[k]
      invariant forall k :: absID <= k < n ==> digits.slots[k] == Some(ds[k])
    {
      if cal.calibrate(digits.slots[absID].value.amp) < cfg.emcThreshold {
        digits.RemoveAt(absID);
      }
      absID := absID + 1;
    }
    while absID < n
      invariant 0 <= absID <= n
      invariant absID < n ==> nEMC <= absID
      invariant forall k :: 0 <= k < absID ==> digits.slots[k] == sup[k]
      invariant forall k :: absID <= k < n ==> digits.slots[k] == Some(ds[k])
    {
      if cal.calibrate(digits.slots[absID].value.amp) < cfg.cpvThreshold {
        digits.RemoveAt(absID);
      }
      absID := absID + 1;
    }
    assert digits.slots[..] == sup;
  }

  /** Lines 326-329: digit i of the compacted list learns its index i. */
  method SetIndexes(digits: DigitList, ghost ds: seq<Digit>)
    requires digits.slots[..] == SomeAll(ds)
    modifies digits.slots
    ensures digits.slots[..] == SomeAll(Indexed(ds))
  {
    for i := 0 to digits.slots.Length
      invariant digits.slots[..i] == SomeAll(Indexed(ds))[..i]
      invariant digits.slots[i..] == SomeAll(ds)[i..]
    {
      assert digits.slots[i] == Some(ds[i]);
      var digit := digits.slots[i].value;
      digits.slots[i] := Some(digit.(indexInList := i));
    }
  }

  /** Cursors at the start of every input are positioned for channel 1. */
  lemma CursorsAtStart(inputs: seq<seq<Digit>>, cursors: seq<int>)
    requires ValidInputs(inputs) && |cursors| == |inputs|
    requires forall i :: 0 <= i < |cursors| ==> cursors[i] == 0
    ensures CursorsAt(inputs, cursors, 1)
  {
    forall i | 0 <= i < |inputs|
      ensures AtChannel(inputs[i], cursors[i], 1)
    {
      assert ValidInput(inputs[i]);
    }
  }

  /**
   * AliPHOSDigitizer::Digitize for one event: the noise draws (one per
   * channel, EMC first), the summable-digitizer calibration, the thresholds
   * and the run digitizer's masks are inputs; the digit list is left holding
   * exactly the digits of the specification, in channel order and indexed.
   */
  method Digitize(digits: DigitList, nEMC: nat, nCPV: nat, noise: seq<int>, cal: Calibration, cfg: Config,
                  inputs: seq<seq<Digit>>)
    requires nEMC <= nCPV < NoSignal && |noise| == nCPV
    requires ValidInputs(inputs) && MasksCover(cfg.masks, |inputs|)
    modifies digits, digits.slots
    ensures digits.slots[..] == SomeAll(Digitized(nEMC, nCPV, noise, cal, cfg, inputs))
  {
    MergeAll(digits, nEMC, nCPV, noise, cal, inputs, cfg.masks);
    ghost var ms := Merged(nEMC, nCPV, noise, cal, inputs, cfg.masks);
    RemoveBelowThreshold(digits, nEMC, cal, cfg, ms);
    Shrink(digits);
    SetIndexes(digits, Compact(Suppressed(ms, nEMC, cal, cfg)));
  }

  /** Lines 320-324: the surviving digits move to the front and the list is cut to their number. */
  method Shrink(digits: DigitList)
    modifies digits, digits.slots
    ensures fresh(digits.slots)
    ensures digits.slots[..] == SomeAll(Compact(old(digits.slots[..])))
  {
    ghost var sl := digits.slots[..];
    digits.Compress();
    ghost var r := Compact(sl);
    var ndigits := digits.EntriesFast();
    LastOccupied(digits.slots[..], r, ndigits);
    digits.Expand(ndigits);
    assert digits.slots[..] == SomeAll(r);
  }

  /** After compaction, one past the last occupied slot is the number of occupied slots. */
  lemma LastOccupied(s: seq<Option<Digit>>, r: seq<Digit>, n: nat)
    requires |r| <= |s| && s == SomeAll(r) + Nones(|s| - |r|)
    requires n <= |s| && (n == 0 || s[n - 1].Some?)
    requires forall k :: n <= k < |s| ==> s[k] == None
    ensures n == |r|
  {
    assert forall k :: |r| <= k < |s| ==> s[k] == None;
    assert 0 < |r| ==> s[|r| - 1] == Some(r[|r| - 1]);
  }
}
