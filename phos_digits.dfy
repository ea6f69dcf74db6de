/**
 * Values and specification functions of the PHOS digitization merge
 * (AliPHOSDigitizer::Digitize): the digit record, the per-channel merge of the
 * summable digits of several inputs into a noise digit, the front-edge time,
 * threshold suppression and compaction.  The imperative algorithm that the
 * source runs is in module PhosDigitizer and is proved against these functions.
 */
module PhosDigits {
  import opened Wrappers

  /** Initial value of nextSig: a channel id above every PHOS channel, meaning "no signal pending". */
  const NoSignal: int := 200000

  /** Primary-id offset between two consecutive inputs when no run digitizer supplies masks. */
  const InputPrimaryStride: int := 10000000

  /**
   * AliPHOSDigit, used both for the summable digits of the inputs and for the
   * output digits: absolute channel id, amplitude, time, list of primary
   * particles and the position in the output list.
   */
  datatype Digit = Digit(id: int, amp: int, time: int, primaries: seq<int>, indexInList: int)

  /** Parameters of the digitizer that Digitize reads: thresholds and the run digitizer's input masks. */
  datatype Config = Config(emcThreshold: int, cpvThreshold: int, masks: Option<seq<int>>)

  /** The summable-digitizer collaborator: packs a noise draw into an amplitude and calibrates an amplitude back. */
  datatype Calibration = Calibration(digitize: int -> int, calibrate: int -> int)

  /** AliPHOSDigitizer::TimeOfNoise: the time given to a digit made of noise only. */
  function TimeOfNoise(): (t: int)
    ensures t == 1
  {
    1
  }

  /** The digit created for channel absId before any signal is added (no primary, time of noise). */
  function NoiseDigit(absId: int, amp: int): Digit
  {
    Digit(absId, amp, TimeOfNoise(), [], -1)
  }

  /**
   * The value an Int_t keeps of x: 32-bit two's complement, wrapping around
   * as the compiled arithmetic on Int_t does.
   */
  function Int32(x: int): (r: int)
    ensures -0x8000_0000 <= r < 0x8000_0000 && (x - r) % 0x1_0000_0000 == 0
    ensures -0x8000_0000 <= x < 0x8000_0000 ==> r == x
  {
    (x + 0x8000_0000) % 0x1_0000_0000 - 0x8000_0000
  }

  /** The primaries moved by offset, each sum kept as an Int_t. */
  function Shifted(ps: seq<int>, offset: int): seq<int>
  {
    seq(|ps|, k requires 0 <= k < |ps| => Int32(ps[k] + offset))
  }

  /** AliPHOSDigit::ShiftPrimary: every primary id moved by the input's offset. */
  function ShiftPrimary(s: Digit, offset: int): Digit
  {
    s.(primaries := Shifted(s.primaries, offset))
  }

  /** `*digit + *curSDigit`: amplitudes add up and the primaries of s follow those of d. */
  function Add(d: Digit, s: Digit): Digit
  {
    d.(amp := d.amp + s.amp, primaries := d.primaries + s.primaries)
  }

  predicate MasksCover(masks: Option<seq<int>>, n: nat)
  {
    masks.Some? ==> n <= |masks.value|
  }

  /** The last input whose offset 10000000*i still fits an Int_t. */
  const LastUnwrappedInput: nat := 214

  /**
   * The offset added to the primaries of input i: the run digitizer's mask,
   * or 10000000*i computed in Int_t, which wraps around from input 215 on.
   */
  function PrimaryOffset(masks: Option<seq<int>>, i: nat): (o: int)
    requires MasksCover(masks, i + 1)
    ensures masks.Some? ==> o == masks.value[i]
  {
    if masks.Some? then masks.value[i] else Int32(InputPrimaryStride * i)
  }

  /**
   * Without masks, the offset of input i is an Int_t congruent to 10000000*i;
   * it is 10000000*i itself up to input 214 and differs from it after.
   */
  lemma StrideOffset(i: nat)
    ensures var o := PrimaryOffset(None, i);
            -0x8000_0000 <= o < 0x8000_0000 && (InputPrimaryStride * i - o) % 0x1_0000_0000 == 0
    ensures var o := PrimaryOffset(None, i);
            i <= LastUnwrappedInput ==> o % InputPrimaryStride == 0 && o / InputPrimaryStride == i
    ensures var o := PrimaryOffset(None, i);
            i > LastUnwrappedInput ==> o != InputPrimaryStride * i
  {
    var x := InputPrimaryStride * i;
    if i <= LastUnwrappedInput {
      assert x <= InputPrimaryStride * LastUnwrappedInput;
    } else {
      assert x >= InputPrimaryStride * (LastUnwrappedInput + 1);
    }
  }

  /** The summable digits of one input come sorted by channel id (several per channel allowed). */
  predicate SortedById(s: seq<Digit>)
  {
    forall j, k :: 0 <= j < k < |s| ==> s[j].id <= s[k].id
  }

  /** What Digitize assumes of an input: sorted, and every id a channel id (channels start at 1). */
  predicate ValidInput(s: seq<Digit>)
  {
    SortedById(s) && forall k :: 0 <= k < |s| ==> 1 <= s[k].id
  }

  predicate ValidInputs(inputs: seq<seq<Digit>>)
  {
    forall i :: 0 <= i < |inputs| ==> ValidInput(inputs[i])
  }

  /** Cursor k of input s is positioned for channel c: everything before it is below c, nothing after it is. */
  predicate AtChannel(s: seq<Digit>, k: int, c: int)
  {
    && 0 <= k <= |s|
    && (forall j :: 0 <= j < k ==> s[j].id < c)
    && (forall j :: k <= j < |s| ==> c <= s[j].id)
  }

  /** Every cursor is positioned for channel c+1 below input n and for channel c from input n on. */
  predicate CursorsSplit(inputs: seq<seq<Digit>>, cursors: seq<int>, n: int, c: int)
  {
    && |cursors| == |inputs|
    && forall i :: 0 <= i < |inputs| ==> AtChannel(inputs[i], cursors[i], if i < n then c + 1 else c)
  }

  /** Every cursor is positioned for channel c. */
  predicate CursorsAt(inputs: seq<seq<Digit>>, cursors: seq<int>, c: int)
  {
    CursorsSplit(inputs, cursors, 0, c)
  }

  /** The summable digits of s that belong to channel c, in their order in s. */
  function Matching(s: seq<Digit>, c: int): (r: seq<Digit>)
    ensures |r| <= |s|
    ensures forall k :: 0 <= k < |r| ==> r[k].id == c
  {
    if s == [] then []
    else Matching(s[..|s| - 1], c) + (if s[|s| - 1].id == c then [s[|s| - 1]] else [])
  }

  function ShiftAll(ss: seq<Digit>, offset: int): seq<Digit>
  {
    seq(|ss|, k requires 0 <= k < |ss| => ShiftPrimary(ss[k], offset))
  }

  /**
   * Everything the inputs 0..n-1 contribute to channel c, in folding order:
   * input by input, and within an input in sorted order, primaries shifted.
   */
  function Contributions(inputs: seq<seq<Digit>>, masks: Option<seq<int>>, c: int, n: nat): seq<Digit>
    requires n <= |inputs| && MasksCover(masks, n)
  {
    if n == 0 then []
    else Contributions(inputs, masks, c, n - 1)
         + ShiftAll(Matching(inputs[n - 1], c), PrimaryOffset(masks, n - 1))
  }

  /** d with the summable digits ss added one after the other. */
  function AddAll(d: Digit, ss: seq<Digit>): (r: Digit)
    ensures r.id == d.id && r.time == d.time && r.indexInList == d.indexInList
  {
    if ss == [] then d else Add(AddAll(d, ss[..|ss| - 1]), ss[|ss| - 1])
  }

  function SumAmps(ss: seq<Digit>): int
  {
    if ss == [] then 0 else ss[0].amp + SumAmps(ss[1..])
  }

  function PrimariesOf(ss: seq<Digit>): seq<int>
  {
    if ss == [] then [] else ss[0].primaries + PrimariesOf(ss[1..])
  }

  function Times(ss: seq<Digit>): seq<int>
  {
    seq(|ss|, k requires 0 <= k < |ss| => ss[k].time)
  }

  /** The entries of times before its first zero: FrontEdgeTime reads a zero as the end of the list. */
  function LeadingNonZero(times: seq<int>): (r: seq<int>)
    ensures r <= times
    ensures forall k :: 0 <= k < |r| ==> r[k] != 0
    ensures |r| < |times| ==> times[|r|] == 0
  {
    if times == [] || times[0] == 0 then [] else [times[0]] + LeadingNonZero(times[1..])
  }

  function MinOf(s: seq<int>): (m: int)
    requires s != []
    ensures m in s
    ensures forall k :: 0 <= k < |s| ==> m <= s[k]
  {
    if |s| == 1 then s[0]
    else
      var m' := MinOf(s[1..]);
      if s[0] <= m' then s[0] else m'
  }

  /** The front-edge time of a channel: the earliest time before the first zero, or zero if there is none. */
  function FrontEdge(times: seq<int>): (t: int)
    ensures LeadingNonZero(times) == [] ==> t == 0
    ensures LeadingNonZero(times) != [] ==>
              t in LeadingNonZero(times) && forall k :: 0 <= k < |LeadingNonZero(times)| ==> t <= LeadingNonZero(times)[k]
  {
    var l := LeadingNonZero(times);
    if l == [] then 0 else MinOf(l)
  }

  /**
   * The digit of channel c after the merge: the noise digit plus every
   * contribution; an EMC channel that received signal takes the front-edge
   * time of the contributions, every other digit keeps the time of noise.
   */
  function MergedDigit(c: int, noiseAmp: int, inputs: seq<seq<Digit>>, masks: Option<seq<int>>, emc: bool): (r: Digit)
    requires MasksCover(masks, |inputs|)
    ensures r.id == c && r.indexInList == -1
    ensures !emc ==> r.time == TimeOfNoise()
  {
    var cs := Contributions(inputs, masks, c, |inputs|);
    var d := AddAll(NoiseDigit(c, noiseAmp), cs);
    if emc && cs != [] then d.(time := FrontEdge(Times(cs))) else d
  }

  /** The digit array before suppression: position k holds channel k+1, EMC channels first. */
  function Merged(nEMC: nat, nCPV: nat, noise: seq<int>, cal: Calibration,
                  inputs: seq<seq<Digit>>, masks: Option<seq<int>>): (r: seq<Digit>)
    requires |noise| == nCPV && MasksCover(masks, |inputs|)
    ensures |r| == nCPV && forall k :: 0 <= k < nCPV ==> r[k].id == k + 1
  {
    var ms := seq(nCPV, k requires 0 <= k < nCPV =>
      MergedDigit(k + 1, cal.digitize(noise[k]), inputs, masks, k < nEMC));
    assert forall k :: 0 <= k < nCPV ==> ms[k] == MergedDigit(k + 1, cal.digitize(noise[k]), inputs, masks, k < nEMC);
    ms
  }

  /** Threshold of array position k: EMC positions come first. */
  function Threshold(k: int, nEMC: nat, cfg: Config): int
  {
    if k < nEMC then cfg.emcThreshold else cfg.cpvThreshold
  }

  /** The digit array after the digits below threshold were removed (a removed slot is empty). */
  function Suppressed(ds: seq<Digit>, nEMC: nat, cal: Calibration, cfg: Config): (r: seq<Option<Digit>>)
    ensures |r| == |ds|
    ensures forall k :: 0 <= k < |ds| ==>
              (r[k].None? <==> cal.calibrate(ds[k].amp) < Threshold(k, nEMC, cfg)) && (r[k].Some? ==> r[k].value == ds[k])
  {
    seq(|ds|, k requires 0 <= k < |ds| =>
      if cal.calibrate(ds[k].amp) < Threshold(k, nEMC, cfg) then None else Some(ds[k]))
  }

  /** The occupied slots, in order. */
  function Compact(slots: seq<Option<Digit>>): (r: seq<Digit>)
    ensures |r| <= |slots|
  {
    if slots == [] then []
    else Compact(slots[..|slots| - 1]) + (if slots[|slots| - 1].Some? then [slots[|slots| - 1].value] else [])
  }

  function Indexed(ds: seq<Digit>): seq<Digit>
  {
    seq(|ds|, k requires 0 <= k < |ds| => ds[k].(indexInList := k))
  }

  function SomeAll(ds: seq<Digit>): seq<Option<Digit>>
  {
    seq(|ds|, k requires 0 <= k < |ds| => Some(ds[k]))
  }

  function Nones(n: nat): seq<Option<Digit>>
  {
    seq(n, _ => None)
  }

  /** The digit list Digitize leaves behind for one event. */
  function Digitized(nEMC: nat, nCPV: nat, noise: seq<int>, cal: Calibration, cfg: Config,
                     inputs: seq<seq<Digit>>): (r: seq<Digit>)
    requires |noise| == nCPV && MasksCover(cfg.masks, |inputs|)
    ensures |r| <= nCPV && forall k :: 0 <= k < |r| ==> r[k].indexInList == k
  {
    Indexed(Compact(Suppressed(Merged(nEMC, nCPV, noise, cal, inputs, cfg.masks), nEMC, cal, cfg)))
  }

  function Min(a: int, b: int): int
  {
    if a <= b then a else b
  }

  predicate Pending(inputs: seq<seq<Digit>>, cursors: seq<int>, i: int)
    requires 0 <= i < |inputs| && |cursors| == |inputs|
  {
    0 <= cursors[i] < |inputs[i]|
  }

  /** The id under the cursor of input i, or NoSignal once that input is exhausted. */
  function PendingId(inputs: seq<seq<Digit>>, cursors: seq<int>, i: int): int
    requires 0 <= i < |inputs| && |cursors| == |inputs|
  {
    if Pending(inputs, cursors, i) then inputs[i][cursors[i]].id else NoSignal
  }

  /** The next signal channel over the inputs 0..n-1: the smallest id under a cursor, NoSignal if none. */
  function NextSignal(inputs: seq<seq<Digit>>, cursors: seq<int>, n: nat): (r: int)
    requires n <= |inputs| && |cursors| == |inputs|
    ensures r <= NoSignal && forall i :: 0 <= i < n ==> r <= PendingId(inputs, cursors, i)
  {
    if n == 0 then NoSignal else Min(NextSignal(inputs, cursors, n - 1), PendingId(inputs, cursors, n - 1))
  }
}
