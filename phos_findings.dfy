/**
 * The next-signal searches of AliPHOSDigitizer::Digitize as they are written,
 * next to the corrected search (PhosDigits.NextSignal) the rest of the model
 * uses.  TClonesArray::At past the last entry returns a null pointer, which
 * the source then dereferences; here that is the None result.
 */
module PhosFindings {
  import opened Wrappers
  import opened PhosDigits

  /**
   * Lines 258-263 and 296-301 as written: nextSig is not reset before the
   * search, so the minimum starts from its current value; reading the id
   * under the cursor of an exhausted input dereferences null (None).
   */
  function ScanNextAsWritten(start: int, inputs: seq<seq<Digit>>, cursors: seq<int>, n: nat): (r: Option<int>)
    requires n <= |inputs| && |cursors| == |inputs|
    ensures r.Some? <==> forall i :: 0 <= i < n ==> Pending(inputs, cursors, i)
  {
    if n == 0 then Some(start)
    else
      match ScanNextAsWritten(start, inputs, cursors, n - 1)
      case None => None
      case Some(m) =>
        if Pending(inputs, cursors, n - 1) then Some(Min(m, inputs[n - 1][cursors[n - 1]].id)) else None
  }

  /** Lines 204-210 as written: the first id of every input, read without checking that the input is non-empty. */
  function FirstSignalAsWritten(inputs: seq<seq<Digit>>, n: nat): (r: Option<int>)
    requires n <= |inputs|
    ensures r.Some? <==> forall i :: 0 <= i < n ==> inputs[i] != []
  {
    if n == 0 then Some(NoSignal)
    else
      match FirstSignalAsWritten(inputs, n - 1)
      case None => None
      case Some(m) => if inputs[n - 1] != [] then Some(Min(m, inputs[n - 1][0].id)) else None
  }

  /**
   * The as-written search never goes above the value nextSig already has:
   * once channel nextSig has been merged, every later channel is above
   * nextSig, so no later channel is ever recognised as a signal channel.
   */
  lemma {:induction false} AsWrittenNeverAdvances(start: int, inputs: seq<seq<Digit>>, cursors: seq<int>, n: nat)
    requires n <= |inputs| && |cursors| == |inputs|
    ensures ScanNextAsWritten(start, inputs, cursors, n).Some? ==> ScanNextAsWritten(start, inputs, cursors, n).value <= start
  {
    if n > 0 {
      AsWrittenNeverAdvances(start, inputs, cursors, n - 1);
    }
  }

  /**
   * When no input is exhausted and the search is started from NoSignal, as
   * the comment "Find next signal module" intends, the as-written search
   * finds the corrected next signal channel.
   */
  lemma {:induction false} AsWrittenFromNoSignal(inputs: seq<seq<Digit>>, cursors: seq<int>, n: nat)
    requires n <= |inputs| && |cursors| == |inputs|
    requires forall i :: 0 <= i < n ==> Pending(inputs, cursors, i)
    ensures ScanNextAsWritten(NoSignal, inputs, cursors, n) == Some(NextSignal(inputs, cursors, n))
  {
    if n > 0 {
      AsWrittenFromNoSignal(inputs, cursors, n - 1);
    }
  }

  /** With every input non-empty, the as-written first search is the corrected search from the start of every input. */
  lemma {:induction false} FirstSignalAgrees(inputs: seq<seq<Digit>>, cursors: seq<int>, n: nat)
    requires n <= |inputs| && |cursors| == |inputs|
    requires forall i :: 0 <= i < |inputs| ==> cursors[i] == 0
    requires forall i :: 0 <= i < n ==> inputs[i] != []
    ensures FirstSignalAsWritten(inputs, n) == Some(NextSignal(inputs, cursors, n))
  {
    if n > 0 {
      FirstSignalAgrees(inputs, cursors, n - 1);
    }
  }

  /**
   * One input holding channels 1 and 2: after channel 1 is merged the cursor
   * is at channel 2, the as-written search still answers 1 and channel 2
   * loses its signal; the corrected search answers 2.
   */
  lemma StaleNextSignal()
    ensures var inputs := [[Digit(1, 5, 3, [], -1), Digit(2, 7, 4, [], -1)]];
            && ScanNextAsWritten(1, inputs, [1], 1) == Some(1)
            && NextSignal(inputs, [1], 1) == 2
  {
  }

  /**
   * An input with no summable digit: the as-written first search
   * dereferences null, the corrected search reports no signal.
   */
  lemma EmptyInputDereferenced()
    ensures FirstSignalAsWritten([[]], 1) == None
    ensures NextSignal([[]], [0], 1) == NoSignal
  {
  }

  /**
   * An input whose last summable digit was merged: the as-written search
   * after that channel dereferences null, the corrected one skips it.
   */
  lemma ExhaustedInputDereferenced()
    ensures var inputs := [[Digit(1, 5, 3, [], -1)], [Digit(4, 2, 3, [], -1)]];
            && ScanNextAsWritten(1, inputs, [1, 0], 2) == None
            && NextSignal(inputs, [1, 0], 2) == 4
  {
  }
}
