/**
 * The "Backend" stage at the end of every chain (`brf_print_filter_function`):
 * it reads the job data chunk by chunk into a 64 KiB buffer, copies each
 * chunk to a debug file while debug logging is on, and writes each chunk to
 * the device. The input and the sinks are abstract: the input is the
 * sequence of chunks `read` returns before it returns 0 (end of file) or -1
 * (an error, which ends the loop the same way), and each write's outcome is
 * given by an oracle indexed by the chunk.
 */
module Backend {

  newtype byte = x: int | 0 <= x < 256

  type Chunk = seq<byte>

  /** `sizeof(buffer)`: one `read` returns at most this many bytes. */
  const BufferSize: nat := 65536

  /** The messages the stage logs, with the byte counts it reports. */
  datatype LogEntry =
    | CreatingDebugCopy
    | DebugCopyFailed(bytes: nat)
    | DeviceWriteFailed(bytes: nat)

  /** What one run of the stage leaves behind. */
  datatype BackendRun = BackendRun(
    status: int,           // the filter function's return value: 0 success, 1 failure
    device: seq<Chunk>,    // the chunks the device accepted, in order
    deviceWrites: nat,     // how many times `papplDeviceWrite` was called
    flushed: bool,         // whether `papplDeviceFlush` was called
    debugCopy: seq<byte>,  // the bytes that reached the debug copy
    log: seq<LogEntry>)

  /** Every successful `read` delivers between 1 and `BufferSize` bytes. */
  predicate ValidInput(input: seq<Chunk>)
  {
    forall k :: 0 <= k < |input| ==> 0 < |input[k]| <= BufferSize
  }

  /** One debug-write answer per chunk: `write` returns -1 or at most the length asked for. */
  predicate ValidDebugOracle(input: seq<Chunk>, debugWritten: seq<int>)
  {
    |debugWritten| == |input| && forall k :: 0 <= k < |input| ==> -1 <= debugWritten[k] <= |input[k]|
  }

  /** All chunks joined, in order. */
  function Concat(chunks: seq<Chunk>): seq<byte>
  {
    if chunks == [] then [] else Concat(chunks[..|chunks| - 1]) + chunks[|chunks| - 1]
  }

  /** The index of the first device write that fails, or the number of chunks when none does. */
  function FirstFailure(accepts: seq<bool>): (k: nat)
    ensures k <= |accepts|
  {
    if accepts == [] then 0
    else if !accepts[0] then 0
    else 1 + FirstFailure(accepts[1..])
  }

  /** `FirstFailure` is what it says: every earlier write was accepted, and this one was not. */
  lemma {:induction false} FirstFailureIsFirst(accepts: seq<bool>)
    ensures forall j :: 0 <= j < FirstFailure(accepts) ==> accepts[j]
    ensures FirstFailure(accepts) < |accepts| ==> !accepts[FirstFailure(accepts)]
  {
    if accepts != [] && accepts[0] {
      FirstFailureIsFirst(accepts[1..]);
    }
  }

  /** Stepping over one more accepted write, or stopping at the failing one. */
  lemma {:induction false} FirstFailureStep(accepts: seq<bool>, i: nat)
    requires i < |accepts| && i <= FirstFailure(accepts)
    ensures accepts[i] ==> i + 1 <= FirstFailure(accepts)
    ensures !accepts[i] ==> FirstFailure(accepts) == i
  {
    if i > 0 {
      FirstFailureStep(accepts[1..], i - 1);
    }
  }

  /** Among the first `n` chunks, the first whose debug write came up short, or `n`. */
  function TeeStop(input: seq<Chunk>, debugWritten: seq<int>, n: nat): (j: nat)
    requires n <= |input| == |debugWritten|
    ensures j <= n
  {
    if n == 0 then 0
    else
      var j := TeeStop(input, debugWritten, n - 1);
      if j < n - 1 || debugWritten[n - 1] != |input[n - 1]| then j else n
  }

  /** `TeeStop` is what it says: every earlier debug write was complete, and this one was not. */
  lemma {:induction false} TeeStopIsFirst(input: seq<Chunk>, debugWritten: seq<int>, n: nat)
    requires n <= |input| == |debugWritten|
    ensures forall i :: 0 <= i < TeeStop(input, debugWritten, n) ==> debugWritten[i] == |input[i]|
    ensures TeeStop(input, debugWritten, n) < n ==> debugWritten[TeeStop(input, debugWritten, n)] != |input[TeeStop(input, debugWritten, n)]|
  {
    if n > 0 {
      TeeStopIsFirst(input, debugWritten, n - 1);
    }
  }

  /** When no debug write among the first `n` came up short, the copy never stopped. */
  lemma {:induction false} TeeStopAllComplete(input: seq<Chunk>, debugWritten: seq<int>, n: nat)
    requires n <= |input| == |debugWritten|
    requires forall i :: 0 <= i < n ==> debugWritten[i] == |input[i]|
    ensures TeeStop(input, debugWritten, n) == n
  {
    if n > 0 {
      TeeStopAllComplete(input, debugWritten, n - 1);
    }
  }

  /** What a debug `write` that returned `w` put in the file: nothing on -1, else the first `w` bytes. */
  function Written(chunk: Chunk, w: int): (r: Chunk)
    requires w <= |chunk|
    ensures |r| <= |chunk| && r == chunk[..|r|]
    ensures w == |chunk| ==> r == chunk
    ensures w >= 0 ==> |r| == w
    ensures w < 0 ==> r == []
  {
    if w < 0 then [] else chunk[..w]
  }

  /**
   * The debug copy once the first `n` chunks were offered to it: a chunk
   * reaches the file (in whole or in part) while no earlier debug write
   * came up short.
   */
  function TeeCopy(input: seq<Chunk>, debugWritten: seq<int>, n: nat): seq<byte>
    requires n <= |input| && ValidDebugOracle(input, debugWritten)
  {
    if n == 0 then []
    else if TeeStop(input, debugWritten, n - 1) < n - 1 then TeeCopy(input, debugWritten, n - 1)
    else TeeCopy(input, debugWritten, n - 1) + Written(input[n - 1], debugWritten[n - 1])
  }

  /**
   * The debug copy is every chunk before the first short debug write,
   * followed by what that write managed.
   */
  lemma {:induction false} TeeCopyClosedForm(input: seq<Chunk>, debugWritten: seq<int>, n: nat)
    requires n <= |input| && ValidDebugOracle(input, debugWritten)
    ensures var j := TeeStop(input, debugWritten, n);
      TeeCopy(input, debugWritten, n) ==
        Concat(input[..j]) + (if j < n then Written(input[j], debugWritten[j]) else [])
  {
    if n > 0 {
      TeeCopyClosedForm(input, debugWritten, n - 1);
      var j := TeeStop(input, debugWritten, n - 1);
      var w := debugWritten[n - 1];
      if j == n - 1 && w == |input[n - 1]| {
        assert TeeStop(input, debugWritten, n) == n;
        assert TeeCopy(input, debugWritten, n) == Concat(input[..n - 1]) + input[n - 1];
        assert input[..n][..n - 1] == input[..n - 1];
      } else {
        assert TeeStop(input, debugWritten, n) == j;
      }
    }
  }

  /** The log entry of a debug copy that stopped among the first `n` chunks, if it did. */
  function TeeFailureLog(input: seq<Chunk>, debugWritten: seq<int>, n: nat): seq<LogEntry>
    requires n <= |input| && ValidDebugOracle(input, debugWritten)
  {
    var j := TeeStop(input, debugWritten, n);
    if j < n then [DebugCopyFailed(|input[j]|)] else []
  }

  /** Offering chunk `i` to the debug copy: what changes, by the outcome of its write. */
  lemma TeeAdvance(input: seq<Chunk>, debugWritten: seq<int>, i: nat)
    requires i < |input| && ValidDebugOracle(input, debugWritten)
    ensures TeeStop(input, debugWritten, i) == i && debugWritten[i] == |input[i]| ==>
      && TeeStop(input, debugWritten, i + 1) == i + 1
      && TeeCopy(input, debugWritten, i + 1) == TeeCopy(input, debugWritten, i) + input[i]
      && TeeFailureLog(input, debugWritten, i + 1) == []
    ensures TeeStop(input, debugWritten, i) == i && debugWritten[i] != |input[i]| ==>
      && TeeStop(input, debugWritten, i + 1) == i
      && TeeCopy(input, debugWritten, i + 1) == TeeCopy(input, debugWritten, i) + Written(input[i], debugWritten[i])
      && TeeFailureLog(input, debugWritten, i + 1) == [DebugCopyFailed(|input[i]|)]
    ensures TeeStop(input, debugWritten, i) < i ==>
      && TeeStop(input, debugWritten, i + 1) == TeeStop(input, debugWritten, i)
      && TeeCopy(input, debugWritten, i + 1) == TeeCopy(input, debugWritten, i)
      && TeeFailureLog(input, debugWritten, i + 1) == TeeFailureLog(input, debugWritten, i)
  {
  }

  /** The debug copy, its open flag and its part of the log after `n` chunks. */
  predicate TeeState(input: seq<Chunk>, debugWritten: seq<int>, n: nat, teeing: bool,
                     debugOpen: bool, copy: seq<byte>, opening: seq<LogEntry>, log: seq<LogEntry>)
    requires n <= |input| && ValidDebugOracle(input, debugWritten)
  {
    && debugOpen == (teeing && TeeStop(input, debugWritten, n) == n)
    && copy == (if teeing then TeeCopy(input, debugWritten, n) else [])
    && log == opening + (if teeing then TeeFailureLog(input, debugWritten, n) else [])
  }

  /** The tee step keeps `TeeState` from one chunk to the next. */
  lemma TeeStep(input: seq<Chunk>, debugWritten: seq<int>, i: nat, teeing: bool, opening: seq<LogEntry>,
                debugOpen: bool, copy: seq<byte>, log: seq<LogEntry>,
                stillOpen: bool, copy': seq<byte>, log': seq<LogEntry>)
    requires i < |input| && ValidDebugOracle(input, debugWritten)
    requires TeeState(input, debugWritten, i, teeing, debugOpen, copy, opening, log)
    requires var w := debugWritten[i];
      && stillOpen == (debugOpen && w == |input[i]|)
      && copy' == (if debugOpen then copy + Written(input[i], w) else copy)
      && log' == (if debugOpen && w != |input[i]| then log + [DebugCopyFailed(|input[i]|)] else log)
    ensures TeeState(input, debugWritten, i + 1, teeing, stillOpen, copy', opening, log')
  {
    TeeAdvance(input, debugWritten, i);
  }

  /**
   * The tee step for one chunk: while the debug copy is open the chunk is
   * written to it, and a write that comes up short logs the failure and
   * closes the copy.
   */
  method OfferToDebugCopy(bytes: Chunk, w: int, debugOpen: bool, copy: seq<byte>, log: seq<LogEntry>)
    returns (stillOpen: bool, copy': seq<byte>, log': seq<LogEntry>)
    requires -1 <= w <= |bytes|
    ensures stillOpen == (debugOpen && w == |bytes|)
    ensures copy' == if debugOpen then copy + Written(bytes, w) else copy
    ensures log' == if debugOpen && w != |bytes| then log + [DebugCopyFailed(|bytes|)] else log
  {
    stillOpen, copy', log' := debugOpen, copy, log;
    if debugOpen {
      copy' := copy + Written(bytes, w);
      if w != |bytes| {
        log' := log + [DebugCopyFailed(|bytes|)];
        stillOpen := false;  // close(debug_fd); debug_fd = -1
      }
    }
  }

  /**
   * The read/tee/write loop: stops at the first device write that fails
   * (`failed`, after `writes` calls) or at the end of the input.
   */
  method CopyLoop(input: seq<Chunk>, debugWritten: seq<int>, deviceAccepts: seq<bool>,
                  debugOpen: bool, opening: seq<LogEntry>)
    returns (failed: bool, writes: nat, stillOpen: bool, copy: seq<byte>, log: seq<LogEntry>)
    requires ValidInput(input)
    requires ValidDebugOracle(input, debugWritten) && |deviceAccepts| == |input|
    ensures var k := FirstFailure(deviceAccepts);
      && failed == (k < |input|)
      && writes == (if failed then k + 1 else |input|)
    ensures failed ==> |log| > 0 && log[|log| - 1] == DeviceWriteFailed(|input[writes - 1]|)
    ensures TeeState(input, debugWritten, writes, debugOpen, stillOpen, copy, opening,
      if failed then log[..|log| - 1] else log)
  {
    var open := debugOpen;
    copy, log := [], opening;
    stillOpen := open;
    var i := 0;
    while i < |input|
      invariant 0 <= i <= |input|
      invariant i <= FirstFailure(deviceAccepts)
      invariant TeeState(input, debugWritten, i, debugOpen, open, copy, opening, log)
    {
      var bytes := input[i];
      var open', copy', log' := OfferToDebugCopy(bytes, debugWritten[i], open, copy, log);
      TeeStep(input, debugWritten, i, debugOpen, opening, open, copy, log, open', copy', log');
      open, copy, log := open', copy', log';
      FirstFailureStep(deviceAccepts, i);
      if !deviceAccepts[i] {
        ghost var before := log;
        log := log + [DeviceWriteFailed(|bytes|)];
        assert log[..|log| - 1] == before;
        return true, i + 1, open, copy, log;
      }
      i := i + 1;
    }
    return false, |input|, open, copy, log;
  }

  /**
   * `brf_print_filter_function` without the stray `return (false)` after
   * the debug write: every chunk goes to the device in read order; a short
   * debug write closes the debug copy and the job goes on; the first failed
   * device write ends the stage with 1 and no further writes; reaching the
   * end of the input flushes the device and returns 0.
   */
  method PrintFilterFunction(input: seq<Chunk>, debugLevel: bool, debugOpens: bool,
                             debugWritten: seq<int>, deviceAccepts: seq<bool>)
    returns (run: BackendRun)
    requires ValidInput(input)
    requires ValidDebugOracle(input, debugWritten) && |deviceAccepts| == |input|
    ensures var k := FirstFailure(deviceAccepts);
      && run.status == (if k < |input| then 1 else 0)
      && run.device == input[..k]
      && run.deviceWrites == (if k < |input| then k + 1 else |input|)
      && run.flushed == (k == |input|)
    ensures var teeing := debugLevel && debugOpens;
      && run.debugCopy == (if teeing then TeeCopy(input, debugWritten, run.deviceWrites) else [])
      && run.log == (if debugLevel then [CreatingDebugCopy] else [])
                  + (if teeing then TeeFailureLog(input, debugWritten, run.deviceWrites) else [])
                  + (if run.status == 1 then [DeviceWriteFailed(|input[run.deviceWrites - 1]|)] else [])
  {
    var log: seq<LogEntry> := [];
    var debugOpen := false;  // debug_fd >= 0
    if debugLevel {
      log := log + [CreatingDebugCopy];
      debugOpen := debugOpens;
    }
    assert debugOpen == (debugLevel && debugOpens);
    var failed, writes, stillOpen, copy, log' := CopyLoop(input, debugWritten, deviceAccepts, debugOpen, log);
    var k := FirstFailure(deviceAccepts);
    if failed {
      run := BackendRun(1, input[..k], writes, false, copy, log');
      assert log' == log'[..|log'| - 1] + [log'[|log'| - 1]];
    } else {
      run := BackendRun(0, input, writes, true, copy, log');  // papplDeviceFlush
      assert input[..k] == input;
    }
  }

  /** Concatenating a prefix of the chunks gives a prefix of the bytes. */
  lemma {:induction false} ConcatPrefix(s: seq<Chunk>, k: nat)
    requires k <= |s|
    ensures Concat(s[..k]) <= Concat(s)
  {
    if k < |s| {
      var front := s[..|s| - 1];
      assert s[..k] == front[..k];
      ConcatPrefix(front, k);
      assert s[..|s|] == s;
    } else {
      assert s[..k] == s;
    }
  }

  /**
   * What reaches the device is the job's bytes cut at a chunk boundary,
   * and all of them when the stage returns 0: nothing is reordered,
   * duplicated or invented.
   */
  lemma DeviceGetsInputPrefix(input: seq<Chunk>, deviceAccepts: seq<bool>)
    requires |deviceAccepts| == |input|
    ensures Concat(input[..FirstFailure(deviceAccepts)]) <= Concat(input)
    ensures FirstFailure(deviceAccepts) == |input| ==>
      Concat(input[..FirstFailure(deviceAccepts)]) == Concat(input)
  {
    var k := FirstFailure(deviceAccepts);
    ConcatPrefix(input, k);
    if k == |input| {
      assert input[..k] == input;
    }
  }

  /** The debug copy is a verbatim prefix of the bytes offered to it. */
  lemma DebugCopyIsPrefix(input: seq<Chunk>, debugWritten: seq<int>, n: nat)
    requires n <= |input| && ValidDebugOracle(input, debugWritten)
    ensures TeeCopy(input, debugWritten, n) <= Concat(input[..n])
  {
    TeeCopyClosedForm(input, debugWritten, n);
    var j := TeeStop(input, debugWritten, n);
    if j < n {
      var s := input[..n];
      assert s[..j + 1] == input[..j + 1];
      assert input[..j + 1][..j] == input[..j];
      assert Concat(input[..j + 1]) == Concat(input[..j]) + input[j];
      ConcatPrefix(s, j + 1);
    } else {
      assert input[..n] == input[..j];
    }
  }

  /** When every debug write is complete, the debug copy is exactly the bytes offered. */
  lemma DebugCopyComplete(input: seq<Chunk>, debugWritten: seq<int>, n: nat)
    requires n <= |input| && ValidDebugOracle(input, debugWritten)
    requires forall i :: 0 <= i < n ==> debugWritten[i] == |input[i]|
    ensures TeeCopy(input, debugWritten, n) == Concat(input[..n])
  {
    TeeCopyClosedForm(input, debugWritten, n);
    TeeStopAllComplete(input, debugWritten, n);
    assert input[..n] == input[..TeeStop(input, debugWritten, n)];
  }

  /**
   * The code as written: the `return (false)` right after the debug write
   * ends the stage after the first chunk with status 0, before anything is
   * written to the device or flushed.
   */
  function PrintFilterAsWritten(input: seq<Chunk>, debugLevel: bool, debugOpens: bool,
                                debugWritten: seq<int>): (run: BackendRun)
    requires ValidInput(input) && ValidDebugOracle(input, debugWritten)
    ensures run.status == 0
    ensures |input| > 0 ==> run.deviceWrites == 0 && !run.flushed
  {
    var opening := if debugLevel then [CreatingDebugCopy] else [];
    if |input| == 0 then BackendRun(0, [], 0, true, [], opening)
    else
      var teeing := debugLevel && debugOpens;
      var w := debugWritten[0];
      var copy := if teeing then Written(input[0], w) else [];
      var failed := if teeing && w != |input[0]| then [DebugCopyFailed(|input[0]|)] else [];
      BackendRun(0, [], 0, false, copy, opening + failed)
  }

  /**
   * The discrepancy: one chunk of job data, a device that accepts it, and
   * the stage as written reports success while the printer got nothing.
   */
  lemma StrayReturnLosesJob(chunk: Chunk)
    requires 0 < |chunk| <= BufferSize
    ensures var run := PrintFilterAsWritten([chunk], false, false, [|chunk|]);
      run.status == 0 && Concat(run.device) == [] && Concat([chunk]) != []
  {
    assert [chunk][..0] == [];
  }
}
