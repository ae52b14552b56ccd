/**
 * The calls made on a logger returned by `getLogger` (src/lib/logging.ts and
 * the older src/logging.ts), and what a sequence of calls has logged.
 * Both loggers are specified through these functions.
 */
module LogTrace {
  datatype Call = LogCall(message: string) | CloseCall

  /** The messages logged before the first `close`; later ones are ignored. */
  function OpenLogs(calls: seq<Call>): seq<string>
  {
    if calls == [] then []
    else match calls[0]
      case CloseCall => []
      case LogCall(m) => [m] + OpenLogs(calls[1..])
  }

  /** How many times `close` was called. */
  function CloseCount(calls: seq<Call>): nat
  {
    if calls == [] then 0
    else (if calls[0] == CloseCall then 1 else 0) + CloseCount(calls[1..])
  }

  function Repeat<T>(line: T, n: nat): (lines: seq<T>)
    ensures |lines| == n && forall i :: 0 <= i < n ==> lines[i] == line
  {
    seq(n, _ => line)
  }

  lemma {:induction false} CloseCountZero(calls: seq<Call>)
    ensures CloseCount(calls) == 0 <==> CloseCall !in calls
    decreases |calls|
  {
    if calls != [] {
      CloseCountZero(calls[1..]);
      assert calls == [calls[0]] + calls[1..];
    }
  }

  /** A `log` adds its message when no `close` came before it, and nothing otherwise. */
  lemma {:induction false} AppendLogCall(calls: seq<Call>, m: string)
    ensures OpenLogs(calls + [LogCall(m)]) == if CloseCall in calls then OpenLogs(calls) else OpenLogs(calls) + [m]
    ensures CloseCount(calls + [LogCall(m)]) == CloseCount(calls)
    decreases |calls|
  {
    if calls == [] {
      assert OpenLogs([LogCall(m)]) == [m] + OpenLogs([]);
    } else {
      AppendLogCall(calls[1..], m);
      assert (calls + [LogCall(m)])[1..] == calls[1..] + [LogCall(m)];
      assert calls == [calls[0]] + calls[1..];
    }
  }

  /** A `close` leaves the logged messages alone and counts once more. */
  lemma {:induction false} AppendCloseCall(calls: seq<Call>)
    ensures OpenLogs(calls + [CloseCall]) == OpenLogs(calls)
    ensures CloseCount(calls + [CloseCall]) == CloseCount(calls) + 1
    decreases |calls|
  {
    if calls != [] {
      AppendCloseCall(calls[1..]);
      assert (calls + [CloseCall])[1..] == calls[1..] + [CloseCall];
    }
  }
}
