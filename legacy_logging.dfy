/**
 * src/logging.ts: the older logger. It writes no header, and its lines
 * carry no newline of their own; otherwise its state is that of the
 * logger in src/lib/logging.ts.
 */
module LegacyLogging {
  import opened LogTrace
  import Logging

  /** The gray bar, two spaces and the message, with no newline added. */
  function GetMessage(gray: string -> string, unicode: bool, message: string): (line: string)
    ensures |line| + 1 == |Logging.GetMessage(gray, unicode, message)|
    ensures line + "\n" == Logging.GetMessage(gray, unicode, message)
  {
    gray(Logging.Bar(unicode)) + "  " + message
  }

  /** Each message logged before the first `close`, then one closing line
      per `close` once something was logged. */
  function Written(gray: string -> string, unicode: bool, calls: seq<Call>): seq<string>
  {
    var logs := OpenLogs(calls);
    seq(|logs|, i requires 0 <= i < |logs| => GetMessage(gray, unicode, logs[i]))
      + if logs == [] then [] else Repeat(GetMessage(gray, unicode, "\n"), CloseCount(calls))
  }

  class Logger {
    const gray: string -> string
    const unicode: bool
    var logged: bool
    var closed: bool
    /** Every string passed to `process.stdout.write`, in order. */
    var written: seq<string>
    ghost var calls: seq<Call>

    ghost predicate Valid()
      reads this
    {
      && logged == (OpenLogs(calls) != [])
      && closed == (CloseCall in calls)
      && written == Written(gray, unicode, calls)
    }

    constructor(gray: string -> string, unicode: bool)
      ensures Valid() && calls == [] && written == []
      ensures this.gray == gray && this.unicode == unicode
    {
      this.gray := gray;
      this.unicode := unicode;
      logged, closed, written := false, false, [];
      calls := [];
    }

    method Log(message: string)
      requires Valid()
      modifies this
      ensures Valid() && calls == old(calls) + [LogCall(message)]
      ensures written == old(written) + if old(closed) then [] else [GetMessage(gray, unicode, message)]
    {
      AppendLogCall(calls, message);
      CloseCountZero(calls);
      ghost var logs := OpenLogs(calls);
      if !closed {
        written := written + [GetMessage(gray, unicode, message)];
        logged := true;
      }
      calls := calls + [LogCall(message)];
      ghost var after := OpenLogs(calls);
      assert CloseCall !in old(calls) ==>
        seq(|after|, i requires 0 <= i < |after| => GetMessage(gray, unicode, after[i]))
        == seq(|logs|, i requires 0 <= i < |logs| => GetMessage(gray, unicode, logs[i])) + [GetMessage(gray, unicode, message)];
    }

    method Close()
      requires Valid()
      modifies this
      ensures Valid() && calls == old(calls) + [CloseCall]
      ensures written == old(written) + if old(logged) then [GetMessage(gray, unicode, "\n")] else []
    {
      AppendCloseCall(calls);
      ghost var n := CloseCount(calls);
      if logged {
        written := written + [GetMessage(gray, unicode, "\n")];
      }
      closed := true;
      calls := calls + [CloseCall];
      assert Repeat(GetMessage(gray, unicode, "\n"), n + 1) == Repeat(GetMessage(gray, unicode, "\n"), n) + [GetMessage(gray, unicode, "\n")];
    }
  }

  /** Each message is one write of its own: there is no header. */
  lemma TwoMessagesThenClose(gray: string -> string, unicode: bool, a: string, b: string)
    ensures Written(gray, unicode, [LogCall(a), LogCall(b), CloseCall])
         == [GetMessage(gray, unicode, a), GetMessage(gray, unicode, b), GetMessage(gray, unicode, "\n")]
  {
    var last := [CloseCall];
    var tail := [LogCall(b)] + last;
    var calls := [LogCall(a)] + tail;
    assert calls[1..] == tail && tail[1..] == last && last[1..] == [];
    assert OpenLogs(last) == [] && CloseCount(last) == 1;
    assert OpenLogs(tail) == [b] && CloseCount(tail) == 1;
    assert OpenLogs(calls) == [a, b] && CloseCount(calls) == 1;
    assert calls == [LogCall(a), LogCall(b), CloseCall];
    var logs := OpenLogs(calls);
    assert seq(|logs|, i requires 0 <= i < |logs| => GetMessage(gray, unicode, logs[i]))
        == [GetMessage(gray, unicode, a), GetMessage(gray, unicode, b)];
    assert Repeat(GetMessage(gray, unicode, "\n"), 1) == [GetMessage(gray, unicode, "\n")];
  }

  /** A message logged after `close` is not written. */
  lemma LogAfterCloseIgnored(gray: string -> string, unicode: bool, calls: seq<Call>, m: string)
    ensures Written(gray, unicode, calls + [CloseCall, LogCall(m)]) == Written(gray, unicode, calls + [CloseCall])
  {
    AppendLogCall(calls + [CloseCall], m);
    assert calls + [CloseCall, LogCall(m)] == calls + [CloseCall] + [LogCall(m)];
    assert CloseCall in calls + [CloseCall];
  }

  /** The older logger writes the same lines as the newer one, less the
      header and less each line's final newline. */
  lemma MatchesNewerLogger(gray: string -> string, unicode: bool, calls: seq<Call>)
    ensures var newer := Logging.Written(gray, unicode, calls);
      var older := Written(gray, unicode, calls);
      && (older == [] <==> newer == [])
      && (newer != [] ==> |newer| == |older| + 1 && forall i :: 0 <= i < |older| ==> newer[i + 1] == older[i] + "\n")
  {
  }
}
