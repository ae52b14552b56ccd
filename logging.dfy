/**
 * src/lib/logging.ts: a logger that writes a bar line before its first
 * message, one line per message while open, and a closing line on every
 * `close` once something was logged. Standard output is the `written`
 * sequence of writes; whether the terminal supports unicode and the gray
 * colouring are parameters.
 */
module Logging {
  import opened LogTrace

  /** "│" where unicode is supported, "|" otherwise. */
  function Bar(unicode: bool): (bar: string)
    ensures unicode ==> bar == "│"
    ensures !unicode ==> bar == "|"
    ensures |bar| == 1
  {
    if unicode then "│" else "|"
  }

  /** The gray bar, two spaces, the message and a newline. */
  function GetMessage(gray: string -> string, unicode: bool, message: string): (line: string)
    ensures |line| == |gray(Bar(unicode))| + |message| + 3
    ensures line[..|gray(Bar(unicode))|] == gray(Bar(unicode))
    ensures line[|gray(Bar(unicode))|..] == "  " + message + "\n"
  {
    gray(Bar(unicode)) + "  " + message + "\n"
  }

  /** The header: the gray bar on a line of its own. */
  function Header(gray: string -> string, unicode: bool): string
  {
    gray(Bar(unicode)) + "\n"
  }

  /** What a logger writes for a sequence of calls: nothing if no message was
      logged before the first `close`; otherwise the header, those messages,
      and one closing line per `close`. */
  function Written(gray: string -> string, unicode: bool, calls: seq<Call>): seq<string>
  {
    var logs := OpenLogs(calls);
    if logs == [] then []
    else
      [Header(gray, unicode)]
      + seq(|logs|, i requires 0 <= i < |logs| => GetMessage(gray, unicode, logs[i]))
      + Repeat(GetMessage(gray, unicode, "\n"), CloseCount(calls))
  }

  class Logger {
    const gray: string -> string
    const unicode: bool
    var logged: bool
    var closed: bool
    /** Every string passed to `process.stdout.write`, in order. */
    var written: seq<string>
    ghost var calls: seq<Call>

    ghost predicate Valid()
      reads this
    {
      && logged == (OpenLogs(calls) != [])
      && closed == (CloseCall in calls)
      && written == Written(gray, unicode, calls)
    }

    constructor(gray: string -> string, unicode: bool)
      ensures Valid() && calls == [] && written == []
      ensures this.gray == gray && this.unicode == unicode
    {
      this.gray := gray;
      this.unicode := unicode;
      logged, closed, written := false, false, [];
      calls := [];
    }

    method Log(message: string)
      requires Valid()
      modifies this
      ensures Valid() && calls == old(calls) + [LogCall(message)]
      ensures written == old(written)
        + if old(closed) then []
          else (if old(logged) then [] else [Header(gray, unicode)]) + [GetMessage(gray, unicode, message)]
    {
      AppendLogCall(calls, message);
      CloseCountZero(calls);
      ghost var logs := OpenLogs(calls);
      if !closed {
        if !logged {
          written := written + [Header(gray, unicode)];
        }
        written := written + [GetMessage(gray, unicode, message)];
        logged := true;
      }
      calls := calls + [LogCall(message)];
      ghost var after := OpenLogs(calls);
      assert CloseCall !in old(calls) ==> after == logs + [message];
      assert CloseCall !in old(calls) ==>
        seq(|after|, i requires 0 <= i < |after| => GetMessage(gray, unicode, after[i]))
        == seq(|logs|, i requires 0 <= i < |logs| => GetMessage(gray, unicode, logs[i])) + [GetMessage(gray, unicode, message)];
    }

    method Close()
      requires Valid()
      modifies this
      ensures Valid() && calls == old(calls) + [CloseCall]
      ensures written == old(written) + if old(logged) then [GetMessage(gray, unicode, "\n")] else []
    {
      AppendCloseCall(calls);
      ghost var n := CloseCount(calls);
      if logged {
        written := written + [GetMessage(gray, unicode, "\n")];
      }
      closed := true;
      calls := calls + [CloseCall];
      assert Repeat(GetMessage(gray, unicode, "\n"), n + 1) == Repeat(GetMessage(gray, unicode, "\n"), n) + [GetMessage(gray, unicode, "\n")];
    }
  }

  /** The first message is preceded by the header; later ones are not. */
  lemma TwoMessagesThenClose(gray: string -> string, unicode: bool, a: string, b: string)
    ensures Written(gray, unicode, [LogCall(a), LogCall(b), CloseCall])
         == [Header(gray, unicode), GetMessage(gray, unicode, a), GetMessage(gray, unicode, b), GetMessage(gray, unicode, "\n")]
  {
    var last := [CloseCall];
    var tail := [LogCall(b)] + last;
    var calls := [LogCall(a)] + tail;
    assert calls[1..] == tail && tail[1..] == last && last[1..] == [];
    assert OpenLogs(last) == [] && CloseCount(last) == 1;
    assert OpenLogs(tail) == [b] && CloseCount(tail) == 1;
    assert OpenLogs(calls) == [a, b] && CloseCount(calls) == 1;
    assert calls == [LogCall(a), LogCall(b), CloseCall];
    var logs := OpenLogs(calls);
    assert seq(|logs|, i requires 0 <= i < |logs| => GetMessage(gray, unicode, logs[i]))
        == [GetMessage(gray, unicode, a), GetMessage(gray, unicode, b)];
    assert Repeat(GetMessage(gray, unicode, "\n"), 1) == [GetMessage(gray, unicode, "\n")];
  }

  /** A message logged after `close` is not written. */
  lemma LogAfterCloseIgnored(gray: string -> string, unicode: bool, calls: seq<Call>, m: string)
    ensures Written(gray, unicode, calls + [CloseCall, LogCall(m)]) == Written(gray, unicode, calls + [CloseCall])
  {
    AppendLogCall(calls + [CloseCall], m);
    assert calls + [CloseCall, LogCall(m)] == calls + [CloseCall] + [LogCall(m)];
    assert CloseCall in calls + [CloseCall];
  }

  /** `close` does not check `closed`: each further `close` writes the
      closing line again once something was logged. */
  lemma CloseAgainRepeatsTrailer(gray: string -> string, unicode: bool, calls: seq<Call>)
    requires OpenLogs(calls) != []
    ensures Written(gray, unicode, calls + [CloseCall]) == Written(gray, unicode, calls) + [GetMessage(gray, unicode, "\n")]
  {
    AppendCloseCall(calls);
    var t := GetMessage(gray, unicode, "\n");
    assert Repeat(t, CloseCount(calls) + 1) == Repeat(t, CloseCount(calls)) + [t];
  }

  /** A logger that logged nothing writes nothing, however often it is closed. */
  lemma {:induction false} SilentWithoutMessages(gray: string -> string, unicode: bool, n: nat)
    ensures Written(gray, unicode, Repeat(CloseCall, n)) == []
  {
    if n > 0 {
      assert Repeat(CloseCall, n)[0] == CloseCall;
    }
  }
}
