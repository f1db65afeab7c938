/**
 * The Audacity scripting-pipe client of tools/downsample.py: the session guard, the
 * connection scope, the command/response exchange and the macro runner. The two named
 * pipes are abstracted as a queue of response lines the editor has written; what is
 * written to the editor is kept in a ghost log.
 */
module AudacityDriver {
  import opened Wrappers
  import opened Errors
  import opened PyStr
  import Seqs

  /** The substring that marks the last line of every response. */
  const Marker := "BatchCommand finished:"
  /** The status is whatever follows the last occurrence of this separator on the marker line. */
  const StatusSep := ": "
  /** The query the session guard and `play` send. */
  const GetTracks := "GetInfo: Type=Tracks Format=JSON"

  /** One loaded track, as the decoded track listing describes it; only its end time is used. */
  datatype Track = Track(end: real)

  /** A line that ends a response: it contains the marker. */
  predicate IsSentinel(line: string)
  {
    Contains(line, Marker)
  }

  /**
   * The read loop of `_command`, once `body` has been read and `lines` are still to come:
   * the reply and the lines left unread. Lines are added to the body until a marker line is
   * read; unpacking the halves of the marker line's `rsplit(': ', 1)` fails when the line
   * holds no ": ", and otherwise the body is the reply. When the editor has written no
   * marker line, the read waits until the alarm fires.
   */
  function ReadLoop(lines: seq<string>, body: string): (x: (Result<string, Error>, seq<string>))
    ensures |x.1| <= |lines| && (lines != [] ==> |x.1| < |lines|)
    ensures x.0.Failure? ==>
      (x.0.error.NoStatus? && IsSentinel(x.0.error.line)) || (x.0.error == NotResponding && x.1 == [])
    decreases |lines|
  {
    if lines == [] then (Failure(NotResponding), [])
    else if !IsSentinel(lines[0]) then ReadLoop(lines[1..], body + lines[0])
    else if Contains(lines[0], StatusSep) then (Success(body), lines[1..])
    else (Failure(NoStatus(lines[0])), lines[1..])
  }

  /** What `_command` returns for the next response. */
  function Reply(lines: seq<string>): (reply: Result<string, Error>)
  {
    ReadLoop(lines, "").0
  }

  /** The lines `_command` leaves unread: everything after the first marker line. */
  function Unread(lines: seq<string>): (rest: seq<string>)
  {
    ReadLoop(lines, "").1
  }

  /**
   * One response frame: the body lines are concatenated after what was read before, the
   * marker line is not part of the body, it decides success, and everything after it stays
   * unread.
   */
  lemma {:induction false} ReadFrame(body: seq<string>, sentinel: string, rest: seq<string>, read: string)
    requires forall i :: 0 <= i < |body| ==> !IsSentinel(body[i])
    requires IsSentinel(sentinel)
    ensures ReadLoop(body + [sentinel] + rest, read) ==
      (if Contains(sentinel, StatusSep) then Success(read + Seqs.Concat(body)) else Failure(NoStatus(sentinel)), rest)
    decreases |body|
  {
    var lines := body + [sentinel] + rest;
    if body == [] {
      assert lines[0] == sentinel && lines[1..] == rest;
      assert read + Seqs.Concat(body) == read;
    } else {
      assert lines[0] == body[0] && lines[1..] == body[1..] + [sentinel] + rest;
      ReadFrame(body[1..], sentinel, rest, read + body[0]);
      Seqs.ConcatAppend([body[0]], body[1..]);
      assert [body[0]] + body[1..] == body;
      assert read + body[0] + Seqs.Concat(body[1..]) == read + Seqs.Concat(body);
    }
  }

  /** A response read from the start: the body is the concatenation of the lines before the marker line. */
  lemma ReadResponse(body: seq<string>, sentinel: string, rest: seq<string>)
    requires forall i :: 0 <= i < |body| ==> !IsSentinel(body[i])
    requires IsSentinel(sentinel)
    ensures Unread(body + [sentinel] + rest) == rest
    ensures Reply(body + [sentinel] + rest).Failure? <==> RSplitOnce(sentinel, StatusSep).None?
    ensures Reply(body + [sentinel] + rest).Success? ==> Reply(body + [sentinel] + rest).value == Seqs.Concat(body)
  {
    ReadFrame(body, sentinel, rest, "");
    RSplitOnceLast(sentinel, StatusSep);
  }

  /** Without a marker line among the lines written, the read consumes them all and times out. */
  lemma {:induction false} ReadTimeout(lines: seq<string>, read: string)
    requires forall i :: 0 <= i < |lines| ==> !IsSentinel(lines[i])
    ensures ReadLoop(lines, read) == (Failure(NotResponding), [])
    decreases |lines|
  {
    if lines != [] {
      assert forall i :: 0 <= i < |lines| - 1 ==> lines[1..][i] == lines[i + 1];
      ReadTimeout(lines[1..], read + lines[0]);
    }
  }

  /** The status `_command` prints for a marker line: the text after its last ": ", stripped. */
  function Status(line: string): (r: Option<string>)
    ensures r.Some? ==> |r.value| < |line|
  {
    match RSplitOnce(line, StatusSep)
    case None => None
    case Some((_, status)) => Some(Strip(status))
  }

  /**
   * There is a status exactly when the line holds ": "; it is what follows the last ": ",
   * without surrounding whitespace.
   */
  lemma StatusOfLine(line: string)
    ensures Status(line).None? <==> !Contains(line, StatusSep)
    ensures Status(line).Some? ==>
      exists i :: LastOccurrence(line, StatusSep, i) && Status(line).value == Strip(line[i + |StatusSep|..])
    ensures Status(line).Some? ==> var v := Status(line).value;
      v == [] || (!IsSpace(v[0]) && !IsSpace(v[|v| - 1]))
  {
    RSplitOnceLast(line, StatusSep);
    var r := RSplitOnce(line, StatusSep);
    if r.Some? {
      StripEnds(r.value.1);
    }
  }

  /** The lines left after `m` responses have been read. */
  function After(lines: seq<string>, m: nat): (rest: seq<string>)
    decreases m
  {
    if m == 0 then lines else After(Unread(lines), m - 1)
  }

  /** Reading `a` responses and then `b` more is reading `a + b` responses. */
  lemma {:induction false} AfterAdd(lines: seq<string>, a: nat, b: nat)
    ensures After(After(lines, a), b) == After(lines, a + b)
    decreases a
  {
    if a > 0 {
      AfterAdd(Unread(lines), a - 1, b);
    }
  }

  /** The next `m` responses, in the order they are read. */
  function Replies(lines: seq<string>, m: nat): (rs: seq<Result<string, Error>>)
    ensures |rs| == m
    decreases m
  {
    if m == 0 then [] else [Reply(lines)] + Replies(Unread(lines), m - 1)
  }

  /** How far a macro got: how many commands were written, the error that ended it, the unread lines. */
  datatype Run = Run(sent: nat, error: Option<Error>, rest: seq<string>)

  /** The same run, seen from `k` commands earlier. */
  function Later(x: Run, k: nat): (later: Run)
  {
    Run(x.sent + k, x.error, x.rest)
  }

  /**
   * The loop of `run_script` inside an open connection, over the commands of `script` and the
   * responses the editor writes: the first failing response ends it.
   */
  function Exchange(script: seq<string>, lines: seq<string>): (x: Run)
    ensures x.sent <= |script|
    ensures x.error.None? ==> x.sent == |script|
    ensures x.error.Some? ==> 0 < x.sent
    ensures x.error.Some? ==> x.error.value.NoStatus? || x.error.value == NotResponding
    decreases |script|
  {
    if script == [] then Run(0, None, lines)
    else
      var reply := Reply(lines);
      if reply.Failure? then Run(1, Some(reply.error), Unread(lines))
      else Later(Exchange(script[1..], Unread(lines)), 1)
  }

  /** What a macro leaves unread is what follows the responses to the commands it wrote. */
  lemma {:induction false} ExchangeRest(script: seq<string>, lines: seq<string>)
    ensures Exchange(script, lines).rest == After(lines, Exchange(script, lines).sent)
    decreases |script|
  {
    if script != [] && Reply(lines).Success? {
      ExchangeRest(script[1..], Unread(lines));
    }
  }

  /**
   * Midway through a macro: its first `i` commands have been answered successfully and
   * `pending` holds the responses to the rest.
   */
  ghost predicate Midway(script: seq<string>, lines: seq<string>, i: nat, pending: seq<string>)
  {
    i <= |script| && Exchange(script, lines) == Later(Exchange(script[i..], pending), i)
  }

  /** The next response either ends the macro with its error or moves it one command on. */
  lemma ExchangeAdvance(script: seq<string>, lines: seq<string>, i: nat, pending: seq<string>)
    requires Midway(script, lines, i, pending) && i < |script|
    ensures Reply(pending).Failure? ==>
      Exchange(script, lines) == Run(i + 1, Some(Reply(pending).error), Unread(pending))
    ensures Reply(pending).Success? ==> Midway(script, lines, i + 1, Unread(pending))
  {
    assert script[i..][1..] == script[i + 1..];
  }

  /** The outcome of a macro, read off the responses its commands would get. */
  function Outcome(rs: seq<Result<string, Error>>): (x: (nat, Option<Error>))
    ensures x.0 <= |rs|
  {
    if rs == [] then (0, None)
    else if rs[0].Failure? then (1, Some(rs[0].error))
    else var y := Outcome(rs[1..]); (y.0 + 1, y.1)
  }

  /**
   * Only the first failing response counts: every command before it succeeded, the macro
   * succeeds exactly when every response does, and otherwise stops at the failing one.
   */
  lemma {:induction false} OutcomeStopsAtFailure(rs: seq<Result<string, Error>>)
    ensures var x := Outcome(rs);
      (forall j :: 0 <= j < x.0 - 1 ==> rs[j].Success?)
      && (x.1.None? <==> forall j :: 0 <= j < |rs| ==> rs[j].Success?)
      && (x.1.None? ==> x.0 == |rs|)
      && (x.1.Some? ==> 0 < x.0 && rs[x.0 - 1] == Failure(x.1.value))
  {
    if rs != [] && rs[0].Success? {
      OutcomeStopsAtFailure(rs[1..]);
      assert forall j :: 0 < j < |rs| ==> rs[j] == rs[1..][j - 1];
    }
  }

  /** The macro loop writes and fails exactly as the outcome of the responses it reads says. */
  lemma {:induction false} ExchangeOutcome(script: seq<string>, lines: seq<string>)
    ensures var x := Exchange(script, lines); (x.sent, x.error) == Outcome(Replies(lines, |script|))
    decreases |script|
  {
    if script != [] {
      var rs := Replies(lines, |script|);
      assert rs[1..] == Replies(Unread(lines), |script| - 1);
      if Reply(lines).Success? {
        ExchangeOutcome(script[1..], Unread(lines));
      }
    }
  }

  /** One macro over one connection: nothing is written when the editor cannot be reached. */
  function ScriptRun(running: bool, script: seq<string>, lines: seq<string>): (x: Run)
    ensures x.sent <= |script|
    ensures !running ==> x == Run(0, Some(NotRunning), lines)
    ensures x.error.None? ==> running && x.sent == |script|
  {
    if !running then Run(0, Some(NotRunning), lines) else Exchange(script, lines)
  }

  /** A macro that ran to the end leaves unread what follows the responses to all its commands. */
  lemma ScriptRunRest(running: bool, script: seq<string>, lines: seq<string>)
    ensures running ==> ScriptRun(running, script, lines).rest == After(lines, ScriptRun(running, script, lines).sent)
  {
    if running {
      ExchangeRest(script, lines);
    }
  }

  /** What `track_info` yields: the decoded listing, or the error that stopped it. */
  function TrackListing(running: bool, lines: seq<string>, decode: string -> Option<seq<Track>>): (r: Result<seq<Track>, Error>)
  {
    if !running then Failure(NotRunning)
    else match Reply(lines)
      case Failure(e) => Failure(e)
      case Success(body) =>
        match decode(body)
        case None => Failure(BadJson(body))
        case Some(tracks) => Success(tracks)
  }

  class Audacity {
    /** Whether the editor's script pipes can be reached (Audacity runs with mod-script-pipe). */
    const running: bool
    /** Whether the attribute `TOHANDLE` is assigned. */
    var toHandle: bool
    /** Whether the attribute `FROMHANDLE` is assigned. */
    var fromHandle: bool
    /** Response lines the editor has written and the client has not read yet. */
    var pending: seq<string>
    /** Every command written to the editor, in order. */
    ghost var sent: seq<string>
    /** How many connections have been reached. */
    ghost var connections: nat

    /** Inside a connection scope: both pipe handles are assigned. */
    predicate Connected()
      reads this
    {
      toHandle && fromHandle
    }

    /** Outside every connection scope: neither handle is assigned. */
    predicate Released()
      reads this
    {
      !toHandle && !fromHandle
    }

    /** The transport before any interaction; `__init__`'s guard is `Attach`. */
    constructor (running: bool, replies: seq<string>)
      ensures this.running == running && pending == replies
      ensures Released() && sent == [] && connections == 0
    {
      this.running := running;
      toHandle, fromHandle := false, false;
      pending := replies;
      sent := [];
      connections := 0;
    }

    /**
     * Entering `_connection`: both handles are assigned when the editor's pipes can be
     * reached. An unreachable editor is modelled with neither assigned; the case where only
     * `TOHANDLE` is assigned ends with the same error and handle state once the `finally` has run.
     */
    method Open() returns (reached: bool)
      requires Released()
      modifies this`toHandle, this`fromHandle, this`connections
      ensures reached == running
      ensures toHandle == running && fromHandle == running
      ensures connections == old(connections) + (if running then 1 else 0)
    {
      if running {
        toHandle := true;
        fromHandle := true;
        connections := connections + 1;
      }
      reached := running;
    }

    /**
     * The `finally` of `_connection` as written: `del self.TOHANDLE, self.FROMHANDLE` deletes
     * the attributes left to right, and deleting one that is not assigned raises
     * AttributeError, which ends the statement.
     */
    method CloseAsWritten() returns (e: Option<Error>)
      modifies this`toHandle, this`fromHandle
      ensures e.None? <==> old(toHandle) && old(fromHandle)
      ensures e.Some? ==> e.value == MissingHandle
      ensures !toHandle && fromHandle == (old(fromHandle) && !old(toHandle))
    {
      if !toHandle {
        return Some(MissingHandle);
      }
      toHandle := false;
      if !fromHandle {
        return Some(MissingHandle);
      }
      fromHandle := false;
      e := None;
    }

    /** The `finally` of `_connection` as intended: the handles are dropped whether or not they were assigned. */
    method Close()
      modifies this`toHandle, this`fromHandle
      ensures Released()
    {
      toHandle, fromHandle := false, false;
    }

    /**
     * `_command`: writes the command, then reads lines until one contains the marker; the
     * earlier lines, concatenated, are the result, and unpacking the two halves of the marker
     * line's `rsplit(': ', 1)` fails when it holds no ": ".
     */
    method Command(command: string) returns (r: Result<string, Error>)
      requires Connected()
      modifies this`pending, this`sent
      ensures sent == old(sent) + [command]
      ensures (r, pending) == ReadLoop(old(pending), "")
    {
      sent := sent + [command];
      ghost var lines := pending;
      var line := "";
      var result := "";
      assert result + line == "";
      while !IsSentinel(line)
        invariant sent == old(sent) + [command]
        invariant !IsSentinel(line) ==> ReadLoop(lines, "") == ReadLoop(pending, result + line)
        invariant IsSentinel(line) ==>
          ReadLoop(lines, "") == (if Contains(line, StatusSep) then Success(result) else Failure(NoStatus(line)), pending)
        decreases |pending|
      {
        if pending == [] {
          return Failure(NotResponding);
        }
        result := result + line;
        line := pending[0];
        pending := pending[1..];
      }
      RSplitOnceLast(line, StatusSep);
      var halves := RSplitOnce(line, StatusSep);
      if halves.None? {
        r := Failure(NoStatus(line));
      } else {
        r := Success(result);
      }
    }

    /**
     * The body of `run_script`'s connection scope: the commands are written in order and the
     * first failing response ends it.
     */
    method RunCommands(script: seq<string>) returns (e: Option<Error>)
      requires Connected()
      modifies this`pending, this`sent
      ensures var x := Exchange(script, old(pending));
        e == x.error && sent == old(sent) + script[..x.sent] && pending == x.rest
    {
      ghost var lines := pending;
      var i := 0;
      while i < |script|
        invariant i <= |script|
        invariant sent == old(sent) + script[..i]
        invariant Midway(script, lines, i, pending)
      {
        ExchangeAdvance(script, lines, i, pending);
        assert script[..i + 1] == script[..i] + [script[i]];
        var r := Command(script[i]);
        if r.Failure? {
          return Some(r.error);
        }
        i := i + 1;
      }
      assert script[..i] == script;
      e := None;
    }

    /**
     * `run_script`: one connection for the whole macro, closed on every path; an editor that
     * cannot be reached is reported with the hint to check that Audacity is running.
     */
    method RunScript(script: seq<string>) returns (e: Option<Error>)
      requires Released()
      modifies this`toHandle, this`fromHandle, this`pending, this`sent, this`connections
      ensures Released()
      ensures connections == old(connections) + (if running then 1 else 0)
      ensures var x := ScriptRun(running, script, old(pending));
        e == x.error && sent == old(sent) + script[..x.sent] && pending == x.rest
      ensures e.None? ==> running && sent == old(sent) + script
    {
      var reached := Open();
      if !reached {
        Close();
        return Some(NotRunning);
      }
      e := RunCommands(script);
      Close();
    }

    /**
     * `run_script` with `_connection` as written: the OSError raised for an unreachable
     * editor is replaced by the AttributeError of the `finally`; a reached editor behaves as
     * in `RunScript`.
     */
    method RunScriptAsWritten(script: seq<string>) returns (e: Option<Error>)
      requires Released()
      modifies this`toHandle, this`fromHandle, this`pending, this`sent, this`connections
      ensures Released()
      ensures connections == old(connections) + (if running then 1 else 0)
      ensures !running ==> e == Some(MissingHandle) && sent == old(sent) && pending == old(pending)
      ensures running ==> var x := ScriptRun(running, script, old(pending));
        e == x.error && sent == old(sent) + script[..x.sent] && pending == x.rest
    {
      var reached := Open();
      var raised: Option<Error>;
      if !reached {
        raised := Some(NotRunning);
      } else {
        raised := RunCommands(script);
      }
      var cleanup := CloseAsWritten();
      e := if cleanup.Some? then cleanup else raised;
    }

    /** `single_command`: one command over its own connection; yields what `_command` returns. */
    method SingleCommand(command: string) returns (r: Result<string, Error>)
      requires Released()
      modifies this`toHandle, this`fromHandle, this`pending, this`sent, this`connections
      ensures Released()
      ensures connections == old(connections) + (if running then 1 else 0)
      ensures !running ==> r == Failure(NotRunning) && sent == old(sent) && pending == old(pending)
      ensures running ==> sent == old(sent) + [command] && (r, pending) == ReadLoop(old(pending), "")
    {
      var reached := Open();
      if !reached {
        Close();
        return Failure(NotRunning);
      }
      r := Command(command);
      Close();
    }

    /** `track_info`: the decoded listing of the loaded tracks. */
    method TrackInfo(decode: string -> Option<seq<Track>>) returns (r: Result<seq<Track>, Error>)
      requires Released()
      modifies this`toHandle, this`fromHandle, this`pending, this`sent, this`connections
      ensures Released() && r == TrackListing(running, old(pending), decode)
      ensures connections == old(connections) + (if running then 1 else 0)
      ensures sent == old(sent) + (if running then [GetTracks] else [])
      ensures pending == if running then Unread(old(pending)) else old(pending)
    {
      var body := SingleCommand(GetTracks);
      if body.Failure? {
        return Failure(body.error);
      }
      r := match decode(body.value)
        case None => Failure(BadJson(body.value))
        case Some(tracks) => Success(tracks);
    }
  }

  /**
   * `Audacity()`: the client checks that the editor answers and that no track is loaded;
   * it fails with TracksLoaded when the listing is not empty.
   */
  method Attach(running: bool, replies: seq<string>, decode: string -> Option<seq<Track>>) returns (r: Result<Audacity, Error>)
    ensures r.Success? <==> TrackListing(running, replies, decode) == Success([])
    ensures r.Failure? ==> r.error == match TrackListing(running, replies, decode)
      case Failure(e) => e
      case Success(_) => TracksLoaded
    ensures r.Success? ==>
      fresh(r.value) && r.value.Released() && r.value.running == running
      && r.value.sent == [GetTracks] && r.value.connections == 1 && r.value.pending == Unread(replies)
  {
    var client := new Audacity(running, replies);
    var tracks := client.TrackInfo(decode);
    if tracks.Failure? {
      return Failure(tracks.error);
    }
    if |tracks.value| > 0 {
      return Failure(TracksLoaded);
    }
    r := Success(client);
  }

  /**
   * With `_connection` as written, a macro raises AttributeError exactly when the editor
   * cannot be reached, and never the unreachable-editor OSError; that OSError, with its
   * hint, only survives as the AttributeError's context.
   */
  method UnreachableEditorAsWritten(running: bool, replies: seq<string>, script: seq<string>) returns (e: Option<Error>)
    ensures e == Some(MissingHandle) <==> !running
    ensures e != Some(NotRunning)
  {
    var client := new Audacity(running, replies);
    e := client.RunScriptAsWritten(script);
  }

  /**
   * With the intended `_connection`, a macro reports NotRunning exactly when the editor
   * cannot be reached, and never AttributeError.
   */
  method UnreachableEditorReported(running: bool, replies: seq<string>, script: seq<string>) returns (e: Option<Error>)
    ensures e == Some(NotRunning) <==> !running
    ensures e != Some(MissingHandle)
  {
    var client := new Audacity(running, replies);
    e := client.RunScript(script);
  }
}
