/**
 * The corpus side of tools/downsample.py: where the resampled copy of a sound file goes,
 * the ten-command macro that produces it, the loop over the sound files, and the length of
 * the loaded project that `play` waits for.
 */
module Downsample {
  import opened Wrappers
  import opened Errors
  import opened PyStr
  import opened PyInt
  import opened OsPath
  import opened Corpus
  import opened AudacityDriver
  import Seqs

  /** Integers up to this bound are exactly representable as IEEE doubles. */
  const FloatExact := 0x20_0000_0000_0000

  /**
   * The rates whose cutoff `newrate * 7 / 16` is a whole number of hertz that a Python
   * float holds exactly; 32000, 16000 and 8000 are the rates `main` uses.
   */
  predicate ExactCutoff(rate: int)
  {
    rate % 16 == 0 && -FloatExact < rate * 7 / 16 < FloatExact
  }

  /** `'{}'.format((newrate * 7) / 16)`: a whole float prints with a trailing ".0". */
  function CutoffText(rate: int): (text: string)
    requires ExactCutoff(rate)
  {
    IntToString(rate * 7 / 16) + ".0"
  }

  /** The cutoff is exact, with no rounding: 16 times it is 7 times the rate. */
  lemma CutoffExact(rate: int)
    requires ExactCutoff(rate)
    ensures 16 * (rate * 7 / 16) == 7 * rate
  {
    var q := rate / 16;
    assert rate == 16 * q;
    assert rate * 7 == 16 * (7 * q);
  }

  /** The cutoff text is the cutoff's digits followed by ".0", and they read back as the cutoff. */
  lemma CutoffReadsBack(rate: int)
    requires ExactCutoff(rate)
    ensures EndsWith(CutoffText(rate), ".0")
    ensures var t := CutoffText(rate); ParseInt(t[..|t| - 2]) == Success(rate * 7 / 16)
  {
    var t := CutoffText(rate);
    assert t[..|t| - 2] == IntToString(rate * 7 / 16);
    ParseIntToString(rate * 7 / 16);
  }

  /** The parts `newpath` joins onto the working directory: `rate/lang/country/voice/type/rate/filename`. */
  function OutputParts(wav: string, rate: int): (parts: seq<string>)
    ensures |parts| == 7
  {
    var r := IntToString(rate);
    [r, Component(wav, LangAt), Component(wav, CountryAt), Component(wav, VoiceAt),
     Component(wav, TypeAt), r, Component(wav, FilenameAt)]
  }

  /** The path `newpath` builds under the working directory `cwd`. */
  function OutputPath(cwd: string, wav: string, rate: int): (path: string)
  {
    JoinAll(cwd, OutputParts(wav, rate))
  }

  /** `newpath`: the output path, or an error when a file exists there (`files` are the existing files). */
  function NewPath(files: set<string>, cwd: string, wav: string, rate: int): (r: Result<string, Error>)
    ensures r.Failure? <==> OutputPath(cwd, wav, rate) in files
    ensures r.Success? ==> r.value == OutputPath(cwd, wav, rate) && r.value !in files
    ensures r.Failure? ==> r.error == OutputExists(OutputPath(cwd, wav, rate))
  {
    var out := OutputPath(cwd, wav, rate);
    if out in files then Failure(OutputExists(out)) else Success(out)
  }

  lemma SevenSegments(a: string, b: string, c: string, d: string, e: string, f: string, g: string)
    requires IsSegment(a) && IsSegment(b) && IsSegment(c) && IsSegment(d)
    requires IsSegment(e) && IsSegment(f) && IsSegment(g)
    ensures AllSegments([a, b, c, d, e, f, g])
  {
  }

  /**
   * Splitting the output path of a well-formed sound path gives back the joined parts, last
   * first: the input's filename, the new rate, the input's type, voice, country and
   * language, the new rate again.
   */
  lemma NewPathRoundTrip(cwd: string, wav: string, rate: int)
    requires WellFormed(wav)
    ensures forall n :: 0 <= n < 7 ==> Component(OutputPath(cwd, wav, rate), n) == OutputParts(wav, rate)[6 - n]
  {
    var parts := OutputParts(wav, rate);
    assert IsSegment(IntToString(rate));
    SevenSegments(parts[0], parts[1], parts[2], parts[3], parts[4], parts[5], parts[6]);
    assert parts == [parts[0], parts[1], parts[2], parts[3], parts[4], parts[5], parts[6]];
    forall n | 0 <= n < 7
      ensures Component(OutputPath(cwd, wav, rate), n) == parts[6 - n]
    {
      JoinAllComponent(cwd, parts, n);
    }
  }

  /** The path `newpath` returns, or names in its error, splits back into the output parts. */
  lemma NewPathComponents(files: set<string>, cwd: string, wav: string, rate: int)
    requires WellFormed(wav)
    ensures var r := NewPath(files, cwd, wav, rate);
      var p := if r.Success? then r.value else r.error.path;
      forall n :: 0 <= n < 7 ==> Component(p, n) == OutputParts(wav, rate)[6 - n]
  {
    NewPathRoundTrip(cwd, wav, rate);
  }

  /** The macro commands: a file name is quoted after `Filename=`. */
  function Import(wav: string): (cmd: string)
  {
    "Import2: Filename=\"" + wav + "\""
  }

  const SelectAll := "SelectAll:"

  function LowPass(cutoff: string): (cmd: string)
  {
    "Low-passFilter: frequency=" + cutoff + " rolloff=dB48"
  }

  function SetRate(rate: int): (cmd: string)
  {
    "SetProject: Rate=" + IntToString(rate)
  }

  function Export(out: string): (cmd: string)
  {
    "Export2: Filename=\"" + out + "\" NumChannels=1"
  }

  const TrackClose := "TrackClose:"

  /** The text between `before` and `after` in a command, if it is framed by them. */
  function Argument(command: string, before: string, after: string): (r: Option<string>)
    ensures r.Some? ==> before + r.value + after == command
  {
    if |before| + |after| <= |command| && StartsWith(command, before) && EndsWith(command, after) then
      var arg := command[|before|..|command| - |after|];
      assert command == command[..|before|] + arg + command[|command| - |after|..];
      Some(arg)
    else None
  }

  /** A command built from a prefix, an argument and a suffix yields that argument back. */
  lemma ArgumentOf(before: string, arg: string, after: string)
    ensures Argument(before + arg + after, before, after) == Some(arg)
  {
    var c := before + arg + after;
    assert c[..|before|] == before;
    assert c[|c| - |after|..] == after;
    assert c[|before|..|c| - |after|] == arg;
  }

  /** The per-file macro of `downsample`. */
  function Script(wav: string, out: string, rate: int): (s: seq<string>)
    requires ExactCutoff(rate)
    ensures |s| == 10
  {
    var filter := LowPass(CutoffText(rate));
    [Import(wav), SelectAll, filter, filter, filter, filter, filter, SetRate(rate), Export(out), TrackClose]
  }

  /** The macro imports the input first, exports to the output path and closes the track last. */
  lemma ScriptFiles(wav: string, out: string, rate: int)
    requires ExactCutoff(rate)
    ensures var s := Script(wav, out, rate);
      Argument(s[0], "Import2: Filename=\"", "\"") == Some(wav)
      && Argument(s[8], "Export2: Filename=\"", "\" NumChannels=1") == Some(out)
      && s[9] == TrackClose
  {
    ArgumentOf("Import2: Filename=\"", wav, "\"");
    ArgumentOf("Export2: Filename=\"", out, "\" NumChannels=1");
  }

  /**
   * Between import and export the macro selects everything, filters five times at the same
   * cutoff and sets the new rate; the cutoff and the rate read back out of the commands.
   */
  lemma ScriptSettings(wav: string, out: string, rate: int)
    requires ExactCutoff(rate)
    ensures var s := Script(wav, out, rate);
      s[1] == SelectAll
      && (forall i :: 2 <= i < 7 ==> s[i] == s[2])
      && Argument(s[2], "Low-passFilter: frequency=", " rolloff=dB48") == Some(CutoffText(rate))
      && Argument(s[7], "SetProject: Rate=", "") == Some(IntToString(rate))
  {
    ArgumentOf("Low-passFilter: frequency=", CutoffText(rate), " rolloff=dB48");
    ArgumentOf("SetProject: Rate=", IntToString(rate), "");
    assert SetRate(rate) == "SetProject: Rate=" + IntToString(rate) + "";
  }

  /** The rates `main` uses filter at 14000, 7000 and 3500 Hz, printed as floats. */
  lemma MainRates()
    ensures ExactCutoff(32000) && ExactCutoff(16000) && ExactCutoff(8000)
    ensures CutoffText(32000) == "14000.0"
    ensures CutoffText(16000) == "7000.0"
    ensures CutoffText(8000) == "3500.0"
  {
    assert 32000 * 7 / 16 == 14000 && 16000 * 7 / 16 == 7000 && 8000 * 7 / 16 == 3500;
    assert NatToString(14) == "14";
    assert NatToString(140) == "140";
    assert NatToString(1400) == "1400";
    assert NatToString(14000) == "14000";
    assert NatToString(70) == "70";
    assert NatToString(700) == "700";
    assert NatToString(7000) == "7000";
    assert NatToString(35) == "35";
    assert NatToString(350) == "350";
    assert NatToString(3500) == "3500";
  }

  /** The output paths of the sound files `wavs`, in order. */
  function Outputs(cwd: string, wavs: seq<string>, rate: int): (outs: seq<string>)
    ensures |outs| == |wavs|
  {
    seq(|wavs|, i requires 0 <= i < |wavs| => OutputPath(cwd, wavs[i], rate))
  }

  /** The commands the macros for the first `|outs|` sound files send, in order. */
  function Macros(wavs: seq<string>, outs: seq<string>, rate: int): (cmds: seq<string>)
    requires |outs| <= |wavs| && ExactCutoff(rate)
    ensures |cmds| == 10 * |outs|
  {
    if outs == [] then []
    else Macros(wavs, outs[..|outs| - 1], rate) + Script(wavs[|outs| - 1], outs[|outs| - 1], rate)
  }

  /** One more completed macro appends its commands. */
  lemma MacrosStep(wavs: seq<string>, outs: seq<string>, out: string, rate: int)
    requires |outs| < |wavs| && ExactCutoff(rate)
    ensures Macros(wavs, outs + [out], rate) == Macros(wavs, outs, rate) + Script(wavs[|outs|], out, rate)
  {
    assert (outs + [out])[..|outs|] == outs;
  }

  /** A macro that completes after `k` completed macros leaves the responses after `10 * (k + 1)` unread. */
  lemma MacroConsumed(running: bool, script: seq<string>, lines: seq<string>, k: nat)
    requires |script| == 10 && ScriptRun(running, script, After(lines, 10 * k)).error.None?
    ensures ScriptRun(running, script, After(lines, 10 * k)).rest == After(lines, 10 * (k + 1))
  {
    ScriptRunRest(running, script, After(lines, 10 * k));
    AfterAdd(lines, 10 * k, 10);
  }

  /**
   * One pass of the loop of `downsample`: places the output of `wav`, refusing a path in
   * `existing`, and runs its macro.
   */
  method Convert(client: Audacity, existing: set<string>, cwd: string, wav: string, rate: int)
      returns (e: Option<Error>, out: string)
    requires ExactCutoff(rate) && client.Released()
    modifies client`toHandle, client`fromHandle, client`pending, client`sent, client`connections
    ensures client.Released() && out == OutputPath(cwd, wav, rate)
    ensures out in existing ==>
      && e == Some(OutputExists(out))
      && client.sent == old(client.sent) && client.pending == old(client.pending)
      && client.connections == old(client.connections)
    ensures out !in existing ==>
      var script := Script(wav, out, rate);
      var x := ScriptRun(client.running, script, old(client.pending));
      && e == x.error
      && client.sent == old(client.sent) + script[..x.sent] && client.pending == x.rest
      && client.connections == old(client.connections) + (if client.running then 1 else 0)
    ensures e.None? ==> out !in existing && client.sent == old(client.sent) + Script(wav, out, rate)
  {
    var placed := NewPath(existing, cwd, wav, rate);
    if placed.Failure? {
      return Some(placed.error), placed.error.path;
    }
    out := placed.value;
    e := client.RunScript(Script(wav, out, rate));
  }

  /**
   * The outputs `written` so far are the first planned outputs; none existed at the start
   * or repeats, and `existing` holds the files at the start and those written.
   */
  ghost predicate Placed(files: set<string>, existing: set<string>, plan: seq<string>, written: seq<string>)
  {
    && |written| <= |plan| && written == plan[..|written|]
    && (forall x :: x in existing <==> x in files || x in written)
    && (forall x :: x in written ==> x !in files)
    && (forall x :: multiset(written)[x] <= 1)
  }

  /** Writing the next planned output, when it does not exist yet, keeps the outputs placed. */
  lemma PlacedStep(files: set<string>, existing: set<string>, plan: seq<string>, written: seq<string>)
    requires Placed(files, existing, plan, written) && |written| < |plan| && plan[|written|] !in existing
    ensures Placed(files, existing + {plan[|written|]}, plan, written + [plan[|written|]])
  {
    Seqs.TakeNext(plan, |written|);
  }

  /**
   * `downsample`: for each sound file in turn, places the output, refusing one that exists,
   * and runs its macro over one connection; the first error ends the run. `files` are the
   * files that exist at the start; the editor creates each output it exports. `written`
   * are the outputs of the macros that completed, each of which consumed ten responses.
   */
  method Downsample(client: Audacity, files: set<string>, cwd: string, wavs: seq<string>, rate: int)
      returns (e: Option<Error>, written: seq<string>)
    requires ExactCutoff(rate)
    requires client.Released()
    modifies client`toHandle, client`fromHandle, client`pending, client`sent, client`connections
    ensures client.Released()
    ensures |written| <= |wavs|
    ensures written == Outputs(cwd, wavs, rate)[..|written|]
    ensures forall x :: x in written ==> x !in files
    ensures forall x :: multiset(written)[x] <= 1
    ensures e.None? <==> |written| == |wavs|
    ensures e.None? ==>
      client.sent == old(client.sent) + Macros(wavs, written, rate)
      && client.pending == After(old(client.pending), 10 * |wavs|)
      && client.connections == old(client.connections) + |wavs|
    ensures e.Some? ==> var out := Outputs(cwd, wavs, rate)[|written|];
      out in files || out in written ==>
        && e == Some(OutputExists(out))
        && client.sent == old(client.sent) + Macros(wavs, written, rate)
        && client.pending == After(old(client.pending), 10 * |written|)
        && client.connections == old(client.connections) + |written|
    ensures e.Some? ==> var out := Outputs(cwd, wavs, rate)[|written|];
      out !in files && out !in written ==>
        var script := Script(wavs[|written|], out, rate);
        var x := ScriptRun(client.running, script, After(old(client.pending), 10 * |written|));
        && e == x.error
        && client.sent == old(client.sent) + Macros(wavs, written, rate) + script[..x.sent]
        && client.pending == x.rest
        && client.connections == old(client.connections) + |written| + (if client.running then 1 else 0)
  {
    written, e := [], None;
    var existing := files;
    ghost var plan := Outputs(cwd, wavs, rate);
    ghost var lines := client.pending;
    ghost var before := client.sent;
    ghost var count := client.connections;
    while |written| < |wavs|
      invariant client.Released() && e.None?
      invariant Placed(files, existing, plan, written)
      invariant client.sent == before + Macros(wavs, written, rate)
      invariant client.pending == After(lines, 10 * |written|)
      invariant client.connections == count + |written|
      decreases |wavs| - |written|
    {
      var out;
      ghost var start := client.pending;
      e, out := Convert(client, existing, cwd, wavs[|written|], rate);
      assert out == plan[|written|];
      if e.Some? {
        return;
      }
      ghost var script := Script(wavs[|written|], out, rate);
      MacroConsumed(client.running, script, lines, |written|);
      MacrosStep(wavs, written, out, rate);
      Seqs.AppendAssoc(before, Macros(wavs, written, rate), script);
      PlacedStep(files, existing, plan, written);
      written := written + [out];
      existing := existing + {out};
    }
  }

  /** The fold of `play`: the largest end time, or 0 when no track ends later. */
  method PlayLength(tracks: seq<Track>) returns (length: real)
    ensures 0.0 <= length && forall t :: t in tracks ==> t.end <= length
    ensures length == 0.0 || exists t :: t in tracks && t.end == length
  {
    var end := 0.0;
    for i := 0 to |tracks|
      invariant 0.0 <= end && forall j :: 0 <= j < i ==> tracks[j].end <= end
      invariant end == 0.0 || exists j :: 0 <= j < i && tracks[j].end == end
    {
      end := if end >= tracks[i].end then end else tracks[i].end;
    }
    length := end - 0.0;
  }

  /** The macro `play` runs once it knows how long to wait. */
  const PlayScript: seq<string> := ["CursProjectStart:", "PlayStop:"]

  /**
   * `play`: reads the track listing, then moves to the start and plays over one connection;
   * yields the length it would wait for.
   */
  method Play(client: Audacity, decode: string -> Option<seq<Track>>) returns (r: Result<real, Error>)
    requires client.Released()
    modifies client`toHandle, client`fromHandle, client`pending, client`sent, client`connections
    ensures client.Released()
    ensures !client.running ==> r == Failure(NotRunning)
    ensures var listing := TrackListing(client.running, old(client.pending), decode);
      listing.Failure? ==>
        && r == Failure(listing.error)
        && client.sent == old(client.sent) + (if client.running then [GetTracks] else [])
        && client.pending == (if client.running then Unread(old(client.pending)) else old(client.pending))
        && client.connections == old(client.connections) + (if client.running then 1 else 0)
    ensures var listing := TrackListing(client.running, old(client.pending), decode);
      listing.Success? ==>
        var x := ScriptRun(client.running, PlayScript, Unread(old(client.pending)));
        && (r.Failure? <==> x.error.Some?)
        && (r.Failure? ==> r.error == x.error.value)
        && client.sent == old(client.sent) + [GetTracks] + PlayScript[..x.sent]
        && client.pending == x.rest
        && client.connections == old(client.connections) + 2
    ensures r.Success? ==> var tracks := TrackListing(client.running, old(client.pending), decode).value;
      && 0.0 <= r.value
      && (forall t :: t in tracks ==> t.end <= r.value)
      && (r.value == 0.0 || exists t :: t in tracks && t.end == r.value)
  {
    var info := client.TrackInfo(decode);
    if info.Failure? {
      return Failure(info.error);
    }
    var length := PlayLength(info.value);
    var e := client.RunScript(PlayScript);
    if e.Some? {
      return Failure(e.value);
    }
    r := Success(length);
  }
}
