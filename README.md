# FreeSWITCH sound tools: a Dafny model

This project models the core of two helper scripts for a FreeSWITCH sound-file corpus, and
proves properties of the model. In the corpus, a recording lives at
`.../lang/country/voice/type/rate/file.wav`.

- `tools/downsample.py` drives the Audacity editor through its scripting pipes. For every
  recording it works out where the copy at a new rate goes and refuses to overwrite one.
  It then sends a ten-command macro: import, select, five low-pass filters at 7/16 of the
  new rate, resample, export, close. The client class checks at start-up that the editor
  answers and has no tracks loaded. `play` waits for the longest loaded track.
- `tools/transcribe.py` derives the speech-recognition settings from a recording's path.
  These are the language code, the model and the sample rate. It reads the file in
  chunks, finds the matching en-CA recording, and can resume a run after a given file.

Modules, one file each:

- `wrappers.dfy` holds `Wrappers`, with `Option` and `Result`. It also holds `Errors`, with
  one constructor per exception the scripts raise.
- `seqs.dfy` holds `Seqs`: flattening of a list of strings, and small sequence facts.
- `pystr.dfy` holds `PyStr`, the `str` methods the scripts call: `in`, `rfind`,
  `rsplit(sep, 1)`, `strip()`, `endswith`, `lstrip(chars)`, `lower`/`upper`, and
  `split`/`join` on one character.
- `pyint.dfy` holds `PyInt`: `str(int)` and `int(str)`.
- `ospath.dfy` holds `OsPath`: POSIX `os.path.split` and `os.path.join`, including the
  trimming of trailing separators. It also defines the n-th component counted from the end.
- `corpus.dfy` holds `Corpus`: the path layout and `split_path`, which both scripts define
  the same way.
- `audacity.dfy` holds `AudacityDriver`: the `Audacity` class as a Dafny class.
  - The two pipes become a queue of response lines the editor has written, `pending`.
  - A ghost log, `sent`, records the commands written.
  - `toHandle` and `fromHandle` say whether the attributes `TOHANDLE` and `FROMHANDLE`
    are assigned.
  - Pure functions specify the response reading and the macro loop.
- `downsample.dfy` holds `Downsample`: `newpath`, the macro, the `downsample` loop and `play`.
- `transcribe.dfy` holds `Transcribe`: `select_model`, the settings of `recognize`,
  `filegen`, `check_enCA` and the `--resume_after` loop of `main`.

The file system is a set of existing paths. The working directory, the list of recordings
and the JSON decoder are parameters.

An output that already exists is never overwritten: `newpath` raises OSError and the whole
run stops (tools/downsample.py:124-125), as the module's docstring says ("Quits if a file
exists", tools/downsample.py:8). That is what `Downsample.Downsample` states.

The editor's response read waits on `readline` until a line holding
`BatchCommand finished:` arrives, guarded by a four-second alarm. The model reads from the
lines the editor has written. When none of them is a marker line, the read ends with the
alarm's error, `NotResponding`. That way every read has an outcome and no precondition is
needed.

## Model

| member | source | states |
|---|---|---|
| Corpus.SplitPath | tools/downsample.py:91-96 | `split_path` (also tools/transcribe.py:14-19) files exactly the six keys. The i-th key gets the i-th path component counted from the end, each taken by one more `os.path.split` of the previous head. |
| Corpus.KeysDistinct | tools/downsample.py:94 | The six keys differ from one another, so no component overwrites another. |
| OsPath.SplitTail | tools/downsample.py:95 | `os.path.split` puts everything after the last `/` in the tail, which therefore holds no separator. |
| OsPath.SplitHead | tools/downsample.py:95 | The head is everything up to the last `/`. Its trailing separators are removed unless it is nothing but separators. |
| OsPath.TrimSepsSpec | tools/downsample.py:95 | The head trimming removes exactly the separators at the end of the head, and nothing else. |
| OsPath.LastSepIsLast | tools/downsample.py:95 | The separator the split uses is the last one in the path. |
| OsPath.SplitJoin | tools/downsample.py:114-123 | Splitting `os.path.join(a, b)` for a separator-free segment `b` gives back `a` and `b`, when `a` does not end in `/`. |
| OsPath.JoinAllAncestor | tools/downsample.py:114-123 | Peeling n components off a multi-part join leaves the join of all but the last n parts. |
| OsPath.JoinAllComponent | tools/downsample.py:114-123 | The n-th component from the end of a multi-part join is the n-th part from the end. |
| Downsample.NewPath | tools/downsample.py:111-128 | `newpath` fails exactly when the joined output path is an existing file, with `OutputExists` carrying that path. Otherwise it returns that path, which is not an existing file. |
| Downsample.NewPathRoundTrip | tools/downsample.py:113-123 | For a recording whose six components are non-empty, splitting the output path gives the join's parts back, last first: filename, new rate, type, voice, country, language, new rate. |
| Downsample.NewPathComponents | tools/downsample.py:111-128 | The same holds for the path `newpath` returns, or names in its error. |
| Downsample.CutoffExact | tools/downsample.py:134 | For rates divisible by 16, the cutoff `newrate * 7 / 16` is exact: 16 times it is 7 times the rate. |
| Downsample.CutoffReadsBack | tools/downsample.py:134-142 | The printed cutoff ends in `.0`, and the digits before it read back as the cutoff. |
| Downsample.MainRates | tools/downsample.py:165-167 | The three rates of `main` filter at 14000.0, 7000.0 and 3500.0 Hz. |
| Downsample.ScriptFiles | tools/downsample.py:135-146 | The macro imports the recording first, exports to the output path as its ninth command, and closes the track last. Both file names read back out of the quoted commands. |
| Downsample.ScriptSettings | tools/downsample.py:137-143 | Between import and export, the macro selects everything, then applies five identical low-pass filters at the cutoff, then sets the new rate. Cutoff and rate read back out of the commands. |
| Downsample.ArgumentOf | tools/downsample.py:136-144 | A command built from a prefix, an argument and a suffix yields exactly that argument back. |
| Downsample.MacrosStep | tools/downsample.py:132-147 | Completing one more recording appends that recording's ten commands to those already sent. |
| Downsample.Convert | tools/downsample.py:133-147 | One pass of the loop: an output in the existing set stops it with `OutputExists` and sends, reads and connects nothing. Otherwise the macro runs as `ScriptRun` says: its error, the commands written up to the failing one and the lines left unread. On success the output was new and the whole macro was sent. |
| Downsample.Downsample | tools/downsample.py:130-147 | The outputs written are the planned outputs of the first recordings, in order. None of them existed and none repeats. The run succeeds exactly when every recording was converted, having sent every macro in order. Every completed macro consumed ten responses. Every macro run opens one connection when the editor can be reached: one per recording on success, one per completed macro when an output exists, and one more for the failing macro when the editor stopped the run. A run stopped by an existing output reports that output and has sent only the completed macros. A run stopped by the editor reports the failing macro's error and has sent the completed macros plus that macro's commands up to the failing one. |
| Downsample.PlayLength | tools/downsample.py:175-178 | The length is at least 0 and at least every track's end. It is 0 or the end of some track. |
| Downsample.Play | tools/downsample.py:169-180 | `play` asks for the listing; its error ends `play` after one query. Otherwise it runs `CursProjectStart:` and `PlayStop:` over a second connection, and fails exactly when that macro does. The wait is the largest track end, or 0: at least every end and equal to one of them unless 0. It fails with `NotRunning` when the editor cannot be reached. |
| AudacityDriver.ReadLoop | tools/downsample.py:77-82 | The read consumes lines up to the first marker line. It fails only on a marker line without `: `, or with `NotResponding` after consuming everything. |
| AudacityDriver.ReadFrame | tools/downsample.py:77-82 | Reading body lines, then a marker line, then more: the reply is the body lines concatenated. It fails exactly when the marker line holds no `: `. The lines after the marker line stay unread. |
| AudacityDriver.ReadResponse | tools/downsample.py:77-88 | From the start of a response, `_command` returns the concatenated body. It fails exactly when `rsplit(': ', 1)` yields one part. |
| AudacityDriver.ReadTimeout | tools/downsample.py:69-81 | Without a marker line among the lines written, the read consumes them all and ends with the alarm's `NotResponding`. |
| AudacityDriver.StatusOfLine | tools/downsample.py:82-83 | The printed status exists exactly when the line holds `: `. It is the text after the last `: `, stripped at both ends. |
| AudacityDriver.Exchange | tools/downsample.py:51-53 | The macro loop writes at most the whole script. Without an error it writes all of it; with an error it has written at least one command, and the error is a missing status or the alarm's `NotResponding`. |
| AudacityDriver.ExchangeOutcome | tools/downsample.py:51-53 | The number of commands written and the error are those of the first failing response among the script's responses. |
| AudacityDriver.OutcomeStopsAtFailure | tools/downsample.py:51-53 | Every response before the stopping point succeeded. The macro succeeds exactly when every response does; otherwise it stops right after the first failing one. |
| AudacityDriver.ExchangeRest | tools/downsample.py:51-53 | What a macro leaves unread is what follows the responses to the commands it wrote. |
| AudacityDriver.ScriptRun | tools/downsample.py:50-53 | A macro against an unreachable editor writes nothing and fails with `NotRunning`. Success means the editor was reached and every command was written. |
| AudacityDriver.ScriptRunRest | tools/downsample.py:50-53 | A macro that reached the editor leaves unread what follows the responses to the commands it wrote. |
| AudacityDriver.UnreachableEditorReported | tools/downsample.py:34-53 | With the intended `_connection`, a macro reports `NotRunning` exactly when the editor cannot be reached, and never AttributeError. |
| AudacityDriver.UnreachableEditorAsWritten | tools/downsample.py:34-53 | As written, a macro reports the `del`'s AttributeError exactly when the editor cannot be reached, and never the unreachable-editor OSError (`NotRunning`). |
| AudacityDriver.Audacity.Open | tools/downsample.py:37-41 | Entering the scope assigns both handles exactly when the editor can be reached, and counts the connection. |
| AudacityDriver.Audacity.CloseAsWritten | tools/downsample.py:45-46 | `del self.TOHANDLE, self.FROMHANDLE` succeeds exactly when both handles are assigned; otherwise it raises AttributeError. Afterwards `TOHANDLE` is unassigned, and `FROMHANDLE` stays assigned only when deleting `TOHANDLE` failed. |
| AudacityDriver.Audacity.Close | tools/downsample.py:45-46 | The intended `finally` leaves neither handle assigned, whatever was assigned before. |
| AudacityDriver.Audacity.RunCommands | tools/downsample.py:51-53 | Inside the scope, the commands are written in order and the first failing response ends the loop, exactly as `Exchange` says. |
| AudacityDriver.Audacity.RunScriptAsWritten | tools/downsample.py:34-53 | `run_script` with `_connection` as written: an unreachable editor yields AttributeError with nothing written or read. A reached editor behaves exactly as `ScriptRun` says. |
| AudacityDriver.Audacity.Command | tools/downsample.py:67-88 | `_command` appends the command to what was written. Its result and the lines left unread are those of the read loop. |
| AudacityDriver.Audacity.RunScript | tools/downsample.py:50-53 | `run_script` opens one connection and closes it on every path. It writes the commands in order and stops at the first failure, exactly as `ScriptRun` says. On success it has written the whole script. |
| AudacityDriver.Audacity.SingleCommand | tools/downsample.py:55-58 | `single_command` writes nothing and fails with `NotRunning` when the editor cannot be reached. Otherwise it writes the one command and returns `_command`'s result, over its own connection. |
| AudacityDriver.Audacity.TrackInfo | tools/downsample.py:60-62 | `track_info` sends the listing query once and consumes one response. It yields the decoded listing, or the read, decode or connection error. |
| AudacityDriver.Audacity.constructor | tools/downsample.py:19-28 | A client starts with no handles assigned, nothing written and the editor's responses still to be read. |
| AudacityDriver.Attach | tools/downsample.py:19-32 | The client is created exactly when the listing is read and empty. A non-empty listing raises `TracksLoaded`; otherwise the read or connection error propagates. A new client has sent only the listing query. |
| PyStr.ContainsOccurs | tools/downsample.py:79 | Python's `in` holds exactly when the substring occurs at some index. |
| PyStr.RFindLast | tools/downsample.py:82 | `rfind` returns the last occurrence, and -1 exactly when there is none. |
| PyStr.RSplitOnceLast | tools/downsample.py:82 | `rsplit(sep, 1)` splits at the last occurrence, and yields one part exactly when the separator is absent. |
| PyStr.StripEnds | tools/downsample.py:83 | What `strip()` keeps neither starts nor ends with whitespace. |
| PyStr.StripPadded | tools/transcribe.py:42 | Surrounding a stripped text with whitespace and stripping it again gives the text back. |
| PyStr.LStrip | tools/transcribe.py:105 | `lstrip(chars)` removes a prefix made only of those characters, and what is left does not start with one. |
| PyStr.JoinSplit | tools/transcribe.py:74-78 | Joining the parts of `split('/')` with `/` gives the text back. |
| PyStr.SplitJoin | tools/transcribe.py:74-78 | Splitting the join of separator-free parts gives the parts back. |
| PyInt.ParseInt | tools/transcribe.py:42 | `int()` fails only with `NotAnInteger` on the text it was given. |
| PyInt.ParseIntToString | tools/downsample.py:116 | `int(str(i))` is `i` for every integer. |
| Transcribe.SelectModel | tools/transcribe.py:6-12 | The model is `video` exactly for `en-US`, `phone_call` exactly for `en-GB` and `es-US`, and `default` exactly for every other code. |
| Transcribe.LanguageCodeParts | tools/transcribe.py:37 | For dash-free directories, the code splits at its one dash into the lowered language and the raised country. |
| Transcribe.RecognitionConfig | tools/transcribe.py:36-42 | The settings fail exactly when `int()` rejects the rate directory. Otherwise the code comes from the language and country directories, the model is chosen for that code, and the rate is the rate directory read as an integer. |
| Transcribe.Configure | tools/transcribe.py:36-42 | Reading the path with `split_path` gives exactly those settings. |
| Transcribe.RateReadsBack | tools/transcribe.py:42 | A rate directory written by `str(rate)` reads back as that rate. An output of `newpath` thus carries its new rate. |
| Transcribe.AmericanEnglish | tools/transcribe.py:103 | Every recording under `en/us` is recognised as `en-US` with the `video` model. |
| Transcribe.FileGen | tools/transcribe.py:21-27 | The chunks concatenate to the file. Every chunk but the last is full, and the last is shorter, empty exactly when the size divides the length. There are length / size + 1 chunks. |
| Transcribe.ChunkCount | tools/transcribe.py:21-27 | q full chunks and a short one of r bytes make q·size + r bytes, and no other chunk count fits that many. |
| Transcribe.CanadianParts | tools/transcribe.py:74-77 | The segment count is kept. Segments -6, -5 and -4 become `en`, `ca` and `june`; every other segment is unchanged. |
| Transcribe.CanadianPathParts | tools/transcribe.py:74-78 | The en-CA path splits back into exactly the rewritten segments. |
| Transcribe.CheckEnCA | tools/transcribe.py:72-79 | `check_enCA` fails with IndexError exactly when the path has fewer than six `/`-separated segments. Otherwise it answers whether the en-CA path is an existing file. |
| Transcribe.FirstEndingSpec | tools/transcribe.py:105 | The search finds a path ending with the suffix and none before it, and finds nothing exactly when no path ends with it. |
| Transcribe.ResumedSpec | tools/transcribe.py:103-108 | Without skipping every path is transcribed. While skipping, nothing up to and including the first path ending with the suffix is transcribed, everything after it is, and nothing is when no path matches. |
| Transcribe.Resume | tools/transcribe.py:103-108 | The loop of `main` hands every path to `recognize` when `--resume_after` is unset or empty. Otherwise it hands on exactly the paths after the first one ending with the marker (leading `~` and `.` removed), and none when no path matches. |

## Findings

| source | as written | input that shows it | evidently intended | confidence | as-written member | corrected member |
|---|---|---|---|---|---|---|
| tools/downsample.py:43-46 | When opening a pipe fails or times out, `self.TOHANDLE` or `self.FROMHANDLE` was never assigned: on the first connection it never was, and on later ones the previous `finally` deleted it. The `del` in `finally` then raises AttributeError, and that is the exception that propagates. The OSError carrying "Check that Audacity is running." survives only as its context in the traceback. | Audacity not running, so `open(self.TONAME, 'w')` raises or blocks until the alarm | Propagate the OSError with the hint to check that Audacity is running | not executed | AudacityDriver.UnreachableEditorAsWritten | AudacityDriver.UnreachableEditorReported |

`AudacityDriver.Audacity.RunScriptAsWritten` models the scope as written. Its handle state comes from `Open`, and its error from `CloseAsWritten`. The rest of the model uses the intended `Close`: `ScriptRun`, `RunScript`, `SingleCommand`, `TrackInfo` and `Attach` report `NotRunning`.

## Left out

- Named pipes are not modelled: their names, the end-of-line per platform (tools/downsample.py:20-27, 73), and the writes and flushes. What is written is the ghost log `sent`, and what is read is the line queue `pending`.
- Timing is not modelled: `signal.alarm`, SIGALRM, `sleep(0.1)` and `play`'s `sleep(length)`. The only alarm outcome in the model is `NotResponding`, for a read that finds no marker line.
- When the editor cannot be reached, the two-second alarm and a failing `open` are one case. Reachability is the constant `running` of a client, so the editor cannot disappear mid-run.
- An OSError raised inside the connection scope gets the hint "Check that Audacity is running." appended to its message. The model keeps the error's cause, `NotResponding`, and not its message text.
- Printing is not modelled: the status line of `_command`, the CSV lines of `main` in tools/transcribe.py, and the file-exists messages. The printed status itself is `AudacityDriver.Status`.
- `json.loads` of the track listing is the parameter `decode`, and its failure is `BadJson`.
- `os.walk` and `get_wavs` (both scripts), `os.getcwd`, `os.makedirs` and `os.path.isfile` are not modelled as calls. The recordings are a parameter list, the working directory is a parameter, and existing files are a set. The editor's export is taken to create the output file, which the loop adds to its set.
- Command-line parsing is not modelled: `argparse`, `fileexists`, `direxists`, `main`'s calls in tools/downsample.py, and the `test` routine (tools/downsample.py:182-191).
- Everything in `recognize` that talks to the speech service is not modelled (tools/transcribe.py:39-63). That covers the configuration objects, the request stream, the responses and their errors. The settings it builds are `Transcribe.Config`.
- Downsample.Downsample: requires a rate divisible by 16, with a cutoff a double holds exactly. The cutoff is then printed as `<digits>.0`; Python's float formatting of any other cutoff is not modelled. The same requirement is on `Script`, `Macros` and `Convert`.
- Transcribe.FileGen: requires a positive chunk size. The script only uses 1024, and with 0 its generator would never end.
- PyInt.ParseInt: accepts only ASCII digits with an optional sign and surrounding whitespace. Python's underscores between digits and non-ASCII digits are not modelled.
- PyStr.Lower: only the ASCII case mapping, as for `PyStr.Upper`.
- AudacityDriver.Audacity.Open: an unreachable editor is one case, with neither handle assigned. In the source, `open(self.TONAME, 'w')` can succeed while `open(self.FROMNAME, 'rt')` fails, which leaves `TOHANDLE` assigned alone. `CloseAsWritten` then fails on `FROMHANDLE` instead of `TOHANDLE`. The error and the handle state after the `finally` are the same, but that intermediate state is not modelled.
- AudacityDriver.Audacity.CloseAsWritten: the model keeps only the type of the exception that propagates, `MissingHandle`. The OSError it replaces, with its hint, is still shown as the AttributeError's context; that chaining is not modelled.
- AudacityDriver.Attach: lines left unread when a connection closes are assumed to be waiting for the next connection, which gets `Unread(replies)`. In the source, each `_connection` opens `FROMNAME` afresh and closes it at the end. Closing the text reader drops whatever it had read ahead past the marker line, so across connections what the next read sees depends on buffering. The same assumption is made by `Downsample.Play` and `Downsample.Downsample`, which chain `After(old(pending), ...)` across connections. Only within one connection are unread lines guaranteed to survive (tools/downsample.py:52-53).
- Transcribe.Resume: the model assumes that every path the loop hands on returns normally from `recognize` and `check_enCA` (tools/transcribe.py:108-109). In the source an exception from either call ends `main`, for instance the ValueError of `int(info["rate"])` that `Transcribe.RecognitionConfig` models as `NotAnInteger`. The paths the model passes on are those the filter lets through, not necessarily those actually transcribed.
- AudacityDriver.Audacity.RunScript: requires that neither handle is assigned, that is, no connection is open. The script never nests connections, and the model does not cover what a nested `_connection` would do to the handles. The same precondition is on `RunScriptAsWritten`, `SingleCommand`, `TrackInfo` and the callers in `Downsample`.
