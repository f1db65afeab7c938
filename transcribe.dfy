/**
 * The corpus side of tools/transcribe.py: the recognition settings read off a sound
 * path, the chunked reading of a sound file, the path of the matching en-CA recording,
 * and the `--resume_after` skip of the main loop.
 */
module Transcribe {
  import opened Wrappers
  import opened Errors
  import opened PyStr
  import opened PyInt
  import opened OsPath
  import opened Corpus
  import Seqs

  /** `select_model`: the recognition model for a language code. */
  function SelectModel(code: string): (model: string)
    ensures model == "video" <==> code == "en-US"
    ensures model == "phone_call" <==> code == "en-GB" || code == "es-US"
    ensures model == "default" <==> code != "en-US" && code != "en-GB" && code != "es-US"
  {
    if code in ["en-US"] then "video"
    else if code in ["en-GB", "es-US"] then "phone_call"
    else "default"
  }

  /** The language code of `recognize`: the language lowered, a dash, the country raised. */
  function LanguageCode(lang: string, country: string): (code: string)
  {
    Lower(lang) + "-" + Upper(country)
  }

  /** A code built from dash-free parts splits back at its one dash into the case-mapped parts. */
  lemma LanguageCodeParts(lang: string, country: string)
    requires '-' !in lang && '-' !in country
    ensures SplitOn(LanguageCode(lang, country), '-') == [Lower(lang), Upper(country)]
  {
    var parts := [Lower(lang), Upper(country)];
    assert JoinWith(parts[1..], '-') == Upper(country);
    assert JoinWith(parts, '-') == LanguageCode(lang, country);
    PyStr.SplitJoin(parts, '-');
  }

  /** The settings `recognize` passes to the speech service. */
  datatype Config = Config(model: string, languageCode: string, sampleRate: int)

  /** The settings of a sound path, or the error `int()` raises on its rate directory. */
  function RecognitionConfig(path: string): (r: Result<Config, Error>)
    ensures r.Failure? <==> ParseInt(Component(path, RateAt)).Failure?
    ensures r.Failure? ==> r.error == NotAnInteger(Component(path, RateAt))
    ensures r.Success? ==>
      && r.value.languageCode == LanguageCode(Component(path, LangAt), Component(path, CountryAt))
      && r.value.model == SelectModel(r.value.languageCode)
      && Success(r.value.sampleRate) == ParseInt(Component(path, RateAt))
  {
    var code := LanguageCode(Component(path, LangAt), Component(path, CountryAt));
    var rate := ParseInt(Component(path, RateAt));
    if rate.Failure? then Failure(rate.error) else Success(Config(SelectModel(code), code, rate.value))
  }

  /** The settings part of `recognize`, reading the path apart with `split_path`. */
  method Configure(path: string) returns (r: Result<Config, Error>)
    ensures r == RecognitionConfig(path)
  {
    var info := SplitPath(path);
    assert Keys[RateAt] == "rate" && Keys[CountryAt] == "country" && Keys[LangAt] == "lang";
    var code := LanguageCode(info["lang"], info["country"]);
    var rate := ParseInt(info["rate"]);
    ghost var spec := RecognitionConfig(path);
    assert rate == ParseInt(Component(path, RateAt));
    assert code == LanguageCode(Component(path, LangAt), Component(path, CountryAt));
    if rate.Failure? {
      return Failure(rate.error);
    }
    r := Success(Config(SelectModel(code), code, rate.value));
  }

  /** A rate directory written by `str` reads back as that rate. */
  lemma RateReadsBack(path: string, rate: int)
    requires Component(path, RateAt) == IntToString(rate)
    ensures RecognitionConfig(path).Success? && RecognitionConfig(path).value.sampleRate == rate
  {
    ParseIntToString(rate);
  }

  /** Every recording under `en/us` is recognised as American English with the video model. */
  lemma AmericanEnglish(path: string)
    requires Component(path, LangAt) == "en" && Component(path, CountryAt) == "us"
    requires ParseInt(Component(path, RateAt)).Success?
    ensures RecognitionConfig(path).value.languageCode == "en-US"
    ensures RecognitionConfig(path).value.model == "video"
  {
    AmericanCode();
  }

  /** The directories `en/us` give the code `en-US`. */
  lemma AmericanCode()
    ensures LanguageCode("en", "us") == "en-US"
  {
    var lower, upper := Lower("en"), Upper("us");
    assert lower[0] == 'e' && lower[1] == 'n';
    assert upper[0] == 'U' && upper[1] == 'S';
    assert lower == "en" && upper == "US";
  }

  /** The bytes of a file as `read` hands them out. */
  type Bytes = seq<bv8>

  /**
   * `filegen`: reads `data` in chunks of `size` bytes and stops after the first short
   * chunk, which may be empty.
   */
  method FileGen(data: Bytes, size: nat) returns (chunks: seq<Bytes>)
    requires size > 0
    ensures Seqs.Concat(chunks) == data
    ensures chunks != [] && |chunks| == |data| / size + 1
    ensures forall i :: 0 <= i < |chunks| - 1 ==> |chunks[i]| == size
    ensures |chunks[|chunks| - 1]| < size
    ensures chunks[|chunks| - 1] == [] <==> |data| % size == 0
  {
    var pos := 0;
    chunks := [];
    while true
      invariant pos <= |data| && Seqs.Concat(chunks) == data[..pos]
      invariant pos == |chunks| * size && forall i :: 0 <= i < |chunks| ==> |chunks[i]| == size
      decreases |data| - pos
    {
      var end := if pos + size <= |data| then pos + size else |data|;
      var chunk := data[pos..end];
      assert (chunks + [chunk])[..|chunks|] == chunks;
      assert data[..pos] + chunk == data[..end];
      var full := |chunks|;
      chunks := chunks + [chunk];
      pos := end;
      if |chunk| < size {
        assert data[..pos] == data;
        ChunkCount(full, |chunk|, size);
        break;
      }
    }
  }

  /** `q` full chunks and a short one of `r` bytes hold `q * size + r` bytes, and no other count does. */
  lemma ChunkCount(q: nat, r: nat, size: nat)
    requires r < size
    ensures (q * size + r) / size == q
    ensures (q * size + r) % size == r
  {
    var n := q * size + r;
    var d, m := n / size, n % size;
    assert n == d * size + m;
    assert (d - q) * size == r - m;
    if d > q {
      MulAtLeast(d - q, size);
    } else if d < q {
      MulAtLeast(q - d, size);
    }
  }

  lemma {:induction false} MulAtLeast(k: int, size: int)
    requires k >= 1 && size > 0
    ensures k * size >= size
    decreases k
  {
    if k > 1 {
      MulAtLeast(k - 1, size);
      assert k * size == (k - 1) * size + size;
    }
  }

  /** `path.split('/')` with the language, country and voice segments replaced by those of en-CA. */
  function CanadianParts(parts: seq<string>): (r: seq<string>)
    requires |parts| >= 6
    ensures |r| == |parts|
    ensures r[|r| - 6] == "en" && r[|r| - 5] == "ca" && r[|r| - 4] == "june"
    ensures forall i :: 0 <= i < |parts| && i != |parts| - 6 && i != |parts| - 5 && i != |parts| - 4 ==> r[i] == parts[i]
  {
    var n := |parts|;
    seq(n, i requires 0 <= i < n => if i == n - 6 then "en" else if i == n - 5 then "ca" else if i == n - 4 then "june" else parts[i])
  }

  /** The path of the en-CA recording matching `path`. */
  function CanadianPath(path: string): (canadian: string)
    requires |SplitOn(path, '/')| >= 6
  {
    JoinWith(CanadianParts(SplitOn(path, '/')), '/')
  }

  /** The en-CA path splits into the segments of the original with only the three rewritten. */
  lemma CanadianPathParts(path: string)
    requires |SplitOn(path, '/')| >= 6
    ensures SplitOn(CanadianPath(path), '/') == CanadianParts(SplitOn(path, '/'))
  {
    var parts := CanadianParts(SplitOn(path, '/'));
    assert forall i :: 0 <= i < |parts| ==> '/' !in parts[i];
    PyStr.SplitJoin(parts, '/');
  }

  /**
   * `check_enCA`: rewrites segments -4, -5 and -6 of the path in place, in that order, and
   * asks whether a file exists there (`files` are the existing files); a path of fewer than
   * six segments raises on the first index it lacks.
   */
  method CheckEnCA(files: set<string>, path: string) returns (r: Result<bool, Error>)
    ensures r.Failure? <==> |SplitOn(path, '/')| < 6
    ensures r.Failure? ==> r.error == IndexOutOfRange
    ensures r.Success? ==> r.value == (CanadianPath(path) in files)
  {
    var segments := SplitOn(path, '/');
    var n := |segments|;
    if n < 4 {
      return Failure(IndexOutOfRange);
    }
    segments := segments[n - 4 := "june"];
    if n < 5 {
      return Failure(IndexOutOfRange);
    }
    segments := segments[n - 5 := "ca"];
    if n < 6 {
      return Failure(IndexOutOfRange);
    }
    segments := segments[n - 6 := "en"];
    assert segments == CanadianParts(SplitOn(path, '/'));
    var enCA := JoinWith(segments, '/');
    r := Success(enCA in files);
  }

  /** The index of the first path that ends with `suffix`, if any. */
  function FirstEnding(paths: seq<string>, suffix: string): (r: Option<nat>)
    ensures r.Some? ==> r.value < |paths|
    decreases |paths|
  {
    if paths == [] then None
    else
      var n := |paths| - 1;
      var before := FirstEnding(paths[..n], suffix);
      if before.Some? then before
      else if EndsWith(paths[n], suffix) then Some(n)
      else None
  }

  /** `FirstEnding` finds a path that ends with the suffix and none before it, and nothing when no path does. */
  lemma {:induction false} FirstEndingSpec(paths: seq<string>, suffix: string)
    ensures var r := FirstEnding(paths, suffix);
      && (r.Some? ==> EndsWith(paths[r.value], suffix))
      && (r.Some? ==> forall j :: 0 <= j < r.value ==> !EndsWith(paths[j], suffix))
      && (r.None? ==> forall j :: 0 <= j < |paths| ==> !EndsWith(paths[j], suffix))
    decreases |paths|
  {
    if paths != [] {
      var n := |paths| - 1;
      FirstEndingSpec(paths[..n], suffix);
      assert forall j :: 0 <= j < n ==> paths[..n][j] == paths[j];
    }
  }

  /** A marker that Python counts as set. */
  predicate Skipping(marker: Option<string>)
  {
    marker.Some? && marker.value != ""
  }

  /**
   * The paths the main loop transcribes out of `paths`, in order, and whether it is still
   * skipping afterwards: while skipping, a path is passed over, and the one ending with
   * `suffix` ends the skipping; after that, each path is transcribed.
   */
  function Resumed(paths: seq<string>, suffix: string, skipping: bool): (r: (seq<string>, bool))
    ensures |r.0| <= |paths|
    decreases |paths|
  {
    if paths == [] then ([], skipping)
    else
      var before := Resumed(paths[..|paths| - 1], suffix, skipping);
      var path := paths[|paths| - 1];
      if !before.1 then (before.0 + [path], false)
      else if EndsWith(path, suffix) then (before.0, false)
      else before
  }

  /**
   * Without skipping every path is transcribed; while skipping, nothing is transcribed up
   * to and including the first path that ends with the suffix, and everything after it is.
   */
  lemma {:induction false} ResumedSpec(paths: seq<string>, suffix: string, skipping: bool)
    ensures !skipping ==> Resumed(paths, suffix, skipping) == (paths, false)
    ensures skipping ==>
      var found := FirstEnding(paths, suffix);
      && (found.None? ==> Resumed(paths, suffix, skipping) == ([], true))
      && (found.Some? ==> Resumed(paths, suffix, skipping) == (paths[found.value + 1..], false))
    decreases |paths|
  {
    if paths != [] {
      var n := |paths| - 1;
      ResumedSpec(paths[..n], suffix, skipping);
      if skipping {
        ResumedSkipStep(paths, suffix);
      } else {
        assert paths[..n] + [paths[n]] == paths;
      }
    }
  }

  /** The induction step of `ResumedSpec` while skipping. */
  lemma ResumedSkipStep(paths: seq<string>, suffix: string)
    requires paths != []
    requires var found := FirstEnding(paths[..|paths| - 1], suffix);
      && (found.None? ==> Resumed(paths[..|paths| - 1], suffix, true) == ([], true))
      && (found.Some? ==> Resumed(paths[..|paths| - 1], suffix, true) == (paths[..|paths| - 1][found.value + 1..], false))
    ensures var found := FirstEnding(paths, suffix);
      && (found.None? ==> Resumed(paths, suffix, true) == ([], true))
      && (found.Some? ==> Resumed(paths, suffix, true) == (paths[found.value + 1..], false))
  {
    var n := |paths| - 1;
    var found := FirstEnding(paths[..n], suffix);
    if found.Some? {
      var k := found.value;
      Seqs.SliceOfTake(paths, n, k + 1);
      Seqs.SliceNext(paths, k + 1, n);
      assert paths[k + 1..n + 1] == paths[k + 1..];
    } else if EndsWith(paths[n], suffix) {
      assert paths[n + 1..] == [];
    }
  }

  /**
   * The main loop of `main` with `--resume_after`, yielding the paths it transcribes.
   * An empty marker is false to Python and skips nothing.
   */
  method Resume(wavs: seq<string>, resumeAfter: Option<string>) returns (transcribed: seq<string>)
    ensures !Skipping(resumeAfter) ==> transcribed == wavs
    ensures Skipping(resumeAfter) ==>
      match FirstEnding(wavs, LStrip(resumeAfter.value, "~."))
      case None => transcribed == []
      case Some(k) => transcribed == wavs[k + 1..]
  {
    var marker := resumeAfter;
    ghost var suffix := if Skipping(resumeAfter) then LStrip(resumeAfter.value, "~.") else "";
    transcribed := [];
    for i := 0 to |wavs|
      invariant marker == resumeAfter || marker.None?
      invariant (transcribed, Skipping(marker)) == Resumed(wavs[..i], suffix, Skipping(resumeAfter))
    {
      assert wavs[..i + 1][..i] == wavs[..i];
      if Skipping(marker) {
        if EndsWith(wavs[i], LStrip(marker.value, "~.")) {
          marker := None;
        }
      } else {
        transcribed := transcribed + [wavs[i]];
      }
    }
    assert wavs[..|wavs|] == wavs;
    ResumeOutcome(wavs, resumeAfter, transcribed);
  }

  /** What `ResumedSpec` says about the paths transcribed for a given `--resume_after`. */
  lemma ResumeOutcome(wavs: seq<string>, resumeAfter: Option<string>, transcribed: seq<string>)
    requires transcribed ==
      Resumed(wavs, if Skipping(resumeAfter) then LStrip(resumeAfter.value, "~.") else "", Skipping(resumeAfter)).0
    ensures !Skipping(resumeAfter) ==> transcribed == wavs
    ensures Skipping(resumeAfter) ==>
      match FirstEnding(wavs, LStrip(resumeAfter.value, "~."))
      case None => transcribed == []
      case Some(k) => transcribed == wavs[k + 1..]
  {
    ResumedSpec(wavs, if Skipping(resumeAfter) then LStrip(resumeAfter.value, "~.") else "", Skipping(resumeAfter));
  }
}
