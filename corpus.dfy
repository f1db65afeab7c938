/**
 * The layout of a FreeSWITCH sound file path, `.../lang/country/voice/type/rate/file.wav`,
 * and `split_path`, which both tools define identically.
 */
module Corpus {
  import opened OsPath

  /** The dictionary keys `split_path` fills, from the last path component backwards. */
  const Keys: seq<string> := ["filename", "rate", "type", "voice", "country", "lang"]

  /** Positions in `Keys`, i.e. how many components are peeled before each one. */
  const FilenameAt := 0
  const RateAt := 1
  const TypeAt := 2
  const VoiceAt := 3
  const CountryAt := 4
  const LangAt := 5

  /** Each key differs from the keys before it. */
  lemma KeysDistinct(i: nat)
    requires i < |Keys|
    ensures Keys[i] !in Keys[..i]
  {
    assert Keys[0][0] == 'f' && Keys[1][0] == 'r' && Keys[2][0] == 't';
    assert Keys[3][0] == 'v' && Keys[4][0] == 'c' && Keys[5][0] == 'l';
  }

  /**
   * `split_path`: one `os.path.split` per key, each filing the tail under the key and
   * carrying on with the head; so the i-th key gets the i-th component from the end.
   */
  method SplitPath(path: string) returns (info: map<string, string>)
    ensures forall k :: k in info <==> k in Keys
    ensures forall i :: 0 <= i < |Keys| ==> info[Keys[i]] == Component(path, i)
  {
    var p := path;
    info := map[];
    for i := 0 to |Keys|
      invariant p == Ancestor(path, i)
      invariant forall k :: k in info <==> k in Keys[..i]
      invariant forall j :: 0 <= j < i ==> info[Keys[j]] == Component(path, j)
    {
      KeysDistinct(i);
      PeelStep(path, i);
      assert Keys[..i + 1] == Keys[..i] + [Keys[i]];
      var parts := Split(p);
      p, info := parts.0, info[Keys[i] := parts.1];
    }
    assert Keys[..|Keys|] == Keys;
  }

  /** A path with at least the six components of the layout, none of them empty. */
  predicate WellFormed(path: string)
  {
    forall i :: 0 <= i < |Keys| ==> IsSegment(Component(path, i))
  }
}
