/** The whole list of releases read back from a generated ops file, and the recorded
    stemcell as the first marker of any file. */
module OpsFileReleases {
  import opened Text
  import opened OpsFile
  import opened OpsFileReads

  /** What follows a prefix. */
  function After(line: string, prefix: string): Option<string> {
    if prefix <= line then Some(line[|prefix|..]) else None
  }

  /** The same, between double quotes. */
  function Quoted(line: string, prefix: string): Option<string> {
    match After(line, prefix + "\"")
    case None => None
    case Some(v) => if v != [] && v[|v| - 1] == '\"' then Some(v[..|v| - 1]) else None
  }

  /** The release of one replace operation, as a reader of the YAML takes it: the path
      names it, and its four fields are name, version, url and checksum. */
  function ReadRelease(lines: seq<string>): Option<Release> {
    if |lines| < 7 || lines[0] != "- type: replace" || lines[2] != "  value:" then None
    else
      var name, version := After(lines[3], "    name: "), Quoted(lines[4], "    version: ");
      var url, sha1 := Quoted(lines[5], "    url: "), Quoted(lines[6], "    sha1: ");
      if name.None? || version.None? || url.None? || sha1.None? then None
      else if lines[1] != "  path: /releases/name=" + name.value + "?" then None
      else Some(Release(name.value, version.value, url.value, sha1.value))
  }

  function ReadReleases(lines: seq<string>): seq<Release> {
    if lines == [] then []
    else
      match ReadRelease(lines)
      case None => ReadReleases(lines[1..])
      case Some(r) => [r] + ReadReleases(lines[7..])
  }

  lemma AfterPrefix(prefix: string, v: string)
    ensures After(prefix + v, prefix) == Some(v)
  {
  }

  lemma QuotedPrefix(line: string, prefix: string, v: string)
    requires line == prefix + "\"" + v + "\""
    ensures Quoted(line, prefix) == Some(v)
  {
    var rest := v + "\"";
    assert line == prefix + "\"" + rest;
    AfterPrefix(prefix + "\"", rest);
    assert rest[..|rest| - 1] == v;
    hide After;
  }

  lemma NameLine(r: Release)
    ensures After(ReleaseLines(r)[3], "    name: ") == Some(r.name)
  {
    var line := ReleaseLines(r)[3];
    assert line == "    name: " + r.name;
    hide ReleaseLines;
    AfterPrefix("    name: ", r.name);
  }

  lemma VersionLine(r: Release)
    ensures Quoted(ReleaseLines(r)[4], "    version: ") == Some(r.version)
  {
    var line := ReleaseLines(r)[4];
    assert line == "    version: " + "\"" + r.version + "\"";
    hide ReleaseLines;
    QuotedPrefix(line, "    version: ", r.version);
    hide Quoted;
  }

  lemma UrlLine(r: Release)
    ensures Quoted(ReleaseLines(r)[5], "    url: ") == Some(r.url)
  {
    var line := ReleaseLines(r)[5];
    assert line == "    url: " + "\"" + r.url + "\"";
    hide ReleaseLines;
    QuotedPrefix(line, "    url: ", r.url);
    hide Quoted;
  }

  lemma ShaLine(r: Release)
    ensures Quoted(ReleaseLines(r)[6], "    sha1: ") == Some(r.sha1)
  {
    var line := ReleaseLines(r)[6];
    assert line == "    sha1: " + "\"" + r.sha1 + "\"";
    hide ReleaseLines;
    QuotedPrefix(line, "    sha1: ", r.sha1);
    hide Quoted;
  }

  lemma OtherLines(r: Release)
    ensures |ReleaseLines(r)| == 7 && ReleaseLines(r)[0] == "- type: replace" && ReleaseLines(r)[2] == "  value:"
    ensures ReleaseLines(r)[1] == "  path: /releases/name=" + r.name + "?"
  {
    var head, tail := "  path: /releases/name=", r.name + "?";
    assert "  " + ("path: " + RELEASE_PATH + r.name + "?") == ("  " + ("path: " + RELEASE_PATH)) + tail;
    assert "  " + ("path: " + RELEASE_PATH) == head;
    assert head + r.name + "?" == head + tail;
  }

  lemma ReleaseReads(r: Release, rest: seq<string>)
    ensures ReadRelease(ReleaseLines(r) + rest) == Some(r)
  {
    hide After;
    hide Quoted;
    OtherLines(r);
    NameLine(r);
    VersionLine(r);
    UrlLine(r);
    ShaLine(r);
    hide ReleaseLines;
    var lines := ReleaseLines(r) + rest;
    assert forall i | 0 <= i < 7 :: lines[i] == ReleaseLines(r)[i];
  }

  lemma {:induction false} BodyReads(releases: seq<Release>)
    ensures ReadReleases(BodyLines(releases)) == releases
  {
    hide ReadRelease;
    if releases == [] {
    } else {
      OtherLines(releases[0]);
      ReleaseReads(releases[0], BodyLines(releases[1..]));
      BodyReads(releases[1..]);
      hide ReleaseLines;
      var lines := ReleaseLines(releases[0]) + BodyLines(releases[1..]);
      assert lines[7..] == BodyLines(releases[1..]);
      assert [releases[0]] + releases[1..] == releases;
    }
  }

  lemma NoRelease(line: string, rest: seq<string>)
    requires line != "- type: replace"
    ensures ReadReleases([line] + rest) == ReadReleases(rest)
  {
    assert ([line] + rest)[1..] == rest;
    assert ReadRelease([line] + rest) == None;
  }

  lemma {:induction false} NoReleases(lines: seq<string>, rest: seq<string>)
    requires forall i | 0 <= i < |lines| :: lines[i] != "- type: replace"
    ensures ReadReleases(lines + rest) == ReadReleases(rest)
  {
    hide ReadReleases;
    if lines == [] {
      assert lines + rest == rest;
    } else {
      NoReleases(lines[1..], rest);
      NoRelease(lines[0], lines[1..] + rest);
      assert [lines[0]] + (lines[1..] + rest) == lines + rest;
    }
  }

  lemma HeadIsNone(stemcell: string, generatedBy: string, consumer: string)
    ensures var head := HeaderLines(generatedBy, consumer) + MarkerLines(stemcell);
      forall i | 0 <= i < |head| :: head[i] != "- type: replace"
  {
    hide Strip;
    var header, marker := HeaderLines(generatedBy, consumer), MarkerLines(stemcell);
    assert header[0][1] == '-' && header[1][0] == '#' && header[2][0] == '#' && header[3][0] == '#';
    if marker != [] { assert marker[0][0] == '#'; }
    hide HeaderLines;
    hide MarkerLines;
  }

  /** Every release of a written file is read back, all four fields, in order. */
  lemma ReleasesReadBack(releases: seq<Release>, stemcell: string, generatedBy: string, consumer: string)
    requires Clean(releases) && Plain(stemcell) && Plain(generatedBy) && Plain(consumer)
    ensures ReadReleases(SplitLines(TextOf(OpsLines(releases, stemcell, generatedBy, consumer)))) == releases
  {
    OpsUnbroken(releases, stemcell, generatedBy, consumer);
    LinesReadBack(OpsLines(releases, stemcell, generatedBy, consumer));
    HeadIsNone(stemcell, generatedBy, consumer);
    NoReleases(HeaderLines(generatedBy, consumer) + MarkerLines(stemcell), BodyLines(releases));
    BodyReads(releases);
    hide HeaderLines;
    hide MarkerLines;
    hide BodyLines;
    hide SplitLines;
    hide ReadReleases;
  }

  // ------------------------------------------------------------ the stemcell

  predicate IsMarker(line: string) { "# stemcell: " <= Strip(line) }

  predicate FirstMarker(lines: seq<string>, k: nat) {
    k < |lines| && IsMarker(lines[k]) && forall i | 0 <= i < k :: !IsMarker(lines[i])
  }

  /** stemcell_from_ops, for any lines: the value of the first marker unless it is
      blank, and none without a marker. */
  lemma {:induction false} StemcellFirst(lines: seq<string>)
    ensures (forall i | 0 <= i < |lines| :: !IsMarker(lines[i])) ==> StemcellIn(lines) == None
    ensures forall k | 0 <= k < |lines| && FirstMarker(lines, k) ::
      StemcellIn(lines) == (var v := Strip(Strip(lines[k])[12..]); if v == "" then None else Some(v))
  {
    hide Strip;
    if lines == [] {
    } else {
      var rest := lines[1..];
      StemcellFirst(rest);
      assert forall i | 0 <= i < |rest| :: rest[i] == lines[i + 1];
      if IsMarker(lines[0]) {
        assert forall k | 0 < k < |lines| :: !FirstMarker(lines, k);
      } else {
        forall k | 0 <= k < |lines| && FirstMarker(lines, k)
          ensures StemcellIn(lines) == (var v := Strip(Strip(lines[k])[12..]); if v == "" then None else Some(v))
        {
          assert k > 0 && FirstMarker(rest, k - 1);
        }
      }
    }
  }
}
