/** Generated ops files read back as they were written (scripts/_compiled.py,
    scripts/_cfcompile.py). */
module OpsFileReads {
  import opened Text
  import opened OpsFile

  predicate Plain(s: string) { '\n' !in s }

  /** A url that is a file url carries no quote and no whitespace in its path. */
  predicate CleanUrl(url: string) {
    Plain(url) && ("file://" <= url ==> Run(url[7..]) == url[7..])
  }

  predicate CleanRelease(r: Release) { Plain(r.name) && Plain(r.version) && CleanUrl(r.url) && Plain(r.sha1) }

  predicate Clean(releases: seq<Release>) { forall i | 0 <= i < |releases| :: CleanRelease(releases[i]) }

  /** What was written can be read line by line. */
  lemma OpsUnbroken(releases: seq<Release>, stemcell: string, generatedBy: string, consumer: string)
    requires Clean(releases) && Plain(stemcell) && Plain(generatedBy) && Plain(consumer)
    ensures Unbroken(OpsLines(releases, stemcell, generatedBy, consumer))
  {
    hide HeaderLines;
    hide BodyLines;
    hide MarkerLines;
    hide Unbroken;
    HeaderUnbroken(generatedBy, consumer);
    MarkerUnbroken(stemcell);
    BodyUnbroken(releases);
    UnbrokenConcat(HeaderLines(generatedBy, consumer), MarkerLines(stemcell));
    UnbrokenConcat(HeaderLines(generatedBy, consumer) + MarkerLines(stemcell), BodyLines(releases));
  }

  lemma UnbrokenConcat(a: seq<string>, b: seq<string>)
    requires Unbroken(a) && Unbroken(b)
    ensures Unbroken(a + b)
  {
  }

  lemma MarkerUnbroken(stemcell: string)
    requires Plain(stemcell)
    ensures Unbroken(MarkerLines(stemcell))
  {
    hide Strip;
    StripPlain(stemcell);
    PlainConcat(STEMCELL_MARKER, Strip(stemcell)) by { assert Plain(STEMCELL_MARKER); }
    hide Plain;
    UnbrokenIff(MarkerLines(stemcell));
    hide Unbroken;
  }

  lemma PlainConcat(a: string, b: string)
    requires Plain(a) && Plain(b)
    ensures Plain(a + b)
  {
  }

  lemma UnbrokenIff(lines: seq<string>)
    ensures Unbroken(lines) <==> forall i | 0 <= i < |lines| :: Plain(lines[i])
  {
  }

  lemma HeaderUnbroken(generatedBy: string, consumer: string)
    requires Plain(generatedBy) && Plain(consumer)
    ensures Unbroken(HeaderLines(generatedBy, consumer))
  {
    hide GeneratedBy;
    hide PinsFor;
    hide ValidOnly;
    GeneratedPlain(generatedBy);
    PinsPlain(consumer);
    ValidPlain();
  }

  lemma GeneratedPlain(name: string)
    requires Plain(name)
    ensures Plain(GeneratedBy(name))
  {
  }

  lemma PinsPlain(consumer: string)
    requires Plain(consumer)
    ensures Plain(PinsFor(consumer))
  {
  }

  lemma ValidPlain()
    ensures Plain(ValidOnly())
  {
  }

  lemma StripPlain(s: string)
    requires Plain(s)
    ensures Plain(Strip(s))
  {
    hide TrimLeft;
    hide TrimRight;
    var left := TrimLeft(s);
    var right := TrimRight(left);
    SlicePlain(s, |s| - |left|, |s|);
    SlicePlain(left, 0, |right|);
  }

  lemma SlicePlain(s: string, i: nat, j: nat)
    requires i <= j <= |s| && Plain(s)
    ensures Plain(s[i..j])
  {
  }

  lemma ReleaseUnbroken(r: Release)
    requires CleanRelease(r)
    ensures Unbroken(ReleaseLines(r))
  {
  }

  lemma {:induction false} BodyUnbroken(releases: seq<Release>)
    requires Clean(releases)
    ensures Unbroken(BodyLines(releases))
  {
    if releases == [] {
    } else {
      ReleaseUnbroken(releases[0]);
      assert forall i | 0 <= i < |releases[1..]| :: releases[1..][i] == releases[i + 1];
      BodyUnbroken(releases[1..]);
      UnbrokenConcat(ReleaseLines(releases[0]), BodyLines(releases[1..]));
      hide ReleaseLines;
    }
  }

  // --------------------------------------------------------- the stemcell

  lemma HeaderNotMarkers(generatedBy: string, consumer: string)
    ensures forall i | 0 <= i < 4 :: NotMarker(HeaderLines(generatedBy, consumer)[i])
  {
    hide NotMarker;
    var lines := HeaderLines(generatedBy, consumer);
    assert lines[1][2] == 'G' && lines[2][2] == 'P' && lines[3][2] == 'V';
    forall i | 0 <= i < 4 ensures NotMarker(lines[i]) {
      assert [] + lines[i] == lines[i];
      PlainNotMarker([], lines[i]);
    }
  }

  lemma ReleaseNotMarkers(r: Release)
    ensures forall i | 0 <= i < 7 :: NotMarker(ReleaseLines(r)[i])
  {
    hide NotMarker;
    assert [] + "- type: replace" == "- type: replace";
    PlainNotMarker([], "- type: replace");
    PlainNotMarker("  ", "path: " + RELEASE_PATH + r.name + "?");
    PlainNotMarker("  ", "value:");
    PlainNotMarker("    ", "name: " + r.name);
    PlainNotMarker("    ", "version: \"" + r.version + "\"");
    PlainNotMarker("    ", "url: \"" + r.url + "\"");
    PlainNotMarker("    ", "sha1: \"" + r.sha1 + "\"");
  }

  lemma {:induction false} BodyNotMarkers(releases: seq<Release>)
    ensures forall i | 0 <= i < |BodyLines(releases)| :: NotMarker(BodyLines(releases)[i])
  {
    if releases == [] {
    } else {
      ReleaseNotMarkers(releases[0]);
      assert |ReleaseLines(releases[0])| == 7;
      BodyNotMarkers(releases[1..]);
      hide ReleaseLines;
      hide NotMarker;
    }
  }

  lemma StripTwice(s: string)
    ensures Strip(Strip(s)) == Strip(s)
  {
    StripStripped(Strip(s));
  }

  lemma OpsStemcell(releases: seq<Release>, stemcell: string, generatedBy: string, consumer: string)
    ensures StemcellIn(OpsLines(releases, stemcell, generatedBy, consumer)) == if Blank(stemcell) then None else Some(Strip(stemcell))
  {
    var header, marker, body := HeaderLines(generatedBy, consumer), MarkerLines(stemcell), BodyLines(releases);
    HeaderNotMarkers(generatedBy, consumer);
    BodyNotMarkers(releases);
    assert |header| == 4;
    hide HeaderLines;
    hide BodyLines;
    hide NotMarker;
    hide StemcellIn;
    assert header + marker + body == header + (marker + body);
    StemcellSkips(header, marker + body);
    if Blank(stemcell) {
      assert marker + body == body;
      NothingMarked(body);
    } else {
      StripTwice(stemcell);
      hide Strip;
      MarkerReads(Strip(stemcell), body);
    }
  }

  lemma NothingMarked(lines: seq<string>)
    requires forall i | 0 <= i < |lines| :: NotMarker(lines[i])
    ensures StemcellIn(lines) == None
  {
    hide NotMarker;
    StemcellSkips(lines, []);
    assert lines + [] == lines;
  }

  /** The recorded stemcell is read back, and a blank one is not recorded. */
  lemma StemcellReadsBack(releases: seq<Release>, stemcell: string, generatedBy: string, consumer: string)
    requires Clean(releases) && Plain(stemcell) && Plain(generatedBy) && Plain(consumer)
    ensures StemcellIn(SplitLines(TextOf(OpsLines(releases, stemcell, generatedBy, consumer))))
         == if Blank(stemcell) then None else Some(Strip(stemcell))
  {
    OpsUnbroken(releases, stemcell, generatedBy, consumer);
    LinesReadBack(OpsLines(releases, stemcell, generatedBy, consumer));
    OpsStemcell(releases, stemcell, generatedBy, consumer);
    hide OpsLines;
    hide SplitLines;
    hide StemcellIn;
    hide Strip;
  }

  // ------------------------------------------------------------- the paths

  /** The path of a file url. */
  function FilePath(url: string): Option<string> {
    if "file://" <= url && |url| > 7 then Some(url[7..]) else None
  }

  function FilePaths(releases: seq<Release>): seq<string> {
    if releases == [] then []
    else (match FilePath(releases[0].url) case None => [] case Some(p) => [p]) + FilePaths(releases[1..])
  }

  lemma NoPath(indent: string, rest: string)
    requires AllSpace(indent) && rest != [] && !IsSpace(rest[0]) && !("url:" <= rest)
    ensures PathIn(indent + rest) == None
  {
    TrimIndent(indent, rest);
    hide TrimLeft;
  }

  lemma {:induction false} RunStops(s: string, rest: string)
    requires Run(s) == s && rest != [] && rest[0] == '\"'
    ensures Run(s + rest) == s
  {
    if s == [] {
      assert s + rest == rest;
    } else {
      assert s == [s[0]] + Run(s[1..]);
      assert Run(s[1..]) == s[1..];
      assert (s + rest)[1..] == s[1..] + rest;
      RunStops(s[1..], rest);
    }
  }

  /** A quoted url line gives the path of a file url, and of no other. */
  lemma UrlPath(url: string)
    requires CleanUrl(url)
    ensures PathIn("    " + ("url: \"" + url + "\"")) == FilePath(url)
  {
    hide TrimLeft;
    hide Run;
    hide AllSpace;
    var quoted := url + "\"";
    var rest := "url: \"" + url + "\"";
    IndentSpaces();
    TrimIndent("    ", rest);
    assert rest == "url:" + (" " + ("\"" + quoted));
    assert rest[4..] == " " + ("\"" + quoted);
    TrimIndent(" ", "\"" + quoted);
    assert Unquoted("\"" + quoted) == quoted;
    PathAfter(url);
  }

  lemma IndentSpaces()
    ensures AllSpace("    ") && AllSpace(" ")
  {
  }

  /** The end of a url line, from the url on. */
  lemma PathAfter(url: string)
    requires CleanUrl(url)
    ensures "file://" <= url + "\"" <==> "file://" <= url
    ensures "file://" <= url ==>
      var path := Run((url + "\"")[7..]);
      path == url[7..] && AllSpace(Unquoted((url + "\"")[7 + |path|..]))
  {
    var quoted := url + "\"";
    if "file://" <= quoted {
      assert quoted[6] == '/';
      assert quoted[..7] == url[..7];
    }
    if "file://" <= url {
      assert quoted[7..] == url[7..] + "\"";
      RunStops(url[7..], "\"");
      assert quoted[|url|..] == "\"";
    }
    hide Run;
  }

  /** Only the url line of a release can hold a path. */
  lemma OtherLinesHaveNone(r: Release)
    ensures forall i | 0 <= i < 7 && i != 5 :: PathIn(ReleaseLines(r)[i]) == None
  {
    hide PathIn;
    assert [] + "- type: replace" == "- type: replace";
    NoPath([], "- type: replace");
    NoPath("  ", "path: " + RELEASE_PATH + r.name + "?");
    NoPath("  ", "value:");
    NoPath("    ", "name: " + r.name);
    NoPath("    ", "version: \"" + r.version + "\"");
    NoPath("    ", "sha1: \"" + r.sha1 + "\"");
  }

  lemma UrlLine(r: Release)
    ensures |ReleaseLines(r)| == 7 && ReleaseLines(r)[5] == "    " + ("url: \"" + r.url + "\"")
  {
  }

  lemma ReleasePaths(r: Release, rest: seq<string>)
    requires CleanRelease(r)
    ensures PathsIn(ReleaseLines(r) + rest) == (match FilePath(r.url) case None => [] case Some(p) => [p]) + PathsIn(rest)
  {
    hide PathIn;
    hide PathsIn;
    hide FilePath;
    hide ReleaseLines;
    OtherLinesHaveNone(r);
    UrlLine(r);
    UrlPath(r.url);
    var lines := ReleaseLines(r);
    OneInSeven(lines, rest);
  }

  lemma OneInSeven(lines: seq<string>, rest: seq<string>)
    requires |lines| == 7 && forall i | 0 <= i < 7 && i != 5 :: PathIn(lines[i]) == None
    ensures PathsIn(lines + rest) == (match PathIn(lines[5]) case None => [] case Some(p) => [p]) + PathsIn(rest)
  {
    hide PathIn;
    hide PathsIn;
    var tail := [lines[6]] + rest;
    PathsSkip(lines[..5], [lines[5]] + tail);
    PathsSkip([lines[6]], rest);
    assert lines + rest == lines[..5] + ([lines[5]] + tail);
    PathsFirst(lines[5], tail);
  }

  lemma PathsFirst(line: string, rest: seq<string>)
    ensures PathsIn([line] + rest) == (match PathIn(line) case None => [] case Some(p) => [p]) + PathsIn(rest)
  {
    assert ([line] + rest)[1..] == rest;
  }

  lemma {:induction false} PathsSkip(a: seq<string>, b: seq<string>)
    requires forall i | 0 <= i < |a| :: PathIn(a[i]) == None
    ensures PathsIn(a + b) == PathsIn(b)
  {
    hide PathIn;
    if a == [] {
      assert a + b == b;
    } else {
      assert (a + b)[1..] == a[1..] + b;
      PathsSkip(a[1..], b);
      assert [] + PathsIn(b) == PathsIn(b);
    }
  }

  lemma {:induction false} BodyPaths(releases: seq<Release>)
    requires Clean(releases)
    ensures PathsIn(BodyLines(releases)) == FilePaths(releases)
  {
    if releases == [] {
    } else {
      assert forall i | 0 <= i < |releases[1..]| :: releases[1..][i] == releases[i + 1];
      BodyPaths(releases[1..]);
      ReleasePaths(releases[0], BodyLines(releases[1..]));
      hide ReleaseLines;
      hide PathsIn;
    }
  }

  lemma HeaderHasNoPath(generatedBy: string, consumer: string, stemcell: string)
    ensures forall i | 0 <= i < 4 :: PathIn(HeaderLines(generatedBy, consumer)[i]) == None
    ensures PathIn(STEMCELL_MARKER + Strip(stemcell)) == None
  {
    hide PathIn;
    hide Strip;
    var lines := HeaderLines(generatedBy, consumer);
    assert lines[0][0] == '-' && lines[1][0] == '#' && lines[2][0] == '#' && lines[3][0] == '#';
    forall i | 0 <= i < 4 ensures PathIn(lines[i]) == None {
      assert [] + lines[i] == lines[i];
      NoPath([], lines[i]);
    }
    var marker := STEMCELL_MARKER + Strip(stemcell);
    assert [] + marker == marker;
    NoPath([], marker);
  }

  /** The scanner recovers exactly the file paths, in the order of the releases. */
  lemma PathsReadBack(releases: seq<Release>, stemcell: string, generatedBy: string, consumer: string)
    requires Clean(releases) && Plain(stemcell) && Plain(generatedBy) && Plain(consumer)
    ensures PathsIn(SplitLines(TextOf(OpsLines(releases, stemcell, generatedBy, consumer)))) == FilePaths(releases)
  {
    OpsUnbroken(releases, stemcell, generatedBy, consumer);
    LinesReadBack(OpsLines(releases, stemcell, generatedBy, consumer));
    OpsPaths(releases, stemcell, generatedBy, consumer);
    hide OpsLines;
    hide SplitLines;
    hide PathsIn;
  }

  lemma OpsPaths(releases: seq<Release>, stemcell: string, generatedBy: string, consumer: string)
    requires Clean(releases)
    ensures PathsIn(OpsLines(releases, stemcell, generatedBy, consumer)) == FilePaths(releases)
  {
    hide PathIn;
    hide PathsIn;
    hide Strip;
    HeaderHasNoPath(generatedBy, consumer, stemcell);
    BodyPaths(releases);
    var header, marker, body := HeaderLines(generatedBy, consumer), MarkerLines(stemcell), BodyLines(releases);
    assert |header| == 4;
    hide HeaderLines;
    hide BodyLines;
    PathsSkip(header + marker, body);
  }
}
