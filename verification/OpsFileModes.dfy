/** What cf deploy makes of a generated file (scripts/_cfcompile.py): the mode it was
    generated for, or a mismatch of stemcells. */
module OpsFileModes {
  import opened Text
  import opened OpsFile
  import opened OpsFileReads

  lemma FirstLine(lines: seq<string>)
    requires |lines| > 1
    ensures TextOf(lines) == lines[0] + "\n" + TextOf(lines[1..])
  {
    hide Join;
    assert Join(lines, '\n') == lines[0] + "\n" + Join(lines[1..], '\n') by { JoinFirst(lines); }
  }

  lemma JoinFirst(lines: seq<string>)
    requires |lines| > 1
    ensures Join(lines, '\n') == lines[0] + "\n" + Join(lines[1..], '\n')
  {
  }

  /** A text without line breaks occurs in a file exactly when it occurs in a line. */
  lemma {:induction false} OccursInLine(lines: seq<string>, part: string)
    requires lines != [] && part != [] && '\n' !in part
    ensures Contains(TextOf(lines), part) <==> exists i | 0 <= i < |lines| :: Contains(lines[i], part)
    decreases |lines|
  {
    hide Contains;
    ContainsBreak(lines[0], part);
    if |lines| == 1 {
      assert TextOf(lines) == lines[0] + "\n";
    } else {
      FirstLine(lines);
      hide TextOf;
      OccursInLine(lines[1..], part);
      ContainsSplit(lines[0] + "\n", TextOf(lines[1..]), part);
      assert forall i | 0 <= i < |lines[1..]| :: lines[1..][i] == lines[i + 1];
      if i :| 0 <= i < |lines| && Contains(lines[i], part) {
        assert i > 0 ==> lines[i] == lines[1..][i - 1];
      }
    }
  }

  lemma NotBlank(text: string)
    requires text != [] && !IsSpace(text[0])
    ensures Strip(text) != ""
  {
    assert TrimLeft(text) == text;
  }

  lemma TextStarts(lines: seq<string>)
    requires lines != [] && lines[0] != []
    ensures TextOf(lines) != [] && TextOf(lines)[0] == lines[0][0]
  {
  }

  // -------------------------------------------------------- the store's file

  lemma PathLine(r: Release)
    ensures |ReleaseLines(r)| == 7 && Contains(ReleaseLines(r)[1], RELEASE_PATH)
  {
    var line := ReleaseLines(r)[1];
    var front := "  path: ";
    assert line == front + RELEASE_PATH + (r.name + "?");
    hide ReleaseLines;
    OccursAfter(front, RELEASE_PATH, r.name + "?");
  }

  lemma OccursAfter(front: string, part: string, back: string)
    ensures Contains(front + part + back, part)
  {
    var s := front + part + back;
    assert s[|front|..|front| + |part|] == part;
    Occurs(s, part, |front|);
  }

  lemma StoreHasPath(releases: seq<Release>, stemcell: string, generatedBy: string, consumer: string)
    requires releases != []
    ensures Contains(TextOf(OpsLines(releases, stemcell, generatedBy, consumer)), RELEASE_PATH)
  {
    hide Contains;
    hide TextOf;
    PathLine(releases[0]);
    var lines := OpsLines(releases, stemcell, generatedBy, consumer);
    var head := HeaderLines(generatedBy, consumer) + MarkerLines(stemcell);
    var first := ReleaseLines(releases[0]);
    assert lines == head + (first + BodyLines(releases[1..]));
    hide ReleaseLines;
    hide OpsLines;
    assert lines[|head| + 1] == first[1];
    OccursInLine(lines, RELEASE_PATH);
  }

  /** A file of pinned releases is read as such, or as a mismatch exactly when it
      records a stemcell and a current one that differs is given. */
  lemma StoreState(releases: seq<Release>, stemcell: string, generatedBy: string, consumer: string, current: string)
    requires releases != [] && Clean(releases) && Plain(stemcell) && Plain(generatedBy) && Plain(consumer)
    ensures PrecompileState(TextOf(OpsLines(releases, stemcell, generatedBy, consumer)), current)
         == if !Blank(stemcell) && current != "" && Strip(stemcell) != Strip(current) then "mismatch" else STORE_OPS_MODE
  {
    hide OpsLines;
    hide TextOf;
    hide SplitLines;
    hide StemcellIn;
    hide Strip;
    hide Contains;
    var lines := OpsLines(releases, stemcell, generatedBy, consumer);
    OpsStarts(releases, stemcell, generatedBy, consumer);
    StemcellReadsBack(releases, stemcell, generatedBy, consumer);
    StoreHasPath(releases, stemcell, generatedBy, consumer);
    TextStarts(lines);
    NotBlank(TextOf(lines));
    StripTwice(stemcell);
  }

  lemma OpsStarts(releases: seq<Release>, stemcell: string, generatedBy: string, consumer: string)
    ensures var lines := OpsLines(releases, stemcell, generatedBy, consumer); lines != [] && lines[0] == "---"
  {
    hide MarkerLines;
    hide BodyLines;
  }

  // -------------------------------------------------------- the cache's file

  /** A line of text with nothing in it that a scanner looks for. */
  predicate Quiet(line: string) {
    line != [] && !IsSpace(line[0]) && Plain(line) && '=' !in line && !(STEMCELL_MARKER <= line)
  }

  /** Two quiet halves of a line that parts from the marker in the first one. */
  lemma QuietHalves(a: string, b: string, k: nat)
    requires a != [] && !IsSpace(a[0]) && Plain(a) && Plain(b) && '=' !in a && '=' !in b
    requires k < |a| && k < |STEMCELL_MARKER| && a[k] != STEMCELL_MARKER[k]
    ensures Quiet(a + b)
  {
    assert (a + b)[k] == a[k];
  }

  lemma QuietGenerated()
    ensures Quiet(Generated())
  {
    assert Generated()[2] == 'G';
  }

  lemma QuietMarkerOnly()
    ensures Quiet(MarkerOnly())
  {
    hide Quiet;
    QuietHalves("# Marker only: the BOSH Director ", "has cached compiled packages for the", 2);
  }

  lemma QuietStemcellBelow()
    ensures Quiet(StemcellBelow())
  {
    hide Quiet;
    QuietHalves("# stemcell below. cf deploy drops ", "use-compiled-releases.yml and reuses", 10);
  }

  lemma QuietNoPins()
    ensures Quiet(NoPins())
  {
    hide Quiet;
    QuietHalves("# the Director cache; ", "no release URL pins are needed here.", 2);
  }

  /** All but the sixth line are quiet, and the sixth holds the stemcell. */
  lemma CacheQuiet(stemcell: string)
    ensures |CacheLines(stemcell)| == 7 && CacheLines(stemcell)[0] == "---"
    ensures forall i | 0 <= i < 7 && i != 5 :: Quiet(CacheLines(stemcell)[i])
    ensures CacheLines(stemcell)[5] == STEMCELL_MARKER + Strip(stemcell)
    ensures CacheLines(stemcell)[6] == MODE_MARKER + CACHE_MODE
  {
    QuietGenerated();
    QuietMarkerOnly();
    QuietStemcellBelow();
    QuietNoPins();
    assert Quiet("---");
    assert (MODE_MARKER + CACHE_MODE)[2] == 'm';
    assert Quiet(MODE_MARKER + CACHE_MODE);
    hide Strip;
    hide Generated;
    hide MarkerOnly;
    hide StemcellBelow;
    hide NoPins;
    hide Quiet;
  }

  lemma CacheUnbroken(stemcell: string)
    requires Plain(stemcell)
    ensures Unbroken(CacheLines(stemcell))
  {
    hide Strip;
    hide CacheLines;
    hide Quiet;
    StripPlain(stemcell);
    CacheQuiet(stemcell);
    var lines := CacheLines(stemcell);
    forall i | 0 <= i < 7 ensures '\n' !in lines[i] {
      if i != 5 { QuietPlain(lines[i]); }
    }
  }

  lemma QuietPlain(line: string)
    requires Quiet(line)
    ensures Plain(line)
  {
  }

  lemma CacheNotMarkers(stemcell: string)
    ensures forall i | 0 <= i < 7 && i != 5 :: NotMarker(CacheLines(stemcell)[i])
  {
    CacheQuiet(stemcell);
    hide NotMarker;
    hide Strip;
    hide CacheLines;
    var lines := CacheLines(stemcell);
    forall i | 0 <= i < 7 && i != 5 ensures NotMarker(lines[i]) {
      assert [] + lines[i] == lines[i];
      PlainNotMarker([], lines[i]);
    }
  }

  /** A marker without a value is no marker once its line is stripped. */
  lemma EmptyMarker(value: string)
    requires value == ""
    ensures NotMarker(STEMCELL_MARKER + value)
  {
    var line := STEMCELL_MARKER + value;
    assert |line| == 12 && line[11] == ' ';
    var stripped := Strip(line);
    hide Strip;
    assert |stripped| <= 12 && Stripped(stripped);
  }

  lemma CacheStemcell(stemcell: string)
    ensures StemcellIn(CacheLines(stemcell)) == if Blank(stemcell) then None else Some(Strip(stemcell))
  {
    hide CacheLines;
    hide NotMarker;
    hide StemcellIn;
    hide Strip;
    hide Quiet;
    CacheQuiet(stemcell);
    CacheNotMarkers(stemcell);
    StripTwice(stemcell);
    var lines := CacheLines(stemcell);
    var marker := STEMCELL_MARKER + Strip(stemcell);
    assert lines == lines[..5] + ([marker] + lines[6..]);
    StemcellSkips(lines[..5], [marker] + lines[6..]);
    if Blank(stemcell) {
      EmptyMarker(Strip(stemcell));
      NothingMarked([marker] + lines[6..]);
    } else {
      MarkerReads(Strip(stemcell), lines[6..]);
    }
  }

  lemma HasEquals(s: string)
    requires Contains(s, RELEASE_PATH)
    ensures '=' in s
  {
    var i :| 0 <= i <= |s| && OccursAt(s, RELEASE_PATH, i);
    CharAt(s, RELEASE_PATH, i, 14);
  }

  /** The only way a release path gets into the cache's file is the stemcell. */
  lemma CachePathIff(stemcell: string)
    ensures Contains(TextOf(CacheLines(stemcell)), RELEASE_PATH) <==> Contains(Strip(stemcell), RELEASE_PATH)
  {
    hide Contains;
    hide Strip;
    hide CacheLines;
    hide TextOf;
    CacheQuiet(stemcell);
    var lines := CacheLines(stemcell);
    OccursInLine(lines, RELEASE_PATH);
    forall i | 0 <= i < 7 && i != 5 ensures !Contains(lines[i], RELEASE_PATH) {
      assert Quiet(lines[i]);
      if Contains(lines[i], RELEASE_PATH) { HasEquals(lines[i]); }
    }
    hide Quiet;
    MarkerPathIff(Strip(stemcell));
  }

  lemma MarkerPathIff(value: string)
    ensures Contains(STEMCELL_MARKER + value, RELEASE_PATH) <==> Contains(value, RELEASE_PATH)
  {
    hide Contains;
    ContainsApart([], STEMCELL_MARKER, value, RELEASE_PATH);
    assert [] + STEMCELL_MARKER == STEMCELL_MARKER;
    ContainsLonger(STEMCELL_MARKER, RELEASE_PATH);
  }

  lemma ModeLine()
    ensures IsModeLine(MODE_MARKER + CACHE_MODE)
  {
    StripStripped(CACHE_MODE);
    MarkedStripped(MODE_MARKER, CACHE_MODE);
    Dropped(MODE_MARKER, CACHE_MODE);
    hide Strip;
  }

  /** The cache's file is read as such, or as a mismatch on the same terms; only a
      stemcell that itself holds the release path makes it look like the other. */
  lemma CacheState(stemcell: string, current: string)
    requires Plain(stemcell)
    ensures PrecompileState(TextOf(CacheLines(stemcell)), current)
         == if !Blank(stemcell) && current != "" && Strip(stemcell) != Strip(current) then "mismatch"
            else if Contains(Strip(stemcell), RELEASE_PATH) then STORE_OPS_MODE else CACHE_MODE
  {
    hide CacheLines;
    hide TextOf;
    hide SplitLines;
    hide StemcellIn;
    hide Strip;
    hide Contains;
    hide IsModeLine;
    hide Quiet;
    var lines := CacheLines(stemcell);
    CacheQuiet(stemcell);
    CacheUnbroken(stemcell);
    LinesReadBack(lines);
    CacheStemcell(stemcell);
    CachePathIff(stemcell);
    TextStarts(lines);
    NotBlank(TextOf(lines));
    StripTwice(stemcell);
    ModeLine();
    assert IsModeLine(lines[6]);
  }

  /** A current stemcell of nothing but whitespace counts as one that differs. */
  lemma BlankCurrentIsMismatch(stemcell: string, current: string)
    requires Plain(stemcell) && !Blank(stemcell) && Blank(current) && current != ""
    ensures PrecompileState(TextOf(CacheLines(stemcell)), current) == "mismatch"
  {
    CacheState(stemcell, current);
    hide CacheLines;
    hide TextOf;
  }
}
