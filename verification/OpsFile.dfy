/** The generated compiled-releases ops file and the scanners that read it back
    (scripts/_compiled.py, scripts/_cfcompile.py), with "\n" as the only line break. */
module OpsFile {
  import opened Text

  datatype Release = Release(name: string, version: string, url: string, sha1: string)

  const STEMCELL_MARKER := "# stemcell: "
  const MODE_MARKER := "# mode: "
  const CACHE_MODE := "director-cache"
  const STORE_OPS_MODE := "store-ops"
  const RELEASE_PATH := "/releases/name="

  // ------------------------------------------------------------ the writers

  function HeaderLines(generatedBy: string, consumer: string): seq<string> {
    ["---", GeneratedBy(generatedBy), PinsFor(consumer), ValidOnly()]
  }

  function GeneratedBy(name: string): string { "# GENERATED by `" + name + "` \U{2014} do not edit by hand." }

  function PinsFor(consumer: string): string { "# Pins compiled release tarballs so " + consumer + " skips package compilation." }

  function ValidOnly(): string { "# Valid only for the stemcell " + "these releases were compiled against." }

  function MarkerLines(stemcell: string): seq<string> {
    if Strip(stemcell) == "" then [] else [STEMCELL_MARKER + Strip(stemcell)]
  }

  function ReleaseLines(r: Release): seq<string> {
    ["- type: replace",
     "  " + ("path: " + RELEASE_PATH + r.name + "?"),
     "  " + "value:",
     "    " + ("name: " + r.name),
     "    " + ("version: \"" + r.version + "\""),
     "    " + ("url: \"" + r.url + "\""),
     "    " + ("sha1: \"" + r.sha1 + "\"")]
  }

  function BodyLines(releases: seq<Release>): seq<string> {
    if releases == [] then [] else ReleaseLines(releases[0]) + BodyLines(releases[1..])
  }

  function OpsLines(releases: seq<Release>, stemcell: string, generatedBy: string, consumer: string): seq<string> {
    HeaderLines(generatedBy, consumer) + MarkerLines(stemcell) + BodyLines(releases)
  }

  /** "\n".join(lines) + "\n" */
  function TextOf(lines: seq<string>): string
    requires lines != []
  {
    Join(lines, '\n') + "\n"
  }

  function Generated(): string { GeneratedBy("scripts/cf precompile-releases") }

  function MarkerOnly(): string { "# Marker only: the BOSH Director " + "has cached compiled packages for the" }

  function StemcellBelow(): string { "# stemcell below. cf deploy drops " + "use-compiled-releases.yml and reuses" }

  function NoPins(): string { "# the Director cache; " + "no release URL pins are needed here." }

  /** cache_mode_ops, as lines. */
  function CacheLines(stemcell: string): seq<string> {
    ["---", Generated(), MarkerOnly(), StemcellBelow(), NoPins()]
    + [STEMCELL_MARKER + Strip(stemcell), MODE_MARKER + CACHE_MODE]
  }

  predicate Blank(s: string) { Strip(s) == "" }

  predicate Complete(r: Release) { !Blank(r.name) && !Blank(r.version) && !Blank(r.url) && !Blank(r.sha1) }

  predicate DistinctNames(rs: seq<Release>) { forall i, j | 0 <= i < j < |rs| :: rs[i].name != rs[j].name }

  /** compiled_releases_ops; None stands for its ValueError. */
  method CompiledReleasesOps(releases: seq<Release>, stemcell: string, generatedBy: string, consumer: string)
    returns (r: Option<string>)
    ensures r.Some? <==> releases != [] && (forall i | 0 <= i < |releases| :: Complete(releases[i])) && DistinctNames(releases)
    ensures r.Some? ==> r.value == TextOf(OpsLines(releases, stemcell, generatedBy, consumer))
  {
    hide ReleaseLines;
    hide Strip;
    if releases == [] {
      return None;
    }
    var seen: set<string> := {};
    var lines := HeaderLines(generatedBy, consumer);
    if !Blank(stemcell) {
      lines := lines + [STEMCELL_MARKER + Strip(stemcell)];
    }
    ghost var head := lines;
    assert head == HeaderLines(generatedBy, consumer) + MarkerLines(stemcell);
    hide HeaderLines;
    hide MarkerLines;
    var i := 0;
    assert releases[0..] == releases;
    while i < |releases|
      invariant 0 <= i <= |releases|
      invariant lines != [] && lines + BodyLines(releases[i..]) == head + BodyLines(releases)
      invariant seen == set j | 0 <= j < i :: releases[j].name
      invariant forall j | 0 <= j < i :: Complete(releases[j])
      invariant DistinctNames(releases[..i])
    {
      var r := releases[i];
      if !Complete(r) {
        return None;
      }
      if r.name in seen {
        return None;
      }
      assert releases[..i + 1] == releases[..i] + [r];
      seen := seen + {r.name};
      BodyStep(lines, releases, i);
      lines := lines + ReleaseLines(r);
      i := i + 1;
    }
    assert releases[..i] == releases;
    assert releases[i..] == [] && lines + [] == lines;
    return Some(TextOf(lines));
  }

  lemma BodyStep(lines: seq<string>, releases: seq<Release>, i: nat)
    requires i < |releases|
    ensures lines + BodyLines(releases[i..]) == lines + ReleaseLines(releases[i]) + BodyLines(releases[i + 1..])
  {
    hide ReleaseLines;
    assert releases[i..][1..] == releases[i + 1..];
  }

  // ------------------------------------------------------------ the scanners

  /** text.splitlines() */
  function SplitLines(text: string): seq<string> {
    var parts := Split(text, '\n');
    if parts[|parts| - 1] == "" then parts[..|parts| - 1] else parts
  }

  /** stemcell_from_ops, on the lines. */
  function StemcellIn(lines: seq<string>): Option<string> {
    if lines == [] then None
    else
      var s := Strip(lines[0]);
      if STEMCELL_MARKER <= s then
        var v := Strip(s[|STEMCELL_MARKER|..]);
        if v == "" then None else Some(v)
      else StemcellIn(lines[1..])
  }

  /** The longest start without a quote and without whitespace. */
  function Run(s: string): (r: string)
    ensures r <= s
  {
    if s == [] || s[0] == '\"' || IsSpace(s[0]) then [] else [s[0]] + Run(s[1..])
  }

  function Unquoted(s: string): string { if s != [] && s[0] == '\"' then s[1..] else s }

  predicate AllSpace(s: string) { forall i | 0 <= i < |s| :: IsSpace(s[i]) }

  /** The path in a line that matches \s*url:\s*"?(file://[^"\s]+)"?\s*$ */
  function PathIn(line: string): Option<string> {
    var s := TrimLeft(line);
    if !("url:" <= s) then None
    else
      var u := Unquoted(TrimLeft(s[4..]));
      if !("file://" <= u) then None
      else
        var path := Run(u[7..]);
        if path == [] || !AllSpace(Unquoted(u[7 + |path|..])) then None else Some(path)
  }

  /** The paths of a list of lines, in order. */
  function PathsIn(lines: seq<string>): seq<string> {
    if lines == [] then []
    else (match PathIn(lines[0]) case None => [] case Some(p) => [p]) + PathsIn(lines[1..])
  }

  /** local_paths_from_ops */
  method LocalPathsFromOps(text: string) returns (paths: seq<string>)
    ensures paths == PathsIn(SplitLines(text))
  {
    hide PathIn;
    hide Split;
    paths := [];
    var lines := SplitLines(text);
    var i := 0;
    assert lines[0..] == lines;
    while i < |lines|
      invariant 0 <= i <= |lines|
      invariant paths + PathsIn(lines[i..]) == PathsIn(lines)
    {
      assert lines[i..][1..] == lines[i + 1..];
      var m := PathIn(lines[i]);
      if m.Some? {
        assert paths + ([m.value] + PathsIn(lines[i + 1..])) == paths + [m.value] + PathsIn(lines[i + 1..]);
        paths := paths + [m.value];
      } else {
        assert [] + PathsIn(lines[i + 1..]) == PathsIn(lines[i + 1..]);
      }
      i := i + 1;
    }
    assert lines[i..] == [] && paths + [] == paths;
  }

  predicate IsModeLine(line: string) {
    var s := Strip(line);
    MODE_MARKER <= s && Strip(s[|MODE_MARKER|..]) == CACHE_MODE
  }

  /** precompile_mode */
  function PrecompileMode(text: string): Option<string> {
    if Contains(text, RELEASE_PATH) then Some(STORE_OPS_MODE)
    else if exists i | 0 <= i < |SplitLines(text)| :: IsModeLine(SplitLines(text)[i]) then Some(CACHE_MODE)
    else None
  }

  /** precompile_state */
  function PrecompileState(text: string, current: string): string {
    if Strip(text) == "" then "absent"
    else
      var sc := StemcellIn(SplitLines(text));
      if sc.Some? && current != "" && Strip(sc.value) != Strip(current) then "mismatch"
      else
        match PrecompileMode(text)
        case None => "absent"
        case Some(mode) => mode
  }

  // ------------------------------------------------------- lines and strings

  predicate Unbroken(lines: seq<string>) { forall i | 0 <= i < |lines| :: '\n' !in lines[i] }

  lemma JoinBreak(lines: seq<string>)
    requires lines != []
    ensures Join(lines + [""], '\n') == TextOf(lines)
    decreases |lines|
  {
    if |lines| == 1 {
      assert (lines + [""])[1..] == [""];
    } else {
      JoinBreak(lines[1..]);
      assert (lines + [""])[1..] == lines[1..] + [""];
    }
  }

  /** Reading a written file gives its lines back. */
  lemma LinesReadBack(lines: seq<string>)
    requires lines != [] && Unbroken(lines)
    ensures SplitLines(TextOf(lines)) == lines
  {
    JoinBreak(lines);
    SplitJoin(lines + [""], '\n');
    hide Join;
    hide Split;
    assert (lines + [""])[..|lines|] == lines;
  }

  lemma {:induction false} TrimIndent(indent: string, rest: string)
    requires AllSpace(indent) && rest != [] && !IsSpace(rest[0])
    ensures TrimLeft(indent + rest) == rest
  {
    if indent == [] {
      assert indent + rest == rest;
    } else {
      assert (indent + rest)[1..] == indent[1..] + rest;
      TrimIndent(indent[1..], rest);
    }
  }

  /** An indented line starts, stripped, as the text after the indent does. */
  lemma StripIndent(indent: string, rest: string)
    requires AllSpace(indent) && rest != [] && !IsSpace(rest[0])
    ensures Strip(indent + rest) <= rest
  {
    TrimIndent(indent, rest);
    hide TrimLeft;
  }

  // ------------------------------------------------ lines that are not markers

  predicate NotMarker(line: string) { !(STEMCELL_MARKER <= Strip(line)) }

  lemma PlainNotMarker(indent: string, rest: string)
    requires AllSpace(indent) && rest != [] && !IsSpace(rest[0]) && !(STEMCELL_MARKER <= rest)
    ensures NotMarker(indent + rest)
  {
    StripIndent(indent, rest);
    hide Strip;
  }

  lemma {:induction false} StemcellSkips(a: seq<string>, b: seq<string>)
    requires forall i | 0 <= i < |a| :: NotMarker(a[i])
    ensures StemcellIn(a + b) == StemcellIn(b)
  {
    if a == [] {
      assert a + b == b;
    } else {
      assert (a + b)[1..] == a[1..] + b;
      StemcellSkips(a[1..], b);
    }
  }

  lemma MarkedStripped(marker: string, value: string)
    requires value != "" && Strip(value) == value && marker != [] && !IsSpace(marker[0])
    ensures Strip(marker + value) == marker + value
  {
    hide IsSpace;
    var line := marker + value;
    assert Stripped(value);
    assert line[0] == marker[0] && line[|line| - 1] == value[|value| - 1];
    StripStripped(line);
    hide Strip;
  }

  lemma Dropped(marker: string, value: string)
    ensures marker <= marker + value && (marker + value)[|marker|..] == value
  {
  }

  lemma FirstMarker(lines: seq<string>, line: string, value: string)
    requires lines != [] && Strip(lines[0]) == line && STEMCELL_MARKER <= line
    requires line[|STEMCELL_MARKER|..] == value && Strip(value) == value && value != ""
    ensures StemcellIn(lines) == Some(value)
  {
    hide Strip;
  }

  /** A marker line reads back as its value. */
  lemma MarkerReads(value: string, rest: seq<string>)
    requires value != "" && Strip(value) == value
    ensures StemcellIn([STEMCELL_MARKER + value] + rest) == Some(value)
  {
    hide Strip;
    hide StemcellIn;
    MarkedStripped(STEMCELL_MARKER, value);
    Dropped(STEMCELL_MARKER, value);
    FirstMarker([STEMCELL_MARKER + value] + rest, STEMCELL_MARKER + value, value);
  }
}
