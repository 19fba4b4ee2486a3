/** Editing the [RULES] section of a PVE host firewall file (scripts/_hostfw.py),
    with "\n" as the only line break. */
module HostFirewall {
  import opened Text

  // ------------------------------------------------------------------- rules

  function TcpWords(subnet: string): seq<string> {
    ["IN", "ACCEPT", "-source", subnet, "-p", "tcp", "-dport", "8006", "-log", "nolog",
     "#", "cpitest", "SDN", "->", "PVE", "API", "(CPI)"]
  }

  function IcmpWords(subnet: string): seq<string> {
    ["IN", "ACCEPT", "-source", subnet, "-p", "icmp", "-log", "nolog", "#", "cpitest", "SDN", "->", "host", "icmp"]
  }

  function TcpRule(subnet: string): string { Join(TcpWords(subnet), ' ') }

  function IcmpRule(subnet: string): string { Join(IcmpWords(subnet), ' ') }

  function Block(subnet: string): string { TcpRule(subnet) + "\n" + (IcmpRule(subnet) + "\n") }

  predicate HasRuleBlock(content: string, subnet: string) {
    subnet != "" && Contains(content, TcpRule(subnet)) && Contains(content, IcmpRule(subnet))
  }

  // ------------------------------------------------------------------- lines

  /** content.splitlines(keepends=True) */
  function Lines(s: string): (r: seq<string>)
    ensures r == [] <==> s == []
  {
    if s == [] then [] else Prepend(s[0], Lines(s[1..]))
  }

  /** One more character in front: a line of its own, or part of the first line. */
  function Prepend(c: char, rest: seq<string>): (r: seq<string>)
    ensures r != []
  {
    if c == '\n' || rest == [] then [[c]] + rest else [[c] + rest[0]] + rest[1..]
  }

  function Closed(s: string): string { if Whole(s) then s else s + "\n" }

  const HEADER := "[RULES]"

  /** _find_rules_header */
  function FindHeader(lines: seq<string>, from: nat): (r: Option<nat>)
    requires from <= |lines|
    ensures r.Some? ==> from <= r.value < |lines| && Strip(lines[r.value]) == HEADER
    decreases |lines| - from
  {
    if from == |lines| then None
    else if Strip(lines[from]) == HEADER then Some(from)
    else FindHeader(lines, from + 1)
  }

  /** A line without its line break: rstrip("\n").rstrip("\r"). */
  function Bare(line: string): string { TrimEnd(TrimEnd(line, '\n'), '\r') }

  function TrimEnd(s: string, c: char): string {
    if s != [] && s[|s| - 1] == c then TrimEnd(s[..|s| - 1], c) else s
  }

  predicate IsRuleLine(line: string, subnet: string) { Bare(line) == TcpRule(subnet) || Bare(line) == IcmpRule(subnet) }

  function Keep(lines: seq<string>, subnet: string): seq<string> {
    if lines == [] then []
    else (if IsRuleLine(lines[0], subnet) then [] else [lines[0]]) + Keep(lines[1..], subnet)
  }

  // --------------------------------------------------------------- the edits

  /** add_rule_block where the rules are not present yet. */
  function Insert(content: string, subnet: string): string {
    var lines := Lines(content);
    match FindHeader(lines, 0)
    case None => Closed(content) + (HEADER + "\n") + Block(subnet)
    case Some(i) => Flat(lines[..i + 1]) + Block(subnet) + Flat(lines[i + 1..])
  }

  /** add_rule_block for a subnet that is not empty. */
  function Add(content: string, subnet: string): string {
    if HasRuleBlock(content, subnet) then content else Insert(content, subnet)
  }

  /** The content without its rule lines. */
  function Cleaned(content: string, subnet: string): string { Flat(Keep(Lines(content), subnet)) }

  /** remove_rule_block for a subnet that is not empty. */
  function Remove(content: string, subnet: string): string {
    if HasRuleBlock(content, subnet) then Cleaned(content, subnet) else content
  }

  // --------------------------------------------------------- lines and texts

  lemma FlatCons(head: string, tail: seq<string>)
    ensures Flat([head] + tail) == head + Flat(tail)
  {
    FlatConcat([head], tail);
    FlatOne(head);
  }

  lemma FlatPrepend(c: char, rest: seq<string>)
    ensures Flat(Prepend(c, rest)) == [c] + Flat(rest)
  {
    if c == '\n' || rest == [] {
      FlatCons([c], rest);
    } else {
      FlatCons([c] + rest[0], rest[1..]);
      FlatCons(rest[0], rest[1..]);
      assert [rest[0]] + rest[1..] == rest;
      hide Flat;
      assert [c] + rest[0] + Flat(rest[1..]) == [c] + (rest[0] + Flat(rest[1..]));
    }
  }

  /** Joining the lines gives the text back. */
  lemma {:induction false} FlatOfLines(s: string)
    ensures Flat(Lines(s)) == s
  {
    if s == [] {
    } else {
      FlatOfLines(s[1..]);
      FlatPrepend(s[0], Lines(s[1..]));
      hide Flat;
      hide Prepend;
      assert s == [s[0]] + s[1..];
    }
  }

  /** A line has its line break at its end, or none. */
  predicate IsLine(line: string) { line != [] && '\n' !in line[..|line| - 1] }

  /** Lines of which only the last may lack its line break; `last` says whether it
      does not. */
  predicate AreLines(lines: seq<string>, last: bool) {
    && (forall i | 0 <= i < |lines| :: IsLine(lines[i]))
    && (forall i | 0 <= i < |lines| - 1 :: Terminated(lines[i]))
    && (lines != [] ==> (Terminated(lines[|lines| - 1]) <==> last))
  }

  lemma PrependLines(c: char, rest: seq<string>, last: bool)
    requires AreLines(rest, last)
    ensures AreLines(Prepend(c, rest), if rest == [] then c == '\n' else last)
  {
    var lines := Prepend(c, rest);
    if c == '\n' || rest == [] {
      assert IsLine([c]) && (Terminated([c]) <==> c == '\n');
      assert forall i | 0 < i < |lines| :: lines[i] == rest[i - 1];
    } else {
      var first := [c] + rest[0];
      assert IsLine(rest[0]);
      assert first[..|first| - 1] == [c] + rest[0][..|rest[0]| - 1];
      assert IsLine(first) && (Terminated(first) <==> Terminated(rest[0]));
      assert forall i | 0 < i < |lines| :: lines[i] == rest[i];
    }
    hide IsLine;
    hide Terminated;
  }

  lemma {:induction false} LinesAreLines(s: string)
    ensures AreLines(Lines(s), Terminated(s))
  {
    if s == [] {
    } else {
      LinesAreLines(s[1..]);
      PrependLines(s[0], Lines(s[1..]), Terminated(s[1..]));
      hide AreLines;
      hide Prepend;
      assert s[1..] != [] ==> s[1..][|s[1..]| - 1] == s[|s| - 1];
    }
  }

  lemma FlatOne(s: string)
    ensures Flat([s]) == s
  {
    assert [s][..0] == [];
  }

  lemma PrependConcat(c: char, a: seq<string>, b: seq<string>)
    requires c == '\n' || a != []
    ensures Prepend(c, a + b) == Prepend(c, a) + b
  {
    if a != [] {
      assert (a + b)[0] == a[0] && (a + b)[1..] == a[1..] + b;
    } else {
      assert a + b == b;
    }
  }

  /** Text that ends with a line break can be split there. */
  lemma {:induction false} LinesConcat(x: string, y: string)
    requires Whole(x)
    ensures Lines(x + y) == Lines(x) + Lines(y)
  {
    if x == [] {
      assert x + y == y;
    } else {
      assert (x + y)[1..] == x[1..] + y;
      assert x[1..] != [] ==> x[1..][|x[1..]| - 1] == x[|x| - 1];
      LinesConcat(x[1..], y);
      PrependConcat(x[0], Lines(x[1..]), Lines(y));
      hide Prepend;
    }
  }

  lemma {:induction false} OneLine(line: string)
    requires '\n' !in line
    ensures Lines(line + "\n") == [line + "\n"]
  {
    if line == [] {
      assert line + "\n" == "\n";
      assert "\n"[1..] == [];
    } else {
      assert (line + "\n")[1..] == line[1..] + "\n";
      assert forall c | c in line[1..] :: c in line;
      OneLine(line[1..]);
      assert [line[0]] + (line[1..] + "\n") == line + "\n";
    }
  }

  lemma {:induction false} KeepConcat(a: seq<string>, b: seq<string>, subnet: string)
    ensures Keep(a + b, subnet) == Keep(a, subnet) + Keep(b, subnet)
  {
    if a == [] {
      assert a + b == b;
    } else {
      assert (a + b)[1..] == a[1..] + b;
      KeepConcat(a[1..], b, subnet);
    }
  }

  /** Filtering leaves text alone exactly when none of its lines is a rule line. */
  lemma {:induction false} KeepsAllIff(lines: seq<string>, subnet: string)
    requires forall i | 0 <= i < |lines| :: lines[i] != []
    ensures |Flat(Keep(lines, subnet))| <= |Flat(lines)|
    ensures Flat(Keep(lines, subnet)) == Flat(lines) <==> forall i | 0 <= i < |lines| :: !IsRuleLine(lines[i], subnet)
  {
    if lines == [] {
    } else {
      KeepsAllIff(lines[1..], subnet);
      var head := if IsRuleLine(lines[0], subnet) then [] else [lines[0]];
      FlatConcat(head, Keep(lines[1..], subnet));
      FlatConcat([lines[0]], lines[1..]);
      assert [lines[0]] + lines[1..] == lines;
      FlatOne(lines[0]);
      assert |Flat(lines)| == |lines[0]| + |Flat(lines[1..])|;
      assert forall i | 0 <= i < |lines[1..]| :: lines[1..][i] == lines[i + 1];
      if IsRuleLine(lines[0], subnet) {
        assert |Flat(Keep(lines, subnet))| < |Flat(lines)|;
      } else {
        assert Flat(Keep(lines, subnet)) == lines[0] + Flat(Keep(lines[1..], subnet));
        assert Flat(lines) == lines[0] + Flat(lines[1..]);
        assert Flat(Keep(lines, subnet))[|lines[0]|..] == Flat(Keep(lines[1..], subnet));
        assert Flat(lines)[|lines[0]|..] == Flat(lines[1..]);
        if forall i | 0 <= i < |lines[1..]| :: !IsRuleLine(lines[1..][i], subnet) {
          forall i | 0 < i < |lines| ensures !IsRuleLine(lines[i], subnet) { assert lines[i] == lines[1..][i - 1]; }
        }
      }
    }
  }

  // ------------------------------------------------------------ the rule text

  /** No line break and nothing to trim in a subnet, as in every CIDR block. */
  predicate IsSubnet(s: string) { s != [] && forall c | c in s :: c != '\n' && c != ' ' && c != '\r' }

  lemma {:induction false} JoinFree(words: seq<string>, c: char)
    requires words != [] && c != ' ' && forall i | 0 <= i < |words| :: c !in words[i]
    ensures c !in Join(words, ' ')
  {
    if |words| > 1 {
      assert forall i | 0 <= i < |words[1..]| :: words[1..][i] == words[i + 1];
      JoinFree(words[1..], c);
    }
  }

  lemma {:induction false} JoinEnds(words: seq<string>)
    requires words != [] && words[0] != [] && words[|words| - 1] != []
    ensures var s := Join(words, ' ');
      s != [] && s[0] == words[0][0] && s[|s| - 1] == words[|words| - 1][|words[|words| - 1]| - 1]
    ensures |Join(words, ' ')| >= |words|
    decreases |words|
  {
    if |words| > 1 {
      if words[1] != [] {
        JoinEnds(words[1..]);
      } else {
        JoinLast(words[1..]);
      }
    }
  }

  lemma {:induction false} JoinLast(words: seq<string>)
    requires words != [] && words[|words| - 1] != []
    ensures var s := Join(words, ' ');
      |s| >= |words| && s[|s| - 1] == words[|words| - 1][|words[|words| - 1]| - 1]
  {
    if |words| > 1 {
      JoinLast(words[1..]);
      assert words[1..][|words[1..]| - 1] == words[|words| - 1];
    }
  }

  /** What every rule text is like: one line that starts with an I. */
  predicate RuleText(s: string) { |s| > 8 && s[0] == 'I' && '\n' !in s && Bare(s + "\n") == s }

  lemma BareLine(s: string)
    requires s != [] && s[|s| - 1] != '\n' && s[|s| - 1] != '\r'
    ensures Bare(s + "\n") == s
  {
    assert (s + "\n")[..|s + "\n"| - 1] == s;
    assert TrimEnd(s + "\n", '\n') == TrimEnd(s, '\n') == s;
  }

  lemma RulesAreText(subnet: string)
    requires IsSubnet(subnet)
    ensures RuleText(TcpRule(subnet)) && RuleText(IcmpRule(subnet))
  {
    JoinFree(TcpWords(subnet), '\n');
    JoinEnds(TcpWords(subnet));
    JoinFree(IcmpWords(subnet), '\n');
    JoinEnds(IcmpWords(subnet));
    hide Join;
    BareLine(TcpRule(subnet));
    BareLine(IcmpRule(subnet));
    hide Bare;
  }
}
