/** What adding and removing firewall rules do to a file (scripts/_hostfw.py). */
module HostFirewallEdits {
  import opened Text
  import opened HostFirewall

  // --------------------------------------------------------- words of a text

  lemma {:induction false} SplitPrefix(u: string, b: string)
    ensures |Split(u + b, ' ')| >= |Split(u, ' ')|
    ensures forall k | 0 <= k < |Split(u, ' ')| - 1 :: Split(u + b, ' ')[k] == Split(u, ' ')[k]
  {
    if u == [] {
    } else {
      assert (u + b)[1..] == u[1..] + b;
      SplitPrefix(u[1..], b);
    }
  }

  lemma {:induction false} SplitSuffix(a: string, t: string)
    ensures |Split(a + t, ' ')| >= |Split(t, ' ')|
    ensures var d := |Split(a + t, ' ')| - |Split(t, ' ')|;
      forall k | 0 < k < |Split(t, ' ')| :: Split(a + t, ' ')[d + k] == Split(t, ' ')[k]
  {
    if a == [] {
      assert a + t == t;
    } else {
      assert (a + t)[1..] == a[1..] + t;
      SplitSuffix(a[1..], t);
    }
  }

  /** From d on, w has the words of v, but for the first and the last one. */
  predicate RunAt(w: seq<string>, v: seq<string>, d: nat) {
    d + |v| <= |w| && forall k | 0 < k < |v| - 1 :: w[d + k] == v[k]
  }

  lemma TcpInTcp(mine: string, other: string, d: nat)
    requires RunAt(TcpWords(mine), TcpWords(other), d)
    ensures mine == other
  {
    assert TcpWords(mine)[d + 3] == TcpWords(other)[3];
  }

  lemma IcmpInIcmp(mine: string, other: string, d: nat)
    requires RunAt(IcmpWords(mine), IcmpWords(other), d)
    ensures mine == other
  {
    assert IcmpWords(mine)[d + 3] == IcmpWords(other)[3];
  }

  lemma IcmpInTcp(mine: string, other: string, d: nat)
    ensures !RunAt(TcpWords(mine), IcmpWords(other), d)
  {
    var w, v := TcpWords(mine), IcmpWords(other);
    if d == 0 {
      assert w[d + 5] != v[5];
    } else if d == 2 {
      assert w[d + 2] != v[2];
    } else if d <= 3 {
      assert w[d + 1] != v[1];
    }
  }

  /** The inner words of a part are a run of words of the whole. */
  lemma InnerWords(t: string, u: string) returns (d: nat)
    requires Contains(t, u)
    ensures RunAt(Split(t, ' '), Split(u, ' '), d)
  {
    var i :| 0 <= i <= |t| && OccursAt(t, u, i);
    var tail := u + t[i + |u|..];
    assert t == t[..i] + tail;
    SplitSuffix(t[..i], tail);
    SplitPrefix(u, t[i + |u|..]);
    d := |Split(t, ' ')| - |Split(tail, ' ')|;
    hide Split;
  }

  lemma RuleWords(subnet: string)
    requires IsSubnet(subnet)
    ensures Split(TcpRule(subnet), ' ') == TcpWords(subnet) && Split(IcmpRule(subnet), ' ') == IcmpWords(subnet)
  {
    assert ' ' !in subnet;
    SplitJoin(TcpWords(subnet), ' ');
    SplitJoin(IcmpWords(subnet), ' ');
    hide Split;
    hide Join;
  }

  /** A rule of one subnet never occurs in a rule of another. */
  lemma OtherRules(mine: string, other: string)
    requires IsSubnet(mine) && IsSubnet(other) && mine != other
    ensures !Contains(TcpRule(mine), TcpRule(other)) && !Contains(IcmpRule(mine), TcpRule(other))
    ensures !Contains(TcpRule(mine), IcmpRule(other)) && !Contains(IcmpRule(mine), IcmpRule(other))
  {
    RuleWords(mine);
    RuleWords(other);
    hide Split;
    hide TcpRule;
    hide IcmpRule;
    hide Contains;
    if Contains(TcpRule(mine), TcpRule(other)) {
      var d := InnerWords(TcpRule(mine), TcpRule(other));
      TcpInTcp(mine, other, d);
    }
    if Contains(IcmpRule(mine), IcmpRule(other)) {
      var d := InnerWords(IcmpRule(mine), IcmpRule(other));
      IcmpInIcmp(mine, other, d);
    }
    if Contains(TcpRule(mine), IcmpRule(other)) {
      var d := InnerWords(TcpRule(mine), IcmpRule(other));
      IcmpInTcp(mine, other, d);
    }
    if Contains(IcmpRule(mine), TcpRule(other)) {
      var d := InnerWords(IcmpRule(mine), TcpRule(other));
    }
  }

  // -------------------------------------------------- where the rules go

  /** The text up to the place where the rules go. */
  function Before(content: string): string {
    var lines := Lines(content);
    match FindHeader(lines, 0)
    case None => Closed(content) + (HEADER + "\n")
    case Some(i) => Flat(lines[..i + 1])
  }

  function After(content: string): string {
    var lines := Lines(content);
    match FindHeader(lines, 0)
    case None => []
    case Some(i) => Flat(lines[i + 1..])
  }

  /** The first header line ends with a line break. */
  predicate GoodHeader(content: string) {
    var h := FindHeader(Lines(content), 0);
    h.Some? && Terminated(Lines(content)[h.value])
  }

  /** The first header line is the last line and has no line break. */
  predicate OpenHeader(content: string) { FindHeader(Lines(content), 0).Some? && !GoodHeader(content) }

  lemma InsertIs(content: string, subnet: string)
    ensures Insert(content, subnet) == Before(content) + Block(subnet) + After(content)
  {
  }

  lemma {:induction false} FlatWhole(lines: seq<string>, last: bool)
    requires AreLines(lines, last) && lines != []
    ensures Flat(lines) != [] && (Terminated(Flat(lines)) <==> last)
  {
    var tail := lines[|lines| - 1];
    assert IsLine(tail);
    assert Flat(lines) == Flat(lines[..|lines| - 1]) + tail;
  }

  lemma FirstLines(lines: seq<string>, last: bool, n: nat)
    requires AreLines(lines, last) && 0 < n <= |lines|
    ensures AreLines(lines[..n], Terminated(lines[n - 1]))
  {
    hide IsLine;
    hide Terminated;
  }

  /** With a header, the file is the two parts. */
  lemma PartsOf(content: string)
    requires FindHeader(Lines(content), 0).Some?
    ensures content == Before(content) + After(content)
    ensures Terminated(Before(content)) <==> GoodHeader(content)
    ensures OpenHeader(content) ==> After(content) == []
  {
    hide Lines;
    hide FindHeader;
    var lines := Lines(content);
    LinesAreLines(content);
    FlatOfLines(content);
    PartsOfLines(lines, Terminated(content), FindHeader(lines, 0).value);
    hide Flat;
    hide AreLines;
    hide Terminated;
  }

  lemma PartsOfLines(lines: seq<string>, last: bool, i: nat)
    requires AreLines(lines, last) && i < |lines|
    ensures Flat(lines) == Flat(lines[..i + 1]) + Flat(lines[i + 1..])
    ensures Terminated(Flat(lines[..i + 1])) <==> Terminated(lines[i])
    ensures !Terminated(lines[i]) ==> Flat(lines[i + 1..]) == []
  {
    hide AreLines;
    hide Terminated;
    hide Flat;
    FlatConcat(lines[..i + 1], lines[i + 1..]);
    assert lines[..i + 1] + lines[i + 1..] == lines;
    FirstLines(lines, last, i + 1);
    FlatWhole(lines[..i + 1], Terminated(lines[i]));
    if !Terminated(lines[i]) {
      LastOpen(lines, last, i);
    }
  }

  lemma LastOpen(lines: seq<string>, last: bool, i: nat)
    requires AreLines(lines, last) && i < |lines| && !Terminated(lines[i])
    ensures i == |lines| - 1 && Flat(lines[i + 1..]) == []
  {
    assert lines[|lines|..] == [];
  }

  lemma BlockLines(subnet: string)
    requires IsSubnet(subnet)
    ensures Lines(Block(subnet)) == [TcpRule(subnet) + "\n", IcmpRule(subnet) + "\n"] && Terminated(Block(subnet))
    ensures Keep(Lines(Block(subnet)), subnet) == []
  {
    RulesAreText(subnet);
    var tcp, icmp := TcpRule(subnet), IcmpRule(subnet);
    OneLine(tcp);
    OneLine(icmp);
    LinesConcat(tcp + "\n", icmp + "\n");
    hide Lines;
    hide TcpRule;
    hide IcmpRule;
    hide Bare;
    var lines := [tcp + "\n", icmp + "\n"];
    assert lines[1..] == [icmp + "\n"] && lines[1..][1..] == [];
    assert Keep(lines[1..][1..], subnet) == [];
    assert Keep(lines[1..], subnet) == [];
  }

  // ---------------------------------------------------- adding is idempotent

  lemma HasAfterInsert(content: string, subnet: string)
    requires subnet != ""
    ensures HasRuleBlock(Insert(content, subnet), subnet)
  {
    InsertIs(content, subnet);
    hide Insert;
    hide Before;
    hide After;
    var pre, post := Before(content), After(content);
    var tcp, icmp := TcpRule(subnet), IcmpRule(subnet);
    hide TcpRule;
    hide IcmpRule;
    var s := pre + Block(subnet) + post;
    assert s == pre + tcp + ("\n" + icmp + "\n" + post);
    assert s[|pre|..|pre| + |tcp|] == tcp;
    Occurs(s, tcp, |pre|);
    assert s == pre + tcp + "\n" + icmp + ("\n" + post);
    assert s[|pre| + |tcp| + 1..|pre| + |tcp| + 1 + |icmp|] == icmp;
    Occurs(s, icmp, |pre| + |tcp| + 1);
  }

  /** Adding a block that is there changes nothing, whatever the file holds. */
  lemma AddIsIdempotent(content: string, subnet: string)
    requires subnet != ""
    ensures Add(Add(content, subnet), subnet) == Add(content, subnet) && HasRuleBlock(Add(content, subnet), subnet)
  {
    HasAfterInsert(content, subnet);
    hide Insert;
    hide HasRuleBlock;
  }

  // ------------------------------------------------------------ round trips

  predicate NoRuleLine(content: string, subnet: string) {
    forall i | 0 <= i < |Lines(content)| :: !IsRuleLine(Lines(content)[i], subnet)
  }

  lemma CleanedIff(content: string, subnet: string)
    ensures Cleaned(content, subnet) == content <==> NoRuleLine(content, subnet)
  {
    LinesAreLines(content);
    FlatOfLines(content);
    forall i | 0 <= i < |Lines(content)| ensures Lines(content)[i] != [] { assert IsLine(Lines(content)[i]); }
    KeepsAllIff(Lines(content), subnet);
    hide IsRuleLine;
    hide Lines;
  }

  lemma CleanedConcat(x: string, y: string, subnet: string)
    requires Whole(x)
    ensures Cleaned(x + y, subnet) == Cleaned(x, subnet) + Cleaned(y, subnet)
  {
    LinesConcat(x, y);
    KeepConcat(Lines(x), Lines(y), subnet);
    FlatConcat(Keep(Lines(x), subnet), Keep(Lines(y), subnet));
    hide Lines;
    hide Keep;
  }

  /** Between whole parts, the rules go without a trace. */
  lemma CleanedInsert(pre: string, post: string, subnet: string)
    requires Whole(pre) && IsSubnet(subnet)
    ensures Cleaned(pre + Block(subnet) + post, subnet) == Cleaned(pre + post, subnet)
  {
    BlockLines(subnet);
    assert Cleaned(Block(subnet), subnet) == [];
    hide Cleaned;
    assert pre + Block(subnet) + post == pre + (Block(subnet) + post);
    CleanedConcat(pre, Block(subnet) + post, subnet);
    CleanedConcat(Block(subnet), post, subnet);
    CleanedConcat(pre, post, subnet);
  }

  /** Removing what was added leaves a file whose header line ends with a line break
      without its rule lines, old or new. */
  lemma RoundTripHeader(content: string, subnet: string)
    requires IsSubnet(subnet) && GoodHeader(content)
    ensures Remove(Add(content, subnet), subnet) == Cleaned(content, subnet)
  {
    AddIsIdempotent(content, subnet);
    PartsOf(content);
    InsertIs(content, subnet);
    hide Before;
    hide After;
    hide Insert;
    hide HasRuleBlock;
    CleanedInsert(Before(content), After(content), subnet);
    hide Cleaned;
  }

  lemma HeaderStays(subnet: string)
    requires IsSubnet(subnet)
    ensures Cleaned(HEADER + "\n", subnet) == HEADER + "\n"
  {
    OneLine(HEADER);
    RulesAreText(subnet);
    assert TrimEnd(HEADER, '\n') == HEADER;
    assert (HEADER + "\n")[..|HEADER + "\n"| - 1] == HEADER;
    assert Bare(HEADER + "\n") == HEADER;
    hide TcpRule;
    hide IcmpRule;
    hide Bare;
    assert [HEADER + "\n"][1..] == [];
    assert Keep([HEADER + "\n"], subnet) == [HEADER + "\n"];
    FlatOne(HEADER + "\n");
  }

  lemma CleanedNewSection(whole: string, subnet: string)
    requires Whole(whole) && IsSubnet(subnet)
    ensures Cleaned(whole + (HEADER + "\n") + Block(subnet) + [], subnet) == Cleaned(whole, subnet) + (HEADER + "\n")
  {
    var pre := whole + (HEADER + "\n");
    CleanedInsert(pre, [], subnet);
    CleanedConcat(whole, HEADER + "\n", subnet);
    HeaderStays(subnet);
    hide Cleaned;
    hide Block;
    assert pre + [] == pre;
  }

  /** Without a header, one is left behind. */
  lemma RoundTripNoHeader(content: string, subnet: string)
    requires IsSubnet(subnet) && FindHeader(Lines(content), 0).None? && !HasRuleBlock(content, subnet)
    ensures Remove(Add(content, subnet), subnet) == Cleaned(Closed(content), subnet) + (HEADER + "\n")
  {
    HasAfterInsert(content, subnet);
    InsertIs(content, subnet);
    hide Insert;
    hide HasRuleBlock;
    CleanedNewSection(Closed(content), subnet);
    hide Cleaned;
    hide Block;
    hide Lines;
  }

  /** A file that keeps its trailing header line has a header. */
  lemma {:induction false} EndsInHeader(x: string)
    requires Whole(x)
    ensures FindHeader(Lines(x + (HEADER + "\n")), 0).Some?
  {
    LinesConcat(x, HEADER + "\n");
    OneLine(HEADER);
    var lines := Lines(x) + [HEADER + "\n"];
    HeaderLine();
    assert lines[|lines| - 1] == HEADER + "\n";
    FoundFrom(lines, 0, |lines| - 1);
  }

  lemma HeaderLine()
    ensures Strip(HEADER + "\n") == HEADER
  {
    var line := HEADER + "\n";
    assert TrimLeft(line) == line;
    assert line[..|line| - 1] == HEADER;
    assert TrimRight(line) == TrimRight(HEADER) == HEADER;
  }

  lemma {:induction false} FoundFrom(lines: seq<string>, from: nat, i: nat)
    requires from <= i < |lines| && Strip(lines[i]) == HEADER
    ensures FindHeader(lines, from).Some?
    decreases |lines| - from
  {
    if Strip(lines[from]) != HEADER {
      FoundFrom(lines, from + 1, i);
    }
  }

  /** Taking lines out of whole text leaves whole text. */
  lemma {:induction false} KeptWhole(lines: seq<string>, subnet: string)
    requires forall i | 0 <= i < |lines| :: Terminated(lines[i])
    ensures Whole(Flat(Keep(lines, subnet)))
  {
    if lines == [] {
    } else {
      KeptWhole(lines[1..], subnet);
      var rest := Keep(lines[1..], subnet);
      if !IsRuleLine(lines[0], subnet) {
        FlatCons(lines[0], rest);
      } else {
        assert [] + rest == rest;
      }
      hide IsRuleLine;
    }
  }

  lemma CleanedWhole(content: string, subnet: string)
    requires Whole(content)
    ensures Whole(Cleaned(content, subnet))
  {
    LinesAreLines(content);
    KeptWhole(Lines(content), subnet);
  }

  /** The rules are glued to a header line without a line break, and removing them
      does not give the file back. */
  lemma RoundTripOpenHeader(content: string, subnet: string)
    requires IsSubnet(subnet) && OpenHeader(content) && !HasRuleBlock(content, subnet)
    ensures Add(content, subnet) == content + Block(subnet)
    ensures Remove(Add(content, subnet), subnet) != content
  {
    HasAfterInsert(content, subnet);
    InsertIs(content, subnet);
    PartsOf(content);
    hide Insert;
    hide HasRuleBlock;
    assert content == Before(content) by { assert Before(content) + [] == Before(content); }
    assert Before(content) + Block(subnet) + [] == content + Block(subnet);
    hide Before;
    hide After;
    BlockLines(subnet);
    CleanedWhole(content + Block(subnet), subnet);
    hide Cleaned;
    hide Block;
    assert content != [] by { assert Lines(content) != []; }
  }

  /** Adding and then removing the rules gives the file back exactly when none of
      its lines is one of the rules and, unless it has the rule block already, its
      first [RULES] line ends with a line break. */
  lemma RoundTripIff(content: string, subnet: string)
    requires IsSubnet(subnet)
    ensures Remove(Add(content, subnet), subnet) == content
       <==> NoRuleLine(content, subnet) && (HasRuleBlock(content, subnet) || GoodHeader(content))
  {
    CleanedIff(content, subnet);
    if HasRuleBlock(content, subnet) {
    } else if GoodHeader(content) {
      RoundTripHeader(content, subnet);
    } else if OpenHeader(content) {
      RoundTripOpenHeader(content, subnet);
    } else {
      RoundTripNoHeader(content, subnet);
      CleanedWhole(Closed(content), subnet);
      EndsInHeader(Cleaned(Closed(content), subnet));
    }
    hide HasRuleBlock;
    hide Cleaned;
    hide NoRuleLine;
    hide Add;
    hide Remove;
  }

  /** The concrete case: a file that is just an unterminated header. */
  lemma BareHeaderFails(subnet: string)
    requires IsSubnet(subnet)
    ensures Remove(Add(HEADER, subnet), subnet) != HEADER
  {
    OneOpenLine(HEADER);
    StripStripped(HEADER);
    RulesAreText(subnet);
    ContainsLonger(HEADER, TcpRule(subnet));
    hide Contains;
    hide TcpRule;
    RoundTripOpenHeader(HEADER, subnet);
  }

  lemma {:induction false} OneOpenLine(line: string)
    requires '\n' !in line && line != []
    ensures Lines(line) == [line]
  {
    if |line| == 1 {
      assert line[1..] == [] && line == [line[0]];
    } else {
      assert forall c | c in line[1..] :: c in line;
      OneOpenLine(line[1..]);
      assert [line[0]] + line[1..] == line;
    }
  }
}
