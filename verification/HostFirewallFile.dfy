/** The firewall edits as they run (scripts/_hostfw.py), and that they leave the
    rules of every other subnet as they were. */
module HostFirewallFile {
  import opened Text
  import opened HostFirewall
  import opened HostFirewallEdits

  // ----------------------------------------------------------- other subnets

  /** A line that is the header holds no I. */
  lemma HeaderHasNoI(line: string)
    requires Strip(line) == HEADER
    ensures 'I' !in line
  {
    hide Strip;
    LettersStay(line, HEADER, 'I') by { assert 'I' !in HEADER && !IsSpace('I'); }
  }

  lemma LettersStay(line: string, text: string, c: char)
    requires Strip(line) == text && c !in text && !IsSpace(c)
    ensures c !in line
  {
    hide Strip;
    hide IsSpace;
    if c in line { StripHolds(line, c); }
  }

  /** Stripping takes away whitespace only. */
  lemma StripHolds(line: string, c: char)
    requires c in line && !IsSpace(c)
    ensures c in Strip(line)
  {
    hide IsSpace;
    hide TrimLeft;
    hide TrimRight;
    LeftHolds(line, c);
    RightHolds(TrimLeft(line), c);
  }

  lemma LeftHolds(s: string, c: char)
    requires c in s && !IsSpace(c)
    ensures c in TrimLeft(s)
  {
    hide IsSpace;
    hide TrimLeft;
    var r := TrimLeft(s);
    var i :| 0 <= i < |s| && s[i] == c;
    assert r[i - (|s| - |r|)] == c;
  }

  lemma RightHolds(s: string, c: char)
    requires c in s && !IsSpace(c)
    ensures c in TrimRight(s)
  {
    hide IsSpace;
    hide TrimRight;
    var i :| 0 <= i < |s| && s[i] == c;
    assert TrimRight(s)[i] == c;
  }

  lemma BlockLacks(subnet: string, r: string)
    requires IsSubnet(subnet) && RuleText(r) && !Contains(TcpRule(subnet), r) && !Contains(IcmpRule(subnet), r)
    ensures !Contains(Block(subnet), r)
  {
    hide Contains;
    hide TcpRule;
    hide IcmpRule;
    ContainsBreak(TcpRule(subnet), r);
    ContainsBreak(IcmpRule(subnet), r);
    ContainsSplit(TcpRule(subnet) + "\n", IcmpRule(subnet) + "\n", r);
  }

  /** The place where the rules go separates what comes before from what comes after. */
  lemma PlaceSeparates(content: string, y: string, r: string)
    requires RuleText(r)
    ensures Contains(Before(content) + y, r) <==> Contains(Before(content), r) || Contains(y, r)
    ensures FindHeader(Lines(content), 0).None? ==> (Contains(Before(content), r) <==> Contains(content, r))
  {
    hide Contains;
    hide RuleText;
    RuleTextIs(r);
    if FindHeader(Lines(content), 0).None? {
      ContainsSplit(Before(content), y, r);
      ContainsSplit(Closed(content), HEADER + "\n", r);
      ContainsLonger(HEADER + "\n", r);
      ContainsBreak(content, r);
    } else {
      HeaderSeparates(content, y, r);
    }
  }

  lemma HeaderSeparates(content: string, y: string, r: string)
    requires FindHeader(Lines(content), 0).Some? && RuleText(r)
    ensures Contains(Before(content) + y, r) <==> Contains(Before(content), r) || Contains(y, r)
  {
    hide Contains;
    hide RuleText;
    hide Before;
    RuleTextIs(r);
    var x, z := HeaderParts(content);
    ContainsApart(x, z, y, r);
  }

  /** With a header, what comes before the rules is whole text and the header line. */
  lemma HeaderParts(content: string) returns (x: string, z: string)
    requires FindHeader(Lines(content), 0).Some?
    ensures Before(content) == x + z && Whole(x) && 'I' !in z
  {
    hide Lines;
    hide FindHeader;
    hide AreLines;
    hide Strip;
    var lines := Lines(content);
    var i := FindHeader(lines, 0).value;
    LinesAreLines(content);
    WholeBefore(lines, Terminated(content), i);
    HeaderHasNoI(lines[i]);
    x, z := Flat(lines[..i]), lines[i];
    assert lines[..i + 1][..i] == lines[..i];
  }

  lemma RuleTextIs(r: string)
    requires RuleText(r)
    ensures |r| > 8 && r[0] == 'I' && '\n' !in r
  {
  }

  lemma WholeBefore(lines: seq<string>, last: bool, i: nat)
    requires AreLines(lines, last) && i < |lines|
    ensures Whole(Flat(lines[..i]))
  {
    if i > 0 {
      FirstLines(lines, last, i);
      FlatWhole(lines[..i], Terminated(lines[i - 1]));
    }
  }

  lemma BlockSeparates(subnet: string, post: string, r: string)
    requires IsSubnet(subnet) && RuleText(r) && !Contains(TcpRule(subnet), r) && !Contains(IcmpRule(subnet), r)
    ensures Contains(Block(subnet) + post, r) <==> Contains(post, r)
  {
    hide Contains;
    hide TcpRule;
    hide IcmpRule;
    BlockLacks(subnet, r);
    BlockLines(subnet);
    RuleTextIs(r);
    hide Block;
    ContainsSplit(Block(subnet), post, r);
  }

  /** Adding rules neither makes nor breaks an occurrence of any other rule. */
  lemma InsertKeeps(content: string, subnet: string, r: string)
    requires IsSubnet(subnet) && RuleText(r) && !Contains(TcpRule(subnet), r) && !Contains(IcmpRule(subnet), r)
    ensures Contains(Insert(content, subnet), r) <==> Contains(content, r)
  {
    hide *;
    var pre, post := Before(content), After(content);
    PartsContain(content, r);
    InsertIs(content, subnet);
    assert pre + Block(subnet) + post == pre + (Block(subnet) + post);
    BlockSeparates(subnet, post, r);
    PlaceSeparates(content, Block(subnet) + post, r);
  }

  lemma PartsContain(content: string, r: string)
    requires RuleText(r)
    ensures Contains(content, r) <==> Contains(Before(content), r) || Contains(After(content), r)
  {
    hide Contains;
    PlaceSeparates(content, After(content), r);
    if FindHeader(Lines(content), 0).Some? {
      PartsOf(content);
    } else {
      RuleTextIs(r);
      ContainsLonger([], r);
      assert After(content) == [];
    }
    hide RuleText;
    hide Before;
    hide Lines;
  }

  /** Adding one subnet's rules never changes whether another's are present. */
  lemma AddKeepsOthers(content: string, mine: string, other: string)
    requires IsSubnet(mine) && IsSubnet(other) && mine != other
    ensures HasRuleBlock(Add(content, mine), other) <==> HasRuleBlock(content, other)
  {
    OtherRules(mine, other);
    RulesAreText(other);
    InsertKeeps(content, mine, TcpRule(other));
    InsertKeeps(content, mine, IcmpRule(other));
    hide Insert;
    hide Contains;
    hide TcpRule;
    hide IcmpRule;
  }

  // ------------------------------------------------- removing, other subnets

  /** A text without line breaks that a line holds is in front of its line break. */
  lemma {:induction false} ContainsTrimmed(s: string, c: char, r: string)
    requires r != [] && r[|r| - 1] != c && Contains(s, r)
    ensures Contains(TrimEnd(s, c), r)
  {
    if s != [] && s[|s| - 1] == c {
      var t := s[..|s| - 1];
      var i :| 0 <= i <= |s| && OccursAt(s, r, i);
      CharAt(s, r, i, |r| - 1);
      assert i + |r| <= |t|;
      assert t[i..i + |r|] == s[i..i + |r|];
      Occurs(t, r, i);
      ContainsTrimmed(t, c, r);
    }
  }

  lemma RuleLineLacks(line: string, mine: string, r: string)
    requires IsRuleLine(line, mine) && RuleText(r) && r[|r| - 1] != '\r'
    requires !Contains(TcpRule(mine), r) && !Contains(IcmpRule(mine), r)
    ensures !Contains(line, r)
  {
    hide TcpRule;
    hide IcmpRule;
    if Contains(line, r) {
      RuleTextIs(r);
      ContainsTrimmed(line, '\n', r);
      ContainsTrimmed(TrimEnd(line, '\n'), '\r', r);
    }
    hide Contains;
    hide TrimEnd;
  }

  lemma {:induction false} KeepKeeps(lines: seq<string>, last: bool, mine: string, r: string)
    requires AreLines(lines, last) && RuleText(r)
    requires forall i | 0 <= i < |lines| && IsRuleLine(lines[i], mine) :: !Contains(lines[i], r)
    ensures Contains(Flat(Keep(lines, mine)), r) <==> Contains(Flat(lines), r)
  {
    hide Contains;
    hide IsRuleLine;
    hide RuleText;
    hide Flat;
    if lines == [] {
    } else {
      RuleTextIs(r);
      var head, rest := lines[0], lines[1..];
      assert lines == [head] + rest;
      assert AreLines(rest, last);
      assert forall i | 0 <= i < |rest| :: rest[i] == lines[i + 1];
      KeepKeeps(rest, last, mine, r);
      FlatCons(head, rest);
      FlatCons(head, Keep(rest, mine));
      if rest == [] {
        assert lines == [head];
        LastKept(head, mine, r);
      } else {
        assert Terminated(head);
        ContainsSplit(head, Flat(rest), r);
        ContainsSplit(head, Flat(Keep(rest, mine)), r);
        assert [] + Keep(rest, mine) == Keep(rest, mine);
      }
    }
  }

  lemma LastKept(head: string, mine: string, r: string)
    requires r != [] && (IsRuleLine(head, mine) ==> !Contains(head, r))
    ensures Contains(Flat(Keep([head], mine)), r) <==> Contains(Flat([head]), r)
  {
    hide IsRuleLine;
    FlatOne(head);
    assert [head][1..] == [];
    if IsRuleLine(head, mine) {
      assert Keep([head], mine) == [];
      ContainsLonger([], r);
    } else {
      assert Keep([head], mine) == [head];
    }
  }

  lemma RuleEnds(subnet: string)
    ensures TcpRule(subnet) != [] && TcpRule(subnet)[|TcpRule(subnet)| - 1] == ')'
    ensures IcmpRule(subnet) != [] && IcmpRule(subnet)[|IcmpRule(subnet)| - 1] == 'p'
  {
    JoinEnds(TcpWords(subnet));
    JoinEnds(IcmpWords(subnet));
  }

  /** Removing one subnet's rules never changes whether another's are present. */
  lemma RemoveKeepsOthers(content: string, mine: string, other: string)
    requires IsSubnet(mine) && IsSubnet(other) && mine != other
    ensures HasRuleBlock(Remove(content, mine), other) <==> HasRuleBlock(content, other)
  {
    OtherRules(mine, other);
    RulesAreText(other);
    RuleEnds(other);
    LinesAreLines(content);
    FlatOfLines(content);
    hide Contains;
    hide TcpRule;
    hide IcmpRule;
    hide Lines;
    var lines := Lines(content);
    forall i | 0 <= i < |lines| && IsRuleLine(lines[i], mine)
      ensures !Contains(lines[i], TcpRule(other)) && !Contains(lines[i], IcmpRule(other))
    {
      RuleLineLacks(lines[i], mine, TcpRule(other));
      RuleLineLacks(lines[i], mine, IcmpRule(other));
    }
    hide IsRuleLine;
    hide RuleText;
    hide AreLines;
    KeepKeeps(lines, Terminated(content), mine, TcpRule(other));
    KeepKeeps(lines, Terminated(content), mine, IcmpRule(other));
    hide Keep;
    hide Flat;
  }

  // --------------------------------------------------------------- the program

  method FindRulesHeader(lines: seq<string>) returns (r: Option<nat>)
    ensures r == FindHeader(lines, 0)
    ensures r.Some? ==> forall j | 0 <= j < r.value :: Strip(lines[j]) != HEADER
    ensures r.None? ==> forall j | 0 <= j < |lines| :: Strip(lines[j]) != HEADER
  {
    hide Strip;
    var i := 0;
    while i < |lines|
      invariant 0 <= i <= |lines| && FindHeader(lines, 0) == FindHeader(lines, i)
      invariant forall j | 0 <= j < i :: Strip(lines[j]) != HEADER
    {
      if Strip(lines[i]) == HEADER {
        return Some(i);
      }
      i := i + 1;
    }
    return None;
  }

  /** add_rule_block; None stands for its ValueError. */
  method AddRuleBlock(content: string, subnet: string) returns (r: Option<string>)
    ensures r == if subnet == "" then None else Some(Add(content, subnet))
  {
    hide HasRuleBlock;
    hide TcpRule;
    hide IcmpRule;
    hide Strip;
    hide FindHeader;
    hide Lines;
    hide Flat;
    if subnet == "" {
      return None;
    }
    if HasRuleBlock(content, subnet) {
      return Some(content);
    }
    var block := TcpRule(subnet) + "\n" + (IcmpRule(subnet) + "\n");
    var lines := Lines(content);
    var at := FindRulesHeader(lines);
    if at.None? {
      ClosedLines(content);
      if lines != [] && !Terminated(lines[|lines| - 1]) {
        lines := lines[|lines| - 1 := lines[|lines| - 1] + "\n"];
      }
      SectionAppended(lines, block);
      lines := lines + [HEADER + "\n"] + [block];
    } else {
      var i := at.value;
      BlockInserted(lines[..i + 1], block, lines[i + 1..]);
      lines := lines[..i + 1] + [block] + lines[i + 1..];
    }
    return Some(Flat(lines));
  }

  /** Closing the last line closes the text. */
  lemma ClosedLines(content: string)
    ensures var lines := Lines(content);
      if lines != [] && !Terminated(lines[|lines| - 1])
      then Flat(lines[|lines| - 1 := lines[|lines| - 1] + "\n"]) == Closed(content)
      else Flat(lines) == Closed(content)
  {
    FlatOfLines(content);
    LinesAreLines(content);
    var lines := Lines(content);
    if lines != [] { CloseLast(lines); }
    hide Lines;
    hide Flat;
  }

  lemma SectionAppended(lines: seq<string>, block: string)
    ensures Flat(lines + [HEADER + "\n"] + [block]) == Flat(lines) + (HEADER + "\n") + block
  {
    FlatConcat(lines + [HEADER + "\n"], [block]);
    FlatConcat(lines, [HEADER + "\n"]);
    FlatOne(HEADER + "\n");
    FlatOne(block);
    hide Flat;
  }

  lemma BlockInserted(front: seq<string>, block: string, back: seq<string>)
    ensures Flat(front + [block] + back) == Flat(front) + block + Flat(back)
  {
    FlatConcat(front + [block], back);
    FlatConcat(front, [block]);
    FlatOne(block);
    hide Flat;
  }

  lemma CloseLast(lines: seq<string>)
    requires lines != []
    ensures Flat(lines[|lines| - 1 := lines[|lines| - 1] + "\n"]) == Flat(lines) + "\n"
  {
    var n := |lines| - 1;
    var closed := lines[n := lines[n] + "\n"];
    assert closed[..n] == lines[..n];
    assert Flat(closed) == Flat(lines[..n]) + (lines[n] + "\n");
    assert Flat(lines) == Flat(lines[..n]) + lines[n];
  }

  /** remove_rule_block; None stands for its ValueError. */
  method RemoveRuleBlock(content: string, subnet: string) returns (r: Option<string>)
    ensures r == if subnet == "" then None else Some(Remove(content, subnet))
  {
    hide HasRuleBlock;
    hide IsRuleLine;
    if subnet == "" {
      return None;
    }
    if !HasRuleBlock(content, subnet) {
      return Some(content);
    }
    var lines := Lines(content);
    var keep: seq<string> := [];
    var i := 0;
    assert lines[0..] == lines;
    while i < |lines|
      invariant 0 <= i <= |lines|
      invariant keep + Keep(lines[i..], subnet) == Keep(lines, subnet)
    {
      assert lines[i..][1..] == lines[i + 1..];
      if !IsRuleLine(lines[i], subnet) {
        assert keep + ([lines[i]] + Keep(lines[i + 1..], subnet)) == keep + [lines[i]] + Keep(lines[i + 1..], subnet);
        keep := keep + [lines[i]];
      } else {
        assert [] + Keep(lines[i + 1..], subnet) == Keep(lines[i + 1..], subnet);
      }
      i := i + 1;
    }
    assert lines[i..] == [] && keep + [] == keep;
    return Some(Flat(keep));
  }
}
