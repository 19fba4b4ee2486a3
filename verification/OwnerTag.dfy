/** The owner tag as the code cleans it, character by character, and as its
    documentation says, byte by byte (scripts/_spanning.py): when the two agree. */
module OwnerTag {
  import opened Text
  import opened Placement

  /** The length of a character in UTF-8. */
  function Utf8Length(c: char): nat {
    var n := c as int;
    if n < 0x80 then 1 else if n < 0x800 then 2 else if n < 0x10000 then 3 else 4
  }

  predicate Ascii(s: string) { forall i | 0 <= i < |s| :: s[i] as int < 0x80 }

  function Dashes(n: nat): (r: string)
    ensures |r| == n && forall i | 0 <= i < n :: r[i] == '-'
  {
    if n == 0 then [] else ['-'] + Dashes(n - 1)
  }

  /** Bytes outside [A-Za-z0-9-] become "-", letters become lower case. */
  function CleanBytes(s: string): (r: string)
    ensures |r| >= |s|
  {
    if s == [] then [] else CleanChar(s[0]) + CleanBytes(s[1..])
  }

  function CleanChar(c: char): (r: string)
    ensures |r| >= 1
  {
    if IsTagChar(c) then [Lower(c)] else Dashes(Utf8Length(c))
  }

  /** The owner value of the documentation. */
  function OwnerBytes(uuid: string): string { TrimDashes(CleanBytes(uuid)) }

  /** Byte-wise and character-wise cleaning agree exactly on ASCII text. */
  lemma {:induction false} CleanAgreesIff(s: string)
    ensures CleanBytes(s) == CleanTag(s) <==> Ascii(s)
    ensures |CleanBytes(s)| == |s| <==> Ascii(s)
  {
    if s == [] {
    } else {
      CleanAgreesIff(s[1..]);
      assert Ascii(s) <==> s[0] as int < 0x80 && Ascii(s[1..]) by {
        assert forall i | 0 < i < |s| :: s[i] == s[1..][i - 1];
      }
      hide Ascii;
    }
  }

  // ------------------------------------------------------- the ends are cut

  /** A character that is cleaned to a dash. */
  predicate Dashy(c: char) { !IsTagChar(c) || c == '-' }

  predicate AllDashy(s: string) { forall i | 0 <= i < |s| :: Dashy(s[i]) }

  predicate AllDashes(s: string) { forall i | 0 <= i < |s| :: s[i] == '-' }

  /** No dash at either end. */
  predicate Trimmed(s: string) { s == [] || (s[0] != '-' && s[|s| - 1] != '-') }

  /** The text without the characters at its ends that are cleaned to dashes. */
  function Core(s: string): (r: string)
    ensures r == [] || (!Dashy(r[0]) && !Dashy(r[|r| - 1]))
  {
    if s == [] then []
    else if Dashy(s[0]) then Core(s[1..])
    else if Dashy(s[|s| - 1]) then Core(s[..|s| - 1])
    else s
  }

  lemma {:induction false} CoreSplits(s: string) returns (a: string, b: string)
    ensures s == a + Core(s) + b && AllDashy(a) && AllDashy(b)
    decreases |s|
  {
    a, b := [], [];
    if s == [] {
    } else if Dashy(s[0]) {
      a, b := CoreSplits(s[1..]);
      assert s == [s[0]] + s[1..];
      a := [s[0]] + a;
    } else if Dashy(s[|s| - 1]) {
      a, b := CoreSplits(s[..|s| - 1]);
      assert s == s[..|s| - 1] + [s[|s| - 1]];
      b := b + [s[|s| - 1]];
    }
  }

  lemma CleanConcat(a: string, b: string)
    ensures CleanTag(a + b) == CleanTag(a) + CleanTag(b) && CleanBytes(a + b) == CleanBytes(a) + CleanBytes(b)
  {
    TagConcat(a, b);
    BytesConcat(a, b);
  }

  lemma {:induction false} TagConcat(a: string, b: string)
    ensures CleanTag(a + b) == CleanTag(a) + CleanTag(b)
  {
    hide IsTagChar;
    hide Lower;
    if a == [] {
      assert a + b == b;
    } else {
      assert (a + b)[1..] == a[1..] + b;
      TagConcat(a[1..], b);
    }
  }

  lemma {:induction false} BytesConcat(a: string, b: string)
    ensures CleanBytes(a + b) == CleanBytes(a) + CleanBytes(b)
  {
    hide CleanChar;
    if a == [] {
      assert a + b == b;
    } else {
      assert (a + b)[1..] == a[1..] + b;
      BytesConcat(a[1..], b);
      assert CleanChar(a[0]) + (CleanBytes(a[1..]) + CleanBytes(b)) == CleanChar(a[0]) + CleanBytes(a[1..]) + CleanBytes(b);
    }
  }

  lemma {:induction false} CleanDashy(s: string)
    requires AllDashy(s)
    ensures AllDashes(CleanTag(s)) && AllDashes(CleanBytes(s))
  {
    if s == [] {
    } else {
      assert Dashy(s[0]);
      CleanDashy(s[1..]);
    }
  }

  /** Cleaning keeps the first and the last character, in lower case. */
  lemma CleanEnds(s: string)
    requires s != [] && !Dashy(s[0]) && !Dashy(s[|s| - 1])
    ensures Trimmed(CleanTag(s)) && Trimmed(CleanBytes(s)) && CleanTag(s) != [] && CleanBytes(s) != []
  {
    TagEnds(s);
    BytesEnds(s);
  }

  lemma TagEnds(s: string)
    requires s != [] && !Dashy(s[0]) && !Dashy(s[|s| - 1])
    ensures Trimmed(CleanTag(s)) && CleanTag(s) != []
  {
    var n := |s| - 1;
    assert s == s[..n] + [s[n]];
    TagConcat(s[..n], [s[n]]);
    assert [s[n]][1..] == [];
    assert CleanTag([s[n]]) == [Lower(s[n])];
    assert CleanTag(s)[0] == Lower(s[0]);
  }

  lemma BytesEnds(s: string)
    requires s != [] && !Dashy(s[0]) && !Dashy(s[|s| - 1])
    ensures Trimmed(CleanBytes(s)) && CleanBytes(s) != []
  {
    var n := |s| - 1;
    assert s == s[..n] + [s[n]];
    BytesConcat(s[..n], [s[n]]);
    assert [s[n]][1..] == [];
    assert CleanBytes([s[n]]) == [Lower(s[n])];
    assert CleanBytes(s)[0] == Lower(s[0]);
  }

  lemma {:induction false} TrimsTo(a: string, core: string, b: string)
    requires AllDashes(a) && AllDashes(b) && Trimmed(core)
    ensures TrimDashes(a + core + b) == core
    decreases |a| + |b|
  {
    var s := a + core + b;
    if a != [] {
      assert s[0] == '-' && s[1..] == a[1..] + core + b;
      TrimsTo(a[1..], core, b);
    } else if b != [] {
      var b' := b[..|b| - 1];
      assert s[|s| - 1] == '-' && s[..|s| - 1] == a + core + b';
      TrimsTo(a, core, b');
      if core == [] {
        assert s == b && s[1..] == b[1..] && b[1..] == [] + [] + b[1..];
        TrimsTo([], [], b[1..]);
      }
    } else {
      assert s == core;
    }
  }

  /** The code's owner value is the documented one if and only if no character outside
      ASCII lies between two that are kept. */
  lemma OwnerAgreesIff(uuid: string)
    ensures OwnerBytes(uuid) == OwnerValue(uuid) <==> Ascii(Core(uuid))
  {
    var a, b := CoreSplits(uuid);
    var core := Core(uuid);
    CleanConcat(a + core, b);
    CleanConcat(a, core);
    CleanDashy(a);
    CleanDashy(b);
    if core != [] {
      CleanEnds(core);
    }
    TrimsTo(CleanTag(a), CleanTag(core), CleanTag(b));
    TrimsTo(CleanBytes(a), CleanBytes(core), CleanBytes(b));
    CleanAgreesIff(core);
    hide TrimDashes;
    hide CleanTag;
    hide CleanBytes;
    hide Core;
  }

  /** One Director UUID on which they differ. */
  lemma AccentDiffers()
    ensures OwnerValue("a\U{e9}b") == "a-b" && OwnerBytes("a\U{e9}b") == "a--b"
  {
    var s := "a\U{e9}b";
    assert s[1..] == "\U{e9}b" && s[1..][1..] == "b" && s[1..][1..][1..] == "";
    assert CleanTag(s[1..][1..]) == "b" && CleanTag(s[1..]) == "-b" && CleanTag(s) == "a-b";
    assert Dashes(2) == "--";
    assert CleanBytes(s[1..][1..]) == "b" && CleanBytes(s[1..]) == "--b" && CleanBytes(s) == "a--b";
  }
}
