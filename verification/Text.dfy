/** Values and string operations that several of the models share. Strings are
    sequences of Unicode code points, as they are in Python. */
module Text {

  datatype Option<+T> = None | Some(value: T)

  datatype Result<+T, +E> = Ok(value: T) | Err(error: E)

  // ---------------------------------------------------------------- digits

  predicate IsDigit(c: char) { '0' <= c <= '9' }

  predicate AllDigits(s: string) { forall i :: 0 <= i < |s| ==> IsDigit(s[i]) }

  function DigitChar(d: nat): (c: char)
    requires d < 10
    ensures IsDigit(c) && c as int - '0' as int == d
  {
    ('0' as int + d) as char
  }

  /** str(n) for a natural number. */
  function Decimal(n: nat): (s: string)
    ensures s != [] && AllDigits(s)
    ensures s[0] == '0' ==> n == 0
  {
    if n < 10 then [DigitChar(n)] else Decimal(n / 10) + [DigitChar(n % 10)]
  }

  /** int(s) for a run of decimal digits. */
  function DecimalValue(s: string): nat
    requires AllDigits(s)
  {
    if s == [] then 0
    else 10 * DecimalValue(s[..|s| - 1]) + (s[|s| - 1] as int - '0' as int)
  }

  lemma {:induction false} ValueOfDecimal(n: nat)
    ensures DecimalValue(Decimal(n)) == n
  {
    if n >= 10 {
      ValueOfDecimal(n / 10);
      assert Decimal(n)[..|Decimal(n)| - 1] == Decimal(n / 10);
    } else {
      assert Decimal(n)[..0] == [];
    }
  }

  lemma {:induction false} DecimalOfValue(s: string)
    requires s != [] && AllDigits(s) && (s[0] == '0' ==> |s| == 1)
    ensures Decimal(DecimalValue(s)) == s
    ensures s[0] != '0' ==> DecimalValue(s) > 0
  {
    var init, last := s[..|s| - 1], s[|s| - 1];
    if init == [] {
      assert s == [last];
    } else {
      DecimalOfValue(init);
      assert s == init + [last];
    }
  }

  lemma DecimalInjective(a: nat, b: nat)
    requires Decimal(a) == Decimal(b)
    ensures a == b
  {
    ValueOfDecimal(a);
    ValueOfDecimal(b);
  }

  // ------------------------------------------------------------- whitespace

  /** The characters Python's str.strip() and str.isspace() take as whitespace. */
  predicate IsSpace(c: char) {
    var n := c as int;
    9 <= n <= 13 || 28 <= n <= 32 || n == 0x85 || n == 0xa0 || n == 0x1680
    || 0x2000 <= n <= 0x200a || n == 0x2028 || n == 0x2029 || n == 0x202f || n == 0x205f || n == 0x3000
  }

  function TrimLeft(s: string): (r: string)
    ensures |r| <= |s| && r == s[|s| - |r|..]
    ensures r != [] ==> !IsSpace(r[0])
    ensures forall i :: 0 <= i < |s| - |r| ==> IsSpace(s[i])
  {
    if s != [] && IsSpace(s[0]) then TrimLeft(s[1..]) else s
  }

  function TrimRight(s: string): (r: string)
    ensures |r| <= |s| && r == s[..|r|]
    ensures r != [] ==> !IsSpace(r[|r| - 1])
    ensures forall i :: |r| <= i < |s| ==> IsSpace(s[i])
  {
    if s != [] && IsSpace(s[|s| - 1]) then TrimRight(s[..|s| - 1]) else s
  }

  /** s.strip() */
  function Strip(s: string): (r: string)
    ensures Stripped(r)
  {
    TrimRight(TrimLeft(s))
  }

  /** No whitespace at either end. */
  predicate Stripped(s: string) { s == [] || (!IsSpace(s[0]) && !IsSpace(s[|s| - 1])) }

  lemma StripStripped(s: string)
    requires Stripped(s)
    ensures Strip(s) == s
  {
  }

  // ------------------------------------------------------ split and join

  /** s.split(sep) for a single separator character. */
  function Split(s: string, sep: char): (parts: seq<string>)
    ensures parts != []
    ensures forall i | 0 <= i < |parts| :: sep !in parts[i]
  {
    if s == [] then [""]
    else
      var rest := Split(s[1..], sep);
      if s[0] == sep then [""] + rest else [[s[0]] + rest[0]] + rest[1..]
  }

  /** sep.join(parts) */
  function Join(parts: seq<string>, sep: char): string
    requires parts != []
  {
    if |parts| == 1 then parts[0] else parts[0] + [sep] + Join(parts[1..], sep)
  }

  /** "".join(parts), for any elements. */
  function Flat<T>(parts: seq<seq<T>>): seq<T> {
    if parts == [] then [] else Flat(parts[..|parts| - 1]) + parts[|parts| - 1]
  }

  lemma {:induction false} FlatConcat<T>(a: seq<seq<T>>, b: seq<seq<T>>)
    ensures Flat(a + b) == Flat(a) + Flat(b)
  {
    if b == [] {
      assert a + b == a;
    } else {
      FlatConcat(a, b[..|b| - 1]);
      assert (a + b)[..|a + b| - 1] == a + b[..|b| - 1];
    }
  }

  lemma {:induction false} SplitWord(word: string, rest: string, sep: char)
    requires sep !in word
    ensures Split(word + [sep] + rest, sep) == [word] + Split(rest, sep)
    ensures Split(word, sep) == [word]
  {
    if word == [] {
      assert word + [sep] + rest == [sep] + rest;
      assert ([sep] + rest)[1..] == rest;
    } else {
      assert forall c | c in word[1..] :: c in word;
      SplitWord(word[1..], rest, sep);
      assert (word + [sep] + rest)[1..] == word[1..] + [sep] + rest;
      assert word == [word[0]] + word[1..];
    }
  }

  /** Splitting undoes joining. */
  lemma {:induction false} SplitJoin(parts: seq<string>, sep: char)
    requires parts != [] && forall i | 0 <= i < |parts| :: sep !in parts[i]
    ensures Split(Join(parts, sep), sep) == parts
  {
    if |parts| == 1 {
      SplitWord(parts[0], [], sep);
      assert parts == [parts[0]];
    } else {
      SplitJoin(parts[1..], sep);
      SplitWord(parts[0], Join(parts[1..], sep), sep);
      assert parts == [parts[0]] + parts[1..];
    }
  }

  /** Joining undoes splitting. */
  lemma {:induction false} JoinSplit(s: string, sep: char)
    ensures Join(Split(s, sep), sep) == s
  {
    if s == [] {
    } else {
      JoinSplit(s[1..], sep);
      var rest := Split(s[1..], sep);
      if s[0] == sep {
        assert Split(s, sep)[1..] == rest;
        assert s == [sep] + s[1..];
      } else {
        assert Split(s, sep)[1..] == rest[1..];
        assert s == [s[0]] + s[1..];
      }
    }
  }

  // ------------------------------------------------------------ substrings

  /** `part in s` for strings. */
  predicate Contains(s: string, part: string) { exists i | 0 <= i <= |s| :: OccursAt(s, part, i) }

  predicate OccursAt(s: string, part: string, i: nat) { i + |part| <= |s| && s[i..i + |part|] == part }

  predicate Terminated(s: string) { s != [] && s[|s| - 1] == '\n' }

  /** Nothing, or text that ends with a line break. */
  predicate Whole(s: string) { s == [] || Terminated(s) }

  lemma Occurs(s: string, part: string, i: nat)
    requires OccursAt(s, part, i)
    ensures Contains(s, part)
  {
  }

  lemma CharAt(s: string, part: string, i: nat, k: nat)
    requires OccursAt(s, part, i) && k < |part|
    ensures s[i + k] == part[k]
  {
    assert s[i..i + |part|][k] == s[i + k];
  }

  /** An occurrence in x + z + y does not reach over the end of z, where x is whole
      and no character of z can start it. */
  lemma NoStraddle(x: string, z: string, y: string, r: string, i: nat)
    requires Whole(x) && r != [] && '\n' !in r && r[0] !in z
    requires OccursAt(x + z + y, r, i)
    ensures i + |r| <= |x + z| || i >= |x + z|
  {
    CharAt(x + z + y, r, i, 0);
    if i < |x| < i + |r| {
      CharAt(x + z + y, r, i, |x| - 1 - i);
    }
  }

  /** What a part of a text contains, the text contains. */
  lemma ContainsIn(x: string, y: string, z: string, r: string)
    requires Contains(y, r)
    ensures Contains(x + y + z, r)
  {
    var i :| 0 <= i <= |y| && OccursAt(y, r, i);
    var s := x + y + z;
    assert s[|x| + i..|x| + i + |r|] == y[i..i + |r|];
    Occurs(s, r, |x| + i);
  }

  lemma ContainsApart(x: string, z: string, y: string, r: string)
    requires Whole(x) && r != [] && '\n' !in r && r[0] !in z
    ensures Contains(x + z + y, r) <==> Contains(x + z, r) || Contains(y, r)
  {
    var s, head := x + z + y, x + z;
    if i :| 0 <= i <= |s| && OccursAt(s, r, i) {
      NoStraddle(x, z, y, r, i);
      if i + |r| <= |head| {
        assert head[i..i + |r|] == s[i..i + |r|];
        Occurs(head, r, i);
      } else {
        assert y[i - |head|..i - |head| + |r|] == s[i..i + |r|];
        Occurs(y, r, i - |head|);
      }
    }
    hide Contains;
    if Contains(head, r) { ContainsIn([], head, y, r); assert [] + head + y == s; }
    if Contains(y, r) { ContainsIn(head, y, [], r); assert head + y + [] == s; }
  }

  lemma ContainsSplit(x: string, y: string, r: string)
    requires Whole(x) && r != [] && '\n' !in r
    ensures Contains(x + y, r) <==> Contains(x, r) || Contains(y, r)
  {
    ContainsApart(x, [], y, r);
    assert x + [] == x && x + [] + y == x + y;
  }

  lemma ContainsLonger(s: string, r: string)
    requires |r| > |s|
    ensures !Contains(s, r)
  {
  }

  /** A line break at the end adds no occurrence of a text without one. */
  lemma ContainsBreak(s: string, r: string)
    requires r != [] && '\n' !in r
    ensures Contains(s + "\n", r) <==> Contains(s, r)
  {
    var t := s + "\n";
    if i :| 0 <= i <= |t| && OccursAt(t, r, i) {
      CharAt(t, r, i, |r| - 1);
      assert r[|r| - 1] in r;
      assert i + |r| <= |s|;
      assert s[i..i + |r|] == t[i..i + |r|];
      Occurs(s, r, i);
    }
    if i :| 0 <= i <= |s| && OccursAt(s, r, i) {
      assert s[i..i + |r|] == t[i..i + |r|];
      Occurs(t, r, i);
    }
  }

  // ---------------------------------------------------------- code-point order

  /** a < b in Python's string order. */
  predicate Less(a: string, b: string) {
    b != [] && (a == [] || a[0] < b[0] || (a[0] == b[0] && Less(a[1..], b[1..])))
  }

  lemma {:induction false} LessIrreflexive(a: string)
    ensures !Less(a, a)
  {
    if a == [] {
    } else {
      LessIrreflexive(a[1..]);
    }
  }

  lemma {:induction false} LessTransitive(a: string, b: string, c: string)
    requires Less(a, b) && Less(b, c)
    ensures Less(a, c)
  {
    if a != [] && a[0] == b[0] && b[0] == c[0] { LessTransitive(a[1..], b[1..], c[1..]); }
  }

  lemma {:induction false} LessTotal(a: string, b: string)
    ensures Less(a, b) || a == b || Less(b, a)
  {
    if a != [] && b != [] && a[0] == b[0] {
      LessTotal(a[1..], b[1..]);
      if a[1..] == b[1..] { assert a == [a[0]] + a[1..] && b == [b[0]] + b[1..]; }
    }
  }

  predicate IsLeast(k: string, ks: set<string>) {
    k in ks && forall j | j in ks && j != k :: Less(k, j)
  }

  lemma LeastExists(ks: set<string>)
    requires ks != {}
    ensures exists k :: IsLeast(k, ks)
    decreases |ks|
  {
    var x :| x in ks;
    if ks != {x} {
      var rest := ks - {x};
      LeastExists(rest);
      var m :| IsLeast(m, rest);
      LessTotal(x, m);
      if Less(x, m) {
        forall j | j in ks && j != x ensures Less(x, j) {
          if j != m { LessTransitive(x, m, j); }
        }
        assert IsLeast(x, ks);
      } else {
        assert IsLeast(m, ks);
      }
    } else {
      assert IsLeast(x, ks);
    }
  }

  lemma LeastUnique(k: string, j: string, ks: set<string>)
    requires IsLeast(k, ks) && IsLeast(j, ks)
    ensures k == j
  {
    if k != j {
      LessTransitive(k, j, k);
      LessIrreflexive(k);
    }
  }

  lemma LeastIsOne(ks: set<string>)
    ensures forall k, j | IsLeast(k, ks) && IsLeast(j, ks) :: k == j
  {
    forall k, j | IsLeast(k, ks) && IsLeast(j, ks) ensures k == j { LeastUnique(k, j, ks); }
  }

  ghost predicate Ascending(s: seq<string>) {
    forall i, j | 0 <= i < j < |s| :: Less(s[i], s[j])
  }

  function Elements(s: seq<string>): set<string> { set x | x in s }

  /** sorted(ks) for a set of strings. */
  function Sorted(ks: set<string>): (r: seq<string>)
    ensures Ascending(r)
    ensures Elements(r) == ks
    decreases |ks|
  {
    if ks == {} then []
    else
      LeastExists(ks);
      LeastIsOne(ks);
      var k :| k in ks && IsLeast(k, ks);
      var rest := Sorted(ks - {k});
      LeastFirst(k, rest, ks);
      [k] + rest
  }

  lemma LeastFirst(k: string, rest: seq<string>, ks: set<string>)
    requires IsLeast(k, ks) && Ascending(rest) && Elements(rest) == ks - {k}
    ensures Ascending([k] + rest) && Elements([k] + rest) == ks
  {
    var r := [k] + rest;
    forall i, j | 0 <= i < j < |r| ensures Less(r[i], r[j]) {
      assert r[j] == rest[j - 1] && rest[j - 1] in Elements(rest);
    }
    forall x ensures x in Elements(r) <==> x in ks {
      if x in Elements(rest) {
        var i :| 0 <= i < |rest| && rest[i] == x;
        assert r[i + 1] == x;
      }
      assert r[0] == k;
      if x in Elements(r) {
        var i :| 0 <= i < |r| && r[i] == x;
        assert i > 0 ==> rest[i - 1] in Elements(rest);
      }
    }
  }

  lemma NoElements(a: seq<string>)
    ensures Elements(a) == {} <==> a == []
  {
    if a != [] { assert a[0] in Elements(a); }
  }
}
