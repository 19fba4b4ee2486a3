/** Canonical text determines the document. */
module CanonicalJsonUnique {
  import opened Text
  import opened CanonicalJson

  /** A number spelling of RFC 8259, section 6: sign, integer, fraction, exponent. */
  ghost predicate NumberParts(s: string, sign: string, integer: string, fraction: string, exponent: string) {
    && s == sign + integer + fraction + exponent
    && (sign == "" || sign == "-")
    && integer != [] && AllDigits(integer) && (|integer| > 1 ==> integer[0] != '0')
    && (fraction == "" || (|fraction| > 1 && fraction[0] == '.' && AllDigits(fraction[1..])))
    && (exponent == ""
        || (|exponent| > 1 && exponent[0] in "eE" && AllDigits(exponent[1..]))
        || (|exponent| > 2 && exponent[0] in "eE" && exponent[1] in "+-" && AllDigits(exponent[2..])))
  }

  ghost predicate IsNumber(s: string) {
    exists sign, integer, fraction, exponent :: NumberParts(s, sign, integer, fraction, exponent)
  }

  /** A document the JSON decoder can have produced. */
  ghost predicate WellFormed(v: Json) {
    match v
    case Num(spelling) => IsNumber(spelling)
    case Arr(items) => forall i | 0 <= i < |items| :: WellFormed(items[i])
    case Obj(fields) => forall k | k in fields :: WellFormed(fields[k])
    case _ => true
  }

  predicate NumberChar(c: char) { IsDigit(c) || c in ".eE+-" }

  predicate NumberText(s: string) {
    s != [] && (IsDigit(s[0]) || s[0] == '-') && forall i | 0 <= i < |s| :: NumberChar(s[i])
  }

  lemma {:induction false} NumberShape(s: string)
    requires IsNumber(s)
    ensures NumberText(s)
  {
    var sign, integer, fraction, exponent :| NumberParts(s, sign, integer, fraction, exponent);
    forall i | 0 <= i < |s| ensures NumberChar(s[i]) {
      var a, b, c := |sign|, |sign| + |integer|, |sign| + |integer| + |fraction|;
      if i < a { assert s[i] == sign[i]; }
      else if i < b { assert s[i] == integer[i - a]; }
      else if i < c {
        assert s[i] == fraction[i - b];
        assert i - b > 0 ==> fraction[i - b] == fraction[1..][i - b - 1];
      } else {
        var k := i - c;
        assert s[i] == exponent[k];
        assert k > 0 ==> exponent[k] == exponent[1..][k - 1];
        assert k > 1 ==> exponent[k] == exponent[2..][k - 2];
      }
    }
  }

  /** Text that can follow a value inside a document, or end it. */
  predicate Follows(x: string) { x == [] || x[0] in ",]}:" }

  lemma {:induction false} NumberPrefix(s: string, t: string, x: string, y: string)
    requires NumberText(s) && NumberText(t) && Follows(x) && Follows(y) && s + x == t + y
    ensures s == t && x == y
  {
    var w := s + x;
    NotLonger(s, t, x, y);
    NotLonger(t, s, y, x);
    assert s == w[..|s|] && t == w[..|t|];
    assert x == w[|s|..] && y == w[|t|..];
  }

  lemma {:induction false} NotLonger(s: string, t: string, x: string, y: string)
    requires NumberText(t) && Follows(x) && s + x == t + y
    ensures |t| <= |s|
  {
    if |s| < |t| { CharAfter(s, t, x, y); }
  }

  lemma {:induction false} CharAfter(s: string, t: string, x: string, y: string)
    requires |s| < |t| && s + x == t + y
    ensures x != [] && x[0] == t[|s|]
  {
    assert (s + x)[|s|] == t[|s|];
  }

  /** What kind of value a text starts. */
  function Kind(c: char): nat {
    if c == 'n' then 0
    else if c == 't' then 1
    else if c == 'f' then 2
    else if IsDigit(c) || c == '-' then 3
    else if c == '\"' then 4
    else if c == '[' then 5
    else if c == '{' then 6
    else 7
  }

  function KindOf(v: Json): nat {
    match v
    case Null => 0
    case Bool(b) => if b then 1 else 2
    case Num(_) => 3
    case Str(_) => 4
    case Arr(_) => 5
    case Obj(_) => 6
  }

  lemma {:induction false} FirstChar(v: Json)
    requires WellFormed(v)
    ensures Canonical(v) != [] && Kind(Canonical(v)[0]) == KindOf(v)
  {
    hide Canonical;
    match v
    case Null => ScalarStart(v);
    case Bool(_) => ScalarStart(v);
    case Num(s) => NumStart(s);
    case Str(s) => StrStart(s);
    case Arr(items) =>
      ArrText(items, []);
      assert (Canonical(v) + [])[0] == '[';
    case Obj(_) =>
      ObjText(v, []);
      assert (Canonical(v) + [])[0] == '{';
  }

  lemma NumStart(s: string)
    requires IsNumber(s)
    ensures Canonical(Num(s)) != [] && Kind(Canonical(Num(s))[0]) == 3
  {
    NumberShape(s);
  }

  lemma {:induction false} ScalarStart(v: Json)
    requires v.Null? || v.Bool?
    ensures Canonical(v) != [] && Kind(Canonical(v)[0]) == KindOf(v)
  {
    ScalarsAreCoded();
    hide GoEscape;
  }

  lemma {:induction false} StrStart(s: string)
    ensures Canonical(Str(s)) != [] && Kind(Canonical(Str(s))[0]) == 4
  {
    KeyIsCoded(s);
    hide Key;
  }

  // The equations of the printer, with what follows the text.

  ghost function AfterItem(a: seq<Json>, x: string): (r: string)
    requires a != []
    ensures Follows(r) && r != [] && (r[0] == ']' <==> |a| == 1) && (r[0] == ',' <==> |a| > 1)
  {
    if |a| == 1 then "]" + x else "," + (Items(a[1..]) + "]" + x)
  }

  lemma {:induction false} ItemsText(a: seq<Json>, x: string)
    requires a != []
    ensures Items(a) + "]" + x == Canonical(a[0]) + AfterItem(a, x)
  {
    hide Canonical;
  }

  ghost function AfterMember(a: Json, ka: seq<string>, x: string): (r: string)
    requires a.Obj? && ka != [] && forall k | k in ka :: k in a.fields
    ensures Follows(r) && r != [] && (r[0] == '}' <==> |ka| == 1) && (r[0] == ',' <==> |ka| > 1)
  {
    if |ka| == 1 then "}" + x else "," + (Members(a, ka[1..]) + "}" + x)
  }

  /** A first member, cut at the end of its key and at the end of its value. */
  lemma {:induction false} MembersText(a: Json, ka: seq<string>, x: string)
    requires a.Obj? && ka != [] && forall k | k in ka :: k in a.fields
    ensures Members(a, ka) + "}" + x
         == ['\"'] + (GoChars(ka[0]) + "\"" + ([':'] + (Canonical(a.fields[ka[0]]) + AfterMember(a, ka, x))))
  {
    var value, rest := Canonical(a.fields[ka[0]]), AfterMember(a, ka, x);
    assert Members(a, ka) + "}" + x == Key(ka[0]) + ":" + value + rest by {
      hide Key;
      hide Canonical;
    }
    hide Members;
    hide Canonical;
    hide AfterMember;
    KeyIsCoded(ka[0]);
    hide Key;
    Regroup(GoChars(ka[0]), value, rest);
  }

  lemma {:induction false} Regroup(g: string, value: string, rest: string)
    ensures ("\"" + g + "\"") + ":" + value + rest == ['\"'] + (g + "\"" + ([':'] + (value + rest)))
  {
  }

  lemma {:induction false} BracketEnds(a: seq<Json>, x: string)
    requires forall i | 0 <= i < |a| :: WellFormed(a[i])
    ensures (Items(a) + "]" + x)[0] == ']' <==> a == []
  {
    if a == [] {
      assert Items(a) == [];
    } else {
      FirstChar(a[0]);
      ItemsText(a, x);
      hide Items;
      hide Canonical;
      hide WellFormed;
      hide AfterItem;
      assert (Canonical(a[0]) + AfterItem(a, x))[0] == Canonical(a[0])[0];
    }
  }

  lemma {:induction false} NoItems(a: seq<Json>, x: string)
    requires a == []
    ensures Items(a) + "]" + x == "]" + x
  {
    assert Items(a) == [];
  }

  lemma {:induction false} NoMembers(a: Json, ka: seq<string>, x: string)
    requires a.Obj? && ka == []
    ensures Members(a, ka) + "}" + x == "}" + x
  {
    assert Members(a, ka) == [];
  }

  lemma {:induction false} BraceEnds(a: Json, ka: seq<string>, x: string)
    requires a.Obj? && forall k | k in ka :: k in a.fields
    ensures (Members(a, ka) + "}" + x)[0] == '}' <==> ka == []
  {
    if ka == [] {
    } else {
      MembersText(a, ka, x);
      hide Members;
    }
  }

  lemma {:induction false} Cut(head: string, a: string, b: string)
    requires head + a == head + b
    ensures a == b
  {
    assert a == (head + a)[|head|..];
    assert b == (head + b)[|head|..];
  }

  // ------------------------------------------------ the mutual induction

  /** A value's text ends where the value does. */
  lemma {:induction false} ValuePrefix(a: Json, b: Json, x: string, y: string)
    requires WellFormed(a) && WellFormed(b) && Follows(x) && Follows(y)
    requires Canonical(a) + x == Canonical(b) + y
    ensures a == b && x == y
    decreases a, 2
  {
    FirstChar(a);
    FirstChar(b);
    assert (Canonical(a) + x)[0] == Canonical(a)[0] && (Canonical(b) + y)[0] == Canonical(b)[0];
    assert KindOf(a) == KindOf(b);
    match a
    case Null => Cut(Canonical(a), x, y);
    case Bool(_) => Cut(Canonical(a), x, y);
    case Num(s) =>
      NumberShape(s);
      NumberShape(b.spelling);
      NumberPrefix(s, b.spelling, x, y);
    case Str(s) => StrPrefix(s, b.s, x, y);
    case Arr(items) =>
      ArrText(items, x);
      ArrText(b.items, y);
      hide Items;
      Cut("[", Items(items) + "]" + x, Items(b.items) + "]" + y);
      ItemsPrefix(items, b.items, x, y);
    case Obj(fields) => ObjPrefix(a, b, x, y);
  }

  lemma {:induction false} ArrText(items: seq<Json>, x: string)
    ensures Canonical(Arr(items)) + x == "[" + (Items(items) + "]" + x)
  {
    hide Items;
  }

  lemma {:induction false} ObjText(v: Json, x: string)
    requires v.Obj?
    ensures var keys := Sorted(v.fields.Keys);
      && (forall k | k in keys :: k in Elements(keys))
      && Canonical(v) + x == "{" + (Members(v, keys) + "}" + x)
  {
    hide Members;
  }

  lemma {:induction false} StrPrefix(s: string, t: string, x: string, y: string)
    requires Canonical(Str(s)) + x == Canonical(Str(t)) + y
    ensures s == t && x == y
  {
    KeyIsCoded(s);
    KeyIsCoded(t);
    hide Key;
    assert Canonical(Str(s)) + x == "\"" + (GoChars(s) + "\"" + x);
    assert Canonical(Str(t)) + y == "\"" + (GoChars(t) + "\"" + y);
    hide GoChars;
    Cut("\"", GoChars(s) + "\"" + x, GoChars(t) + "\"" + y);
    StringPrefix(s, t, x, y);
  }

  lemma {:induction false} ObjPrefix(a: Json, b: Json, x: string, y: string)
    requires a.Obj? && b.Obj? && WellFormed(a) && WellFormed(b)
    requires Canonical(a) + x == Canonical(b) + y
    ensures a == b && x == y
    decreases a, 1
  {
    var ka, kb := Sorted(a.fields.Keys), Sorted(b.fields.Keys);
    assert Elements(ka) == a.fields.Keys && Elements(kb) == b.fields.Keys;
    assert (forall k | k in ka :: k in Elements(ka)) && (forall k | k in kb :: k in Elements(kb));
    ObjText(a, x);
    ObjText(b, y);
    hide Canonical;
    hide Members;
    hide Sorted;
    Cut("{", Members(a, ka) + "}" + x, Members(b, kb) + "}" + y);
    MembersPrefix(a, b, ka, kb, x, y);
    assert forall k | k in a.fields :: k in Elements(ka);
    assert a.fields == b.fields;
  }

  lemma {:induction false} ItemsPrefix(a: seq<Json>, b: seq<Json>, x: string, y: string)
    requires (forall i | 0 <= i < |a| :: WellFormed(a[i])) && (forall i | 0 <= i < |b| :: WellFormed(b[i]))
    requires Items(a) + "]" + x == Items(b) + "]" + y
    ensures a == b && x == y
    decreases a, 1
  {
    BracketEnds(a, x);
    BracketEnds(b, y);
    if a == [] {
      NoItems(a, x);
      NoItems(b, y);
      hide Items;
      Cut("]", x, y);
    } else {
      ItemsText(a, x);
      ItemsText(b, y);
      hide Canonical;
      ValuePrefix(a[0], b[0], AfterItem(a, x), AfterItem(b, y));
      assert a == [a[0]] + a[1..] && b == [b[0]] + b[1..];
      hide Items;
      if |a| == 1 {
        Cut("]", x, y);
      } else {
        Cut(",", Items(a[1..]) + "]" + x, Items(b[1..]) + "]" + y);
        ItemsPrefix(a[1..], b[1..], x, y);
      }
    }
  }

  lemma {:induction false} MembersPrefix(a: Json, b: Json, ka: seq<string>, kb: seq<string>, x: string, y: string)
    requires a.Obj? && b.Obj? && WellFormed(a) && WellFormed(b)
    requires (forall k | k in ka :: k in a.fields) && (forall k | k in kb :: k in b.fields)
    requires Members(a, ka) + "}" + x == Members(b, kb) + "}" + y
    ensures ka == kb && x == y
    ensures forall k | k in ka :: a.fields[k] == b.fields[k]
    decreases a, 0, |ka|
  {
    hide Members;
    hide Canonical;
    BraceEnds(a, ka, x);
    BraceEnds(b, kb, y);
    if ka == [] {
      NoMembers(a, ka, x);
      NoMembers(b, kb, y);
      Cut("}", x, y);
    } else {
      FirstMember(a, b, ka, kb, x, y);
      ValuePrefix(a.fields[ka[0]], b.fields[kb[0]], AfterMember(a, ka, x), AfterMember(b, kb, y));
      assert ka == [ka[0]] + ka[1..] && kb == [kb[0]] + kb[1..];
      if |ka| == 1 {
        Cut("}", x, y);
      } else {
        Cut(",", Members(a, ka[1..]) + "}" + x, Members(b, kb[1..]) + "}" + y);
        MembersPrefix(a, b, ka[1..], kb[1..], x, y);
      }
    }
  }

  lemma {:induction false} FirstMember(a: Json, b: Json, ka: seq<string>, kb: seq<string>, x: string, y: string)
    requires a.Obj? && b.Obj? && ka != [] && kb != []
    requires (forall k | k in ka :: k in a.fields) && (forall k | k in kb :: k in b.fields)
    requires Members(a, ka) + "}" + x == Members(b, kb) + "}" + y
    ensures ka[0] == kb[0]
    ensures Canonical(a.fields[ka[0]]) + AfterMember(a, ka, x) == Canonical(b.fields[kb[0]]) + AfterMember(b, kb, y)
  {
    MembersText(a, ka, x);
    MembersText(b, kb, y);
    hide Members;
    hide Canonical;
    hide GoChars;
    hide AfterMember;
    var va := Canonical(a.fields[ka[0]]) + AfterMember(a, ka, x);
    var vb := Canonical(b.fields[kb[0]]) + AfterMember(b, kb, y);
    Cut(['\"'], GoChars(ka[0]) + "\"" + ([':'] + va), GoChars(kb[0]) + "\"" + ([':'] + vb));
    StringPrefix(ka[0], kb[0], [':'] + va, [':'] + vb);
    Cut([':'], va, vb);
  }

  /** Two documents have the same canonical text exactly when they are equal, with
      objects compared as dictionaries and numbers by their spelling. */
  lemma {:induction false} CanonicalUnique(a: Json, b: Json)
    requires WellFormed(a) && WellFormed(b)
    ensures Canonical(a) == Canonical(b) <==> a == b
  {
    if Canonical(a) == Canonical(b) {
      assert Canonical(a) + [] == Canonical(b) + [];
      ValuePrefix(a, b, [], []);
    }
  }

  /** The audit's fingerprint comparison, for any digest that does not collide on
      these two texts: the fingerprints agree exactly when the record is the
      audited one. */
  lemma {:induction false} FingerprintMeansEqual(digest: string -> string, record: Json, audited: Json)
    requires WellFormed(record) && WellFormed(audited)
    requires Canonical(record) != Canonical(audited) ==> digest(Canonical(record)) != digest(Canonical(audited))
    ensures digest(Canonical(record)) == digest(Canonical(audited)) <==> record == audited
  {
    CanonicalUnique(record, audited);
  }
}
