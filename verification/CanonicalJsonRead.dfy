/** A reader of JSON text by the grammar of RFC 8259, without whitespace, and that it
    reads every canonical text back as the document it was printed from. */
module CanonicalJsonRead {
  import opened Text
  import opened CanonicalJson
  import opened CanonicalJsonUnique

  /** What the text says, members in the order they stand. */
  datatype Doc =
    | NullDoc
    | BoolDoc(b: bool)
    | NumDoc(spelling: string)
    | StrDoc(s: string)
    | ArrDoc(items: seq<Doc>)
    | ObjDoc(members: seq<Member>)

  datatype Member = Member(key: string, value: Doc)

  /** The text could be read up to `rest`. */
  datatype Read<T> = Bad | Got(value: T, rest: string)

  // ------------------------------------------- strings, RFC 8259 section 7

  function HexValue(c: char): Option<nat> {
    if '0' <= c <= '9' then Some(c as int - '0' as int)
    else if 'a' <= c <= 'f' then Some(c as int - 'a' as int + 10)
    else if 'A' <= c <= 'F' then Some(c as int - 'A' as int + 10)
    else None
  }

  /** The two-character escapes. */
  function Escaped(c: char): Option<char> {
    match c
    case '\"' => Some('\"')
    case '\\' => Some('\\')
    case '/' => Some('/')
    case 'b' => Some(8 as char)
    case 'f' => Some(12 as char)
    case 'n' => Some(10 as char)
    case 'r' => Some(13 as char)
    case 't' => Some(9 as char)
    case _ => None
  }

  /** The character of four hexadecimal digits; a surrogate stands for none. */
  function CodeUnit(d: string): Option<char>
    requires |d| == 4
  {
    var a, b, c, e := HexValue(d[0]), HexValue(d[1]), HexValue(d[2]), HexValue(d[3]);
    if a.None? || b.None? || c.None? || e.None? then None
    else
      var n := 4096 * a.value + 256 * b.value + 16 * c.value + e.value;
      if n < 0xd800 || 0xe000 <= n < 0x10000 then Some(n as char) else None
  }

  /** The characters up to the closing quote, and what follows it. */
  function ReadChars(t: string): (r: Read<string>)
    ensures r.Got? ==> |r.rest| < |t|
  {
    if t == [] then Bad
    else if t[0] == '\"' then Got([], t[1..])
    else if t[0] == '\\' then
      if |t| < 2 then Bad
      else if t[1] == 'u' then
        if |t| < 6 || CodeUnit(t[2..6]).None? then Bad else Before(CodeUnit(t[2..6]).value, ReadChars(t[6..]))
      else if Escaped(t[1]).None? then Bad else Before(Escaped(t[1]).value, ReadChars(t[2..]))
    else if t[0] as int < 32 then Bad
    else Before(t[0], ReadChars(t[1..]))
  }

  function Before(c: char, r: Read<string>): (s: Read<string>)
    ensures s.Got? ==> r.Got? && s.rest == r.rest
  {
    if r.Bad? then Bad else Got([c] + r.value, r.rest)
  }

  // ------------------------------------------------- values, sections 2 to 6

  /** The longest run of characters a number can have. */
  function NumberRun(t: string): (r: string)
    ensures r <= t
  {
    if t == [] || !NumberChar(t[0]) then [] else [t[0]] + NumberRun(t[1..])
  }

  ghost function ReadNumber(t: string): (r: Read<Doc>)
    ensures r.Got? ==> |r.rest| < |t|
  {
    var run := NumberRun(t);
    if run != [] && IsNumber(run) then Got(NumDoc(run), t[|run|..]) else Bad
  }

  ghost function ReadValue(t: string): (r: Read<Doc>)
    ensures r.Got? ==> |r.rest| < |t|
    decreases |t|, 1
  {
    if t == [] then Bad
    else if "null" <= t then Got(NullDoc, t[4..])
    else if "true" <= t then Got(BoolDoc(true), t[4..])
    else if "false" <= t then Got(BoolDoc(false), t[5..])
    else if t[0] == '\"' then
      var r := ReadChars(t[1..]);
      if r.Bad? then Bad else Got(StrDoc(r.value), r.rest)
    else if t[0] == '[' then
      if "[]" <= t then Got(ArrDoc([]), t[2..])
      else
        var r := ReadItems(t[1..]);
        if r.Bad? then Bad else Got(ArrDoc(r.value), r.rest)
    else if t[0] == '{' then
      if "{}" <= t then Got(ObjDoc([]), t[2..])
      else
        var r := ReadMembers(t[1..]);
        if r.Bad? then Bad else Got(ObjDoc(r.value), r.rest)
    else ReadNumber(t)
  }

  ghost function ReadItems(t: string): (r: Read<seq<Doc>>)
    ensures r.Got? ==> |r.rest| < |t|
    decreases |t|, 2
  {
    var first := ReadValue(t);
    if first.Bad? || first.rest == [] then Bad
    else if first.rest[0] == ']' then Got([first.value], first.rest[1..])
    else if first.rest[0] == ',' then
      var more := ReadItems(first.rest[1..]);
      if more.Bad? then Bad else Got([first.value] + more.value, more.rest)
    else Bad
  }

  ghost function ReadMember(t: string): (r: Read<Member>)
    ensures r.Got? ==> |r.rest| < |t|
    decreases |t|, 0
  {
    if t == [] || t[0] != '\"' then Bad
    else
      var key := ReadChars(t[1..]);
      if key.Bad? || key.rest == [] || key.rest[0] != ':' then Bad
      else
        var value := ReadValue(key.rest[1..]);
        if value.Bad? then Bad else Got(Member(key.value, value.value), value.rest)
  }

  ghost function ReadMembers(t: string): (r: Read<seq<Member>>)
    ensures r.Got? ==> |r.rest| < |t|
    decreases |t|, 2
  {
    var first := ReadMember(t);
    if first.Bad? || first.rest == [] then Bad
    else if first.rest[0] == '}' then Got([first.value], first.rest[1..])
    else if first.rest[0] == ',' then
      var more := ReadMembers(first.rest[1..]);
      if more.Bad? then Bad else Got([first.value] + more.value, more.rest)
    else Bad
  }

  // --------------------------------------------------------- what it means

  /** The document: an object is the dictionary of its members. */
  function Meaning(d: Doc): Json {
    match d
    case NullDoc => Null
    case BoolDoc(b) => Bool(b)
    case NumDoc(spelling) => Num(spelling)
    case StrDoc(s) => Str(s)
    case ArrDoc(items) => Arr(ItemsMeaning(items))
    case ObjDoc(members) => Obj(MembersMeaning(members))
  }

  function ItemsMeaning(items: seq<Doc>): (r: seq<Json>)
    ensures |r| == |items|
  {
    if items == [] then [] else [Meaning(items[0])] + ItemsMeaning(items[1..])
  }

  function MembersMeaning(members: seq<Member>): map<string, Json> {
    if members == [] then map[] else MembersMeaning(members[1..])[members[0].key := Meaning(members[0].value)]
  }

  /** `a` is a proper prefix of `b`, or smaller at the first character in which they differ. */
  predicate Precedes(a: string, b: string) {
    exists i | 0 <= i <= |a| :: DiffersAt(a, b, i)
  }

  predicate DiffersAt(a: string, b: string, i: nat) {
    i <= |a| && i < |b| && a[..i] == b[..i] && (i == |a| || a[i] < b[i])
  }

  /** In every object each key precedes the next one. */
  predicate KeysAscend(d: Doc) {
    match d
    case ArrDoc(items) => forall i | 0 <= i < |items| :: KeysAscend(items[i])
    case ObjDoc(members) =>
      && (forall i | 0 <= i < |members| :: KeysAscend(members[i].value))
      && forall i, j | 0 <= i < j < |members| :: Precedes(members[i].key, members[j].key)
    case _ => true
  }

  // ---------------------------------------------------------------- proofs

  lemma HexReads(d: nat)
    requires d < 16
    ensures HexValue(Hex(d)) == Some(d)
  {
  }

  /** The reader undoes the code of one character. */
  lemma CharReads(c: char, rest: string)
    ensures ReadChars(GoChar(c) + rest) == Before(c, ReadChars(rest))
  {
    CodeHead(c);
    var t := GoChar(c) + rest;
    if |GoChar(c)| == 1 {
      assert t[0] == c && t[1..] == rest;
      OneIsPlain(c);
    } else if |GoChar(c)| == 2 {
      assert t[0] == '\\' && t[1] == GoChar(c)[1] && t[2..] == rest;
      TwoReads(c);
    } else {
      assert t[0] == '\\' && t[1] == GoChar(c)[1] && t[2..6] == GoChar(c)[2..6] && t[6..] == rest;
      SixReads(c);
    }
    hide GoChar;
    hide CodeUnit;
    hide Escaped;
  }

  lemma OneIsPlain(c: char)
    requires |GoChar(c)| == 1
    ensures c != '\"' && c != '\\' && c as int >= 32
  {
  }

  lemma TwoReads(c: char)
    requires |GoChar(c)| == 2
    ensures GoChar(c)[1] != 'u' && Escaped(GoChar(c)[1]) == Some(c)
  {
  }

  lemma SixReads(c: char)
    requires |GoChar(c)| == 6
    ensures GoChar(c)[1] == 'u' && CodeUnit(GoChar(c)[2..6]) == Some(c)
  {
    var n := c as int;
    if n < 32 && !GoSpecial(c) {
      HexReads(n / 16);
      HexReads(n % 16);
      assert GoChar(c)[2..6] == ['0', '0', Hex(n / 16), Hex(n % 16)];
    } else {
      var code := GoChar(c)[2..6];
      if c == '&' { assert code == "0026"; }
      if c == '<' { assert code == "003c"; }
      if c == '>' { assert code == "003e"; }
      if c == LINE_SEPARATOR { assert code == "2028"; }
      if c == PARAGRAPH_SEPARATOR { assert code == "2029"; }
    }
  }

  lemma {:induction false} StringReads(s: string, x: string)
    ensures ReadChars(GoChars(s) + "\"" + x) == Got(s, x)
  {
    hide GoChar;
    if s == [] {
      assert GoChars(s) + "\"" + x == "\"" + x;
      assert ("\"" + x)[1..] == x;
    } else {
      var rest := GoChars(s[1..]) + "\"" + x;
      assert GoChars(s) + "\"" + x == GoChar(s[0]) + rest;
      StringReads(s[1..], x);
      CharReads(s[0], rest);
      assert s == [s[0]] + s[1..];
    }
  }

  lemma {:induction false} NumberReads(s: string, x: string)
    requires (forall i | 0 <= i < |s| :: NumberChar(s[i])) && Follows(x)
    ensures NumberRun(s + x) == s
  {
    if s == [] {
      assert s + x == x;
    } else {
      assert (s + x)[1..] == s[1..] + x;
      NumberReads(s[1..], x);
    }
  }

  lemma FirstDiffers(a: string, b: string, i: nat)
    requires DiffersAt(a, b, i) && a != []
    ensures i == 0 || a[0] == b[0]
  {
    if i > 0 { assert a[..i][0] == b[..i][0]; }
  }

  lemma {:induction false} LessPrecedes(a: string, b: string)
    ensures Less(a, b) <==> Precedes(a, b)
  {
    if a == [] {
      if b != [] { assert DiffersAt(a, b, 0); }
    } else if b == [] {
    } else if a[0] != b[0] {
      if a[0] < b[0] { assert DiffersAt(a, b, 0); }
      if i :| 0 <= i <= |a| && DiffersAt(a, b, i) {
        FirstDiffers(a, b, i);
      }
    } else {
      var a', b' := a[1..], b[1..];
      LessPrecedes(a', b');
      if Precedes(a', b') {
        var i :| 0 <= i <= |a'| && DiffersAt(a', b', i);
        assert a[..i + 1] == [a[0]] + a'[..i] && b[..i + 1] == [b[0]] + b'[..i];
        assert DiffersAt(a, b, i + 1);
      }
      if Precedes(a, b) {
        var i :| 0 <= i <= |a| && DiffersAt(a, b, i);
        assert i > 0;
        assert a'[..i - 1] == a[..i][1..] && b'[..i - 1] == b[..i][1..];
        assert DiffersAt(a', b', i - 1);
      }
    }
  }

  lemma {:induction false} ItemsMean(items: seq<Doc>, i: nat)
    requires i < |items|
    ensures ItemsMeaning(items)[i] == Meaning(items[i])
  {
    if i > 0 { ItemsMean(items[1..], i - 1); }
  }

  /** Distinct keys: the dictionary holds each member. */
  lemma {:induction false} MembersMean(members: seq<Member>)
    requires forall i, j | 0 <= i < j < |members| :: members[i].key != members[j].key
    ensures MembersMeaning(members).Keys == set m | m in members :: m.key
    ensures forall i | 0 <= i < |members| ::
      members[i].key in MembersMeaning(members) && MembersMeaning(members)[members[i].key] == Meaning(members[i].value)
  {
    if members == [] {
    } else {
      var rest := members[1..];
      assert forall i | 0 <= i < |rest| :: rest[i] == members[i + 1];
      MembersMean(rest);
      hide Meaning;
      assert (set m | m in members :: m.key) == (set m | m in rest :: m.key) + {members[0].key};
      forall i | 0 <= i < |members|
        ensures members[i].key in MembersMeaning(members)
             && MembersMeaning(members)[members[i].key] == Meaning(members[i].value)
      {
        if i > 0 { assert members[i] == rest[i - 1]; }
      }
    }
  }

  // ------------------------------------------------ the mutual induction

  /** The canonical text of a value is read as a value with that meaning, keys in
      order, and the reader stops where the value ends. */
  lemma {:induction false} ValueReads(v: Json, x: string) returns (d: Doc)
    requires WellFormed(v) && Follows(x)
    ensures ReadValue(Canonical(v) + x) == Got(d, x) && Meaning(d) == v && KeysAscend(d)
    decreases v, 3
  {
    match v
    case Null => d := ScalarReads(v, x);
    case Bool(_) => d := ScalarReads(v, x);
    case Num(s) => d := NumReads(s, x);
    case Str(s) => d := StrReads(s, x);
    case Arr(items) => d := ArrReads(items, x);
    case Obj(_) => d := ObjReads(v, x);
  }

  lemma {:induction false} ScalarReads(v: Json, x: string) returns (d: Doc)
    requires v.Null? || v.Bool?
    ensures ReadValue(Canonical(v) + x) == Got(d, x) && Meaning(d) == v && KeysAscend(d)
  {
    ScalarsAreCoded();
    hide GoEscape;
    d := if v.Null? then NullDoc else BoolDoc(v.b);
    var t := Canonical(v) + x;
    assert t[|Canonical(v)|..] == x;
    assert t[0] == Canonical(v)[0];
    hide ReadItems;
    hide ReadMembers;
    hide ReadNumber;
    hide ReadChars;
  }

  lemma {:induction false} NumReads(s: string, x: string) returns (d: Doc)
    requires IsNumber(s) && Follows(x)
    ensures ReadValue(Canonical(Num(s)) + x) == Got(d, x) && Meaning(d) == Num(s) && KeysAscend(d)
  {
    NumberShape(s);
    NumberReads(s, x);
    hide IsNumber;
    d := NumDoc(s);
    var t := s + x;
    assert t[0] == s[0] && t[|s|..] == x;
    hide NumberRun;
    hide ReadItems;
    hide ReadMembers;
    hide ReadChars;
  }

  lemma {:induction false} StrReads(s: string, x: string) returns (d: Doc)
    ensures ReadValue(Canonical(Str(s)) + x) == Got(d, x) && Meaning(d) == Str(s) && KeysAscend(d)
  {
    KeyIsCoded(s);
    hide Key;
    var t := Canonical(Str(s)) + x;
    assert t == "\"" + (GoChars(s) + "\"" + x);
    assert t[0] == '\"' && t[1..] == GoChars(s) + "\"" + x;
    StringReads(s, x);
    assert ReadChars(t[1..]) == Got(s, x);
    hide GoChars;
    hide Canonical;
    hide ReadItems;
    hide ReadMembers;
    hide ReadNumber;
    hide ReadChars;
    d := StrDoc(s);
  }

  lemma {:induction false} ArrReads(items: seq<Json>, x: string) returns (d: Doc)
    requires forall i | 0 <= i < |items| :: WellFormed(items[i])
    ensures ReadValue(Canonical(Arr(items)) + x) == Got(d, x) && Meaning(d) == Arr(items) && KeysAscend(d)
    decreases items, 2
  {
    hide Items;
    hide Canonical;
    hide ReadItems;
    hide ReadValue;
    ArrText(items, x);
    BracketEnds(items, x);
    ArrayReads(Items(items) + "]" + x);
    if items == [] {
      NoItems(items, x);
      assert ("]" + x)[1..] == x;
      d := ArrDoc([]);
    } else {
      var ds := ItemsRead(items, x);
      d := ArrDoc(ds);
    }
  }

  lemma ArrayReads(inner: string)
    requires inner != []
    ensures ReadValue("[" + inner) ==
      if inner[0] == ']' then Got(ArrDoc([]), inner[1..])
      else
        var r := ReadItems(inner);
        if r.Bad? then Bad else Got(ArrDoc(r.value), r.rest)
  {
    hide ReadMembers;
    hide ReadItems;
    hide ReadNumber;
    hide ReadChars;
    var t := "[" + inner;
    assert t[0] == '[' && t[1..] == inner && t[1] == inner[0] && t[2..] == inner[1..];
  }

  lemma {:induction false} ItemsRead(a: seq<Json>, x: string) returns (ds: seq<Doc>)
    requires a != [] && forall i | 0 <= i < |a| :: WellFormed(a[i])
    ensures ReadItems(Items(a) + "]" + x) == Got(ds, x)
    ensures ItemsMeaning(ds) == a && forall i | 0 <= i < |ds| :: KeysAscend(ds[i])
    decreases a, 1
  {
    hide Canonical;
    hide Items;
    hide ReadValue;
    hide Meaning;
    hide KeysAscend;
    hide WellFormed;
    var rest := AfterItem(a, x);
    ItemsText(a, x);
    var first := ValueReads(a[0], rest);
    assert a == [a[0]] + a[1..];
    if |a| == 1 {
      assert rest[1..] == x;
      ds := [first];
      assert ds[1..] == [] && ItemsMeaning([]) == [];
    } else {
      var more := ItemsRead(a[1..], x);
      assert rest[1..] == Items(a[1..]) + "]" + x;
      ds := [first] + more;
      assert ds[1..] == more;
    }
  }

  lemma {:induction false} ObjReads(v: Json, x: string) returns (d: Doc)
    requires v.Obj? && WellFormed(v)
    ensures ReadValue(Canonical(v) + x) == Got(d, x) && Meaning(d) == v && KeysAscend(d)
    decreases v, 2
  {
    hide Canonical;
    hide Members;
    hide Sorted;
    hide ReadValue;
    hide ReadMembers;
    hide Meaning;
    hide KeysAscend;
    var keys := Sorted(v.fields.Keys);
    assert Elements(keys) == v.fields.Keys && Ascending(keys);
    ObjText(v, x);
    BraceEnds(v, keys, x);
    ObjectReads(Members(v, keys) + "}" + x);
    if keys == [] {
      NoMembers(v, keys, x);
      assert ("}" + x)[1..] == x;
      NoElements(keys);
      d := ObjDoc([]);
      EmptyMeans(v);
    } else {
      var ms := MembersRead(v, keys, x);
      d := ObjDoc(ms);
      ObjMeans(v, keys, ms);
    }
  }

  lemma ObjectReads(inner: string)
    requires inner != []
    ensures ReadValue("{" + inner) ==
      if inner[0] == '}' then Got(ObjDoc([]), inner[1..])
      else
        var r := ReadMembers(inner);
        if r.Bad? then Bad else Got(ObjDoc(r.value), r.rest)
  {
    hide ReadMembers;
    hide ReadItems;
    hide ReadNumber;
    hide ReadChars;
    var t := "{" + inner;
    assert t[0] == '{' && t[1..] == inner && t[1] == inner[0] && t[2..] == inner[1..];
  }

  lemma EmptyMeans(v: Json)
    requires v.Obj? && v.fields.Keys == {}
    ensures Meaning(ObjDoc([])) == v && KeysAscend(ObjDoc([]))
  {
    assert v.fields == map[];
  }

  lemma {:induction false} ObjMeans(v: Json, keys: seq<string>, ms: seq<Member>)
    requires v.Obj? && Elements(keys) == v.fields.Keys && Ascending(keys) && |ms| == |keys|
    requires forall i | 0 <= i < |ms| ::
      ms[i].key == keys[i] && keys[i] in v.fields && Meaning(ms[i].value) == v.fields[keys[i]] && KeysAscend(ms[i].value)
    ensures Meaning(ObjDoc(ms)) == v && KeysAscend(ObjDoc(ms))
  {
    forall i, j | 0 <= i < j < |ms| ensures Precedes(ms[i].key, ms[j].key) && ms[i].key != ms[j].key {
      LessPrecedes(keys[i], keys[j]);
      LessIrreflexive(keys[i]);
    }
    hide Precedes;
    hide Less;
    hide KeysAscend;
    AscendDoc(ms);
    MembersMean(ms);
    hide MembersMeaning;
    KeysAre(v, keys, ms);
    forall k | k in v.fields ensures MembersMeaning(ms)[k] == v.fields[k] {
      assert k in Elements(keys);
      var i :| 0 <= i < |keys| && keys[i] == k;
      assert ms[i].key == k;
    }
    assert MembersMeaning(ms) == v.fields;
  }

  lemma AscendDoc(ms: seq<Member>)
    requires forall i | 0 <= i < |ms| :: KeysAscend(ms[i].value)
    requires forall i, j | 0 <= i < j < |ms| :: Precedes(ms[i].key, ms[j].key)
    ensures KeysAscend(ObjDoc(ms))
  {
  }

  lemma KeysAre(v: Json, keys: seq<string>, ms: seq<Member>)
    requires v.Obj? && Elements(keys) == v.fields.Keys && |ms| == |keys|
    requires forall i | 0 <= i < |ms| :: ms[i].key == keys[i]
    ensures (set m | m in ms :: m.key) == v.fields.Keys
  {
    forall k ensures k in (set m | m in ms :: m.key) <==> k in Elements(keys) {
      if k in Elements(keys) {
        var i :| 0 <= i < |keys| && keys[i] == k;
        assert ms[i] in ms && ms[i].key == k;
      }
    }
  }

  lemma {:induction false} MembersRead(v: Json, keys: seq<string>, x: string) returns (ms: seq<Member>)
    requires v.Obj? && WellFormed(v) && keys != [] && forall k | k in keys :: k in v.fields
    ensures ReadMembers(Members(v, keys) + "}" + x) == Got(ms, x) && |ms| == |keys|
    ensures forall i | 0 <= i < |ms| ::
      ms[i].key == keys[i] && Meaning(ms[i].value) == v.fields[keys[i]] && KeysAscend(ms[i].value)
    decreases v, 1, |keys|
  {
    hide Canonical;
    hide Members;
    hide Meaning;
    hide KeysAscend;
    hide ReadMember;
    hide ReadValue;
    hide ReadMembers;
    var rest := AfterMember(v, keys, x);
    var value := ValueReads(v.fields[keys[0]], rest);
    hide WellFormed;
    MemberReads(v, keys, x, value);
    MoreMembers(Members(v, keys) + "}" + x);
    if |keys| == 1 {
      assert rest[1..] == x;
      ms := [Member(keys[0], value)];
    } else {
      var more := MembersRead(v, keys[1..], x);
      assert rest[1..] == Members(v, keys[1..]) + "}" + x;
      ms := [Member(keys[0], value)] + more;
    }
  }

  lemma MoreMembers(t: string)
    ensures var first := ReadMember(t);
      first.Got? && first.rest != [] ==>
        && (first.rest[0] == '}' ==> ReadMembers(t) == Got([first.value], first.rest[1..]))
        && (first.rest[0] == ',' ==>
              var more := ReadMembers(first.rest[1..]);
              more.Got? ==> ReadMembers(t) == Got([first.value] + more.value, more.rest))
  {
    hide ReadMember;
  }

  lemma {:induction false} MemberReads(v: Json, keys: seq<string>, x: string, value: Doc)
    requires v.Obj? && keys != [] && forall k | k in keys :: k in v.fields
    requires var rest := AfterMember(v, keys, x); ReadValue(Canonical(v.fields[keys[0]]) + rest) == Got(value, rest)
    ensures ReadMember(Members(v, keys) + "}" + x) == Got(Member(keys[0], value), AfterMember(v, keys, x))
  {
    MembersText(v, keys, x);
    hide Canonical;
    hide Members;
    hide AfterMember;
    hide GoChars;
    hide ReadValue;
    hide ReadChars;
    var tail := Canonical(v.fields[keys[0]]) + AfterMember(v, keys, x);
    var quoted := GoChars(keys[0]) + "\"" + ([':'] + tail);
    StringReads(keys[0], [':'] + tail);
    assert (['\"'] + quoted)[1..] == quoted;
    assert ([':'] + tail)[1..] == tail;
  }

  /** Every canonical text reads back, whole, as its document with keys in order. */
  lemma {:induction false} CanonicalReadsBack(v: Json) returns (d: Doc)
    requires WellFormed(v)
    ensures ReadValue(Canonical(v)) == Got(d, []) && Meaning(d) == v && KeysAscend(d)
  {
    d := ValueReads(v, []);
    assert Canonical(v) + [] == Canonical(v);
  }

  /** A printed key or string value, read by section 7 alone. */
  lemma KeyReadsBack(s: string)
    ensures |Key(s)| > 1 && Key(s)[0] == '\"' && ReadChars(Key(s)[1..]) == Got(s, [])
  {
    KeyIsCoded(s);
    hide Key;
    StringReads(s, []);
    assert Key(s)[1..] == GoChars(s) + "\"" + [];
  }

  // ----------------------------------------------- no character stands raw

  /** No control character, and none of those Go's encoder escapes. */
  predicate Clean(t: string) {
    forall i | 0 <= i < |t| ::
      t[i] as int >= 32 && t[i] != '&' && t[i] != '<' && t[i] != '>' && t[i] != '\U{2028}' && t[i] != '\U{2029}'
  }

  lemma CharClean(c: char)
    ensures Clean(GoChar(c))
  {
  }

  lemma {:induction false} CharsClean(s: string)
    ensures Clean(GoChars(s))
  {
    hide GoChar;
    if s == [] {
    } else {
      CharClean(s[0]);
      CharsClean(s[1..]);
    }
  }

  lemma CleanConcat(a: string, b: string)
    requires Clean(a) && Clean(b)
    ensures Clean(a + b)
  {
  }

  lemma KeyClean(s: string)
    ensures Clean(Key(s))
  {
    KeyIsCoded(s);
    CharsClean(s);
    hide Key;
    hide GoChars;
    CleanConcat("\"", GoChars(s));
    CleanConcat("\"" + GoChars(s), "\"");
  }

  /** The text of a document has no such character anywhere. */
  lemma {:induction false} CanonicalClean(v: Json)
    requires WellFormed(v)
    ensures Clean(Canonical(v))
    decreases v, 3
  {
    match v
    case Null => ScalarClean(v);
    case Bool(_) => ScalarClean(v);
    case Num(s) => NumClean(s);
    case Str(s) => StrClean(s);
    case Arr(items) => ArrClean(items);
    case Obj(_) => ObjClean(v);
  }

  lemma {:induction false} ScalarClean(v: Json)
    requires v.Null? || v.Bool?
    ensures Clean(Canonical(v))
  {
    hide GoEscape;
    ScalarsAreCoded();
  }

  lemma {:induction false} NumClean(s: string)
    requires IsNumber(s)
    ensures Clean(Canonical(Num(s)))
  {
    hide IsNumber;
    NumberShape(s);
  }

  lemma {:induction false} StrClean(s: string)
    ensures Clean(Canonical(Str(s)))
  {
    hide Key;
    hide Clean;
    KeyClean(s);
  }

  lemma {:induction false} ArrClean(items: seq<Json>)
    requires forall i | 0 <= i < |items| :: WellFormed(items[i])
    ensures Clean(Canonical(Arr(items)))
    decreases items, 2
  {
    hide Items;
    ItemsClean(items);
    CleanConcat("[", Items(items));
    CleanConcat("[" + Items(items), "]");
    hide Clean;
  }

  lemma {:induction false} ObjClean(v: Json)
    requires v.Obj? && WellFormed(v)
    ensures Clean(Canonical(v))
    decreases v, 2
  {
    hide Members;
    hide Canonical;
    hide Sorted;
    var keys := Sorted(v.fields.Keys);
    ObjText(v, []);
    assert forall k | k in keys :: k in Elements(keys);
    MembersClean(v, keys);
    CleanConcat("{", Members(v, keys));
    CleanConcat("{" + Members(v, keys), "}");
    Ungroup(Canonical(v), "{", Members(v, keys), "}");
    hide Clean;
  }

  lemma Ungroup(t: string, a: string, b: string, c: string)
    requires t + [] == a + (b + c + [])
    ensures t == a + b + c
  {
    assert t == t + [];
    assert b + c + [] == b + c;
  }

  lemma {:induction false} ItemsClean(a: seq<Json>)
    requires forall i | 0 <= i < |a| :: WellFormed(a[i])
    ensures Clean(Items(a))
    decreases a, 1
  {
    hide Canonical;
    hide WellFormed;
    if a == [] {
    } else {
      CanonicalClean(a[0]);
      ItemsClean(a[1..]);
      CleanConcat(Canonical(a[0]), ",");
      CleanConcat(Canonical(a[0]) + ",", Items(a[1..]));
      hide Clean;
    }
  }

  lemma {:induction false} MembersClean(v: Json, keys: seq<string>)
    requires v.Obj? && WellFormed(v) && forall k | k in keys :: k in v.fields
    ensures Clean(Members(v, keys))
    decreases v, 1, |keys|
  {
    hide Canonical;
    hide Key;
    if keys == [] {
    } else {
      CanonicalClean(v.fields[keys[0]]);
      MembersClean(v, keys[1..]);
      MemberClean(keys[0], Canonical(v.fields[keys[0]]), Members(v, keys[1..]));
      hide Clean;
      hide WellFormed;
    }
  }

  lemma MemberClean(key: string, value: string, more: string)
    requires Clean(value) && Clean(more)
    ensures Clean(Key(key) + ":" + value) && Clean(Key(key) + ":" + value + "," + more)
  {
    hide Key;
    KeyClean(key);
    CleanConcat(Key(key), ":");
    CleanConcat(Key(key) + ":", value);
    CleanConcat(Key(key) + ":" + value, ",");
    CleanConcat(Key(key) + ":" + value + ",", more);
    hide Clean;
  }

  // -------------------------------------------- which escape is the one used

  /** The characters with an escape of their own: quote, backslash and five controls. */
  predicate HasShort(c: char) { c == '\"' || c == '\\' || c as int in {8, 9, 10, 12, 13} }

  predicate StandsRaw(c: char) { !HasShort(c) && c as int >= 32 && !GoSpecial(c) }

  /** A character stands for itself where it may, has its own escape where there is
      one, and otherwise four lower-case hexadecimal digits. */
  predicate CodeOf(c: char, part: string) {
    && (StandsRaw(c) ==> part == [c])
    && (HasShort(c) ==> |part| == 2)
    && (!StandsRaw(c) && !HasShort(c) ==> |part| == 6 && forall i | 2 <= i < 6 :: !('A' <= part[i] <= 'F'))
    && ReadChars(part + "\"") == Got([c], [])
  }

  lemma CharForm(c: char)
    ensures CodeOf(c, GoChar(c))
  {
    hide GoChar;
    hide ReadChars;
    hide StandsRaw;
    hide HasShort;
    CharShape(c);
    CharReads(c, "\"");
    QuoteReads();
    assert [c] + [] == [c];
  }

  lemma QuoteReads()
    ensures ReadChars("\"") == Got([], [])
  {
    assert "\""[1..] == [];
  }

  lemma CharShape(c: char)
    ensures StandsRaw(c) ==> GoChar(c) == [c]
    ensures HasShort(c) ==> |GoChar(c)| == 2
    ensures !StandsRaw(c) && !HasShort(c) ==> |GoChar(c)| == 6 && forall i | 2 <= i < 6 :: !('A' <= GoChar(c)[i] <= 'F')
  {
    if c as int < 32 && !HasShort(c) {
      LowerHex(c as int / 16);
      LowerHex(c as int % 16);
      assert GoChar(c) == "\\u00" + [Hex(c as int / 16), Hex(c as int % 16)];
    }
    hide Hex;
  }

  lemma LowerHex(d: nat)
    requires d < 16
    ensures !('A' <= Hex(d) <= 'F')
  {
  }

  /** A printed string is the codes of its characters, in order, between quotes. */
  lemma KeyForm(s: string) returns (parts: seq<string>)
    ensures Key(s) == "\"" + Flat(parts) + "\"" && |parts| == |s|
    ensures forall i | 0 <= i < |s| :: CodeOf(s[i], parts[i])
  {
    KeyIsCoded(s);
    hide Key;
    hide CodeOf;
    parts := Codes(s);
  }

  lemma {:induction false} Codes(s: string) returns (parts: seq<string>)
    ensures GoChars(s) == Flat(parts) && |parts| == |s|
    ensures forall i | 0 <= i < |s| :: CodeOf(s[i], parts[i])
  {
    hide CodeOf;
    hide GoChar;
    if s == [] {
      parts := [];
    } else {
      var more := Codes(s[1..]);
      CharForm(s[0]);
      parts := [GoChar(s[0])] + more;
      FlatConcat([GoChar(s[0])], more);
      assert [GoChar(s[0])][..0] == [];
      assert Flat([GoChar(s[0])]) == GoChar(s[0]);
    }
  }
}
