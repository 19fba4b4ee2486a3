/** The canonical JSON text that audit fingerprints are taken of
    (go_canonical_json in scripts/_storage_placement_scenarios.py), and why two
    documents with the same text are the same document. */
module CanonicalJson {
  import opened Text

  /** A parsed document. Numbers keep their spelling; an object is a dictionary, so
      the order of its keys is not part of the value. */
  datatype Json =
    | Null
    | Bool(b: bool)
    | Num(spelling: string)
    | Str(s: string)
    | Arr(items: seq<Json>)
    | Obj(fields: map<string, Json>)

  // -------------------------------------------------------------- strings

  function Hex(d: nat): char
    requires d < 16
  {
    if d < 10 then ('0' as int + d) as char else ('a' as int + d - 10) as char
  }

  /** One character of json.dumps(s, ensure_ascii=False). */
  function DumpChar(c: char): string {
    if c == '\"' then "\\\""
    else if c == '\\' then "\\\\"
    else if c == '\n' then "\\n"
    else if c == '\r' then "\\r"
    else if c == '\t' then "\\t"
    else if c as int == 12 then "\\f"
    else if c as int == 8 then "\\b"
    else if c as int < 32 then "\\u00" + [Hex(c as int / 16), Hex(c as int % 16)]
    else [c]
  }

  function DumpChars(s: string): string {
    if s == [] then [] else DumpChar(s[0]) + DumpChars(s[1..])
  }

  /** text.replace(c, escaped) for a single character c. */
  function Replace(text: string, c: char, escaped: string): string {
    if text == [] then []
    else (if text[0] == c then escaped else [text[0]]) + Replace(text[1..], c, escaped)
  }

  const LINE_SEPARATOR: char := '\U{2028}'
  const PARAGRAPH_SEPARATOR: char := '\U{2029}'

  /** The five replacements Go's encoder makes, in the order the code makes them. */
  function GoEscape(text: string): string {
    var t1 := Replace(text, '&', "\\u0026");
    var t2 := Replace(t1, '<', "\\u003c");
    var t3 := Replace(t2, '>', "\\u003e");
    var t4 := Replace(t3, LINE_SEPARATOR, "\\u2028");
    Replace(t4, PARAGRAPH_SEPARATOR, "\\u2029")
  }

  // ------------------------------------------------------------- documents

  function Canonical(v: Json): string
    decreases v, 2
  {
    match v
    case Num(spelling) => spelling
    case Obj(fields) => "{" + Members(v, Sorted(fields.Keys)) + "}"
    case Arr(items) => "[" + Items(items) + "]"
    case Null => GoEscape("null")
    case Bool(b) => GoEscape(if b then "true" else "false")
    case Str(s) => Key(s)
  }

  /** A string value or an object key. */
  function Key(k: string): string { GoEscape("\"" + DumpChars(k) + "\"") }

  /** The members of an object for these keys, comma-separated. */
  function Members(v: Json, keys: seq<string>): string
    requires v.Obj? && forall k | k in keys :: k in v.fields
    decreases v, 1, |keys|
  {
    if keys == [] then []
    else
      var first := Key(keys[0]) + ":" + Canonical(v.fields[keys[0]]);
      if |keys| == 1 then first else first + "," + Members(v, keys[1..])
  }

  function Items(items: seq<Json>): string
    decreases items, 1
  {
    if items == [] then []
    else
      var first := Canonical(items[0]);
      if |items| == 1 then first else first + "," + Items(items[1..])
  }

  // ------------------------------- the replacements, character by character

  lemma {:induction false} ReplaceConcat(a: string, b: string, c: char, escaped: string)
    ensures Replace(a + b, c, escaped) == Replace(a, c, escaped) + Replace(b, c, escaped)
  {
    if a == [] {
      assert a + b == b;
    } else {
      assert (a + b)[1..] == a[1..] + b;
      ReplaceConcat(a[1..], b, c, escaped);
    }
  }

  lemma {:induction false} ReplaceAbsent(text: string, c: char, escaped: string)
    requires c !in text
    ensures Replace(text, c, escaped) == text
  {
    if text == [] {
    } else {
      assert forall x | x in text[1..] :: x in text;
      ReplaceAbsent(text[1..], c, escaped);
      assert text == [text[0]] + text[1..];
    }
  }

  lemma EscapeConcat(a: string, b: string)
    ensures GoEscape(a + b) == GoEscape(a) + GoEscape(b)
  {
    var a1, b1 := Replace(a, '&', "\\u0026"), Replace(b, '&', "\\u0026");
    var a2, b2 := Replace(a1, '<', "\\u003c"), Replace(b1, '<', "\\u003c");
    var a3, b3 := Replace(a2, '>', "\\u003e"), Replace(b2, '>', "\\u003e");
    var a4, b4 := Replace(a3, LINE_SEPARATOR, "\\u2028"), Replace(b3, LINE_SEPARATOR, "\\u2028");
    ReplaceConcat(a, b, '&', "\\u0026");
    ReplaceConcat(a1, b1, '<', "\\u003c");
    ReplaceConcat(a2, b2, '>', "\\u003e");
    ReplaceConcat(a3, b3, LINE_SEPARATOR, "\\u2028");
    ReplaceConcat(a4, b4, PARAGRAPH_SEPARATOR, "\\u2029");
  }

  predicate GoSpecial(c: char) {
    c == '&' || c == '<' || c == '>' || c == LINE_SEPARATOR || c == PARAGRAPH_SEPARATOR
  }

  predicate Plain(text: string) { forall x | x in text :: !GoSpecial(x) }

  lemma EscapePlain(text: string)
    requires Plain(text)
    ensures GoEscape(text) == text
  {
    ReplaceAbsent(text, '&', "\\u0026");
    ReplaceAbsent(text, '<', "\\u003c");
    ReplaceAbsent(text, '>', "\\u003e");
    ReplaceAbsent(text, LINE_SEPARATOR, "\\u2028");
    ReplaceAbsent(text, PARAGRAPH_SEPARATOR, "\\u2029");
  }

  /** What one character of a string becomes after all the replacements. */
  function GoChar(c: char): string {
    if c == '&' then "\\u0026"
    else if c == '<' then "\\u003c"
    else if c == '>' then "\\u003e"
    else if c == LINE_SEPARATOR then "\\u2028"
    else if c == PARAGRAPH_SEPARATOR then "\\u2029"
    else DumpChar(c)
  }

  function GoChars(s: string): string {
    if s == [] then [] else GoChar(s[0]) + GoChars(s[1..])
  }

  lemma EscapeChar(c: char)
    ensures GoEscape(DumpChar(c)) == GoChar(c)
  {
    if GoSpecial(c) {
      EscapeSpecial(c);
    } else {
      EscapePlain(DumpChar(c));
    }
  }

  /** Each replacement text survives the replacements that come after it. */
  lemma EscapeSpecial(c: char)
    requires GoSpecial(c)
    ensures GoEscape([c]) == GoChar(c)
  {
    hide Replace;
    var t := GoChar(c);
    var amp, lt, gt, ls, ps := "\\u0026", "\\u003c", "\\u003e", "\\u2028", "\\u2029";
    ReplaceOne(c, '&', amp);
    ReplaceOne(c, '<', lt);
    ReplaceOne(c, '>', gt);
    ReplaceOne(c, LINE_SEPARATOR, ls);
    ReplaceOne(c, PARAGRAPH_SEPARATOR, ps);
    assert Plain(t);
    ReplaceAbsent(t, '<', lt);
    ReplaceAbsent(t, '>', gt);
    ReplaceAbsent(t, LINE_SEPARATOR, ls);
    ReplaceAbsent(t, PARAGRAPH_SEPARATOR, ps);
  }

  lemma ReplaceOne(c: char, d: char, escaped: string)
    ensures Replace([c], d, escaped) == if c == d then escaped else [c]
  {
    assert [c][1..] == [];
  }

  lemma {:induction false} EscapeChars(s: string)
    ensures GoEscape(DumpChars(s)) == GoChars(s)
  {
    if s == [] {
      EscapePlain([]);
    } else {
      EscapeConcat(DumpChar(s[0]), DumpChars(s[1..]));
      EscapeChar(s[0]);
      EscapeChars(s[1..]);
    }
  }

  /** The whole-text replacements are a character-by-character code. */
  lemma KeyIsCoded(k: string)
    ensures Key(k) == "\"" + GoChars(k) + "\""
  {
    EscapeConcat("\"" + DumpChars(k), "\"");
    EscapeConcat("\"", DumpChars(k));
    EscapeChars(k);
    EscapePlain("\"");
  }

  lemma ScalarsAreCoded()
    ensures GoEscape("null") == "null" && GoEscape("true") == "true" && GoEscape("false") == "false"
  {
    hide GoEscape;
    EscapePlain("null");
    EscapePlain("true");
    EscapePlain("false");
  }

  // ---------------------------------------------------- reading it back

  lemma CodeHead(c: char)
    ensures |GoChar(c)| in {1, 2, 6} && GoChar(c)[0] != '\"'
    ensures |GoChar(c)| == 1 ==> GoChar(c) == [c] && c != '\\'
    ensures |GoChar(c)| > 1 ==> GoChar(c)[0] == '\\'
    ensures |GoChar(c)| == 6 <==> |GoChar(c)| > 1 && GoChar(c)[1] == 'u'
  {
  }

  lemma CodeInjective(c: char, d: char)
    requires GoChar(c) == GoChar(d)
    ensures c == d
  {
    if |GoChar(c)| == 6 && c as int < 32 && d as int < 32 {
      assert GoChar(c)[4..] == [Hex(c as int / 16), Hex(c as int % 16)];
      assert GoChar(d)[4..] == [Hex(d as int / 16), Hex(d as int % 16)];
      assert c as int / 16 == d as int / 16 && c as int % 16 == d as int % 16;
    }
  }

  /** No code is the beginning of another. */
  lemma CodePrefix(c: char, d: char, x: string, y: string)
    requires GoChar(c) + x == GoChar(d) + y
    ensures c == d && x == y
  {
    var p, q := GoChar(c), GoChar(d);
    CodeHead(c);
    CodeHead(d);
    hide GoChar;
    var w := p + x;
    assert w[0] == p[0] == q[0];
    assert |p| > 1 ==> w[1] == p[1];
    assert |q| > 1 ==> w[1] == q[1];
    assert |p| == |q|;
    assert p == w[..|p|] == q;
    CodeInjective(c, d);
    assert x == w[|p|..] == y;
  }

  /** Only the end of a coded string reads as a quote. */
  lemma QuoteEnds(s: string, x: string)
    ensures (GoChars(s) + "\"" + x)[0] == '\"' <==> s == []
  {
    if s != [] { CodeHead(s[0]); }
  }

  lemma {:induction false} StringPrefix(s: string, t: string, x: string, y: string)
    requires GoChars(s) + "\"" + x == GoChars(t) + "\"" + y
    ensures s == t && x == y
  {
    hide GoChar;
    var w := GoChars(s) + "\"" + x;
    QuoteEnds(s, x);
    QuoteEnds(t, y);
    if s == [] {
      assert x == w[1..] == y;
    } else {
      var x', y' := GoChars(s[1..]) + "\"" + x, GoChars(t[1..]) + "\"" + y;
      assert w == GoChar(s[0]) + x';
      assert w == GoChar(t[0]) + y';
      CodePrefix(s[0], t[0], x', y');
      StringPrefix(s[1..], t[1..], x, y);
      assert s == [s[0]] + s[1..] && t == [t[0]] + t[1..];
    }
  }
}
