/** Escaping of the context's strings for the template's output format
    (`escape_latex_special_chars` and `escape_strings`, yuca/generation.py).
    `latex` is the only format the pipeline accepts. */
module Escaping {
  import opened Values

  /** The escape formats the pipeline accepts. */
  const ValidEscapeFormats: seq<string> := ["latex"]

  /** The replacement table: fourteen characters LaTeX treats specially. */
  function LatexEscape(c: char): Option<string>
  {
    match c
    case '\\' => Some("\\\\")
    case '{' => Some("\\{")
    case '}' => Some("\\}")
    case '[' => Some("{[}")
    case ']' => Some("{]}")
    case '^' => Some("\\^{}")
    case '_' => Some("\\_")
    case '~' => Some("\\textasciitilde{}")
    case '&' => Some("\\&")
    case '%' => Some("\\%")
    case '$' => Some("\\$")
    case '#' => Some("\\#")
    case '<' => Some("\\textless{}")
    case '>' => Some("\\textgreater{}")
    case _ => None
  }

  /** What one character of the input becomes. */
  function EscapeChar(c: char): string
  {
    if LatexEscape(c).Some? then LatexEscape(c).value else [c]
  }

  /** The concatenation of `f(c)` for the characters `c` of `s`, in order. */
  function Expand(s: string, f: char -> string): string
  {
    if s == [] then "" else Expand(s[..|s| - 1], f) + f(s[|s| - 1])
  }

  /** The escaped string: each character replaced by its entry, in order. */
  function EscapeLatex(s: string): string
  {
    Expand(s, EscapeChar)
  }

  /** `escape_latex_special_chars(s)`: the accumulator loop of the source. */
  method EscapeLatexSpecialChars(s: string) returns (escaped: string)
    ensures escaped == EscapeLatex(s)
  {
    escaped := "";
    for i := 0 to |s|
      invariant escaped == EscapeLatex(s[..i])
    {
      assert s[..i + 1][..i] == s[..i];
      var c := s[i];
      if LatexEscape(c).Some? {
        escaped := escaped + LatexEscape(c).value;
      } else {
        escaped := escaped + [c];
      }
    }
    assert s[..|s|] == s;
  }

  /** Every table entry is at least two characters long and starts with a
      backslash or a brace; a character outside the table is kept. */
  lemma EscapeCharShape(c: char)
    ensures LatexEscape(c).Some? ==>
      |EscapeChar(c)| >= 2 && (EscapeChar(c)[0] == '\\' || EscapeChar(c)[0] == '{')
    ensures LatexEscape(c).None? ==> EscapeChar(c) == [c]
  {
  }

  lemma {:induction false} ExpandAppend(a: string, b: string, f: char -> string)
    ensures Expand(a + b, f) == Expand(a, f) + Expand(b, f)
    decreases |b|
  {
    if b == [] {
      assert a + b == a;
    } else {
      var b', c := b[..|b| - 1], b[|b| - 1];
      assert (a + b)[..|a + b| - 1] == a + b';
      assert (a + b)[|a + b| - 1] == c;
      ExpandAppend(a, b', f);
    }
  }

  /** Escaping works character by character: it distributes over
      concatenation. */
  lemma EscapeLatexAppend(a: string, b: string)
    ensures EscapeLatex(a + b) == EscapeLatex(a) + EscapeLatex(b)
  {
    ExpandAppend(a, b, EscapeChar);
  }

  predicate HasSpecial(s: string)
  {
    exists i :: 0 <= i < |s| && LatexEscape(s[i]).Some?
  }

  lemma HasSpecialSplit(s: string)
    requires s != []
    ensures HasSpecial(s) <==> HasSpecial(s[..|s| - 1]) || LatexEscape(s[|s| - 1]).Some?
  {
    var init := s[..|s| - 1];
    if HasSpecial(s) {
      var i :| 0 <= i < |s| && LatexEscape(s[i]).Some?;
      if i < |init| {
        assert init[i] == s[i];
      }
    }
    if HasSpecial(init) {
      var i :| 0 <= i < |init| && LatexEscape(init[i]).Some?;
      assert s[i] == init[i];
    }
  }

  /** Escaping never shortens a string, and it lengthens every string that
      holds a character of the table. */
  lemma {:induction false} EscapeLatexLength(s: string)
    ensures |EscapeLatex(s)| >= |s|
    ensures HasSpecial(s) ==> |EscapeLatex(s)| > |s|
    decreases |s|
  {
    if s != [] {
      var init, c := s[..|s| - 1], s[|s| - 1];
      EscapeLatexLength(init);
      HasSpecialSplit(s);
      EscapeCharShape(c);
      assert |EscapeLatex(s)| == |EscapeLatex(init)| + |EscapeChar(c)|;
    }
  }

  /** Escaping leaves a string unchanged exactly when no character of it is in
      the table. */
  lemma {:induction false} EscapeLatexFixed(s: string)
    ensures EscapeLatex(s) == s <==> !HasSpecial(s)
    decreases |s|
  {
    EscapeLatexLength(s);
    if s != [] && !HasSpecial(s) {
      var init, c := s[..|s| - 1], s[|s| - 1];
      HasSpecialSplit(s);
      EscapeLatexFixed(init);
      EscapeCharShape(c);
      assert s == init + [c];
    }
  }

  lemma ExpandTriple(a: char, b: char, c: char, f: char -> string)
    ensures Expand([a, b, c], f) == f(a) + f(b) + f(c)
  {
    assert [a, b, c][..2] == [a, b];
    assert [a, b][..1] == [a];
    assert [a][..0] == [];
    assert Expand([a], f) == "" + f(a) == f(a);
    assert Expand([a, b], f) == f(a) + f(b);
    assert Expand([a, b, c], f) == Expand([a, b], f) + f(c);
  }

  /** A three-character string escapes character by character. */
  lemma EscapeTriple(a: char, b: char, c: char)
    ensures EscapeLatex([a, b, c]) == EscapeChar(a) + EscapeChar(b) + EscapeChar(c)
  {
    ExpandTriple(a, b, c, EscapeChar);
  }

  lemma EscapeLatexLanguageTag()
    ensures EscapeLatex("pt_BR") == "pt\\_BR"
  {
    EscapeTriple('p', 't', '_');
    assert EscapeChar('p') == "p" && EscapeChar('t') == "t" && EscapeChar('_') == "\\_";
    assert "p" + "t" + "\\_" == "pt\\_";
    assert "BR"[..1] == "B" && "B"[..0] == "";
    assert EscapeChar('B') == "B" && EscapeChar('R') == "R";
    assert EscapeLatex("BR") == "BR";
    EscapeLatexAppend("pt_", "BR");
    assert "pt_" + "BR" == "pt_BR";
    assert "pt\\_" + "BR" == "pt\\_BR";
  }

  lemma EscapeLatexExample()
    ensures EscapeLatex("100% & $5") == "100\\% \\& \\$5"
  {
    EscapeTriple('1', '0', '0');
    assert EscapeChar('1') == "1" && EscapeChar('0') == "0";
    assert "1" + "0" + "0" == "100";
    EscapeTriple('%', ' ', '&');
    assert EscapeChar('%') == "\\%" && EscapeChar(' ') == " " && EscapeChar('&') == "\\&";
    assert "\\%" + " " + "\\&" == "\\% \\&";
    EscapeTriple(' ', '$', '5');
    assert EscapeChar('$') == "\\$" && EscapeChar('5') == "5";
    assert " " + "\\$" + "5" == " \\$5";
    EscapeLatexAppend("100", "% &");
    EscapeLatexAppend("100% &", " $5");
    assert "100" + "% &" == "100% &";
    assert "100% &" + " $5" == "100% & $5";
    assert "100" + "\\% \\&" == "100\\% \\&";
    assert "100\\% \\&" + " \\$5" == "100\\% \\& \\$5";
  }

  lemma PlainEscape(s: string)
    requires !HasSpecial(s)
    ensures EscapeLatex(s) == s
  {
    EscapeLatexFixed(s);
  }

  /** Escaping is not idempotent: escaping an escaped backslash escapes it
      again. */
  lemma EscapeLatexNotIdempotent()
    ensures EscapeLatex("\\") == "\\\\"
    ensures EscapeLatex(EscapeLatex("\\")) == "\\\\\\\\"
  {
    assert "\\"[..0] == "";
    EscapeLatexAppend("\\", "\\");
    assert "\\" + "\\" == "\\\\";
  }

  // ------------------------------------------------------------ whole values

  /** `escape_strings(v, fmt)`: every string anywhere in the value is escaped
      when the format is `latex`; dict keys, numbers, booleans and null are
      kept. */
  function Escaped(v: Value, fmt: string): (r: Value)
    ensures r.Str? <==> v.Str?
    ensures r.Arr? <==> v.Arr?
    ensures v.Arr? ==> |r.items| == |v.items|
    ensures r.Obj? <==> v.Obj?
    ensures v.Obj? ==>
      && |r.fields| == |v.fields|
      && forall i :: 0 <= i < |v.fields| ==> r.fields[i].key == v.fields[i].key
    ensures !v.Str? && !v.Arr? && !v.Obj? ==> r == v
    decreases v
  {
    match v
    case Str(s) => if fmt == "latex" then Str(EscapeLatex(s)) else v
    case Arr(xs) => Arr(seq(|xs|, i requires 0 <= i < |xs| => Escaped(xs[i], fmt)))
    case Obj(fs) => Obj(EscapedFields(fs, fmt))
    case _ => v
  }

  function EscapedFields(fs: seq<Field>, fmt: string): seq<Field>
    decreases Obj(fs), 0
  {
    seq(|fs|, i requires 0 <= i < |fs| => Field(fs[i].key, Escaped(fs[i].val, fmt)))
  }

  /** The source's recursion, which reassigns every field of a dict and every
      element of a list in place. Each key of a dict is visited once and
      assigned where it stands. */
  method EscapeStrings(data: Value, fmt: string) returns (r: Value)
    ensures r == Escaped(data, fmt)
    decreases data
  {
    match data {
      case Obj(fs) =>
        var out := fs;
        for i := 0 to |fs|
          invariant |out| == |fs|
          invariant forall j :: 0 <= j < i ==> out[j] == Field(fs[j].key, Escaped(fs[j].val, fmt))
          invariant forall j :: i <= j < |fs| ==> out[j] == fs[j]
        {
          assert fs[i] in fs;
          var e := EscapeStrings(fs[i].val, fmt);
          out := out[i := Field(fs[i].key, e)];
        }
        r := Obj(out);
      case Arr(xs) =>
        var out := xs;
        for i := 0 to |xs|
          invariant |out| == |xs|
          invariant forall j :: 0 <= j < i ==> out[j] == Escaped(xs[j], fmt)
          invariant forall j :: i <= j < |xs| ==> out[j] == xs[j]
        {
          var e := EscapeStrings(xs[i], fmt);
          out := out[i := e];
        }
        r := Arr(out);
      case Str(s) =>
        if fmt == "latex" {
          var e := EscapeLatexSpecialChars(s);
          r := Str(e);
        } else {
          r := data;
        }
      case _ =>
        r := data;
    }
  }

  lemma {:induction false} LookupEscaped(fs: seq<Field>, fmt: string, k: string)
    ensures Lookup(EscapedFields(fs, fmt), k) ==
      if Lookup(fs, k).Some? then Some(Escaped(Lookup(fs, k).value, fmt)) else None
    decreases |fs|
  {
    if fs != [] {
      assert EscapedFields(fs, fmt)[1..] == EscapedFields(fs[1..], fmt);
      LookupEscaped(fs[1..], fmt, k);
    }
  }

  /** Escaping keeps the shape of the value: exactly the same paths exist
      before and after, and what is found at a path afterwards is the escaped
      form of what was there before. */
  lemma {:induction false} EscapedGet(v: Value, fmt: string, p: Route)
    ensures Get(Escaped(v, fmt), p) ==
      if Get(v, p).Some? then Some(Escaped(Get(v, p).value, fmt)) else None
    decreases p
  {
    if p != [] {
      match p[0]
      case Name(k) =>
        if v.Obj? {
          LookupEscaped(v.fields, fmt, k);
          if Lookup(v.fields, k).Some? {
            EscapedGet(Lookup(v.fields, k).value, fmt, p[1..]);
          }
        }
      case Index(i) =>
        if v.Arr? && i < |v.items| {
          EscapedGet(v.items[i], fmt, p[1..]);
        }
    }
  }

  /** A string found at some path is escaped; any other scalar is kept. */
  lemma EscapedLeaves(v: Value, p: Route)
    requires Get(v, p).Some?
    ensures Get(v, p).value.Str? ==>
      Get(Escaped(v, "latex"), p) == Some(Str(EscapeLatex(Get(v, p).value.s)))
    ensures Get(v, p).value.Null? || Get(v, p).value.Bool? || Get(v, p).value.Num? ==>
      Get(Escaped(v, "latex"), p) == Get(v, p)
  {
    EscapedGet(v, "latex", p);
  }

  /** With any format other than `latex` nothing changes. */
  lemma {:induction false} EscapedOtherFormat(v: Value, fmt: string)
    requires fmt != "latex"
    ensures Escaped(v, fmt) == v
    decreases v
  {
    match v
    case Arr(xs) =>
      forall i | 0 <= i < |xs| ensures Escaped(xs[i], fmt) == xs[i] {
        EscapedOtherFormat(xs[i], fmt);
      }
      assert Escaped(v, fmt).items == xs;
    case Obj(fs) =>
      forall i | 0 <= i < |fs| ensures EscapedFields(fs, fmt)[i] == fs[i] {
        assert fs[i] in fs;
        EscapedOtherFormat(fs[i].val, fmt);
      }
      assert EscapedFields(fs, fmt) == fs;
    case _ =>
  }
}
