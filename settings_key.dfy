/** The grammar of a key in an overrides or filters tree, matched in the source
    with `re.match(r"([^\[\]]+)(\[(\d+)\]|)$", key)`: a name of one or more
    characters other than brackets, optionally followed by a list index in
    brackets. Python's `$` also matches just before a newline that ends the
    string, so one trailing "\n" after the closing bracket is tolerated. */
module SettingsKey {
  import opened Values

  predicate IsBracket(c: char) { c == '[' || c == ']' }

  predicate IsDigit(c: char) { '0' <= c <= '9' }

  predicate NoBrackets(s: string) { forall i :: 0 <= i < |s| ==> !IsBracket(s[i]) }

  predicate AllDigits(s: string) { forall i :: 0 <= i < |s| ==> IsDigit(s[i]) }

  /** Length of the longest bracket-free prefix of `s`: where the greedy
      `[^\[\]]+` stops. */
  function NameLength(s: string): (n: nat)
    ensures n <= |s| && NoBrackets(s[..n])
    ensures n < |s| ==> IsBracket(s[n])
  {
    if s == [] || IsBracket(s[0]) then 0
    else
      var n := 1 + NameLength(s[1..]);
      assert s[..n] == [s[0]] + s[1..][..n - 1];
      n
  }

  /** First position at or after `i` that does not hold a digit: where the
      greedy `\d+` stops. */
  function DigitsEnd(s: string, i: nat): (e: nat)
    requires i <= |s|
    ensures i <= e <= |s| && AllDigits(s[i..e])
    ensures e < |s| ==> !IsDigit(s[e])
    decreases |s| - i
  {
    if i == |s| || !IsDigit(s[i]) then i
    else
      var e := DigitsEnd(s, i + 1);
      assert s[i..e] == [s[i]] + s[i + 1..e];
      e
  }

  /** `int(ds)` for a string of decimal digits. */
  function DigitsValue(ds: string): nat
    requires AllDigits(ds)
  {
    if ds == [] then 0
    else 10 * DigitsValue(ds[..|ds| - 1]) + (ds[|ds| - 1] as int - '0' as int)
  }

  /** The match of the key pattern: `Some((name, None))` for `name`,
      `Some((name, Some(i)))` for `name[digits]`, and `None` where the source's
      `assert match is not None` fails. */
  function ParseKey(s: string): Option<(string, Option<nat>)>
  {
    var n := NameLength(s);
    if n == 0 then None
    else if n == |s| then Some((s, None))
    else if s[n] != '[' then None
    else
      var e := DigitsEnd(s, n + 1);
      if e == n + 1 || e == |s| || s[e] != ']' then None
      else if e + 1 == |s| || (e + 2 == |s| && s[e + 1] == '\n') then
        Some((s[..n], Some(DigitsValue(s[n + 1..e]))))
      else None
  }

  lemma NameLengthOfPlain(s: string)
    requires NoBrackets(s)
    ensures NameLength(s) == |s|
  {
    if s != [] {
      NameLengthOfPlain(s[1..]);
    }
  }

  /** The greedy name stops at the first bracket. */
  lemma {:induction false} NameLengthAt(s: string, n: nat)
    requires n < |s| && NoBrackets(s[..n]) && IsBracket(s[n])
    ensures NameLength(s) == n
    decreases n
  {
    if n > 0 {
      assert !IsBracket(s[..n][0]);
      assert s[1..][..n - 1] == s[..n][1..];
      NameLengthAt(s[1..], n - 1);
    }
  }

  lemma {:induction false} DigitsEndOfRun(s: string, i: nat, j: nat)
    requires i <= j < |s| && AllDigits(s[i..j]) && !IsDigit(s[j])
    ensures DigitsEnd(s, i) == j
    decreases j - i
  {
    if i < j {
      assert s[i] == s[i..j][0];
      assert s[i + 1..j] == s[i..j][1..];
      DigitsEndOfRun(s, i + 1, j);
    }
  }

  /** A bracket-free key parses to itself with no index, and only such a key
      gives an empty index. */
  lemma PlainKey(s: string)
    ensures ParseKey(s).Some? && ParseKey(s).value.1.None?
        <==> s != [] && NoBrackets(s)
    ensures s != [] && NoBrackets(s) ==> ParseKey(s) == Some((s, None))
  {
    if s != [] && NoBrackets(s) {
      NameLengthOfPlain(s);
    }
  }

  /** The characters of `s` are laid out as `name`, `[`, `ds`, `]`, `tail`. */
  predicate Layout(s: string, name: string, ds: string, tail: string)
  {
    var n := |name|;
    && |s| == n + |ds| + 2 + |tail|
    && s[..n] == name && s[n] == '['
    && s[n + 1..n + 1 + |ds|] == ds && s[n + 1 + |ds|] == ']'
    && s[n + 2 + |ds|..] == tail
  }

  /** The layout is exactly the concatenation `name + "[" + ds + "]" + tail`. */
  lemma LayoutIsConcat(s: string, name: string, ds: string, tail: string)
    ensures Layout(s, name, ds, tail) <==> s == name + "[" + ds + "]" + tail
  {
    var n, e := |name|, |name| + 1 + |ds|;
    if s == name + "[" + ds + "]" + tail {
      assert s == name + ("[" + ds + "]" + tail);
      assert s[n..] == "[" + ds + "]" + tail;
    }
    if Layout(s, name, ds, tail) {
      assert s == s[..n] + s[n..];
      assert s[n..] == [s[n]] + s[n + 1..e] + [s[e]] + s[e + 1..];
    }
  }

  /** A key laid out as `name[digits]tail` parses to the name and the value of
      the digits. */
  lemma ParseKeyOfLayout(s: string, name: string, ds: string, tail: string)
    requires name != [] && NoBrackets(name) && ds != [] && AllDigits(ds)
    requires tail == "" || tail == "\n"
    requires Layout(s, name, ds, tail)
    ensures ParseKey(s) == Some((name, Some(DigitsValue(ds))))
  {
    var n := |name|;
    var e := n + 1 + |ds|;
    NameLengthAt(s, n);
    DigitsEndOfRun(s, n + 1, e);
    assert tail != "" ==> s[e + 1] == s[n + 2 + |ds|..][0] == '\n';
  }

  /** `name[digits]`, optionally followed by the newline Python's `$` accepts,
      parses to the name and the integer value of the digits. */
  lemma IndexedKey(name: string, ds: string, tail: string)
    requires name != [] && NoBrackets(name) && ds != [] && AllDigits(ds)
    requires tail == "" || tail == "\n"
    ensures ParseKey(name + "[" + ds + "]" + tail) == Some((name, Some(DigitsValue(ds))))
  {
    LayoutIsConcat(name + "[" + ds + "]" + tail, name, ds, tail);
    ParseKeyOfLayout(name + "[" + ds + "]" + tail, name, ds, tail);
  }

  /** Cutting a key around `[` at `n` and `]` at `e` gives its layout. */
  lemma LayoutAround(s: string, n: nat, e: nat)
    requires n < e < |s| && s[n] == '[' && s[e] == ']'
    ensures Layout(s, s[..n], s[n + 1..e], s[e + 1..])
  {
  }

  /** Where the name and the digits of an indexed key stop, as the parse
      finds them. */
  predicate IndexedStops(s: string, name: string, i: nat, n: nat)
    requires n < |s|
  {
    var e := DigitsEnd(s, n + 1);
    && 0 < n && n + 1 < e < |s| && s[n] == '[' && s[e] == ']'
    && (e + 1 == |s| || (e + 2 == |s| && s[e + 1] == '\n'))
    && name == s[..n] && i == DigitsValue(s[n + 1..e])
  }

  /** `s` is `name[digits]`, possibly followed by one newline, the digits
      being the greedy run after the bracket and worth `i`. */
  predicate IndexedShape(s: string, name: string, i: nat)
  {
    && name != [] && NoBrackets(name) && |name| < |s|
    && var e := DigitsEnd(s, |name| + 1);
      && e < |s|
      && var ds, tail := s[|name| + 1..e], s[e + 1..];
        && ds != [] && AllDigits(ds) && DigitsValue(ds) == i
        && (tail == "" || tail == "\n")
        && Layout(s, name, ds, tail)
  }

  /** What a successful parse with an index says about the positions where
      the name and the digits stop. */
  lemma IndexedParse(s: string, name: string, i: nat)
    requires ParseKey(s) == Some((name, Some(i)))
    ensures NameLength(s) < |s| && IndexedStops(s, name, i, NameLength(s))
  {
  }

  lemma ShapeAt(s: string, name: string, i: nat, n: nat)
    requires n == NameLength(s) && n < |s| && IndexedStops(s, name, i, n)
    ensures IndexedShape(s, name, i)
  {
    var e := DigitsEnd(s, n + 1);
    assert |name| == n;
    LayoutAround(s, n, e);
    if e + 1 < |s| {
      assert s[e + 1..] == [s[e + 1]];
    }
  }

  /** Every successful parse with an index comes from a key laid out as
      `name[digits]`, possibly followed by one newline (by LayoutIsConcat,
      the concatenation of those parts). */
  lemma IndexedKeyShape(s: string, name: string, i: nat)
    requires ParseKey(s) == Some((name, Some(i)))
    ensures IndexedShape(s, name, i)
  {
    IndexedParse(s, name, i);
    ShapeAt(s, name, i, NameLength(s));
  }

  /** Shapes the assertion rejects. */
  lemma RejectedKeys()
    ensures ParseKey("") == None
    ensures ParseKey("[0]") == None
    ensures ParseKey("a[x]") == None
    ensures ParseKey("a[0][1]") == None
    ensures ParseKey("a[]") == None
    ensures ParseKey("a]") == None
  {
    assert NameLength("a[x]") == 1;
    assert NameLength("a[0][1]") == 1;
    assert DigitsEnd("a[0][1]", 2) == 3;
    assert NameLength("a[]") == 1;
    assert NameLength("a]") == 1;
  }

  lemma AcceptedKeys()
    ensures ParseKey("projects[0]") == Some(("projects", Some(0)))
  {
    var name, ds := "projects", "0";
    assert NoBrackets(name) && AllDigits(ds);
    assert ds[..0] == "" && DigitsValue(ds) == 0;
    IndexedKey(name, ds, "");
    assert name + "[" + ds + "]" + "" == "projects[0]";
  }

  /** The newline Python's `$` tolerates after the closing bracket. */
  lemma AcceptedNewlineKey()
    ensures ParseKey("a[12]\n") == Some(("a", Some(12)))
  {
    assert "12"[..1] == "1" && "1"[..0] == "";
    assert DigitsValue("12") == 12;
    IndexedKey("a", "12", "\n");
    assert "a" + "[" + "12" + "]" + "\n" == "a[12]\n";
  }

  lemma TitleKey()
    ensures ParseKey("title") == Some(("title", None))
  {
    PlainKey("title");
  }
}
