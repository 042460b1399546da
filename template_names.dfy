/** Name helpers of the template commands (yuca/template/template_app.py): the
    template name derived from a repository URL, and the file name of a
    recipe. */
module TemplateNames {
  import opened Values

  /** `sub` occurs in `s` at position `i`. */
  predicate Occurs(s: string, sub: string, i: int)
  {
    0 <= i && i + |sub| <= |s| && s[i..i + |sub|] == sub
  }

  /** The last occurrence of `sub` in `s` at or below `i`, or -1. */
  function RFindAtOrBelow(s: string, sub: string, i: int): (r: int)
    requires i <= |s| - |sub|
    ensures r == -1 || (Occurs(s, sub, r) && r <= i)
    ensures forall j :: r < j <= i && Occurs(s, sub, j) ==> false
    decreases i + 1
  {
    if i < 0 then -1
    else if s[i..i + |sub|] == sub then i
    else RFindAtOrBelow(s, sub, i - 1)
  }

  /** `s.rfind(sub)`: the highest position where `sub` occurs, or -1; an
      empty `sub` occurs at `len(s)`. */
  function RFind(s: string, sub: string): (r: int)
    ensures r == -1 || Occurs(s, sub, r)
    ensures forall j :: Occurs(s, sub, j) ==> j <= r
  {
    RFindAtOrBelow(s, sub, |s| - |sub|)
  }

  /** `get_name_from_url(url, ending)`: the text between the last `/` and the
      last occurrence of `ending` (or the end of the URL when `ending` does
      not occur); None when there is no `/` or `ending` does not come after
      it. */
  function GetNameFromUrl(url: string, ending: string): Option<string>
  {
    var from := RFind(url, "/");
    var to := if RFind(url, ending) < 0 then |url| else RFind(url, ending);
    if from < 0 || to <= from then None else Some(url[from + 1..to])
  }

  lemma OccursSlash(s: string, i: int)
    ensures Occurs(s, "/", i) <==> 0 <= i < |s| && s[i] == '/'
  {
    if 0 <= i < |s| {
      assert s[i..i + 1] == [s[i]];
    }
  }

  /** The URL splits into everything through its last `/`, the name, and the
      rest, which is empty when `ending` does not occur and otherwise starts
      at the last occurrence of `ending`; the name holds no `/`. None is
      returned exactly when the URL has no `/`, or `ending` occurs and its last
      occurrence starts at or before the last `/`. */
  lemma GetNameFromUrlSpec(url: string, ending: string)
    ensures GetNameFromUrl(url, ending).None? <==>
      RFind(url, "/") < 0 || (RFind(url, ending) >= 0 && RFind(url, ending) <= RFind(url, "/"))
    ensures (forall i :: 0 <= i < |url| ==> url[i] != '/') ==> GetNameFromUrl(url, ending).None?
    ensures GetNameFromUrl(url, ending).Some? ==>
      var name := GetNameFromUrl(url, ending).value;
      var slash := RFind(url, "/");
      var rest := url[slash + 1 + |name|..];
      && url == url[..slash + 1] + name + rest
      && url[slash] == '/'
      && (forall i :: 0 <= i < |name| ==> name[i] != '/')
      && (if RFind(url, ending) < 0 then rest == [] else rest[..|ending|] == ending)
      && (RFind(url, ending) >= 0 ==> slash + 1 + |name| == RFind(url, ending))
  {
    var slash := RFind(url, "/");
    if forall i :: 0 <= i < |url| ==> url[i] != '/' {
      if slash >= 0 {
        OccursSlash(url, slash);
      }
    }
    if GetNameFromUrl(url, ending).Some? {
      var name := GetNameFromUrl(url, ending).value;
      var to := slash + 1 + |name|;
      OccursSlash(url, slash);
      forall i | 0 <= i < |name| ensures name[i] != '/' {
        assert name[i] == url[slash + 1 + i];
        OccursSlash(url, slash + 1 + i);
      }
      assert url == url[..slash + 1] + url[slash + 1..to] + url[to..];
    }
  }

  lemma OccursChar(s: string, sub: string, r: int, k: nat)
    requires k < |sub|
    ensures Occurs(s, sub, r) ==> r + k < |s| && s[r + k] == sub[k]
  {
    if Occurs(s, sub, r) {
      assert s[r..r + |sub|][k] == s[r + k];
    }
  }

  /** `i` is the last occurrence of `sub` (or -1 for none) when character `k`
      of `sub` does not appear in `s` after the place it takes at `i`. */
  lemma LastOccurrence(s: string, sub: string, i: int, k: nat)
    requires k < |sub| && (i == -1 || Occurs(s, sub, i))
    requires forall t :: i + k < t < |s| ==> s[t] != sub[k]
    ensures RFind(s, sub) == i
  {
    OccursChar(s, sub, RFind(s, sub), k);
  }

  /** Without the ending, the name runs to the end of the URL. */
  lemma GetNameFromUrlNoEnding()
    ensures GetNameFromUrl("https://h/foo.zip", ".git") == Some("foo.zip")
  {
    var url := "https://h/foo.zip";
    assert url[9] == '/';
    LastOccurrence(url, "/", 9, 0);
    LastOccurrence(url, ".git", -1, 1);
    assert url[10..17] == "foo.zip";
  }

  lemma GetNameFromUrlGitEnding()
    ensures GetNameFromUrl("https://h/foo.git", ".git") == Some("foo")
  {
    var url := "https://h/foo.git";
    assert url[9] == '/';
    LastOccurrence(url, "/", 9, 0);
    assert url[13..17] == ".git";
    LastOccurrence(url, ".git", 13, 1);
    assert url[10..13] == "foo";
  }

  /** A URL ending in `/.git` gives the empty name. */
  lemma GetNameFromUrlEmptyName()
    ensures GetNameFromUrl("a/.git", ".git") == Some("")
  {
    var url := "a/.git";
    assert url[1] == '/';
    LastOccurrence(url, "/", 1, 0);
    assert url[2..6] == ".git";
    LastOccurrence(url, ".git", 2, 1);
    assert url[2..2] == "";
  }

  /** The ending before the last slash, and a URL without a slash, give None. */
  lemma GetNameFromUrlNone()
    ensures GetNameFromUrl("x.git/foo", ".git") == None
    ensures GetNameFromUrl("foo", ".git") == None
  {
    var url := "x.git/foo";
    assert url[5] == '/';
    LastOccurrence(url, "/", 5, 0);
    assert url[1..5] == ".git";
    LastOccurrence(url, ".git", 1, 1);
    LastOccurrence("foo", "/", -1, 0);
  }

  predicate EndsWith(s: string, suffix: string)
  {
    |suffix| <= |s| && s[|s| - |suffix|..] == suffix
  }

  /** The recipe name of `_copy_base_recipe`, with `.yml` added unless it is
      already there. */
  function RecipeFileName(name: string): string
  {
    if EndsWith(name, ".yml") then name else name + ".yml"
  }

  /** The file name always ends with `.yml`, a name that already does is kept,
      any other gets exactly `.yml` appended, and normalising twice is
      normalising once. */
  lemma RecipeFileNameSpec(name: string)
    ensures EndsWith(RecipeFileName(name), ".yml")
    ensures RecipeFileName(name) == name <==> EndsWith(name, ".yml")
    ensures !EndsWith(name, ".yml") ==> RecipeFileName(name) == name + ".yml"
    ensures RecipeFileName(RecipeFileName(name)) == RecipeFileName(name)
  {
    var r := name + ".yml";
    assert r[|r| - 4..] == ".yml";
  }

  lemma RecipeFileNameExamples()
    ensures RecipeFileName("cv") == "cv.yml"
    ensures RecipeFileName("cv.yml") == "cv.yml"
    ensures RecipeFileName("cv.yaml") == "cv.yaml.yml"
  {
    RecipeFileNameSpec("cv");
    RecipeFileNameSpec("cv.yaml");
    assert EndsWith("cv.yml", ".yml") by { assert "cv.yml"[2..] == ".yml"; }
  }
}
