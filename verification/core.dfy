/**
 * Label handling shared by every stage: the matching thresholds, the label
 * normaliser, fuzzy label equivalence, the category vocabulary with its three
 * extractors, and the brace scanner that cuts a JSON object out of free text.
 */
module Core {

  import opened Wrappers
  import opened Selection
  import opened Strings
  import opened Sorting

  // Template-match and label-confidence thresholds (core.py).
  const MATCH_THRESHOLD_QUESTION: real := 0.30
  const MATCH_THRESHOLD_GRID: real := 0.22
  const MATCH_THRESHOLD_OBJECT: real := 0.68
  const CONF_TILE_LABEL_OK: real := 0.50

  /** The similarity ratio at or above which two labels count as the same thing. */
  const SIMILAR_RATIO: real := 0.8

  // ---------------------------------------------------------------------------
  // normalize_label

  /** Characters a normalised label may consist of. */
  predicate IsNormalChar(c: char) { IsAlnum(c) && IsLowered(c) }

  predicate IsNormal(s: string) { forall c :: c in s ==> IsNormalChar(c) }

  /** The characters normalize_label cuts at. */
  predicate IsSeparator(c: char) { c == ',' || c == ';' || c == '/' }

  /**
   * s.split(",")[0].split(";")[0].split("/")[0]: everything before the first
   * separator, whichever of the three it is.
   */
  function CutAtSeparators(s: string): (r: string)
    ensures |r| <= |s| && r == s[..|r|]
    ensures forall i :: 0 <= i < |r| ==> !IsSeparator(r[i])
    ensures |r| < |s| ==> IsSeparator(s[|r|])
    ensures ',' !in s && ';' !in s && '/' !in s ==> r == s
  {
    CutChain(s);
    BeforeFirst(BeforeFirst(BeforeFirst(s, ','), ';'), '/')
  }

  lemma CutChain(s: string)
    ensures var r := BeforeFirst(BeforeFirst(BeforeFirst(s, ','), ';'), '/');
      && (forall i :: 0 <= i < |r| ==> !IsSeparator(r[i]))
      && (|r| < |s| ==> IsSeparator(s[|r|]))
  {
    var r1 := BeforeFirst(s, ',');
    var r2 := BeforeFirst(r1, ';');
    var r := BeforeFirst(r2, '/');
    forall i | 0 <= i < |r| ensures !IsSeparator(r[i]) {
      assert r[i] == r2[i] && r2[i] == r1[i];
      assert r[i] in r && r2[i] in r2 && r1[i] in r1;
    }
    if |r| < |r2| {
      assert s[|r|] == r2[|r|];
    } else if |r2| < |r1| {
      assert s[|r2|] == r1[|r2|];
    }
  }

  lemma TakeWordWithin(s: string)
    requires FirstWord(s).Some?
    ensures |FirstWord(s).value| <= |s|
    ensures forall c :: c in FirstWord(s).value ==> c in s
  {
    var t := TrimStart(s);
    var w := TakeWord(t);
    assert w == t[..|w|];
    forall c | c in w ensures c in s {
      var i :| 0 <= i < |w| && w[i] == c;
      assert t[i] == c;
      assert s[|s| - |t| + i] == c;
    }
  }

  /** parts[0] of s.split() when there is one, else `s` itself. */
  function LeadingWord(s: string): (r: string)
    ensures (forall i :: 0 <= i < |s| ==> IsSpace(s[i])) ==> r == s
    ensures forall c :: c in r ==> c in s
    ensures (forall c :: c in s ==> !IsSpace(c)) ==> r == s
  {
    if FirstWord(s).Some? then
      TakeWordWithin(s);
      FirstWord(s).value
    else s
  }

  /** Unless `s` is all whitespace, LeadingWord is its first word. */
  lemma LeadingWordIsFirst(s: string)
    ensures (exists i :: 0 <= i < |s| && !IsSpace(s[i])) ==> exists a :: FirstWordAt(s, a, LeadingWord(s))
  {
    if FirstWord(s).Some? {
      FirstWordIsFirst(s);
      var a :| FirstWordAt(s, a, FirstWord(s).value);
      assert FirstWordAt(s, a, LeadingWord(s));
    }
  }

  lemma CutWordLowered(s: string)
    requires s == Lower(s)
    ensures forall c :: c in LeadingWord(CutAtSeparators(s)) ==> IsLowered(c)
  {
    var s1 := CutAtSeparators(s);
    forall c | c in LeadingWord(s1) ensures IsLowered(c) {
      assert c in s1;
      var i :| 0 <= i < |s1| && s1[i] == c;
      assert s[i] == c;
      LowerCharIsLowered(s[i]);
    }
  }

  lemma LowerIsLowered(s: string)
    ensures Lower(Lower(s)) == Lower(s)
  {
    forall i | 0 <= i < |s| ensures Lower(Lower(s))[i] == Lower(s)[i] {
      LowerCharIsLowered(s[i]);
    }
  }

  /**
   * Lower-case, cut at the first ',', ';' and '/', keep the first
   * whitespace-separated word, then drop every non-alphanumeric character.
   */
  function NormalizeLabel(tileLabel: string): (r: string)
    ensures IsNormal(r)
    ensures (forall i :: 0 <= i < |tileLabel| ==> IsSpace(tileLabel[i])) ==> r == []
  {
    var s := Lower(Strip(tileLabel));
    if s == [] then []
    else
      LowerIsLowered(Strip(tileLabel));
      CutWordLowered(s);
      KeepAlnum(LeadingWord(CutAtSeparators(s)))
  }

  /** An alphanumeric character is not whitespace and is none of the cut characters. */
  lemma NormalCharIsPlain(c: char)
    requires IsNormalChar(c)
    ensures !IsSpace(c) && c != ',' && c != ';' && c != '/'
  {
  }

  lemma {:induction false} KeepAlnumKeepsNormal(s: string)
    requires IsNormal(s)
    ensures KeepAlnum(s) == s
  {
    if s != [] {
      assert s[0] in s;
      assert forall c :: c in s[1..] ==> c in s;
      KeepAlnumKeepsNormal(s[1..]);
    }
  }

  lemma NormalIsStripped(r: string)
    requires IsNormal(r)
    ensures Strip(r) == r
  {
    if r != [] {
      assert r[0] in r && r[|r| - 1] in r;
      NormalCharIsPlain(r[0]);
      NormalCharIsPlain(r[|r| - 1]);
    }
  }

  lemma NormalIsLowered(r: string)
    requires IsNormal(r)
    ensures Lower(r) == r
  {
    forall i | 0 <= i < |r| ensures Lower(r)[i] == r[i] {
      assert r[i] in r;
    }
  }

  lemma NormalIsOneWord(r: string)
    requires IsNormal(r)
    ensures LeadingWord(CutAtSeparators(r)) == r
  {
    forall c | c in r ensures !IsSpace(c) && c != ',' && c != ';' && c != '/' {
      NormalCharIsPlain(c);
    }
  }

  /** Normalised labels are exactly the fixed points of normalize_label. */
  lemma NormalFixpoint(r: string)
    ensures IsNormal(r) <==> NormalizeLabel(r) == r
  {
    if IsNormal(r) {
      NormalIsStripped(r);
      NormalIsLowered(r);
      if r != [] {
        NormalIsOneWord(r);
        KeepAlnumKeepsNormal(r);
      }
    }
  }

  /** normalize_label is idempotent: a normalised label normalises to itself. */
  lemma NormalizeLabelIdempotent(tileLabel: string)
    ensures NormalizeLabel(NormalizeLabel(tileLabel)) == NormalizeLabel(tileLabel)
  {
    NormalFixpoint(NormalizeLabel(tileLabel));
  }

  /**
   * What survives normalisation: of the stripped, lower-cased label cut at
   * its first separator, the first whitespace-delimited word, and of that
   * word exactly its alphanumeric characters, in order. Nothing survives
   * when the cut holds no word.
   */
  lemma NormalizeLabelKeeps(tileLabel: string)
    ensures var cut := CutAtSeparators(Lower(Strip(tileLabel)));
      var r := NormalizeLabel(tileLabel);
      && ((forall i :: 0 <= i < |cut| ==> IsSpace(cut[i])) ==> r == [])
      && ((exists i :: 0 <= i < |cut| && !IsSpace(cut[i])) ==>
            exists a, w, ks :: FirstWordAt(cut, a, w) && Selects(w, AlnumPick, ks, r))
  {
    var cut := CutAtSeparators(Lower(Strip(tileLabel)));
    NormalizeLabelIsKept(tileLabel);
    KeptWordOfCut(cut);
  }

  /** The normalised label is the filtered leading word of the lowered, cut label. */
  lemma NormalizeLabelIsKept(tileLabel: string)
    ensures NormalizeLabel(tileLabel) == KeepAlnum(LeadingWord(CutAtSeparators(Lower(Strip(tileLabel)))))
  {
    var s := Lower(Strip(tileLabel));
    if s == [] {
      assert CutAtSeparators(s) == [];
      assert LeadingWord([]) == [];
    }
  }

  /** What the filtered leading word of a cut label holds. */
  lemma KeptWordOfCut(cut: string)
    ensures var r := KeepAlnum(LeadingWord(cut));
      && ((forall i :: 0 <= i < |cut| ==> IsSpace(cut[i])) ==> r == [])
      && ((exists i :: 0 <= i < |cut| && !IsSpace(cut[i])) ==>
            exists a, w, ks :: FirstWordAt(cut, a, w) && Selects(w, AlnumPick, ks, r))
  {
    var w := LeadingWord(cut);
    if forall i :: 0 <= i < |cut| ==> IsSpace(cut[i]) {
      forall c | c in w ensures !IsAlnum(c) { }
      KeepAlnumNone(w);
    } else {
      KeepAlnumSelects(w);
      LeadingWordIsFirst(cut);
      var a :| FirstWordAt(cut, a, w);
      var ks :| Selects(w, AlnumPick, ks, KeepAlnum(w));
      assert FirstWordAt(cut, a, w) && Selects(w, AlnumPick, ks, KeepAlnum(w));
    }
  }

  lemma {:induction false} KeepAlnumNone(s: string)
    requires forall c :: c in s ==> !IsAlnum(c)
    ensures KeepAlnum(s) == []
  {
    if s != [] {
      assert s[0] in s;
      assert forall c :: c in s[1..] ==> c in s;
      KeepAlnumNone(s[1..]);
    }
  }

  // ---------------------------------------------------------------------------
  // labels_similar

  /**
   * Fuzzy label equivalence. `ratio` stands for difflib's
   * SequenceMatcher(None, a, b).ratio(), which the model does not interpret.
   */
  predicate LabelsSimilar(a: string, b: string, ratio: (string, string) -> real) {
    if a == [] || b == [] then false
    else if a == b then true
    else if |a| >= 3 && |b| >= 3 && (Contains(b, a) || Contains(a, b)) then true
    else ratio(a, b) >= SIMILAR_RATIO
  }

  lemma SimilarNeedsBoth(a: string, b: string, ratio: (string, string) -> real)
    ensures a == [] || b == [] ==> !LabelsSimilar(a, b, ratio)
    ensures a != [] && a == b ==> LabelsSimilar(a, b, ratio)
  {
  }

  lemma SimilarBySubstring(a: string, b: string, ratio: (string, string) -> real)
    requires |a| >= 3 && |b| >= 3
    requires Contains(b, a) || Contains(a, b)
    ensures LabelsSimilar(a, b, ratio) && LabelsSimilar(b, a, ratio)
  {
  }

  /** Symmetric exactly when the ratio is: the other branches do not depend on the order. */
  lemma SimilarSymmetric(a: string, b: string, ratio: (string, string) -> real)
    requires ratio(a, b) == ratio(b, a)
    ensures LabelsSimilar(a, b, ratio) == LabelsSimilar(b, a, ratio)
  {
  }

  /** With an order-sensitive ratio the relation is not symmetric. */
  lemma SimilarNotSymmetric()
    ensures var ratio := (x: string, y: string) => if x == "ab" then 0.9 else 0.0;
      LabelsSimilar("ab", "ba", ratio) && !LabelsSimilar("ba", "ab", ratio)
  {
  }

  // ---------------------------------------------------------------------------
  // TAXONOMY and the category extractors

  datatype Category = Category(name: string, words: seq<string>)

  /** The category vocabulary, in its declared order. */
  const TAXONOMY: seq<Category> := [
      Category("bird", [
        "птица", "птицы", "воробей", "воробьи", "синица", "дрозд", "скворец", "голубь",
        "чайка", "ласточка", "птенец", "ворона", "сова", "robin", "sparrow", "tit",
        "blackbird", "starling", "pigeon", "seagull", "swallow"
      ]),
      Category("mammal", [
        "животное", "животные", "собака", "собаки", "щенок", "щенки", "кот", "коты", "котёнок",
        "котята", "кошка", "кошки", "медведь", "лиса", "волк", "олень", "кролик", "заяц",
        "мышь", "мышка", "мыши", "крыса", "человек", "люди", "ребёнок", "ребенок", "дети",
        "мальчик", "девочка", "dog", "dogs", "cat", "cats", "man", "woman", "boy", "girl",
        "person", "people"
      ]),
      Category("insect", [
        "жук", "пчела", "оса", "комар", "стрекоза", "бабочка", "муравей"
      ]),
      Category("fish", [
        "рыба", "рыбы", "карп", "щука", "лосось", "форель"
      ]),
      Category("reptile", [
        "змея", "ящерица", "черепаха"
      ]),
      Category("vehicle", [
        "машина", "автомобиль", "грузовик", "велосипед", "мотоцикл"
      ]),
      Category("clothing", [
        "обувь", "ботинки", "сапоги", "куртка", "брюки", "штаны", "шапка", "перчатки",
        "пальто", "платье", "кофта", "свитер", "шорты", "носки", "юбка", "кроссовки"
      ]),
      Category("container", [
        "ящик", "коробка", "скворечник", "домик", "будка", "гнездо", "нора", "дупло",
        "берлога", "улей", "улья", "клетка", "birdhouse"
      ]),
      Category("computer_accessory", [
        "клавиатура", "мышь", "мышка", "монитор", "наушники", "гарнитура", "джойстик",
        "геймпад", "трекпад", "mouse", "keyboard", "headphones"
      ])
  ]

  /** The TAXONOMY keys in the order Python's sorted() puts them. */
  const SORTED_CATEGORY_NAMES: seq<string> := [
    "bird", "clothing", "computer_accessory", "container", "fish", "insect", "mammal",
    "reptile", "vehicle"
  ]

  /** A vocabulary word matches: as a whole word, or anywhere as a substring. */
  predicate WordMatches(t: string, w: string, whole: bool) {
    if whole then HasWholeWord(t, w) else Contains(t, w)
  }

  predicate AnyWordMatches(t: string, words: seq<string>, whole: bool) {
    exists k :: 0 <= k < |words| && WordMatches(t, words[k], whole)
  }

  /** The names of the categories of `cats` with a word that matches in `t`. */
  function Matched(t: string, cats: seq<Category>, whole: bool): (r: set<string>)
    ensures forall n :: n in r <==>
      exists k :: 0 <= k < |cats| && cats[k].name == n && AnyWordMatches(t, cats[k].words, whole)
  {
    if cats == [] then {}
    else
      var init := cats[..|cats| - 1];
      var last := cats[|cats| - 1];
      var r := Matched(t, init, whole) + (if AnyWordMatches(t, last.words, whole) then {last.name} else {});
      assert forall k :: 0 <= k < |init| ==> init[k] == cats[k];
      r
  }

  /** The categories detect_categories_in_text finds: whole words of the lower-cased text. */
  function TextCategories(text: string): set<string> {
    Matched(Lower(text), TAXONOMY, true)
  }

  /** The categories categories_from_label finds: substrings of the lower-cased label. */
  function LabelCategories(tileLabel: string): set<string> {
    Matched(Lower(tileLabel), TAXONOMY, false)
  }

  /** The token override table of categories_from_creature_hint. */
  const CREATURE_TOKENS: map<string, string> := map[
    "bird" := "bird", "birds" := "bird", "птица" := "bird", "птицы" := "bird",
    "воробей" := "bird", "воробьи" := "bird",
    "dog" := "mammal", "dogs" := "mammal", "собака" := "mammal", "собаки" := "mammal",
    "cat" := "mammal", "cats" := "mammal", "кот" := "mammal", "коты" := "mammal",
    "кошка" := "mammal", "кошки" := "mammal", "pet" := "mammal", "pets" := "mammal"
  ]

  /** A character of the class [a-zа-яё]. */
  predicate IsHintChar(c: char) {
    ('a' <= c <= 'z') || ('\U{430}' <= c <= '\U{44F}') || c == '\U{451}'
  }

  /** Where the separator characters from position `i` on end. */
  function SkipSeparators(s: string, i: nat): (j: nat)
    requires i <= |s|
    ensures i <= j <= |s| && (j == |s| || IsHintChar(s[j]))
    ensures forall k :: i <= k < j ==> !IsHintChar(s[k])
    decreases |s| - i
  {
    if i < |s| && !IsHintChar(s[i]) then SkipSeparators(s, i + 1) else i
  }

  /** Where the run of token characters from position `i` on ends. */
  function RunEnd(s: string, i: nat): (j: nat)
    requires i <= |s|
    ensures i <= j <= |s| && (j == |s| || !IsHintChar(s[j]))
    ensures forall k :: i <= k < j ==> IsHintChar(s[k])
    decreases |s| - i
  {
    if i < |s| && IsHintChar(s[i]) then RunEnd(s, i + 1) else i
  }

  /** `w` is a maximal run of [a-zа-яё] characters of `s`, starting at `a`. */
  predicate RunAt(s: string, a: int, w: string) {
    && 0 <= a && a + |w| <= |s| && w != [] && s[a..a + |w|] == w
    && (forall k :: a <= k < a + |w| ==> IsHintChar(s[k]))
    && (a == 0 || !IsHintChar(s[a - 1]))
    && (a + |w| == |s| || !IsHintChar(s[a + |w|]))
  }

  /** A run of [a-zа-яё] characters starts at position `a` of `s`. */
  predicate RunStart(s: string, a: int) {
    0 <= a < |s| && IsHintChar(s[a]) && (a == 0 || !IsHintChar(s[a - 1]))
  }

  /**
   * The tokens `ws` are maximal runs of `s` at the increasing positions `ps`,
   * and every run that starts at or after `i` is one of them.
   */
  ghost predicate RunsFrom(s: string, i: int, ps: seq<int>, ws: seq<string>) {
    && |ps| == |ws|
    && (forall j :: 0 <= j < |ps| ==> i <= ps[j] && RunAt(s, ps[j], ws[j]))
    && (forall j, k :: 0 <= j < k < |ps| ==> ps[j] < ps[k])
    && (forall a :: i <= a && RunStart(s, a) ==> exists j :: 0 <= j < |ps| && ps[j] == a)
  }

  /** The non-empty pieces of re.split(r"[^a-zа-яё]+", s) from position `i` on. */
  function TokensFrom(s: string, i: nat): (r: seq<string>)
    requires i <= |s|
    decreases |s| - i
  {
    var a := SkipSeparators(s, i);
    if a == |s| then [] else var b := RunEnd(s, a); [s[a..b]] + TokensFrom(s, b)
  }

  /** The non-empty pieces of re.split(r"[^a-zа-яё]+", s), in order. */
  function HintTokens(s: string): seq<string> {
    TokensFrom(s, 0)
  }

  /** A run found after nothing but separators goes in front of the runs that follow it. */
  lemma RunsCons(s: string, i: nat, a: int, w: string, ps: seq<int>, ws: seq<string>)
    requires RunAt(s, a, w) && i <= a
    requires forall x :: i <= x < a ==> !IsHintChar(s[x])
    requires RunsFrom(s, a + |w|, ps, ws)
    ensures RunsFrom(s, i, [a] + ps, [w] + ws)
  {
    var ps', ws' := [a] + ps, [w] + ws;
    forall j | 1 <= j < |ps'| ensures i <= ps'[j] && RunAt(s, ps'[j], ws'[j]) {
      assert ps'[j] == ps[j - 1] && ws'[j] == ws[j - 1];
    }
    forall j, k | 0 <= j < k < |ps'| ensures ps'[j] < ps'[k] {
      assert ps'[k] == ps[k - 1];
      if j > 0 {
        assert ps'[j] == ps[j - 1];
      }
    }
    forall x | i <= x && RunStart(s, x) ensures exists j :: 0 <= j < |ps'| && ps'[j] == x {
      if x == a {
        assert ps'[0] == x;
      } else {
        var j :| 0 <= j < |ps| && ps[j] == x;
        assert ps'[j + 1] == x;
      }
    }
  }

  /** The tokens from a position not inside a run are the runs from there on. */
  lemma {:induction false} TokensFromAreRuns(s: string, i: nat)
    requires i <= |s|
    requires !(0 < i < |s| && IsHintChar(s[i - 1]) && IsHintChar(s[i]))
    ensures exists ps :: RunsFrom(s, i, ps, TokensFrom(s, i))
    decreases |s| - i
  {
    var a := SkipSeparators(s, i);
    if a == |s| {
      assert RunsFrom(s, i, [], TokensFrom(s, i));
    } else {
      var b := RunEnd(s, a);
      TokensFromAreRuns(s, b);
      var ps :| RunsFrom(s, b, ps, TokensFrom(s, b));
      assert RunAt(s, a, s[a..b]);
      RunsCons(s, i, a, s[a..b], ps, TokensFrom(s, b));
      assert RunsFrom(s, i, [a] + ps, TokensFrom(s, i));
    }
  }

  /** The tokens are exactly the maximal runs of [a-zа-яё] characters, in order. */
  lemma HintTokensAreRuns(s: string)
    ensures exists ps :: RunsFrom(s, 0, ps, HintTokens(s))
  {
    TokensFromAreRuns(s, 0);
    var ps :| RunsFrom(s, 0, ps, TokensFrom(s, 0));
    assert RunsFrom(s, 0, ps, HintTokens(s));
  }

  /** The categories the override table gives to `tokens`. */
  function MappedTokens(tokens: seq<string>, table: map<string, string>): (r: set<string>)
    ensures forall c :: c in r <==> exists k :: 0 <= k < |tokens| && tokens[k] in table && table[tokens[k]] == c
    ensures r <= table.Values
  {
    if tokens == [] then {}
    else
      var init, last := tokens[..|tokens| - 1], tokens[|tokens| - 1];
      assert forall k :: 0 <= k < |init| ==> init[k] == tokens[k];
      MappedTokens(init, table) + (if last in table then {table[last]} else {})
  }

  /** The categories categories_from_creature_hint finds. */
  function HintCategories(hint: string): set<string> {
    var s := Lower(hint);
    if s == [] then {} else Matched(s, TAXONOMY, false) + MappedTokens(HintTokens(s), CREATURE_TOKENS)
  }

  /**
   * The shared scan of the three extractors: for each category in turn, its
   * words are tried in order and the first match adds the category.
   */
  method ScanTaxonomy(t: string, cats: seq<Category>, whole: bool) returns (found: set<string>)
    ensures found == Matched(t, cats, whole)
  {
    found := {};
    var i := 0;
    while i < |cats|
      invariant 0 <= i <= |cats|
      invariant found == Matched(t, cats[..i], whole)
    {
      assert cats[..i + 1][..i] == cats[..i];
      var cat := cats[i];
      var j := 0;
      while j < |cat.words|
        invariant 0 <= j <= |cat.words|
        invariant found == Matched(t, cats[..i], whole)
        invariant forall k :: 0 <= k < j ==> !WordMatches(t, cat.words[k], whole)
      {
        if WordMatches(t, cat.words[j], whole) {
          found := found + {cat.name};
          break;
        }
        j := j + 1;
      }
      i := i + 1;
    }
    assert cats[..i] == cats;
  }

  /** detect_categories_in_text */
  method DetectCategoriesInText(text: string) returns (found: set<string>)
    ensures found == TextCategories(text)
  {
    found := ScanTaxonomy(Lower(text), TAXONOMY, true);
  }

  /** categories_from_label */
  method CategoriesFromLabel(tileLabel: string) returns (found: set<string>)
    ensures found == LabelCategories(tileLabel)
  {
    found := ScanTaxonomy(Lower(tileLabel), TAXONOMY, false);
  }

  /** categories_from_creature_hint */
  method CategoriesFromCreatureHint(hint: string) returns (found: set<string>)
    ensures found == HintCategories(hint)
  {
    var s := Lower(hint);
    if s == [] {
      return {};
    }
    found := ScanTaxonomy(s, TAXONOMY, false);
    var mapped := MapTokens(HintTokens(s), CREATURE_TOKENS);
    found := found + mapped;
  }

  /**
   * The token pass of categories_from_creature_hint: each token the table
   * knows adds its category. re.split also yields empty pieces, which the
   * source skips; HintTokens leaves them out to begin with.
   */
  method MapTokens(tokens: seq<string>, table: map<string, string>) returns (found: set<string>)
    ensures found == MappedTokens(tokens, table)
  {
    found := {};
    for i := 0 to |tokens|
      invariant found == MappedTokens(tokens[..i], table)
    {
      assert tokens[..i + 1][..i] == tokens[..i];
      var token := tokens[i];
      if token in table {
        found := found + {table[token]};
      }
    }
    assert tokens[..|tokens|] == tokens;
  }

  /** Every name a TAXONOMY entry carries is one of the sorted names. */
  lemma TaxonomyNames()
    ensures forall k :: 0 <= k < |TAXONOMY| ==> TAXONOMY[k].name in SORTED_CATEGORY_NAMES
  {
  }

  /** The extractors only ever return TAXONOMY keys. */
  lemma CategoriesWithinTaxonomy(text: string)
    ensures TextCategories(text) <= Elems(SORTED_CATEGORY_NAMES)
    ensures LabelCategories(text) <= Elems(SORTED_CATEGORY_NAMES)
    ensures HintCategories(text) <= Elems(SORTED_CATEGORY_NAMES)
  {
    TaxonomyNames();
    assert forall v :: v in CREATURE_TOKENS.Values ==> v == "bird" || v == "mammal";
  }

  lemma {:induction false} WholeWordImpliesSubstring(t: string, cats: seq<Category>)
    ensures Matched(t, cats, true) <= Matched(t, cats, false)
  {
    forall n | n in Matched(t, cats, true) ensures n in Matched(t, cats, false) {
      var k :| 0 <= k < |cats| && cats[k].name == n && AnyWordMatches(t, cats[k].words, true);
      var j :| 0 <= j < |cats[k].words| && WordMatches(t, cats[k].words[j], true);
      WholeWordIsSubstring(t, cats[k].words[j]);
      assert WordMatches(t, cats[k].words[j], false);
    }
  }

  /** A word found with word boundaries is also found as a substring. */
  lemma TextCategoriesWithinLabelCategories(text: string)
    ensures TextCategories(text) <= LabelCategories(text)
  {
    WholeWordImpliesSubstring(Lower(text), TAXONOMY);
  }

  /** `\b` never holds inside the empty string, so no word is found in it. */
  lemma NoWholeWordInEmpty(w: string)
    ensures !HasWholeWord("", w)
  {
    assert !Boundary("", 0);
  }

  lemma MatchedInEmptyText(cats: seq<Category>)
    ensures Matched("", cats, true) == {}
  {
    forall k, j | 0 <= k < |cats| && 0 <= j < |cats[k].words|
      ensures !WordMatches("", cats[k].words[j], true)
    {
      NoWholeWordInEmpty(cats[k].words[j]);
    }
  }

  /** Empty task text and an empty hint give no category. */
  lemma CategoriesOfEmpty()
    ensures TextCategories("") == {}
    ensures HintCategories("") == {}
  {
    assert Lower("") == "";
    MatchedInEmptyText(TAXONOMY);
  }

  /** "мышь" is both an animal word and a computer-accessory word. */
  lemma MouseIsAmbiguous()
    ensures "mammal" in LabelCategories("мышь")
    ensures "computer_accessory" in LabelCategories("мышь")
  {
    var t := "мышь";
    assert Lower(t) == t;
    assert TAXONOMY[1].name == "mammal" && TAXONOMY[1].words[18] == t;
    assert OccursAt(t, t, 0);
    assert AnyWordMatches(t, TAXONOMY[1].words, false);
    assert TAXONOMY[8].name == "computer_accessory" && TAXONOMY[8].words[1] == t;
    assert AnyWordMatches(t, TAXONOMY[8].words, false);
  }

  // ---------------------------------------------------------------------------
  // sorted() of a category set

  lemma {:induction false} AdjacentNamesAscending(s: seq<string>)
    requires forall i :: 0 <= i < |s| - 1 ==> StrLess(s[i], s[i + 1])
    ensures NamesAscending(s)
  {
    if |s| > 1 {
      AdjacentNamesAscending(s[1..]);
      forall j | 1 <= j < |s| ensures StrLess(s[0], s[j]) {
        if j > 1 {
          assert StrLess(s[1], s[j]) by { assert s[1..][0] == s[1] && s[1..][j - 1] == s[j]; }
          StrLessTransitive(s[0], s[1], s[j]);
        }
      }
      forall i, j | 0 <= i < j < |s| ensures StrLess(s[i], s[j]) {
        if i > 0 {
          assert s[1..][i - 1] == s[i] && s[1..][j - 1] == s[j];
        }
      }
    }
  }

  lemma SortedNamesAscending()
    ensures NamesAscending(SORTED_CATEGORY_NAMES)
  {
    var s := SORTED_CATEGORY_NAMES;
    assert StrLess(s[0], s[1]);
    assert StrLess(s[1], s[2]) by { assert StrLess("lothing", "omputer_accessory"); }
    assert StrLess(s[2], s[3]) by { assert StrLess("mputer_accessory", "ntainer"); }
    assert StrLess(s[3], s[4]);
    assert StrLess(s[4], s[5]);
    assert StrLess(s[5], s[6]);
    assert StrLess(s[6], s[7]);
    assert StrLess(s[7], s[8]);
    AdjacentNamesAscending(s);
  }

  /** sorted(list(cats)) for a set of category names. */
  function SortCategories(cats: set<string>): (r: seq<string>)
    requires cats <= Elems(SORTED_CATEGORY_NAMES)
    ensures NamesAscending(r)
    ensures Elems(r) == cats
  {
    SortedNamesAscending();
    KeepMembers(SORTED_CATEGORY_NAMES, cats)
  }

  // ---------------------------------------------------------------------------
  // extract_json_object

  /** str.find(c): the first index of `c`, or -1. */
  function Find(text: string, c: char): (r: int)
    ensures r == -1 <==> c !in text
    ensures r != -1 ==> 0 <= r < |text| && text[r] == c && c !in text[..r]
  {
    if text == [] then -1
    else if text[0] == c then 0
    else
      var k := Find(text[1..], c);
      if k == -1 then -1
      else
        assert text[..k + 1] == [text[0]] + text[1..][..k];
        k + 1
  }

  /** Opening braces minus closing braces in `s`, string contents included. */
  function Depth(s: string): int {
    if s == [] then 0
    else
      var last := s[|s| - 1];
      Depth(s[..|s| - 1]) + (if last == '{' then 1 else if last == '}' then -1 else 0)
  }

  /**
   * Where the scan that starts at `text[start]` closes: the end of the slice
   * at which a '}' brings the running depth back to 0, if any.
   */
  function CloseFrom(text: string, start: nat, i: nat, depth: int): Option<nat>
    requires i <= |text|
    decreases |text| - i
  {
    if i == |text| then None
    else if text[i] == '{' then CloseFrom(text, start, i + 1, depth + 1)
    else if text[i] == '}' then
      if depth - 1 == 0 then Some(i + 1) else CloseFrom(text, start, i + 1, depth - 1)
    else CloseFrom(text, start, i + 1, depth)
  }

  datatype JsonScan = NoOpenBrace | Unbalanced | Candidate(slice: string)

  /** What the brace scan of extract_json_object finds in `text`. */
  function ScanJsonObject(text: string): (r: JsonScan)
    ensures r == NoOpenBrace <==> '{' !in text
  {
    var start := Find(text, '{');
    if start == -1 then NoOpenBrace
    else
      match CloseFrom(text, start, start, 0)
      case None => Unbalanced
      case Some(e) => if start <= e <= |text| then Candidate(text[start..e]) else Unbalanced
  }

  lemma DepthStep(text: string, start: nat, i: nat)
    requires start <= i < |text|
    ensures Depth(text[start..i + 1]) == Depth(text[start..i])
      + (if text[i] == '{' then 1 else if text[i] == '}' then -1 else 0)
  {
    assert text[start..i + 1][..i - start] == text[start..i];
  }

  /** A slice balanced for the first time. */
  predicate FirstBalanced(text: string, start: nat, e: nat) {
    start < e <= |text| && Depth(text[start..e]) == 0
    && forall m :: start < m < e ==> Depth(text[start..m]) > 0
  }

  lemma {:induction false} CloseFromMeaning(text: string, start: nat, i: nat, depth: int)
    requires start <= i <= |text| && start < |text| && text[start] == '{'
    requires depth == Depth(text[start..i])
    requires forall m :: start < m <= i ==> Depth(text[start..m]) > 0
    ensures CloseFrom(text, start, i, depth).Some? ==>
      FirstBalanced(text, start, CloseFrom(text, start, i, depth).value)
    ensures CloseFrom(text, start, i, depth).None? ==>
      forall m :: start < m <= |text| ==> Depth(text[start..m]) > 0
    decreases |text| - i
  {
    if i < |text| {
      DepthStep(text, start, i);
      var next := Depth(text[start..i + 1]);
      if i == start {
        assert text[start..start] == [];
      }
      if text[i] == '}' && depth - 1 == 0 {
      } else {
        assert next > 0;
        CloseFromMeaning(text, start, i + 1, next);
      }
    }
  }

  /**
   * A candidate is the slice from the first '{' to the first point where the
   * brace depth is back to 0; it opens with '{' and closes with '}'.
   */
  lemma ScanCandidate(text: string)
    requires ScanJsonObject(text).Candidate?
    ensures var start := Find(text, '{');
      var c := ScanJsonObject(text).slice;
      && FirstBalanced(text, start, start + |c|) && c == text[start..start + |c|]
      && c[0] == '{' && c[|c| - 1] == '}'
  {
    var start := Find(text, '{');
    assert text[start..start] == [];
    CloseFromMeaning(text, start, start, 0);
    var e := CloseFrom(text, start, start, 0).value;
    BalancedSliceCloses(text, start, e);
    var c := text[start..e];
    assert ScanJsonObject(text) == Candidate(c);
    assert start + |c| == e;
    assert c[0] == text[start] && c[|c| - 1] == text[e - 1];
  }

  /** The scan is unbalanced when the depth never returns to 0 after the first '{'. */
  lemma ScanUnbalanced(text: string)
    requires ScanJsonObject(text) == Unbalanced
    ensures var start := Find(text, '{');
      forall m :: start < m <= |text| ==> Depth(text[start..m]) > 0
  {
    var start := Find(text, '{');
    assert text[start..start] == [];
    CloseFromMeaning(text, start, start, 0);
  }

  /** A first balanced slice that opens with '{' ends with '}'. */
  lemma BalancedSliceCloses(text: string, start: nat, e: nat)
    requires start < |text| && text[start] == '{'
    requires FirstBalanced(text, start, e)
    ensures text[e - 1] == '}'
  {
    DepthStep(text, start, e - 1);
    assert text[start..start] == [];
  }

  /** extract_json_object up to the json.loads of the candidate slice. */
  method ExtractJsonObject(text: string) returns (r: Result<string>)
    ensures ScanJsonObject(text) == NoOpenBrace ==>
      r == Err(ValueError("JSON start '{' not found in output"))
    ensures ScanJsonObject(text) == Unbalanced ==> r == Err(ValueError("Balanced JSON not found"))
    ensures ScanJsonObject(text).Candidate? ==> r == Ok(ScanJsonObject(text).slice)
  {
    var start := Find(text, '{');
    if start == -1 {
      return Err(ValueError("JSON start '{' not found in output"));
    }
    var depth := 0;
    for i := start to |text|
      invariant CloseFrom(text, start, start, 0) == CloseFrom(text, start, i, depth)
    {
      var ch := text[i];
      if ch == '{' {
        depth := depth + 1;
      } else if ch == '}' {
        depth := depth - 1;
        if depth == 0 {
          return Ok(text[start..i + 1]);
        }
      }
    }
    return Err(ValueError("Balanced JSON not found"));
  }
}
