/** Title keys and fuzzy title similarity (`normalize_title`, `extract_keywords`,
    `is_similar_title` and its nested `extract_product_names` in aitest.py). */
module Titles {
  import opened Text

  // ---------------------------------------------------------------------------
  // normalize_title

  /** `re.sub(r'\s+', '', s)` */
  function DropSpaces(s: string): (r: string)
    ensures |r| <= |s|
    ensures forall i :: 0 <= i < |r| ==> !IsSpace(r[i])
    ensures IsLowerCase(s) ==> IsLowerCase(r)
    decreases |s|
  {
    if s == [] then []
    else (if IsSpace(s[0]) then [] else [s[0]]) + DropSpaces(s[1..])
  }

  /** A character that survives `re.sub(r'[^\w가-힣]', '', s)`. */
  predicate IsTitleKeyChar(c: char) { IsWordChar(c) || IsHangulSyllable(c) }

  /** `re.sub(r'[^\w가-힣]', '', s)` */
  function KeepTitleKeyChars(s: string): (r: string)
    ensures |r| <= |s|
    ensures forall i :: 0 <= i < |r| ==> IsTitleKeyChar(r[i])
    ensures IsLowerCase(s) ==> IsLowerCase(r)
    decreases |s|
  {
    if s == [] then []
    else (if IsTitleKeyChar(s[0]) then [s[0]] else []) + KeepTitleKeyChars(s[1..])
  }

  /** The title key used for exact-duplicate detection: empty for an empty title, and
      otherwise made of lower-case word characters only, with no whitespace left. */
  function NormalizeTitle(title: string): (key: string)
    ensures title == "" ==> key == ""
    ensures |key| <= |title|
    ensures forall i :: 0 <= i < |key| ==> IsWordChar(key[i]) && !IsSpace(key[i]) && ToLower(key[i]) == key[i]
  {
    if title == "" then ""
    else
      var lowered := Lower(title);
      LowerIsLowerCase(title);
      var key := KeepTitleKeyChars(DropSpaces(lowered));
      forall i | 0 <= i < |key|
        ensures IsWordChar(key[i]) && !IsSpace(key[i])
      {
        if IsHangulSyllable(key[i]) { HangulIsWord(key[i]); }
      }
      key
  }

  lemma {:induction false} DropSpacesKeeps(s: string)
    requires forall i :: 0 <= i < |s| ==> !IsSpace(s[i])
    ensures DropSpaces(s) == s
    decreases |s|
  {
    if s != [] {
      DropSpacesKeeps(s[1..]);
    }
  }

  lemma {:induction false} KeepTitleKeyCharsKeeps(s: string)
    requires forall i :: 0 <= i < |s| ==> IsWordChar(s[i])
    ensures KeepTitleKeyChars(s) == s
    decreases |s|
  {
    if s != [] {
      KeepTitleKeyCharsKeeps(s[1..]);
    }
  }

  /** A title key is its own key. */
  lemma NormalizeTitleIdempotent(title: string)
    ensures NormalizeTitle(NormalizeTitle(title)) == NormalizeTitle(title)
  {
    var key := NormalizeTitle(title);
    if key != "" {
      LowerOfLowerCase(key);
      DropSpacesKeeps(key);
      KeepTitleKeyCharsKeeps(key);
    }
  }

  lemma {:induction false} DropSpacesConcat(a: string, b: string)
    ensures DropSpaces(a + b) == DropSpaces(a) + DropSpaces(b)
    decreases |a|
  {
    if a != [] {
      assert (a + b)[1..] == a[1..] + b;
      DropSpacesConcat(a[1..], b);
    } else {
      assert a + b == b;
    }
  }

  lemma {:induction false} KeepTitleKeyCharsConcat(a: string, b: string)
    ensures KeepTitleKeyChars(a + b) == KeepTitleKeyChars(a) + KeepTitleKeyChars(b)
    decreases |a|
  {
    if a != [] {
      assert (a + b)[1..] == a[1..] + b;
      KeepTitleKeyCharsConcat(a[1..], b);
    } else {
      assert a + b == b;
    }
  }

  /** The key of a concatenation is the concatenation of the keys: the key is built
      character by character, with nothing depending on neighbouring characters. */
  lemma NormalizeTitleConcat(a: string, b: string)
    ensures NormalizeTitle(a + b) == NormalizeTitle(a) + NormalizeTitle(b)
  {
    if a == "" {
      assert a + b == b;
    } else if b == "" {
      assert a + b == a;
    } else {
      assert Lower(a + b) == Lower(a) + Lower(b);
      DropSpacesConcat(Lower(a), Lower(b));
      KeepTitleKeyCharsConcat(DropSpaces(Lower(a)), DropSpaces(Lower(b)));
    }
  }

  /** A single character survives in the key, lower-cased, exactly when its lower-case
      form is a word character or a Hangul syllable; anything else is dropped. */
  lemma NormalizeTitleChar(c: char)
    ensures NormalizeTitle([c]) == if IsTitleKeyChar(ToLower(c)) then [ToLower(c)] else []
  {
    var l := Lower([c]);
    assert l == [ToLower(c)];
    assert DropSpaces(l[1..]) == [] by { assert l[1..] == []; }
    if IsHangulSyllable(ToLower(c)) {
      HangulIsWord(ToLower(c));
    }
    var d := DropSpaces(l);
    assert d == (if IsSpace(ToLower(c)) then [] else [ToLower(c)]);
    if d != [] {
      assert d[1..] == [];
    }
  }

  /** Titles that differ only in ASCII letter case share a key. */
  lemma NormalizeTitleIgnoresCase(title: string)
    ensures NormalizeTitle(Lower(title)) == NormalizeTitle(title)
  {
    LowerIsLowerCase(title);
  }

  // ---------------------------------------------------------------------------
  // extract_keywords: maximal runs of one character class

  datatype CharClass = HangulClass | LatinClass | DigitClass

  predicate InClass(cls: CharClass, c: char)
  {
    match cls
    case HangulClass => IsHangulSyllable(c)
    case LatinClass => IsAsciiLetter(c)
    case DigitClass => IsDigit(c)
  }

  /** The first position at or after `i` that ends the run of `cls` characters starting at `i`. */
  function RunEnd(s: string, cls: CharClass, i: nat): (e: nat)
    requires i < |s| && InClass(cls, s[i])
    ensures i < e <= |s|
    ensures forall k :: i <= k < e ==> InClass(cls, s[k])
    ensures e == |s| || !InClass(cls, s[e])
    decreases |s| - i
  {
    if i + 1 < |s| && InClass(cls, s[i + 1]) then RunEnd(s, cls, i + 1) else i + 1
  }

  /** `s[i..j]` is a run of `cls` characters that cannot be extended either way. */
  predicate IsMaximalRun(s: string, cls: CharClass, i: int, j: int)
  {
    0 <= i < j <= |s|
    && (forall k :: i <= k < j ==> InClass(cls, s[k]))
    && (i == 0 || !InClass(cls, s[i - 1]))
    && (j == |s| || !InClass(cls, s[j]))
  }

  /** `re.findall` of the one-class pattern `[cls]{minLen,}` over `s[p..]`. */
  function Runs(s: string, cls: CharClass, minLen: nat, p: nat): set<string>
    decreases |s| - p
  {
    if p >= |s| then {}
    else if InClass(cls, s[p]) then
      var e := RunEnd(s, cls, p);
      (if e - p >= minLen then {s[p..e]} else {}) + Runs(s, cls, minLen, e)
    else Runs(s, cls, minLen, p + 1)
  }

  /** Runs found by scanning equal the maximal runs of length at least `minLen`
      (scanning must not start inside a run). */
  lemma {:induction false} RunsIff(s: string, cls: CharClass, minLen: nat, p: nat, w: string)
    requires p <= |s|
    requires p == 0 || p == |s| || !InClass(cls, s[p - 1]) || !InClass(cls, s[p])
    ensures w in Runs(s, cls, minLen, p)
        <==> exists i, j :: p <= i && IsMaximalRun(s, cls, i, j) && j - i >= minLen && w == s[i..j]
    decreases |s| - p
  {
    if p == |s| {
    } else if InClass(cls, s[p]) {
      var e := RunEnd(s, cls, p);
      assert IsMaximalRun(s, cls, p, e);
      RunsIff(s, cls, minLen, e, w);
    } else {
      RunsIff(s, cls, minLen, p + 1, w);
    }
  }

  /** `extract_keywords`: Hangul runs, ASCII-letter runs of length two or more
      (lower-cased) and digit runs. */
  function Keywords(title: string): set<string>
  {
    if title == "" then {}
    else
      Runs(title, HangulClass, 1, 0)
      + (set w | w in Runs(title, LatinClass, 2, 0) :: Lower(w))
      + Runs(title, DigitClass, 1, 0)
  }

  /** Every keyword comes from a maximal run of the title, and every such run is a keyword. */
  lemma KeywordsIff(title: string, w: string)
    ensures w in Keywords(title) <==>
      (exists i, j :: IsMaximalRun(title, HangulClass, i, j) && w == title[i..j])
      || (exists i, j :: IsMaximalRun(title, LatinClass, i, j) && j - i >= 2 && w == Lower(title[i..j]))
      || (exists i, j :: IsMaximalRun(title, DigitClass, i, j) && w == title[i..j])
  {
    RunsIff(title, HangulClass, 1, 0, w);
    RunsIff(title, DigitClass, 1, 0, w);
    if w in Keywords(title) && title != "" {
      if w in (set v | v in Runs(title, LatinClass, 2, 0) :: Lower(v)) {
        var v :| v in Runs(title, LatinClass, 2, 0) && w == Lower(v);
        RunsIff(title, LatinClass, 2, 0, v);
      }
    }
    if exists i, j :: IsMaximalRun(title, LatinClass, i, j) && j - i >= 2 && w == Lower(title[i..j]) {
      var i, j :| IsMaximalRun(title, LatinClass, i, j) && j - i >= 2 && w == Lower(title[i..j]);
      RunsIff(title, LatinClass, 2, 0, title[i..j]);
    }
  }

  // ---------------------------------------------------------------------------
  // extract_product_names

  const KnownProducts: seq<string> := [
    "tp-link", "tplink", "airoha", "adobe", "fortigate", "windows", "office",
    "microsoft", "cisco", "vmware", "trend micro", "hpe", "mongodb", "n8n",
    "telegram", "facebook", "instagram", "linkedin", "gemini", "google", "slack", "zoom"
  ]

  /** Generic words that never count as a product or company name. */
  const CommonWords: set<string> := {"제품", "보안", "업데이트", "권고", "취약점", "패치", "발견", "수정", "발표", "공개"}

  /** A product name with every space and hyphen removed, lower-cased. */
  function Squash(w: string): (r: string)
    ensures ' ' !in r && '-' !in r
    ensures IsLowerCase(r)
    decreases |w|
  {
    if w == [] then []
    else (if w[0] == ' ' || w[0] == '-' then [] else [ToLower(w[0])]) + Squash(w[1..])
  }

  /** `[\s-]` */
  predicate IsSeparator(c: char) { IsSpace(c) || c == '-' }

  /** The product's pattern matches a prefix of `s`: `re.escape(product)` with each space
      and hyphen turned into an optional `[\s-]`, every other character matched literally. */
  predicate MatchesPrefix(product: string, s: string)
    decreases |product| + |s|
  {
    if product == [] then true
    else if product[0] == ' ' || product[0] == '-' then
      (|s| > 0 && IsSeparator(s[0]) && MatchesPrefix(product[1..], s[1..])) || MatchesPrefix(product[1..], s)
    else |s| > 0 && s[0] == product[0] && MatchesPrefix(product[1..], s[1..])
  }

  /** `re.search(pattern, s)` succeeds: the pattern matches at some position of `s`. */
  predicate PatternFound(product: string, s: string)
  {
    exists i :: 0 <= i <= |s| && MatchesPrefix(product, s[i..])
  }

  /** Every character of the product other than a space or hyphen occurs in a text that the
      pattern matches at its start. */
  lemma {:induction false} MatchesPrefixChars(product: string, s: string, k: nat)
    requires MatchesPrefix(product, s) && k < |product| && product[k] != ' ' && product[k] != '-'
    ensures product[k] in s
    decreases |product|
  {
    if product[0] == ' ' || product[0] == '-' {
      if |s| > 0 && IsSeparator(s[0]) && MatchesPrefix(product[1..], s[1..]) {
        MatchesPrefixChars(product[1..], s[1..], k - 1);
      } else {
        MatchesPrefixChars(product[1..], s, k - 1);
      }
    } else if k > 0 {
      MatchesPrefixChars(product[1..], s[1..], k - 1);
    }
  }

  /** A known product can only be found in a title that contains each of its letters. */
  lemma ProductNeedsChar(product: string, s: string, k: nat)
    requires PatternFound(product, s) && k < |product| && product[k] != ' ' && product[k] != '-'
    ensures product[k] in s
  {
    var i :| 0 <= i <= |s| && MatchesPrefix(product, s[i..]);
    MatchesPrefixChars(product, s[i..], k);
    var j :| 0 <= j < |s[i..]| && s[i..][j] == product[k];
    assert s[i + j] == product[k];
  }

  /** The known products whose pattern occurs in the lower-cased title, squashed. */
  function KnownProductHits(titleLower: string): set<string>
  {
    set k | 0 <= k < |KnownProducts| && PatternFound(KnownProducts[k], titleLower) :: Squash(KnownProducts[k])
  }

  /** `[- ]` between capitalised words. */
  predicate IsCapSeparator(c: char) { c == ' ' || c == '-' }

  /** `[A-Z][a-z]` begins at `p`. */
  predicate CapWordAt(s: string, p: nat)
  {
    p + 1 < |s| && IsAsciiUpper(s[p]) && IsAsciiLower(s[p + 1])
  }

  /** The end of the lower-case letters that start at `i`. */
  function LowerRunEnd(s: string, i: nat): (e: nat)
    requires i <= |s|
    ensures i <= e <= |s|
    ensures forall k :: i <= k < e ==> IsAsciiLower(s[k])
    ensures e == |s| || !IsAsciiLower(s[e])
    decreases |s| - i
  {
    if i < |s| && IsAsciiLower(s[i]) then LowerRunEnd(s, i + 1) else i
  }

  /** Where `\b[A-Z][a-z]+(?:[- ][A-Z][a-z]+)*\b`, tried at `start`, ends: the greedy chain of
      capitalised words is followed to its last word (now at `p`); if the character after the
      chain is a word character the closing `\b` fails, and the match falls back to the chain
      without its last word (`prev`), or fails if there is none. */
  function CapChainEnd(s: string, start: nat, p: nat, prev: Option<nat>): (r: Option<nat>)
    requires start <= p && CapWordAt(s, p)
    requires prev.Some? ==> start < prev.value < p
    ensures r.Some? ==> start < r.value <= |s|
    decreases |s| - p
  {
    var e := LowerRunEnd(s, p + 1);
    if e + 1 < |s| && IsCapSeparator(s[e]) && CapWordAt(s, e + 1) then CapChainEnd(s, start, e + 1, Some(e))
    else if e == |s| || !IsWordChar(s[e]) then Some(e)
    else prev
  }

  /** `re.findall(r'\b([A-Z][a-z]+(?:[- ][A-Z][a-z]+)*)\b', s[p..])` as a set. */
  function CapitalizedWords(s: string, p: nat): set<string>
    decreases |s| - p
  {
    if p >= |s| then {}
    else if (p == 0 || !IsWordChar(s[p - 1])) && CapWordAt(s, p) then
      match CapChainEnd(s, p, p, None)
      case Some(e) => {s[p..e]} + CapitalizedWords(s, e)
      case None => CapitalizedWords(s, p + 1)
    else CapitalizedWords(s, p + 1)
  }

  /** `re.findall(r'\b([가-힣]{2,})\b', s[p..])` as a set: Hangul runs of two or more syllables
      with no word character on either side. */
  function HangulWords(s: string, p: nat): set<string>
    decreases |s| - p
  {
    if p >= |s| then {}
    else if IsHangulSyllable(s[p]) then
      var e := RunEnd(s, HangulClass, p);
      (if e - p >= 2 && (p == 0 || !IsWordChar(s[p - 1])) && (e == |s| || !IsWordChar(s[e]))
       then {s[p..e]} else {})
      + HangulWords(s, e)
    else HangulWords(s, p + 1)
  }

  /** `s[i..j]` is a Hangul word `\b([가-힣]{2,})\b` can find: a maximal run of two or more
      syllables with no word character on either side. */
  predicate IsBoundedHangulWord(s: string, i: int, j: int)
  {
    IsMaximalRun(s, HangulClass, i, j) && j - i >= 2
    && (i == 0 || !IsWordChar(s[i - 1])) && (j == |s| || !IsWordChar(s[j]))
  }

  /** The Hangul words found by scanning are exactly the bounded Hangul words. */
  lemma {:induction false} HangulWordsIff(s: string, p: nat, w: string)
    requires p <= |s|
    requires p == 0 || p == |s| || !IsHangulSyllable(s[p - 1]) || !IsHangulSyllable(s[p])
    ensures w in HangulWords(s, p) <==> exists i, j :: p <= i && IsBoundedHangulWord(s, i, j) && w == s[i..j]
    decreases |s| - p
  {
    if p == |s| {
    } else if IsHangulSyllable(s[p]) {
      var e := RunEnd(s, HangulClass, p);
      assert IsMaximalRun(s, HangulClass, p, e);
      HangulWordsIff(s, e, w);
    } else {
      HangulWordsIff(s, p + 1, w);
    }
  }

  /** Every capitalised chain found starts at a word boundary, at a capitalised word, and
      runs to where the chain match at that position ends. */
  lemma {:induction false} CapitalizedWordsStart(s: string, p: nat, w: string)
    requires w in CapitalizedWords(s, p)
    ensures exists i: nat ::
              p <= i && CapWordAt(s, i) && (i == 0 || !IsWordChar(s[i - 1]))
              && 0 < |w| <= |s| - i && w == s[i..i + |w|]
    decreases |s| - p
  {
    if p < |s| {
      if (p == 0 || !IsWordChar(s[p - 1])) && CapWordAt(s, p) {
        match CapChainEnd(s, p, p, None)
        case Some(e) =>
          if w != s[p..e] {
            CapitalizedWordsStart(s, e, w);
          }
        case None =>
          CapitalizedWordsStart(s, p + 1, w);
      } else {
        CapitalizedWordsStart(s, p + 1, w);
      }
    }
  }

  /** `x` is non-empty and starts with one of `cs`. */
  predicate HeadIn(x: string, cs: set<char>) { |x| > 0 && x[0] in cs }

  /** When every capitalised word of the title starts with a letter whose lower-case form is
      in `cs`, so does every capitalised name. */
  lemma CapitalizedNamesHeads(title: string, cs: set<char>)
    requires forall i: nat :: CapWordAt(title, i) ==> ToLower(title[i]) in cs
    ensures forall x :: x in CapitalizedNames(title) ==> HeadIn(x, cs)
  {
    forall x | x in CapitalizedNames(title)
      ensures HeadIn(x, cs)
    {
      var w :| w in CapitalizedWords(title, 0) && |Squash(w)| >= 2 && Squash(w) !in CommonWords && x == Squash(w);
      CapitalizedWordsStart(title, 0, w);
      var i: nat :| CapWordAt(title, i) && 0 < |w| <= |title| - i && w == title[i..i + |w|];
      SquashHead(w);
    }
  }


  /** The squashed name starts with the lower-cased first character of the name. */
  lemma SquashHead(w: string)
    requires |w| > 0 && w[0] != ' ' && w[0] != '-'
    ensures |Squash(w)| > 0 && Squash(w)[0] == ToLower(w[0])
  {
  }

  /** A known product written without separators is found at the start of a text
      that begins with it. */
  lemma {:induction false} PlainProductMatches(product: string, s: string)
    requires ' ' !in product && '-' !in product && StartsWith(s, product)
    ensures MatchesPrefix(product, s)
    decreases |product|
  {
    if product != [] {
      assert s[1..][..|product| - 1] == product[1..];
      PlainProductMatches(product[1..], s[1..]);
    }
  }

  /** A known product whose pattern matches at the start of the text is a hit, squashed. */
  lemma KnownProductAtStart(titleLower: string, k: nat)
    requires k < |KnownProducts| && MatchesPrefix(KnownProducts[k], titleLower)
    ensures Squash(KnownProducts[k]) in KnownProductHits(titleLower)
  {
    assert titleLower[0..] == titleLower;
    assert PatternFound(KnownProducts[k], titleLower);
  }

  /** The known product at index `i` is allowed, or has a letter, at position `missing[i]`,
      that `s` lacks. */
  predicate ExcludedOrAllowed(s: string, allowed: set<string>, missing: seq<nat>, i: nat)
    requires |missing| == |KnownProducts| && i < |KnownProducts|
  {
    KnownProducts[i] in allowed
    || (missing[i] < |KnownProducts[i]| && KnownProducts[i][missing[i]] != ' '
        && KnownProducts[i][missing[i]] != '-' && KnownProducts[i][missing[i]] !in s)
  }

  /** Only the allowed known products can be found in a text that lacks a letter of each
      of the others. */
  lemma KnownHitsWithin(s: string, allowed: set<string>, missing: seq<nat>)
    requires |missing| == |KnownProducts|
    requires forall i: nat :: i < |KnownProducts| ==> ExcludedOrAllowed(s, allowed, missing, i)
    ensures KnownProductHits(s) <= set p | p in allowed :: Squash(p)
  {
    forall q | q in KnownProductHits(s)
      ensures q in set p | p in allowed :: Squash(p)
    {
      var i :| 0 <= i < |KnownProducts| && PatternFound(KnownProducts[i], s)
               && q == Squash(KnownProducts[i]);
      var p := KnownProducts[i];
      assert ExcludedOrAllowed(s, allowed, missing, i);
      if p !in allowed {
        ProductNeedsChar(p, s, missing[i]);
      }
    }
  }

  /** `extract_product_names`: known products, capitalised word chains and Hangul words,
      minus the generic words. */
  function ProductNames(title: string): set<string>
  {
    KnownProductHits(Lower(title)) + CapitalizedNames(title) + (HangulWords(title, 0) - CommonWords)
  }

  /** The capitalised word chains of the title, squashed, keeping those of two or more
      characters that are not generic words. */
  function CapitalizedNames(title: string): set<string>
  {
    set w | w in CapitalizedWords(title, 0) && |Squash(w)| >= 2 && Squash(w) !in CommonWords :: Squash(w)
  }

  // ---------------------------------------------------------------------------
  // is_similar_title

  /** A similarity threshold `num / den`, compared by cross-multiplication. */
  datatype Ratio = Ratio(num: nat, den: nat)
  type Threshold = r: Ratio | r.den > 0 witness Ratio(2, 5)

  /** The default threshold, 0.4, used against history and inside a batch. */
  const BatchThreshold: Threshold := Ratio(2, 5)

  /** The looser threshold, 0.3, used against what was already sent in this run. */
  const SentThreshold: Threshold := Ratio(3, 10)

  /** `part / whole >= t` */
  predicate RatioAtLeast(part: nat, whole: nat, t: Threshold)
  {
    part * t.den >= t.num * whole
  }

  /** `abs(a - b) / max(a, b) < 0.3` */
  predicate LengthsClose(a: nat, b: nat)
  {
    10 * (if a >= b then a - b else b - a) < 3 * (if a >= b then a else b)
  }

  /** `is_similar_title(title1, title2, threshold)`: empty titles are never similar and
      identical ones always are; the rest is decided by the later checks. */
  function IsSimilarTitle(title1: string, title2: string, t: Threshold): (r: bool)
    ensures title1 == "" || title2 == "" ==> !r
    ensures title1 == title2 && title1 != "" ==> r
  {
    SimilarFrom(title1, title2, t, 0)
  }

  /** The checks of `is_similar_title` from check `stage` on, in the order the script makes
      them: 0, an empty or an identical title; 1, a title without keywords, where the lengths
      of the title keys decide; 2, titles naming different entities; 3, the keyword overlap
      ratio. The title lengths in the measure keep a use of the test from unrolling every
      check at once. */
  predicate SimilarFrom(title1: string, title2: string, t: Threshold, stage: nat)
    decreases |title1| + |title2| + 3 - stage
  {
    if stage == 0 then
      if title1 == "" || title2 == "" then false
      else if title1 == title2 then true
      else SimilarFrom(title1, title2, t, 1)
    else if stage == 1 then
      var keywords1 := Keywords(title1);
      var keywords2 := Keywords(title2);
      if keywords1 == {} || keywords2 == {} then
        var norm1 := NormalizeTitle(title1);
        var norm2 := NormalizeTitle(title2);
        if norm1 == "" || norm2 == "" then false
        else LengthsClose(|norm1|, |norm2|)
      else SimilarFrom(title1, title2, t, 2)
    else if stage == 2 then
      var products1 := ProductNames(title1);
      var products2 := ProductNames(title2);
      if products1 != {} && products2 != {} && products1 * products2 == {} then false
      else SimilarFrom(title1, title2, t, 3)
    else
      var keywords1 := Keywords(title1);
      var keywords2 := Keywords(title2);
      var union := keywords1 + keywords2;
      if union == {} then false
      else RatioAtLeast(|keywords1 * keywords2|, |union|, t)
  }

  /** Two different titles that both have keywords and both name entities, but no common
      one, are never similar, whatever the keyword overlap. */
  lemma EntityOverride(title1: string, title2: string, t: Threshold)
    requires Keywords(title1) != {} && Keywords(title2) != {}
    requires ProductNames(title1) != {} && ProductNames(title2) != {}
    requires ProductNames(title1) * ProductNames(title2) == {}
    ensures !IsSimilarTitle(title1, title2, t)
  {
    assert title1 != title2;
    assert !SimilarFrom(title1, title2, t, 2);
    assert !SimilarFrom(title1, title2, t, 1);
  }

  /** The overlap ratio and the entity check look at both titles alike. */
  lemma LaterChecksSymmetric(title1: string, title2: string, t: Threshold)
    ensures SimilarFrom(title1, title2, t, 2) == SimilarFrom(title2, title1, t, 2)
  {
    var k1, k2 := Keywords(title1), Keywords(title2);
    assert k1 * k2 == k2 * k1;
    assert k1 + k2 == k2 + k1;
    assert SimilarFrom(title1, title2, t, 3) == SimilarFrom(title2, title1, t, 3);
    var p1, p2 := ProductNames(title1), ProductNames(title2);
    assert p1 * p2 == p2 * p1;
  }

  /** Similarity does not depend on the order of the two titles. */
  lemma SimilarSymmetric(title1: string, title2: string, t: Threshold)
    ensures IsSimilarTitle(title1, title2, t) == IsSimilarTitle(title2, title1, t)
  {
    LaterChecksSymmetric(title1, title2, t);
    assert SimilarFrom(title1, title2, t, 1) == SimilarFrom(title2, title1, t, 1);
  }

  /** A ratio at least `t` is at least every lower threshold. */
  lemma RatioAtLowerThreshold(part: nat, whole: nat, t: Threshold, lower: Threshold)
    requires lower.num * t.den <= t.num * lower.den
    requires RatioAtLeast(part, whole, t)
    ensures RatioAtLeast(part, whole, lower)
  {
    calc {
      part * lower.den * t.den;
      ==
      (part * t.den) * lower.den;
      >= { MulMono(part * t.den, t.num * whole, lower.den); }
      (t.num * whole) * lower.den;
      ==
      (t.num * lower.den) * whole;
      >= { MulMono(t.num * lower.den, lower.num * t.den, whole); }
      (lower.num * t.den) * whole;
      ==
      (lower.num * whole) * t.den;
    }
    MulCancel(part * lower.den, lower.num * whole, t.den);
  }

  lemma MulMono(a: int, b: int, c: nat)
    requires a >= b
    ensures a * c >= b * c
  {
  }

  lemma MulCancel(a: int, b: int, c: int)
    requires c > 0 && a * c >= b * c
    ensures a >= b
  {
  }

  /** Similar at a threshold means similar at every lower threshold: the threshold only
      enters the final keyword comparison. */
  lemma SimilarAtLowerThreshold(title1: string, title2: string, t: Threshold, lower: Threshold)
    requires lower.num * t.den <= t.num * lower.den
    requires IsSimilarTitle(title1, title2, t)
    ensures IsSimilarTitle(title1, title2, lower)
  {
    if title1 != "" && title2 != "" && title1 != title2 {
      var k1, k2 := Keywords(title1), Keywords(title2);
      if k1 != {} && k2 != {} {
        assert SimilarFrom(title1, title2, t, 1) == SimilarFrom(title1, title2, t, 2);
        assert SimilarFrom(title1, title2, lower, 1) == SimilarFrom(title1, title2, lower, 2);
        var p1, p2 := ProductNames(title1), ProductNames(title2);
        if !(p1 != {} && p2 != {} && p1 * p2 == {}) {
          assert SimilarFrom(title1, title2, t, 3);
          RatioAtLowerThreshold(|k1 * k2|, |k1 + k2|, t, lower);
          assert SimilarFrom(title1, title2, lower, 3);
        }
      } else {
        assert SimilarFrom(title1, title2, t, 1) == SimilarFrom(title1, title2, lower, 1);
      }
    }
  }

  /** What is similar inside a batch is also similar to what was already sent. */
  lemma BatchSimilarImpliesSentSimilar(title1: string, title2: string)
    requires IsSimilarTitle(title1, title2, BatchThreshold)
    ensures IsSimilarTitle(title1, title2, SentThreshold)
  {
    SimilarAtLowerThreshold(title1, title2, BatchThreshold, SentThreshold);
  }
}
