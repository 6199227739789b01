/** A worked instance of the entity override in `is_similar_title`: two advisories that share
    every generic keyword but name different vendors are never similar.  The entity sets are
    constrained only through their first characters: every entity of the first title starts
    with `t`, `l` or `라`, and every entity of the second with `a` or `r` (the second set is
    {adobe, adobereader}, since "Adobe Reader" is one capitalised chain). */
module TitleExamples {
  import opened Text
  import opened Titles

  const TpLinkTitle: string := "TP-Link 라우터 보안 업데이트 권고"
  const TpLinkLower: string := "tp-link 라우터 보안 업데이트 권고"
  /** For each known product, a position of a letter the lower-cased title lacks. */
  const TpLinkMissing: seq<nat> := [0, 0, 0, 0, 0, 0, 0, 0, 0, 0, 1, 0, 0, 1, 1, 0, 2, 4, 0, 0, 0, 0]

  /** The Hangul runs of the TP-Link title start at 8, 12, 15 and 20. */
  lemma TpLinkRunStartsLow(k: int)
    requires 0 <= k < 12 && IsHangulSyllable(TpLinkTitle[k]) && (k == 0 || !IsHangulSyllable(TpLinkTitle[k - 1]))
    ensures k == 8
  {}

  lemma TpLinkRunStartsHigh(k: int)
    requires 12 <= k < |TpLinkTitle| && IsHangulSyllable(TpLinkTitle[k]) && !IsHangulSyllable(TpLinkTitle[k - 1])
    ensures k == 12 || k == 15 || k == 20
  {}

  lemma TpLinkHangulRun(s: string, i: int, j: int)
    requires s == TpLinkTitle && IsMaximalRun(s, HangulClass, i, j)
    ensures s[i..j] in {"라우터", "보안", "업데이트", "권고"}
  {
    assert IsHangulSyllable(TpLinkTitle[i]);
    if i < 12 { TpLinkRunStartsLow(i); } else { TpLinkRunStartsHigh(i); }
    if i == 8 {
      assert !IsHangulSyllable(TpLinkTitle[11]) && TpLinkTitle[8..11] == "라우터";
    } else if i == 12 {
      assert !IsHangulSyllable(TpLinkTitle[14]) && TpLinkTitle[12..14] == "보안";
    } else if i == 15 {
      assert !IsHangulSyllable(TpLinkTitle[19]) && TpLinkTitle[15..19] == "업데이트";
    } else {
      assert TpLinkTitle[20..22] == "권고";
    }
  }

  lemma TpLinkExcludedLow(i: nat)
    requires i < 11
    ensures ExcludedOrAllowed(TpLinkLower, {"tp-link", "tplink"}, TpLinkMissing, i)
  {}

  lemma TpLinkExcludedHigh(i: nat)
    requires 11 <= i < 22
    ensures ExcludedOrAllowed(TpLinkLower, {"tp-link", "tplink"}, TpLinkMissing, i)
  {}

  lemma TpLinkLowered()
    ensures Lower(TpLinkTitle) == TpLinkLower
  {}

  lemma TpLinkExcluded()
    ensures forall i: nat :: i < |KnownProducts| ==>
              ExcludedOrAllowed(TpLinkLower, {"tp-link", "tplink"}, TpLinkMissing, i)
  {
    forall i: nat | i < |KnownProducts|
      ensures ExcludedOrAllowed(TpLinkLower, {"tp-link", "tplink"}, TpLinkMissing, i)
    {
      if i < 11 { TpLinkExcludedLow(i); } else { TpLinkExcludedHigh(i); }
    }
  }

  lemma TpLinkKnownHits(s: string)
    requires s == Lower(TpLinkTitle)
    ensures forall x :: x in KnownProductHits(s) ==> HeadIn(x, {'t'})
  {
    TpLinkLowered();
    TpLinkExcluded();
    KnownHitsWithin(TpLinkLower, {"tp-link", "tplink"}, TpLinkMissing);
    SquashHead("tp-link");
    SquashHead("tplink");
  }

  lemma TpLinkCapWordStarts()
    ensures forall k: nat :: CapWordAt(TpLinkTitle, k) ==> k == 3
  {}

  lemma TpLinkRouter(s: string)
    requires s == TpLinkTitle
    ensures "라우터" in HangulWords(s, 0)
  {
    assert IsBoundedHangulWord(s, 8, 11) && s[8..11] == "라우터";
    HangulWordsIff(s, 0, "라우터");
  }

  lemma TpLinkHangulWord(s: string, x: string)
    requires s == TpLinkTitle && x in HangulWords(s, 0) - CommonWords
    ensures x == "라우터"
  {
    HangulWordsIff(s, 0, x);
    var i, j :| 0 <= i && IsBoundedHangulWord(s, i, j) && x == s[i..j];
    TpLinkHangulRun(s, i, j);
  }

  lemma TpLinkCapitalizedNames(s: string)
    requires s == TpLinkTitle
    ensures forall x :: x in CapitalizedNames(s) ==> HeadIn(x, {'l'})
  {
    TpLinkCapWordStarts();
    CapitalizedNamesHeads(s, {'l'});
  }

  lemma TpLinkHangulNames(s: string)
    requires s == TpLinkTitle
    ensures HangulWords(s, 0) - CommonWords == {"라우터"}
  {
    TpLinkRouter(s);
    forall x | x in HangulWords(s, 0) - CommonWords
      ensures x == "라우터"
    {
      TpLinkHangulWord(s, x);
    }
  }

  /** The entities of the TP-Link title: non-empty, and each starts with `t`, `l` or `라`. */
  lemma TpLinkEntities(s: string)
    requires s == TpLinkTitle
    ensures ProductNames(s) != {}
    ensures forall x :: x in ProductNames(s) ==> HeadIn(x, {'t', 'l', '라'})
  {
    TpLinkKnownHits(Lower(s));
    TpLinkCapitalizedNames(s);
    TpLinkHangulNames(s);
    assert HeadIn("라우터", {'t', 'l', '라'});
    forall x | x in KnownProductHits(Lower(s))
      ensures HeadIn(x, {'t', 'l', '라'})
    {
      assert HeadIn(x, {'t'});
    }
    EntitiesFromParts(s, {'t', 'l', '라'});
  }

  const AdobeTitle: string := "Adobe Reader 보안 업데이트 권고"
  const AdobeLower: string := "adobe reader 보안 업데이트 권고"
  /** For each known product, a position of a letter the lower-cased title lacks. */
  const AdobeMissing: seq<nat> := [0, 0, 1, 0, 0, 0, 1, 0, 0, 0, 0, 0, 0, 0, 0, 0, 0, 0, 0, 0, 0, 0]

  lemma AdobeLowered()
    ensures Lower(AdobeTitle) == AdobeLower
  {}

  lemma AdobeExcludedLow(i: nat)
    requires i < 11
    ensures ExcludedOrAllowed(AdobeLower, {"adobe"}, AdobeMissing, i)
  {}

  lemma AdobeExcludedHigh(i: nat)
    requires 11 <= i < 22
    ensures ExcludedOrAllowed(AdobeLower, {"adobe"}, AdobeMissing, i)
  {}

  /** A lower-cased title that starts with "adobe" has the Adobe hit. */
  lemma AdobeFound(s: string)
    requires StartsWith(s, "adobe")
    ensures Squash("adobe") in KnownProductHits(s)
  {
    PlainProductMatches("adobe", s);
    assert KnownProducts[3] == "adobe";
    KnownProductAtStart(s, 3);
  }

  lemma AdobeKnownHits(s: string)
    requires s == Lower(AdobeTitle)
    ensures Squash("adobe") in KnownProductHits(s)
    ensures forall x :: x in KnownProductHits(s) ==> HeadIn(x, {'a'})
  {
    AdobeLowered();
    forall i: nat | i < |KnownProducts|
      ensures ExcludedOrAllowed(AdobeLower, {"adobe"}, AdobeMissing, i)
    {
      if i < 11 { AdobeExcludedLow(i); } else { AdobeExcludedHigh(i); }
    }
    KnownHitsWithin(AdobeLower, {"adobe"}, AdobeMissing);
    SquashHead("adobe");
    assert AdobeLower[..5] == "adobe";
    AdobeFound(s);
  }

  lemma AdobeCapWordStarts()
    ensures forall k: nat :: CapWordAt(AdobeTitle, k) ==> k == 0 || k == 6
  {}

  lemma AdobeCapitalizedNames(s: string)
    requires s == AdobeTitle
    ensures forall x :: x in CapitalizedNames(s) ==> HeadIn(x, {'a', 'r'})
  {
    AdobeCapWordStarts();
    CapitalizedNamesHeads(s, {'a', 'r'});
  }

  /** The Hangul runs of the Adobe title start at 13, 16 and 21. */
  lemma AdobeLatinPrefix()
    ensures forall k :: 0 <= k < 13 ==> !IsHangulSyllable(AdobeTitle[k])
  {}

  lemma AdobeRunStartsHigh(k: int)
    requires 13 <= k < |AdobeTitle| && IsHangulSyllable(AdobeTitle[k]) && !IsHangulSyllable(AdobeTitle[k - 1])
    ensures k == 13 || k == 16 || k == 21
  {}

  lemma AdobeHangulRun(s: string, i: int, j: int)
    requires s == AdobeTitle && IsMaximalRun(s, HangulClass, i, j)
    ensures s[i..j] in CommonWords
  {
    assert IsHangulSyllable(s[i]);
    AdobeLatinPrefix();
    AdobeRunStartsHigh(i);
    if i == 13 {
      assert !IsHangulSyllable(s[15]) && s[13..15] == "보안";
    } else if i == 16 {
      assert !IsHangulSyllable(s[20]) && s[16..20] == "업데이트";
    } else {
      assert s[21..23] == "권고";
    }
  }

  lemma AdobeHangulNames(s: string)
    requires s == AdobeTitle
    ensures HangulWords(s, 0) - CommonWords == {}
  {
    forall x | x in HangulWords(s, 0)
      ensures x in CommonWords
    {
      HangulWordsIff(s, 0, x);
      var i, j :| 0 <= i && IsBoundedHangulWord(s, i, j) && x == s[i..j];
      AdobeHangulRun(s, i, j);
    }
  }

  /** The entities of the Adobe title: non-empty, and each starts with `a` or `r`. */
  lemma AdobeEntities(s: string)
    requires s == AdobeTitle
    ensures ProductNames(s) != {}
    ensures forall x :: x in ProductNames(s) ==> HeadIn(x, {'a', 'r'})
  {
    AdobeKnownHits(Lower(s));
    AdobeCapitalizedNames(s);
    AdobeHangulNames(s);
    forall x | x in KnownProductHits(Lower(s))
      ensures HeadIn(x, {'a', 'r'})
    {
      assert HeadIn(x, {'a'});
    }
    EntitiesFromParts(s, {'a', 'r'});
  }

  /** The entities start with the given characters when each of their three sources' do. */
  lemma EntitiesFromParts(s: string, heads: set<char>)
    requires forall x :: x in KnownProductHits(Lower(s)) ==> HeadIn(x, heads)
    requires forall x :: x in CapitalizedNames(s) ==> HeadIn(x, heads)
    requires forall x :: x in HangulWords(s, 0) - CommonWords ==> HeadIn(x, heads)
    ensures forall x :: x in ProductNames(s) ==> HeadIn(x, heads)
  {
  }

  /** Sets whose members start with characters from disjoint sets are disjoint. */
  lemma DisjointByHead(a: set<string>, b: set<string>, ca: set<char>, cb: set<char>)
    requires forall x :: x in a ==> HeadIn(x, ca)
    requires forall x :: x in b ==> HeadIn(x, cb)
    requires forall c :: c in ca ==> c !in cb
    ensures a * b == {}
  {
    forall x | x in a
      ensures x !in b
    {
      assert x[0] in ca;
    }
  }

  /** A maximal run of Hangul syllables is a keyword. */
  lemma HangulRunKeyword(s: string, i: int, j: int)
    requires IsMaximalRun(s, HangulClass, i, j)
    ensures s[i..j] in Keywords(s)
  {
    RunsIff(s, HangulClass, 1, 0, s[i..j]);
  }

  lemma TpLinkSecurity(s: string)
    requires s == TpLinkTitle
    ensures "보안" in Keywords(s)
  {
    assert IsMaximalRun(s, HangulClass, 12, 14) && s[12..14] == "보안";
    HangulRunKeyword(s, 12, 14);
  }

  lemma TpLinkUpdate(s: string)
    requires s == TpLinkTitle
    ensures "업데이트" in Keywords(s)
  {
    assert IsMaximalRun(s, HangulClass, 15, 19) && s[15..19] == "업데이트";
    HangulRunKeyword(s, 15, 19);
  }

  lemma TpLinkAdvisory(s: string)
    requires s == TpLinkTitle
    ensures "권고" in Keywords(s)
  {
    assert IsMaximalRun(s, HangulClass, 20, 22) && s[20..22] == "권고";
    HangulRunKeyword(s, 20, 22);
  }

  lemma AdobeSecurity(s: string)
    requires s == AdobeTitle
    ensures "보안" in Keywords(s)
  {
    assert IsMaximalRun(s, HangulClass, 13, 15) && s[13..15] == "보안";
    HangulRunKeyword(s, 13, 15);
  }

  lemma AdobeUpdate(s: string)
    requires s == AdobeTitle
    ensures "업데이트" in Keywords(s)
  {
    assert IsMaximalRun(s, HangulClass, 16, 20) && s[16..20] == "업데이트";
    HangulRunKeyword(s, 16, 20);
  }

  lemma AdobeAdvisory(s: string)
    requires s == AdobeTitle
    ensures "권고" in Keywords(s)
  {
    assert IsMaximalRun(s, HangulClass, 21, 23) && s[21..23] == "권고";
    HangulRunKeyword(s, 21, 23);
  }

  /** Both titles have 보안, 업데이트 and 권고 among their keywords. */
  lemma SharedKeywords(s1: string, s2: string)
    requires s1 == TpLinkTitle && s2 == AdobeTitle
    ensures {"보안", "업데이트", "권고"} <= Keywords(s1) * Keywords(s2)
  {
    TpLinkSecurity(s1);
    TpLinkUpdate(s1);
    TpLinkAdvisory(s1);
    AdobeSecurity(s2);
    AdobeUpdate(s2);
    AdobeAdvisory(s2);
  }

  lemma ExampleHeadsDisjoint(a: set<string>, b: set<string>)
    requires forall x :: x in a ==> HeadIn(x, {'t', 'l', '라'})
    requires forall x :: x in b ==> HeadIn(x, {'a', 'r'})
    ensures a * b == {}
  {
    DisjointByHead(a, b, {'t', 'l', '라'}, {'a', 'r'});
  }

  lemma TpLinkAdobeDisjoint(s1: string, s2: string)
    requires s1 == TpLinkTitle && s2 == AdobeTitle
    ensures ProductNames(s1) != {} && ProductNames(s2) != {}
    ensures ProductNames(s1) * ProductNames(s2) == {}
  {
    TpLinkEntities(s1);
    AdobeEntities(s2);
    ExampleHeadsDisjoint(ProductNames(s1), ProductNames(s2));
  }

  /** "TP-Link 라우터 보안 업데이트 권고" and "Adobe Reader 보안 업데이트 권고" share the keywords
      보안, 업데이트 and 권고, yet are not similar at any threshold: their entities differ. */
  lemma EntityOverrideExample(s1: string, s2: string, t: Threshold)
    requires s1 == TpLinkTitle && s2 == AdobeTitle
    ensures {"보안", "업데이트", "권고"} <= Keywords(s1) * Keywords(s2)
    ensures !IsSimilarTitle(s1, s2, t)
  {
    TpLinkAdobeDisjoint(s1, s2);
    SharedKeywords(s1, s2);
    assert "보안" in Keywords(s1) && "보안" in Keywords(s2);
    EntityOverride(s1, s2, t);
  }
}
