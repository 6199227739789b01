/** The check before dispatch (the fourth stage of `process_articles_ai_driven`): an item is
    not sent when an item already sent in this run reports the same story — the same title,
    a similar title, the same company with security wording, a shared CVE id, or a shared
    affected product with update wording or vulnerability tags. */
module Correlator {
  import opened Text
  import opened Titles
  import opened Feed
  import opened Batch

  /** Seven days in seconds. */
  const IssueWindow: int := 7 * 24 * 3600

  const SentUpdateKeywords: seq<string> := BatchUpdateKeywords + ["vulnerability"]

  function Abs(x: int): nat
  {
    if x < 0 then -x else x
  }

  // ---------------------------------------------------------------------------
  // The rules, for an item `e` with verdict `j` and an already sent item `se` with verdict `sj`

  /** Both lower-cased titles contain the same company and a security keyword, and the item
      is not newer than the sent one. */
  predicate CompanyMatch(e: Entry, se: Entry)
  {
    exists k :: 0 <= k < |Companies| && CompanySent(e, se, Companies[k])
  }

  predicate CompanySent(e: Entry, se: Entry, company: string)
  {
    Contains(Lower(e.title), company) && Contains(Lower(se.title), company)
    && ContainsAny(Lower(e.title), SecurityKeywords) && ContainsAny(Lower(se.title), SecurityKeywords)
    && e.ts <= se.ts
  }

  /** The upper-cased CVE ids of a verdict. */
  function CveSet(j: Judgment): set<string>
  {
    set c | c in ListItems(j.cveIds) :: Upper(c)
  }

  /** Both verdicts list CVE ids, they share one up to case, and the items are less than
      seven days apart. */
  predicate CveMatch(e: Entry, j: Judgment, se: Entry, sj: Judgment)
  {
    |ListItems(j.cveIds)| > 0 && |ListItems(sj.cveIds)| > 0
    && CveSet(j) * CveSet(sj) != {} && Abs(e.ts - se.ts) < IssueWindow
  }

  /** The lower-cased, trimmed affected products of a verdict. */
  function ProductSet(j: Judgment): set<string>
  {
    set p | p in ListItems(j.productsAffected) :: Strip(Lower(p))
  }

  /** Some tag mentions "vulnerability" or "cve", in any case. */
  predicate HasVulnerabilityTag(j: Judgment)
  {
    exists t :: t in TagItems(j.tags) && (Contains(Lower(t), "vulnerability") || Contains(Lower(t), "cve"))
  }

  /** Both verdicts list products, they share one, both titles carry update wording or both
      verdicts carry a vulnerability tag, and the items are less than seven days apart. */
  predicate ProductMatch(e: Entry, j: Judgment, se: Entry, sj: Judgment)
  {
    |ListItems(j.productsAffected)| > 0 && |ListItems(sj.productsAffected)| > 0
    && ProductSet(j) * ProductSet(sj) != {}
    && ((ContainsAny(Lower(e.title), SentUpdateKeywords) && ContainsAny(Lower(se.title), SentUpdateKeywords))
        || (HasVulnerabilityTag(j) && HasVulnerabilityTag(sj)))
    && Abs(e.ts - se.ts) < IssueWindow
  }

  /** The sent item `se` makes `e` a duplicate. */
  predicate MatchesSent(e: Entry, j: Judgment, se: Entry, sj: Judgment)
  {
    e.title == se.title
    || IsSimilarTitle(e.title, se.title, SentThreshold)
    || CompanyMatch(e, se)
    || CveMatch(e, j, se, sj)
    || ProductMatch(e, j, se, sj)
  }

  /** Some item of the ledger makes `e` a duplicate. */
  predicate AlreadySent(e: Entry, j: Judgment, ledger: seq<(Entry, Judgment)>)
  {
    exists k :: 0 <= k < |ledger| && MatchesSent(e, j, ledger[k].0, ledger[k].1)
  }

  // ---------------------------------------------------------------------------
  // The loops

  /** The company loop for one sent item. */
  method CompanyAlreadySent(e: Entry, se: Entry) returns (dup: bool)
    ensures dup <==> CompanyMatch(e, se)
  {
    var titleLower := Lower(e.title);
    var sentTitleLower := Lower(se.title);
    dup := false;
    var k := 0;
    while k < |Companies|
      invariant 0 <= k <= |Companies|
      invariant !dup
      invariant forall n :: 0 <= n < k ==> !CompanySent(e, se, Companies[n])
    {
      var company := Companies[k];
      if Contains(titleLower, company) && Contains(sentTitleLower, company) {
        var hasSecurity1 := ContainsAny(titleLower, SecurityKeywords);
        var hasSecurity2 := ContainsAny(sentTitleLower, SecurityKeywords);
        if hasSecurity1 && hasSecurity2 {
          if e.ts <= se.ts {
            dup := true;
            return;
          }
        }
      }
      k := k + 1;
    }
  }

  /** The loop over the ledger: the rules are tried in the order the script tries them for
      each sent item, and the first match ends the search. */
  method IsDuplicateSent(e: Entry, j: Judgment, ledger: seq<(Entry, Judgment)>) returns (dup: bool)
    ensures dup <==> AlreadySent(e, j, ledger)
  {
    dup := false;
    var k := 0;
    while k < |ledger|
      invariant 0 <= k <= |ledger|
      invariant !dup
      invariant forall n :: 0 <= n < k ==> !MatchesSent(e, j, ledger[n].0, ledger[n].1)
    {
      var (se, sj) := ledger[k];
      if e.title == se.title {
        return true;
      }
      if IsSimilarTitle(e.title, se.title, SentThreshold) {
        return true;
      }
      var company := CompanyAlreadySent(e, se);
      if company {
        return true;
      }
      var cves1 := ListItems(j.cveIds);
      var cves2 := ListItems(sj.cveIds);
      if |cves1| > 0 && |cves2| > 0 {
        if CveSet(j) * CveSet(sj) != {} {
          if Abs(e.ts - se.ts) < IssueWindow {
            return true;
          }
        }
      }
      if ProductMatch(e, j, se, sj) {
        return true;
      }
      k := k + 1;
    }
  }

  // ---------------------------------------------------------------------------
  // Properties

  /** The CVE and product rules look at both sides alike. */
  lemma IssueRulesSymmetric(e: Entry, j: Judgment, se: Entry, sj: Judgment)
    ensures CveMatch(e, j, se, sj) <==> CveMatch(se, sj, e, j)
    ensures ProductMatch(e, j, se, sj) <==> ProductMatch(se, sj, e, j)
  {
    assert CveSet(j) * CveSet(sj) == CveSet(sj) * CveSet(j);
    assert ProductSet(j) * ProductSet(sj) == ProductSet(sj) * ProductSet(j);
    assert Abs(e.ts - se.ts) == Abs(se.ts - e.ts);
  }

  /** Items seven days or more apart are never merged by the CVE or product rule. */
  lemma WindowBoundsIssueRules(e: Entry, j: Judgment, se: Entry, sj: Judgment)
    requires Abs(e.ts - se.ts) >= IssueWindow
    ensures !CveMatch(e, j, se, sj) && !ProductMatch(e, j, se, sj)
  {
  }

  /** The product rule does not look at the CVE ids: verdicts naming different CVEs are still
      merged by a shared product. */
  lemma ProductRuleIgnoresCves(e: Entry, j: Judgment, se: Entry, sj: Judgment, cves: Listish, sentCves: Listish)
    ensures ProductMatch(e, j, se, sj) <==> ProductMatch(e, j.(cveIds := cves), se, sj.(cveIds := sentCves))
  {
  }

  lemma {:induction false} ShortNeverContains(s: string, sub: string)
    requires |s| < |sub|
    ensures !Contains(s, sub)
    decreases |s|
  {
    if |s| > 0 {
      ShortNeverContains(s[1..], sub);
    }
  }

  /** Tags given as one string are walked character by character, and no single character
      contains "vulnerability" or "cve". */
  lemma StringTagsNeverVulnerable(j: Judgment)
    requires j.tags.Text?
    ensures !HasVulnerabilityTag(j)
  {
    forall t | t in TagItems(j.tags)
      ensures !Contains(Lower(t), "vulnerability") && !Contains(Lower(t), "cve")
    {
      ShortNeverContains(Lower(t), "vulnerability");
      ShortNeverContains(Lower(t), "cve");
    }
  }

  /** Whatever the batch stage merges by title similarity or by company is also caught
      against the ledger: similarity at the batch threshold implies it at the lower one, and
      a strictly newer sent item is in particular not older. */
  lemma BatchRulesCaughtAgain(a: Entry, ja: Judgment, b: Entry, jb: Judgment)
    requires SimilarRule(a, b) || CompanyRule(a, b)
    ensures MatchesSent(a, ja, b, jb)
  {
    if SimilarRule(a, b) {
      BatchSimilarImpliesSentSimilar(a.title, b.title);
    } else {
      var k :| 0 <= k < |Companies| && CompanyPair(a, b, Companies[k]);
      assert CompanySent(a, b, Companies[k]);
    }
  }
}
