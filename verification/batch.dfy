/** In-batch suppression (the second stage of `process_articles_ai_driven`): among the items
    that survived the history filter, an item is dropped when some item positioned after it
    is strictly newer and reports the same story — a similar title, the same company with
    security wording on both sides, or the same product with update wording on both sides. */
module Batch {
  import opened Text
  import opened Titles
  import opened Feed

  // ---------------------------------------------------------------------------
  // Keyword tables

  const Companies: seq<string> :=
    ["교원", "카카오", "네이버", "삼성", "LG", "SK", "현대", "기아", "롯데", "한화", "두산", "포스코", "KT", "신한", "라인", "쿠팡"]

  const SecurityKeywords: seq<string> := ["해킹", "랜섬웨어", "정보유출", "침해", "공격", "사고", "유출"]

  /** Product groups, each a canonical name with the spellings that identify it. */
  const ProductGroups: seq<(string, seq<string>)> := [
    ("windows", ["windows", "윈도우", "마이크로소프트", "ms", "microsoft"]),
    ("office", ["office", "오피스", "office 365", "microsoft office"]),
    ("adobe reader", ["adobe reader", "어도비 리더", "adobe acrobat reader"]),
    ("fortigate", ["fortigate", "포티게이트", "fortios"])
  ]

  const BatchUpdateKeywords: seq<string> := ["패치", "업데이트", "보안 업데이트", "취약점", "패치 화요일", "보안 위협", "보안 권고", "cve"]

  // ---------------------------------------------------------------------------
  // The three rules, for an item `a` and a later item `b`

  /** Different titles that are similar at the batch threshold, `b` strictly newer. */
  predicate SimilarRule(a: Entry, b: Entry)
  {
    a.ts < b.ts && a.title != b.title && IsSimilarTitle(a.title, b.title, BatchThreshold)
  }

  /** Both lower-cased titles contain `company` and a security keyword, `b` strictly newer. */
  predicate CompanyPair(a: Entry, b: Entry, company: string)
  {
    a.ts < b.ts && Contains(Lower(a.title), company) && Contains(Lower(b.title), company)
    && ContainsAny(Lower(a.title), SecurityKeywords) && ContainsAny(Lower(b.title), SecurityKeywords)
  }

  predicate CompanyRule(a: Entry, b: Entry)
  {
    exists k :: 0 <= k < |Companies| && CompanyPair(a, b, Companies[k])
  }

  /** Both lower-cased titles name the product group and contain an update keyword, `b`
      strictly newer. */
  predicate ProductPair(a: Entry, b: Entry, names: seq<string>)
  {
    a.ts < b.ts && ContainsAny(Lower(a.title), names) && ContainsAny(Lower(b.title), names)
    && ContainsAny(Lower(a.title), BatchUpdateKeywords) && ContainsAny(Lower(b.title), BatchUpdateKeywords)
  }

  predicate ProductRule(a: Entry, b: Entry)
  {
    exists g :: 0 <= g < |ProductGroups| && ProductPair(a, b, ProductGroups[g].1)
  }

  /** `b` makes `a` a duplicate. */
  predicate DuplicateOf(a: Entry, b: Entry)
  {
    SimilarRule(a, b) || CompanyRule(a, b) || ProductRule(a, b)
  }

  /** Every rule asks for a strictly newer later item. */
  lemma DuplicateNeedsNewer(a: Entry, b: Entry)
    ensures DuplicateOf(a, b) ==> a.ts < b.ts
  {
    if CompanyRule(a, b) {
      var k :| 0 <= k < |Companies| && CompanyPair(a, b, Companies[k]);
    } else if ProductRule(a, b) {
      var g :| 0 <= g < |ProductGroups| && ProductPair(a, b, ProductGroups[g].1);
    }
  }

  /** Item `i` of the batch is dropped: some item after it makes it a duplicate. */
  predicate Suppressed(c: seq<Entry>, i: int)
  {
    exists j :: i < j < |c| && 0 <= i && DuplicateOf(c[i], c[j])
  }

  // ---------------------------------------------------------------------------
  // The surviving items

  /** For each position, whether it is dropped. */
  function DropFlags(c: seq<Entry>): (flags: seq<bool>)
    ensures |flags| == |c| && forall i :: 0 <= i < |c| ==> (flags[i] <==> Suppressed(c, i))
  {
    seq(|c|, i requires 0 <= i < |c| => Suppressed(c, i))
  }

  /** Positions below `n` whose flag is down, in increasing order. */
  function KeptUpTo(flags: seq<bool>, n: nat): (idx: seq<nat>)
    requires n <= |flags|
    ensures forall m :: 0 <= m < |idx| ==> idx[m] < n
  {
    if n == 0 then []
    else KeptUpTo(flags, n - 1) + (if flags[n - 1] then [] else [n - 1])
  }

  /** The kept positions are increasing, below `n`, and exactly those whose flag is down. */
  lemma {:induction false} KeptUpToSpec(flags: seq<bool>, n: nat)
    requires n <= |flags|
    ensures forall m, m' :: 0 <= m < m' < |KeptUpTo(flags, n)| ==> KeptUpTo(flags, n)[m] < KeptUpTo(flags, n)[m']
    ensures forall p :: p in KeptUpTo(flags, n) <==> 0 <= p < n && !flags[p]
  {
    if n > 0 {
      KeptUpToSpec(flags, n - 1);
    }
  }

  /** The positions that stay in the batch. */
  function KeptIndices(c: seq<Entry>): seq<nat>
  {
    KeptUpTo(DropFlags(c), |c|)
  }

  /** The items that stay in the batch, in their original order. */
  function Survivors(c: seq<Entry>): (r: seq<Entry>)
    ensures |r| == |KeptIndices(c)| && forall m :: 0 <= m < |r| ==> r[m] == c[KeptIndices(c)[m]]
  {
    var idx := KeptIndices(c);
    seq(|idx|, m requires 0 <= m < |idx| => c[idx[m]])
  }

  /** The survivors form an order-preserving subsequence of the batch, and a position is kept
      exactly when no later item makes it a duplicate. */
  lemma SurvivorsSpec(c: seq<Entry>)
    ensures forall m, n :: 0 <= m < n < |KeptIndices(c)| ==> KeptIndices(c)[m] < KeptIndices(c)[n]
    ensures forall p :: p in KeptIndices(c) <==> 0 <= p < |c| && !Suppressed(c, p)
    ensures |Survivors(c)| <= |c|
  {
    var idx := KeptIndices(c);
    KeptUpToSpec(DropFlags(c), |c|);
    SortedBelowLength(idx, |c|);
  }

  lemma {:induction false} SortedBelowLength(idx: seq<nat>, n: nat)
    requires forall m :: 0 <= m < |idx| ==> idx[m] < n
    requires forall m, k :: 0 <= m < k < |idx| ==> idx[m] < idx[k]
    ensures |idx| <= n
    decreases n
  {
    if |idx| > 0 {
      var last := idx[|idx| - 1];
      var rest := idx[..|idx| - 1];
      assert forall m :: 0 <= m < |rest| ==> rest[m] < last;
      SortedBelowLength(rest, last);
    }
  }

  /** No item after position `k` is newer than it, so it survives. In particular the last
      item and every item with the largest timestamp survive. */
  lemma NewestSurvives(c: seq<Entry>, k: nat)
    requires k < |c|
    requires forall j :: k < j < |c| ==> c[j].ts <= c[k].ts
    ensures !Suppressed(c, k)
    ensures k in KeptIndices(c)
  {
    forall j | k < j < |c|
      ensures !DuplicateOf(c[k], c[j])
    {
      DuplicateNeedsNewer(c[k], c[j]);
    }
    KeptUpToSpec(DropFlags(c), |c|);
  }

  lemma LastSurvives(c: seq<Entry>)
    requires |c| > 0
    ensures |c| - 1 in KeptIndices(c)
    ensures Survivors(c)[|Survivors(c)| - 1] == c[|c| - 1]
  {
    NewestSurvives(c, |c| - 1);
    var idx := KeptIndices(c);
    KeptUpToSpec(DropFlags(c), |c|);
    var m :| 0 <= m < |idx| && idx[m] == |c| - 1;
    SortedBeforeLast(idx, m);
  }

  lemma SortedBeforeLast(idx: seq<nat>, m: nat)
    requires forall a, b :: 0 <= a < b < |idx| ==> idx[a] < idx[b]
    requires m < |idx|
    ensures m < |idx| - 1 ==> idx[m] < idx[|idx| - 1]
  {
  }

  /** When all timestamps are equal nothing is suppressed. */
  lemma EqualTimestampsKeepAll(c: seq<Entry>)
    requires forall a, b :: 0 <= a < |c| && 0 <= b < |c| ==> c[a].ts == c[b].ts
    ensures Survivors(c) == c
  {
    forall k | 0 <= k < |c|
      ensures !DropFlags(c)[k]
    {
      NewestSurvives(c, k);
    }
    KeepsAll(DropFlags(c), |c|);
  }

  lemma {:induction false} KeepsAll(flags: seq<bool>, n: nat)
    requires n <= |flags|
    requires forall p :: 0 <= p < n ==> !flags[p]
    ensures KeptUpTo(flags, n) == seq(n, m => m)
  {
    if n > 0 {
      KeepsAll(flags, n - 1);
    }
  }

  // ---------------------------------------------------------------------------
  // Quirks of the keyword tables

  /** "LG", "SK" and "KT" are looked for in a lower-cased title, so they never match and the
      company rule never fires through them. */
  lemma UpperCaseCompaniesNeverMatch(title: string, company: string)
    requires company in ["LG", "SK", "KT"]
    ensures !Contains(Lower(title), company)
  {
    LowerNeverContainsUpper(title, company);
  }

  /** "ms" counts as naming Windows wherever those two letters occur in the title. */
  lemma MsNamesWindows(title: string)
    requires Contains(Lower(title), "ms")
    ensures ContainsAny(Lower(title), ProductGroups[0].1)
  {
    assert "ms" in ProductGroups[0].1;
  }

  // ---------------------------------------------------------------------------
  // The loops

  predicate SimilarAfter(c: seq<Entry>, i: nat)
    requires i < |c|
  {
    exists j :: i < j < |c| && SimilarRule(c[i], c[j])
  }

  /** Item `i` is dropped exactly when one of the three rules finds a later item. */
  lemma SuppressedByRule(c: seq<Entry>, i: nat)
    requires i < |c|
    ensures Suppressed(c, i) <==> SimilarAfter(c, i) || CompanyAfter(c, i) || ProductAfter(c, i)
  {
  }

  /** The first loop: a later item with a different but similar title that is newer. */
  method NewerSimilar(c: seq<Entry>, i: nat) returns (dup: bool)
    requires i < |c|
    ensures dup <==> SimilarAfter(c, i)
  {
    dup := false;
    var j := 0;
    while j < |c|
      invariant 0 <= j <= |c|
      invariant !dup
      invariant forall m :: i < m < j ==> !SimilarRule(c[i], c[m])
    {
      if i >= j {
        j := j + 1;
        continue;
      }
      var title := c[i].title;
      var otherTitle := c[j].title;
      if title == otherTitle {
        j := j + 1;
        continue;
      }
      if IsSimilarTitle(title, otherTitle, BatchThreshold) {
        if c[i].ts < c[j].ts {
          dup := true;
          return;
        }
      }
      j := j + 1;
    }
  }

  /** The inner loop of the company rule, for one company found in item `i`'s title. */
  method NewerWithCompany(c: seq<Entry>, i: nat, company: string) returns (dup: bool)
    requires i < |c| && Contains(Lower(c[i].title), company)
    ensures dup <==> exists j :: i < j < |c| && CompanyPair(c[i], c[j], company)
  {
    dup := false;
    var j := 0;
    var titleLower := Lower(c[i].title);
    while j < |c|
      invariant 0 <= j <= |c|
      invariant !dup
      invariant forall m :: i < m < j ==> !CompanyPair(c[i], c[m], company)
    {
      if i < j {
        var otherLower := Lower(c[j].title);
        if Contains(otherLower, company) {
          var hasSecurity1 := ContainsAny(titleLower, SecurityKeywords);
          var hasSecurity2 := ContainsAny(otherLower, SecurityKeywords);
          if hasSecurity1 && hasSecurity2 {
            if c[i].ts < c[j].ts {
              dup := true;
              return;
            }
          }
        }
      }
      j := j + 1;
    }
  }

  /** The company rule: every company of the table that occurs in item `i`'s title, in order. */
  method NewerSameCompany(c: seq<Entry>, i: nat) returns (dup: bool)
    requires i < |c|
    ensures dup <==> CompanyAfter(c, i)
  {
    dup := false;
    var titleLower := Lower(c[i].title);
    var k := 0;
    while k < |Companies|
      invariant 0 <= k <= |Companies|
      invariant !dup
      invariant forall n, j :: 0 <= n < k && i < j < |c| ==> !CompanyPair(c[i], c[j], Companies[n])
    {
      if Contains(titleLower, Companies[k]) {
        dup := NewerWithCompany(c, i, Companies[k]);
        if dup {
          return;
        }
      }
      k := k + 1;
    }
  }

  predicate CompanyAfter(c: seq<Entry>, i: nat)
    requires i < |c|
  {
    exists j :: i < j < |c| && CompanyRule(c[i], c[j])
  }

  /** The inner loop of the product rule, for one group named in item `i`'s title. */
  method NewerWithProduct(c: seq<Entry>, i: nat, names: seq<string>) returns (dup: bool)
    requires i < |c| && ContainsAny(Lower(c[i].title), names)
    ensures dup <==> exists j :: i < j < |c| && ProductPair(c[i], c[j], names)
  {
    dup := false;
    var j := 0;
    var titleLower := Lower(c[i].title);
    while j < |c|
      invariant 0 <= j <= |c|
      invariant !dup
      invariant forall m :: i < m < j ==> !ProductPair(c[i], c[m], names)
    {
      if i < j {
        var otherLower := Lower(c[j].title);
        if ContainsAny(otherLower, names) {
          var hasUpdate1 := ContainsAny(titleLower, BatchUpdateKeywords);
          var hasUpdate2 := ContainsAny(otherLower, BatchUpdateKeywords);
          if hasUpdate1 && hasUpdate2 {
            if c[i].ts < c[j].ts {
              dup := true;
              return;
            }
          }
        }
      }
      j := j + 1;
    }
  }

  predicate ProductAfter(c: seq<Entry>, i: nat)
    requires i < |c|
  {
    exists j :: i < j < |c| && ProductRule(c[i], c[j])
  }

  /** The product rule: every group named in item `i`'s title, in table order. */
  method NewerSameProduct(c: seq<Entry>, i: nat) returns (dup: bool)
    requires i < |c|
    ensures dup <==> ProductAfter(c, i)
  {
    dup := false;
    var titleLower := Lower(c[i].title);
    var g := 0;
    while g < |ProductGroups|
      invariant 0 <= g <= |ProductGroups|
      invariant !dup
      invariant forall n, j :: 0 <= n < g && i < j < |c| ==> !ProductPair(c[i], c[j], ProductGroups[n].1)
    {
      var names := ProductGroups[g].1;
      if ContainsAny(titleLower, names) {
        dup := NewerWithProduct(c, i, names);
        if dup {
          return;
        }
      }
      g := g + 1;
    }
  }

  /** The batch loop: each item is kept unless one of the three rules finds a later, newer
      item that duplicates it. */
  method SuppressInBatch(c: seq<Entry>) returns (finals: seq<Entry>)
    ensures finals == Survivors(c)
  {
    finals := [];
    var i := 0;
    while i < |c|
      invariant 0 <= i <= |c|
      invariant finals == KeptPrefix(c, DropFlags(c), i)
    {
      var dup := NewerSimilar(c, i);
      if !dup {
        dup := NewerSameCompany(c, i);
        if !dup {
          dup := NewerSameProduct(c, i);
        }
      }
      SuppressedByRule(c, i);
      if !dup {
        finals := finals + [c[i]];
      }
      i := i + 1;
    }
    KeptPrefixIsSurvivors(c, DropFlags(c), |c|);
  }

  /** The items among the first `n` whose flag is down, in order. */
  function KeptPrefix(c: seq<Entry>, flags: seq<bool>, n: nat): seq<Entry>
    requires n <= |c| == |flags|
  {
    if n == 0 then [] else KeptPrefix(c, flags, n - 1) + (if flags[n - 1] then [] else [c[n - 1]])
  }

  lemma {:induction false} KeptPrefixIsSurvivors(c: seq<Entry>, flags: seq<bool>, n: nat)
    requires n <= |c| == |flags|
    ensures KeptPrefix(c, flags, n) == seq(|KeptUpTo(flags, n)|, m requires 0 <= m < |KeptUpTo(flags, n)| => c[KeptUpTo(flags, n)[m]])
  {
    if n > 0 {
      KeptPrefixIsSurvivors(c, flags, n - 1);
    }
  }

  // ---------------------------------------------------------------------------
  // The order matters

  const OlderKyowonTitle: string := "교원그룹 해킹 사고"
  const NewerKyowonTitle: string := "교원 랜섬웨어 공격 피해"

  lemma KyowonMentions(t: string)
    requires t == OlderKyowonTitle || t == NewerKyowonTitle
    ensures Contains(Lower(t), "교원")
    ensures ContainsAny(Lower(t), SecurityKeywords)
  {
    assert Lower(t) == t;
    assert OccursAt(t, "교원", 0);
    OccursAtContains(t, "교원", 0);
    if t == OlderKyowonTitle {
      assert OccursAt(t, "해킹", 5);
      OccursAtContains(t, "해킹", 5);
      assert "해킹" in SecurityKeywords;
    } else {
      assert OccursAt(t, "공격", 8);
      OccursAtContains(t, "공격", 8);
      assert "공격" in SecurityKeywords;
    }
  }

  /** Two reports of the same incident at the same company: when the older one comes first it
      is dropped, but when the newer one comes first both are kept, because an item is only
      ever dropped in favour of a later-positioned one. */
  lemma PositionDecides(older: Entry, newer: Entry)
    requires older.title == OlderKyowonTitle && newer.title == NewerKyowonTitle
    requires older.ts < newer.ts
    ensures Survivors([older, newer]) == [newer]
    ensures Survivors([newer, older]) == [newer, older]
  {
    KyowonDuplicate(older, newer);
    OlderFirstDropped(older, newer);
    NewerFirstKept(older, newer);
  }

  lemma KyowonDuplicate(older: Entry, newer: Entry)
    requires older.title == OlderKyowonTitle && newer.title == NewerKyowonTitle
    requires older.ts < newer.ts
    ensures DuplicateOf(older, newer)
  {
    KyowonMentions(older.title);
    KyowonMentions(newer.title);
    assert CompanyPair(older, newer, Companies[0]);
  }

  /** A duplicate placed before the item that duplicates it is dropped. */
  lemma OlderFirstDropped(older: Entry, newer: Entry)
    requires DuplicateOf(older, newer)
    ensures Survivors([older, newer]) == [newer]
  {
    var c := [older, newer];
    DuplicateNeedsNewer(older, newer);
    assert DuplicateOf(c[0], c[1]);
    NewestSurvives(c, 1);
    TwoFlags(c, true, false);
  }

  /** An item placed before an older one is never dropped for it, and the older one, being
      last, stays too. */
  lemma NewerFirstKept(older: Entry, newer: Entry)
    requires older.ts < newer.ts
    ensures Survivors([newer, older]) == [newer, older]
  {
    var c := [newer, older];
    NewestSurvives(c, 0);
    NewestSurvives(c, 1);
    TwoFlags(c, false, false);
  }

  /** The survivors of a two-item batch, read off its two drop flags. */
  lemma TwoFlags(c: seq<Entry>, d0: bool, d1: bool)
    requires |c| == 2 && (Suppressed(c, 0) <==> d0) && (Suppressed(c, 1) <==> d1)
    ensures Survivors(c) == (if d0 then [] else [c[0]]) + (if d1 then [] else [c[1]])
  {
    var flags := DropFlags(c);
    assert flags == [d0, d1];
    TwoKept(d0, d1);
  }

  /** The kept positions of two flags. */
  lemma TwoKept(d0: bool, d1: bool)
    ensures KeptUpTo([d0, d1], 2) == (if d0 then [] else [0]) + (if d1 then [] else [1])
  {
    assert KeptUpTo([d0, d1], 1) == if d0 then [] else [0];
  }
}
