/** The older script (test.py): uid-based deduplication of the fetched items, a keyword
    filter, an ordinal importance gate on the classifier verdict, and a seen-set kept across
    runs and capped at 2000 entries. */
module Legacy {
  import opened Text
  import opened Feed
  import opened StateStore
  import opened Responses

  // ---------------------------------------------------------------------------
  // Identity

  /** `entry_uid` of test.py: the id, else the guid, else the link, else the title. */
  function LegacyEntryUid(e: Entry): string
  {
    if e.id != "" then e.id
    else if e.guid != "" then e.guid
    else if e.link != "" then e.link
    else e.title
  }

  /** The uid is the first non-empty field in the order id, guid, link, title. */
  lemma LegacyEntryUidSpec(e: Entry)
    ensures IsFirstNonEmpty([e.id, e.guid, e.link, e.title], LegacyEntryUid(e))
  {
    var fields := [e.id, e.guid, e.link, e.title];
    if e.id != "" {
      FirstNonEmptyAt(fields, 0);
    } else if e.guid != "" {
      FirstNonEmptyAt(fields, 1);
    } else if e.link != "" {
      FirstNonEmptyAt(fields, 2);
    } else if e.title != "" {
      FirstNonEmptyAt(fields, 3);
    }
  }

  /** The two scripts rank the link differently: an item with both an id and a different link
      is known by its id here and by its link in the newer script. */
  lemma UidPriorityDiffers(e: Entry)
    requires e.id != "" && e.link != "" && e.id != e.link
    ensures LegacyEntryUid(e) == e.id && EntryUid(e) == e.link
    ensures LegacyEntryUid(e) != EntryUid(e)
  {
  }

  // ---------------------------------------------------------------------------
  // The keyword filter

  /** `matches_filter`: with no keywords every item passes; otherwise some lower-cased keyword
      must occur in the lower-cased title, a space, and the lower-cased summary. */
  predicate MatchesFilter(e: Entry, keywords: seq<string>)
  {
    |keywords| == 0
    || exists k :: 0 <= k < |keywords| && Contains(Lower(e.title) + " " + Lower(e.summary), Lower(keywords[k]))
  }

  lemma {:induction false} ContainsInPrefix(a: string, b: string, sub: string)
    requires Contains(a, sub)
    ensures Contains(a + b, sub)
    decreases |a|
  {
    if StartsWith(a, sub) {
      assert (a + b)[..|sub|] == a[..|sub|];
    } else {
      assert (a + b)[1..] == a[1..] + b;
      ContainsInPrefix(a[1..], b, sub);
    }
  }

  lemma {:induction false} ContainsInSuffix(a: string, b: string, sub: string)
    requires Contains(b, sub)
    ensures Contains(a + b, sub)
    decreases |a|
  {
    if a == [] {
      assert a + b == b;
    } else {
      assert (a + b)[1..] == a[1..] + b;
      ContainsInSuffix(a[1..], b, sub);
    }
  }

  /** A keyword found in the title lets the item through. */
  lemma TitleKeywordPasses(e: Entry, keywords: seq<string>, k: nat)
    requires k < |keywords| && Contains(Lower(e.title), Lower(keywords[k]))
    ensures MatchesFilter(e, keywords)
  {
    ContainsInPrefix(Lower(e.title), " " + Lower(e.summary), Lower(keywords[k]));
    assert Lower(e.title) + " " + Lower(e.summary) == Lower(e.title) + (" " + Lower(e.summary));
  }

  /** A keyword found in the summary lets the item through. */
  lemma SummaryKeywordPasses(e: Entry, keywords: seq<string>, k: nat)
    requires k < |keywords| && Contains(Lower(e.summary), Lower(keywords[k]))
    ensures MatchesFilter(e, keywords)
  {
    ContainsInSuffix(Lower(e.title) + " ", Lower(e.summary), Lower(keywords[k]));
  }

  /** The items of the fetched feeds that pass the filter, in order. */
  function Matching(es: seq<Entry>, keywords: seq<string>): (r: seq<Entry>)
    ensures forall e :: e in r <==> e in es && MatchesFilter(e, keywords)
  {
    if es == [] then []
    else
      var init := Matching(es[..|es| - 1], keywords);
      assert es == es[..|es| - 1] + [es[|es| - 1]];
      init + (if MatchesFilter(es[|es| - 1], keywords) then [es[|es| - 1]] else [])
  }

  // ---------------------------------------------------------------------------
  // Deduplication by uid

  function Uids(d: seq<Entry>): set<string>
  {
    set e | e in d :: LegacyEntryUid(e)
  }

  /** The first item with each non-empty uid, in order. */
  function Dedup(s: seq<Entry>): seq<Entry>
  {
    if s == [] then []
    else
      var d := Dedup(s[..|s| - 1]);
      var uid := LegacyEntryUid(s[|s| - 1]);
      if uid != "" && uid !in Uids(d) then d + [s[|s| - 1]] else d
  }

  /** No two items share a uid. */
  predicate UidsDistinct(s: seq<Entry>)
  {
    forall i, j :: 0 <= i < j < |s| ==> LegacyEntryUid(s[i]) != LegacyEntryUid(s[j])
  }

  /** The kept items are items of the input with non-empty uids. */
  lemma {:induction false} DedupMembers(s: seq<Entry>)
    ensures forall e :: e in Dedup(s) ==> e in s && LegacyEntryUid(e) != ""
  {
    if s != [] {
      var init := s[..|s| - 1];
      DedupMembers(init);
      assert s == init + [s[|s| - 1]];
    }
  }

  /** No two kept items share a uid. */
  lemma {:induction false} DedupDistinct(s: seq<Entry>)
    ensures UidsDistinct(Dedup(s))
  {
    if s != [] {
      var init := s[..|s| - 1];
      var last := s[|s| - 1];
      DedupDistinct(init);
      var d := Dedup(init);
      if LegacyEntryUid(last) != "" && LegacyEntryUid(last) !in Uids(d) {
        DistinctSnoc(d, last);
      }
    }
  }

  /** An item whose uid no item of a uid-distinct list has can go at its end. */
  lemma DistinctSnoc(d: seq<Entry>, x: Entry)
    requires UidsDistinct(d) && LegacyEntryUid(x) !in Uids(d)
    ensures UidsDistinct(d + [x])
  {
    var r := d + [x];
    forall i, j | 0 <= i < j < |r|
      ensures LegacyEntryUid(r[i]) != LegacyEntryUid(r[j])
    {
      assert r[i] == d[i];
      if j < |d| {
        assert r[j] == d[j];
      } else {
        assert r[i] in d;
      }
    }
  }

  /** The kept uids are exactly the non-empty uids of the input. */
  lemma {:induction false} DedupUids(s: seq<Entry>)
    ensures Uids(Dedup(s)) == Uids(s) - {""}
  {
    if s != [] {
      var init := s[..|s| - 1];
      var last := s[|s| - 1];
      DedupUids(init);
      assert s == init + [last];
      UidsSnoc(init, last);
      var d := Dedup(init);
      if LegacyEntryUid(last) != "" && LegacyEntryUid(last) !in Uids(d) {
        UidsSnoc(d, last);
      }
    }
  }

  lemma UidsSnoc(d: seq<Entry>, x: Entry)
    ensures Uids(d + [x]) == Uids(d) + {LegacyEntryUid(x)}
  {
    assert forall e :: e in d + [x] <==> e in d || e == x;
  }

  /** No item before position `i` has the uid of `s[i]`. */
  predicate FirstWithUid(s: seq<Entry>, i: nat)
    requires i < |s|
  {
    forall j :: 0 <= j < i ==> LegacyEntryUid(s[j]) != LegacyEntryUid(s[i])
  }

  /** Each kept item is the first of the input with its uid. */
  lemma {:induction false} DedupKeepsFirst(s: seq<Entry>)
    ensures forall k :: 0 <= k < |Dedup(s)| ==>
              exists i: nat :: i < |s| && s[i] == Dedup(s)[k] && FirstWithUid(s, i)
  {
    forall k | 0 <= k < |Dedup(s)|
      ensures exists i: nat :: i < |s| && s[i] == Dedup(s)[k] && FirstWithUid(s, i)
    {
      var i := DedupKeptIsFirst(s, k);
    }
    assert forall k :: 0 <= k < |Dedup(s)| ==>
              exists i: nat :: i < |s| && s[i] == Dedup(s)[k] && FirstWithUid(s, i);
  }

  /** The position in the input of the `k`-th kept item, which is the first with its uid. */
  lemma {:induction false} DedupKeptIsFirst(s: seq<Entry>, k: nat) returns (i: nat)
    requires k < |Dedup(s)|
    ensures i < |s| && s[i] == Dedup(s)[k] && FirstWithUid(s, i)
    decreases |s|
  {
    var init := s[..|s| - 1];
    var d := Dedup(init);
    if k < |d| {
      assert Dedup(s)[k] == d[k];
      i := DedupKeptIsFirst(init, k);
      FirstWithUidExtends(s, i);
      assert s[i] == init[i];
    } else {
      DedupLastIsFirst(s);
      i := |s| - 1;
    }
  }

  /** Being first with a uid depends only on the items up to it. */
  lemma FirstWithUidExtends(s: seq<Entry>, i: nat)
    requires s != [] && i < |s| - 1 && FirstWithUid(s[..|s| - 1], i)
    ensures FirstWithUid(s, i)
  {
    var init := s[..|s| - 1];
    forall j | 0 <= j < i
      ensures LegacyEntryUid(s[j]) != LegacyEntryUid(s[i])
    {
      assert s[j] == init[j] && s[i] == init[i];
    }
  }

  /** When the last item is kept, no earlier item has its uid. */
  lemma DedupLastIsFirst(s: seq<Entry>)
    requires s != [] && |Dedup(s)| > |Dedup(s[..|s| - 1])|
    ensures Dedup(s)[|Dedup(s)| - 1] == s[|s| - 1] && FirstWithUid(s, |s| - 1)
  {
    var init := s[..|s| - 1];
    var last := s[|s| - 1];
    var d := Dedup(init);
    assert LegacyEntryUid(last) != "" && LegacyEntryUid(last) !in Uids(d);
    assert Dedup(s) == d + [last];
    DedupUids(init);
    forall j | 0 <= j < |s| - 1
      ensures LegacyEntryUid(s[j]) != LegacyEntryUid(last)
    {
      assert s[j] == init[j];
      assert LegacyEntryUid(init[j]) in Uids(init);
    }
  }

  // ---------------------------------------------------------------------------
  // Newest first

  /** Stable insertion: `e` goes after every item at least as new. */
  function Insert(e: Entry, r: seq<Entry>): seq<Entry>
  {
    if r == [] then [e]
    else if r[0].ts >= e.ts then [r[0]] + Insert(e, r[1..])
    else [e] + r
  }

  /** `sort(key=entry_ts, reverse=True)`, as a stable insertion sort. */
  function SortNewestFirst(s: seq<Entry>): seq<Entry>
  {
    if s == [] then [] else Insert(s[|s| - 1], SortNewestFirst(s[..|s| - 1]))
  }

  predicate NewestFirst(r: seq<Entry>)
  {
    forall i, j :: 0 <= i < j < |r| ==> r[i].ts >= r[j].ts
  }

  /** Insertion adds exactly the one item. */
  lemma {:induction false} InsertMultiset(e: Entry, r: seq<Entry>)
    ensures multiset(Insert(e, r)) == multiset(r) + multiset{e}
    decreases |r|
  {
    if r != [] && r[0].ts >= e.ts {
      InsertMultiset(e, r[1..]);
      assert r == [r[0]] + r[1..];
    }
  }

  /** Insertion adds the one item and keeps every other. */
  lemma InsertMembers(e: Entry, r: seq<Entry>)
    ensures forall y :: y in Insert(e, r) <==> y == e || y in r
  {
    InsertMultiset(e, r);
    forall y
      ensures y in Insert(e, r) <==> y == e || y in r
    {
      assert y in Insert(e, r) <==> y in multiset(Insert(e, r));
      assert y in r <==> y in multiset(r);
    }
  }

  /** The head of a newest-first list is at least as new as every item, and the rest is
      newest first too. */
  lemma NewestHead(r: seq<Entry>)
    requires NewestFirst(r) && r != []
    ensures forall y :: y in r ==> r[0].ts >= y.ts
    ensures NewestFirst(r[1..])
  {
    forall y | y in r
      ensures r[0].ts >= y.ts
    {
      var i :| 0 <= i < |r| && r[i] == y;
    }
    var t := r[1..];
    forall i, j | 0 <= i < j < |t|
      ensures t[i].ts >= t[j].ts
    {
      assert t[i] == r[i + 1] && t[j] == r[j + 1];
    }
  }

  lemma {:induction false} InsertSpec(e: Entry, r: seq<Entry>)
    requires NewestFirst(r)
    ensures NewestFirst(Insert(e, r))
    ensures multiset(Insert(e, r)) == multiset(r) + multiset{e}
    decreases |r|
  {
    InsertMultiset(e, r);
    if r != [] {
      NewestHead(r);
      if r[0].ts >= e.ts {
        InsertSpec(e, r[1..]);
        InsertMembers(e, r[1..]);
        NewestCons(r[0], Insert(e, r[1..]));
      } else {
        NewestCons(e, r);
      }
    }
  }

  /** An item at least as new as every item of a newest-first list can go in front of it. */
  lemma NewestCons(x: Entry, t: seq<Entry>)
    requires NewestFirst(t) && forall y :: y in t ==> x.ts >= y.ts
    ensures NewestFirst([x] + t)
  {
    var r := [x] + t;
    forall i, j | 0 <= i < j < |r|
      ensures r[i].ts >= r[j].ts
    {
      assert r[j] == t[j - 1];
      if i > 0 {
        assert r[i] == t[i - 1];
      }
    }
  }

  /** The sort puts the newest first and is a permutation. */
  lemma {:induction false} SortNewestFirstSpec(s: seq<Entry>)
    ensures NewestFirst(SortNewestFirst(s))
    ensures multiset(SortNewestFirst(s)) == multiset(s)
  {
    if s != [] {
      SortNewestFirstSpec(s[..|s| - 1]);
      InsertSpec(s[|s| - 1], SortNewestFirst(s[..|s| - 1]));
      assert s == s[..|s| - 1] + [s[|s| - 1]];
    }
  }

  /** No later item shares the head's uid, and the rest is uid-distinct too. */
  lemma DistinctHead(r: seq<Entry>)
    requires UidsDistinct(r) && r != []
    ensures forall y :: y in r[1..] ==> LegacyEntryUid(y) != LegacyEntryUid(r[0])
    ensures UidsDistinct(r[1..])
  {
    var t := r[1..];
    forall y | y in t
      ensures LegacyEntryUid(y) != LegacyEntryUid(r[0])
    {
      var i :| 0 <= i < |t| && t[i] == y;
      assert r[i + 1] == y;
    }
    forall i, j | 0 <= i < j < |t|
      ensures LegacyEntryUid(t[i]) != LegacyEntryUid(t[j])
    {
      assert t[i] == r[i + 1] && t[j] == r[j + 1];
    }
  }

  lemma {:induction false} InsertDistinct(e: Entry, r: seq<Entry>)
    requires UidsDistinct(r) && forall x :: x in r ==> LegacyEntryUid(x) != LegacyEntryUid(e)
    ensures UidsDistinct(Insert(e, r))
    ensures multiset(Insert(e, r)) == multiset(r) + multiset{e}
    decreases |r|
  {
    InsertMultiset(e, r);
    if r != [] {
      if r[0].ts >= e.ts {
        DistinctHead(r);
        assert forall x :: x in r[1..] ==> x in r;
        InsertDistinct(e, r[1..]);
        InsertMembers(e, r[1..]);
        DistinctCons(r[0], Insert(e, r[1..]));
      } else {
        DistinctCons(e, r);
      }
    }
  }

  /** An item whose uid no item of a uid-distinct list has can go in front of it. */
  lemma DistinctCons(x: Entry, t: seq<Entry>)
    requires UidsDistinct(t) && forall y :: y in t ==> LegacyEntryUid(y) != LegacyEntryUid(x)
    ensures UidsDistinct([x] + t)
  {
    var r := [x] + t;
    forall i, j | 0 <= i < j < |r|
      ensures LegacyEntryUid(r[i]) != LegacyEntryUid(r[j])
    {
      assert r[j] == t[j - 1];
      if i > 0 {
        assert r[i] == t[i - 1];
      }
    }
  }

  /** Sorting keeps the uids distinct. */
  lemma {:induction false} SortDistinct(s: seq<Entry>)
    requires UidsDistinct(s)
    ensures UidsDistinct(SortNewestFirst(s))
  {
    if s != [] {
      var init := s[..|s| - 1];
      var last := s[|s| - 1];
      SortDistinct(init);
      SortNewestFirstSpec(init);
      forall x | x in SortNewestFirst(init)
        ensures LegacyEntryUid(x) != LegacyEntryUid(last)
      {
        assert x in multiset(init);
        var i :| 0 <= i < |init| && init[i] == x;
        assert s[i] == x;
      }
      InsertDistinct(last, SortNewestFirst(init));
    }
  }

  /** `s[:n]` */
  function Take(s: seq<Entry>, n: nat): (r: seq<Entry>)
    ensures |r| == if |s| <= n then |s| else n
    ensures r == s[..|r|]
  {
    if |s| <= n then s else s[..n]
  }

  /** The dedup loop of `fetch_all_recent_entries`. */
  method DedupByUid(allEntries: seq<Entry>) returns (unique: seq<Entry>)
    ensures unique == Dedup(allEntries)
  {
    var seenUids: set<string> := {};
    unique := [];
    for i := 0 to |allEntries|
      invariant unique == Dedup(allEntries[..i])
      invariant seenUids == Uids(unique)
    {
      var e := allEntries[i];
      assert allEntries[..i + 1][..i] == allEntries[..i];
      var uid := LegacyEntryUid(e);
      if uid != "" && uid !in seenUids {
        seenUids := seenUids + {uid};
        unique := unique + [e];
      }
    }
    assert allEntries[..|allEntries|] == allEntries;
  }

  /** `fetch_all_recent_entries` on the items the feeds returned, in feed order: filter,
      deduplicate by uid, sort newest first, keep `maxEntries`. */
  method FetchAllRecentEntries(fetched: seq<Entry>, keywords: seq<string>, maxEntries: nat) returns (r: seq<Entry>)
    ensures r == Take(SortNewestFirst(Dedup(Matching(fetched, keywords))), maxEntries)
  {
    var allEntries := Matching(fetched, keywords);
    var unique := DedupByUid(allEntries);
    var sorted := SortNewestFirst(unique);
    r := Take(sorted, maxEntries);
  }

  /** What the fetch returns: at most `maxEntries` items, newest first, all from the feeds and
      passing the filter, with distinct non-empty uids. */
  lemma FetchSpec(fetched: seq<Entry>, keywords: seq<string>, maxEntries: nat)
    ensures var r := Take(SortNewestFirst(Dedup(Matching(fetched, keywords))), maxEntries);
            |r| <= maxEntries && NewestFirst(r) && UidsDistinct(r)
            && forall e :: e in r ==> e in fetched && MatchesFilter(e, keywords) && LegacyEntryUid(e) != ""
  {
    var d := Dedup(Matching(fetched, keywords));
    var sorted := SortNewestFirst(d);
    DedupMembers(Matching(fetched, keywords));
    DedupDistinct(Matching(fetched, keywords));
    SortNewestFirstSpec(d);
    SortDistinct(d);
    TakePrefix(sorted, maxEntries);
    forall e | e in sorted
      ensures e in fetched && MatchesFilter(e, keywords) && LegacyEntryUid(e) != ""
    {
      assert e in multiset(sorted);
    }
  }

  /** A prefix keeps the order, the distinct uids and only items of the list. */
  lemma TakePrefix(s: seq<Entry>, n: nat)
    ensures NewestFirst(s) ==> NewestFirst(Take(s, n))
    ensures UidsDistinct(s) ==> UidsDistinct(Take(s, n))
    ensures forall e :: e in Take(s, n) ==> e in s
  {
    var r := Take(s, n);
    assert forall i :: 0 <= i < |r| ==> r[i] == s[i];
  }

  // ---------------------------------------------------------------------------
  // The importance gate

  /** The verdict fields `should_send_article` reads; `None` for a missing key. */
  datatype LegacyVerdict = LegacyVerdict(isRelevant: Option<bool>, importance: Option<string>, impactRisk: Option<string>)

  /** `AI_FILTER_REQUIRE_RELEVANT`, `AI_FILTER_MIN_IMPORTANCE`, `AI_FILTER_MIN_IMPACT`. */
  datatype FilterConfig = FilterConfig(requireRelevant: bool, minImportance: string, minImpact: string)

  /** 낮음 (low) 1, 보통 (medium) 2, 높음 (high) 3; any other label counts as low. */
  function Rank(name: string): (r: nat)
    ensures 1 <= r <= 3
  {
    if name == "보통" then 2 else if name == "높음" then 3 else 1
  }

  /** The rank of a verdict field, low when it is missing. */
  function FieldRank(field: Option<string>): nat
  {
    if field.None? then Rank("낮음") else Rank(field.value)
  }

  /** `should_send_article`. `None` stands for a missing or empty verdict. */
  function ShouldSendArticle(j: Option<LegacyVerdict>, cfg: FilterConfig): (send: bool)
    ensures j.None? ==> send
  {
    if j.None? then true
    else if cfg.requireRelevant && j.value.isRelevant == Some(false) then false
    else if FieldRank(j.value.importance) < Rank(cfg.minImportance) then false
    else if FieldRank(j.value.impactRisk) < Rank(cfg.minImpact) then false
    else true
  }

  /** `cfg'` filters at least as much as `cfg`. */
  predicate Stricter(cfg': FilterConfig, cfg: FilterConfig)
  {
    (cfg.requireRelevant ==> cfg'.requireRelevant)
    && Rank(cfg'.minImportance) >= Rank(cfg.minImportance) && Rank(cfg'.minImpact) >= Rank(cfg.minImpact)
  }

  /** Whatever a stricter configuration sends, a laxer one sends too. */
  lemma StricterSendsLess(j: Option<LegacyVerdict>, cfg: FilterConfig, cfg': FilterConfig)
    requires Stricter(cfg', cfg) && ShouldSendArticle(j, cfg')
    ensures ShouldSendArticle(j, cfg)
  {
  }

  /** A verdict is sent exactly when it is not marked irrelevant under a relevance
      requirement and both of its ranks reach their minimums. */
  lemma ShouldSendArticleSpec(v: LegacyVerdict, cfg: FilterConfig)
    ensures ShouldSendArticle(Some(v), cfg) <==>
              !(cfg.requireRelevant && v.isRelevant == Some(false))
              && FieldRank(v.importance) >= Rank(cfg.minImportance) && FieldRank(v.impactRisk) >= Rank(cfg.minImpact)
  {
  }

  /** With the lowest minimums and no relevance requirement every verdict is sent, whatever
      its labels say. */
  lemma LowestMinimumsSendAll(j: Option<LegacyVerdict>, cfg: FilterConfig)
    requires !cfg.requireRelevant && Rank(cfg.minImportance) == 1 && Rank(cfg.minImpact) == 1
    ensures ShouldSendArticle(j, cfg)
  {
  }

  // ---------------------------------------------------------------------------
  // The brace scan of the older script

  /** What the older `judge_with_ai` hands on: the cut-out object text, or the raw reply. */
  datatype LegacyReply = JsonText(text: string) | RawResponse(reply: string)

  /** The fence stripping and brace scan of test.py. */
  function LegacyJudgment(reply: string): LegacyReply
  {
    ScanReply(StripFences(reply), reply)
  }

  /** The brace scan over the stripped reply `cleaned`; the `for ... else` branch gives the
      raw reply when no depth return to zero is found. */
  function ScanReply(cleaned: string, reply: string): LegacyReply
  {
    match JsonObject(cleaned)
    case None => RawResponse(reply)
    case Some(t) => JsonText(t)
  }

  /** The scan as the loop runs it. */
  method LegacyJudgmentText(reply: string) returns (r: LegacyReply)
    ensures r == LegacyJudgment(reply)
  {
    var cleaned := StripFences(reply);
    var found := FindJsonObject(cleaned);
    if found.Some? {
      r := JsonText(found.value);
    } else {
      r := RawResponse(reply);
    }
  }

  /** The cut-out text runs from a `{` to a `}`, and the raw reply is handed on exactly when
      no position of the stripped reply closes the scan. */
  lemma ScanReplyShape(cleaned: string, reply: string)
    ensures ScanReply(cleaned, reply).JsonText? ==>
              |ScanReply(cleaned, reply).text| >= 2 && ScanReply(cleaned, reply).text[0] == '{'
              && ScanReply(cleaned, reply).text[|ScanReply(cleaned, reply).text| - 1] == '}'
    ensures ScanReply(cleaned, reply).RawResponse? <==>
              forall k :: 0 <= k < |cleaned| ==> !ClosesAt(cleaned, k)
    ensures ScanReply(cleaned, reply).RawResponse? ==> ScanReply(cleaned, reply).reply == reply
  {
    var obj := JsonObject(cleaned);
  }

  /** Both scripts cut out the same object: the newer one only escapes the line breaks inside
      its strings afterwards. */
  lemma LegacyJudgmentAgrees(reply: string)
    ensures LegacyJudgment(reply).JsonText? ==>
              CleanedJson(reply) == Some(FixNewlines(LegacyJudgment(reply).text))
    ensures LegacyJudgment(reply).RawResponse? <==> CleanedJson(reply) == None
  {
  }

  // ---------------------------------------------------------------------------
  // The run

  /** The items `process_articles` works on: those with a uid not seen before. */
  function NewEntries(seen: set<string>, recent: seq<Entry>): (r: seq<Entry>)
    ensures forall e :: e in r <==> e in recent && LegacyEntryUid(e) != "" && LegacyEntryUid(e) !in seen
  {
    if recent == [] then []
    else
      var e := recent[|recent| - 1];
      assert recent == recent[..|recent| - 1] + [e];
      NewEntries(seen, recent[..|recent| - 1])
      + (if LegacyEntryUid(e) != "" && LegacyEntryUid(e) !in seen then [e] else [])
  }

  /** The verdict rejects the item: the classifier is on, returned a verdict, and the gate
      says no. */
  predicate Rejected(e: Entry, useAi: bool, judge: Entry -> Option<LegacyVerdict>, cfg: FilterConfig)
  {
    useAi && judge(e).Some? && !ShouldSendArticle(judge(e), cfg)
  }

  /** The seen set and the items posted after going through `news` in order: a rejected item
      is marked seen without a post, a posted item is marked seen, and an item whose post
      raises is left unseen. */
  function Processed(seen: set<string>, news: seq<Entry>, useAi: bool, judge: Entry -> Option<LegacyVerdict>,
                     post: Entry -> bool, cfg: FilterConfig): (set<string>, seq<Entry>)
  {
    if news == [] then (seen, [])
    else
      var (s, posted) := Processed(seen, news[..|news| - 1], useAi, judge, post, cfg);
      var e := news[|news| - 1];
      var uid := LegacyEntryUid(e);
      if uid == "" then (s, posted)
      else if Rejected(e, useAi, judge, cfg) then (s + {uid}, posted)
      else if post(e) then (s + {uid}, posted + [e])
      else (s, posted)
  }

  /** An item is posted exactly when it has a uid, is not rejected and its post succeeds. */
  lemma {:induction false} ProcessedPosts(seen: set<string>, news: seq<Entry>, useAi: bool,
                                          judge: Entry -> Option<LegacyVerdict>, post: Entry -> bool, cfg: FilterConfig)
    ensures var posted := Processed(seen, news, useAi, judge, post, cfg).1;
            |posted| <= |news|
            && forall e :: e in posted <==>
                 e in news && LegacyEntryUid(e) != "" && !Rejected(e, useAi, judge, cfg) && post(e)
  {
    if news != [] {
      ProcessedPosts(seen, news[..|news| - 1], useAi, judge, post, cfg);
      assert news == news[..|news| - 1] + [news[|news| - 1]];
    }
  }

  /** A uid is seen afterwards exactly when it was before, or some item with it was rejected
      or posted. */
  lemma {:induction false} ProcessedSeen(seen: set<string>, news: seq<Entry>, useAi: bool,
                                         judge: Entry -> Option<LegacyVerdict>, post: Entry -> bool, cfg: FilterConfig)
    ensures forall u :: u in Processed(seen, news, useAi, judge, post, cfg).0 <==>
              u in seen || exists k :: 0 <= k < |news| && LegacyEntryUid(news[k]) == u && u != ""
                             && (Rejected(news[k], useAi, judge, cfg) || post(news[k]))
  {
    if news != [] {
      var init := news[..|news| - 1];
      ProcessedSeen(seen, init, useAi, judge, post, cfg);
      forall u
        ensures u in Processed(seen, news, useAi, judge, post, cfg).0 <==>
                u in seen || exists k :: 0 <= k < |news| && LegacyEntryUid(news[k]) == u && u != ""
                               && (Rejected(news[k], useAi, judge, cfg) || post(news[k]))
      {
        if exists k :: 0 <= k < |init| && LegacyEntryUid(init[k]) == u && u != ""
                       && (Rejected(init[k], useAi, judge, cfg) || post(init[k])) {
          var k :| 0 <= k < |init| && LegacyEntryUid(init[k]) == u && u != ""
                   && (Rejected(init[k], useAi, judge, cfg) || post(init[k]));
          assert news[k] == init[k];
        }
        if exists k :: 0 <= k < |news| && LegacyEntryUid(news[k]) == u && u != ""
                       && (Rejected(news[k], useAi, judge, cfg) || post(news[k])) {
          var k :| 0 <= k < |news| && LegacyEntryUid(news[k]) == u && u != ""
                   && (Rejected(news[k], useAi, judge, cfg) || post(news[k]));
          if k < |init| {
            assert init[k] == news[k];
          }
        }
      }
    }
  }

  /** An item whose post raises stays unseen, so the next run tries it again, when no other
      item shares its uid. */
  lemma FailedPostStaysUnseen(seen: set<string>, news: seq<Entry>, useAi: bool,
                              judge: Entry -> Option<LegacyVerdict>, post: Entry -> bool, cfg: FilterConfig, k: nat)
    requires k < |news| && UidsDistinct(news) && LegacyEntryUid(news[k]) !in seen
    requires !Rejected(news[k], useAi, judge, cfg) && !post(news[k])
    ensures LegacyEntryUid(news[k]) !in Processed(seen, news, useAi, judge, post, cfg).0
  {
    ProcessedSeen(seen, news, useAi, judge, post, cfg);
  }

  /** `set(state.get("seen", []))` */
  function AsSet(l: seq<string>): set<string>
  {
    set x | x in l
  }

  /** The saved seen list keeps at most 2000 uids. */
  const MaxSeen: nat := 2000

  /** The older script's state: the `seen` list of its state file, and the working set and
      counter of a run. */
  class LegacyRun {
    var stored: seq<string>
    var seen: set<string>
    var sentCount: nat

    constructor (stored: seq<string>)
      ensures this.stored == stored && seen == {} && sentCount == 0
    {
      this.stored := stored;
      seen := {};
      sentCount := 0;
    }

    /** `list(seen)`: the set's elements in an order the model leaves open. */
    static method Listing(s: set<string>) returns (l: seq<string>)
      ensures |l| == |s| && forall x :: x in l <==> x in s
      ensures forall i, j :: 0 <= i < j < |l| ==> l[i] != l[j]
    {
      l := [];
      var rest := s;
      while rest != {}
        invariant rest <= s && |l| + |rest| == |s|
        invariant forall x :: x in l <==> x in s && x !in rest
        invariant forall i, j :: 0 <= i < j < |l| ==> l[i] != l[j]
        decreases |rest|
      {
        var x :| x in rest;
        l := l + [x];
        rest := rest - {x};
      }
    }

    /** The items whose uid is not seen yet, in order. */
    method SelectNew(recent: seq<Entry>) returns (news: seq<Entry>)
      ensures news == NewEntries(seen, recent)
    {
      news := [];
      for i := 0 to |recent|
        invariant news == NewEntries(seen, recent[..i])
      {
        assert recent[..i + 1][..i] == recent[..i];
        var uid := LegacyEntryUid(recent[i]);
        if uid != "" && uid !in seen {
          news := news + [recent[i]];
        }
      }
      assert recent[..|recent|] == recent;
    }

    /** The loop over the new items: judge, gate, post, and mark seen. */
    method JudgeAndPost(news: seq<Entry>, useAi: bool, judge: Entry -> Option<LegacyVerdict>,
                        post: Entry -> bool, cfg: FilterConfig)
      modifies this
      ensures seen == Processed(old(seen), news, useAi, judge, post, cfg).0
      ensures sentCount == |Processed(old(seen), news, useAi, judge, post, cfg).1|
      ensures stored == old(stored)
    {
      sentCount := 0;
      for i := 0 to |news|
        invariant seen == Processed(old(seen), news[..i], useAi, judge, post, cfg).0
        invariant sentCount == |Processed(old(seen), news[..i], useAi, judge, post, cfg).1|
        invariant stored == old(stored)
      {
        var entry := news[i];
        assert news[..i + 1][..i] == news[..i];
        var uid := LegacyEntryUid(entry);
        if uid == "" {
          continue;
        }
        var judgment: Option<LegacyVerdict> := None;
        if useAi {
          judgment := judge(entry);
          if judgment.Some? {
            if !ShouldSendArticle(judgment, cfg) {
              seen := seen + {uid};
              continue;
            }
          }
        }
        // the notifier; false stands for a post that raised
        if post(entry) {
          seen := seen + {uid};
          sentCount := sentCount + 1;
        } else {
          continue;
        }
      }
      assert news[..|news|] == news;
    }

    /** `process_articles`, with the fetched items, the classifier and the notifier as
        inputs; `post` answers false when posting raises. */
    method ProcessArticles(recent: seq<Entry>, useAi: bool, judge: Entry -> Option<LegacyVerdict>,
                           post: Entry -> bool, cfg: FilterConfig) returns (count: nat)
      modifies this
      ensures var news := NewEntries(AsSet(old(stored)), recent);
              (recent == [] || news == []) ==> count == 0 && stored == old(stored)
      ensures var news := NewEntries(AsSet(old(stored)), recent);
              var (seen', posted) := Processed(AsSet(old(stored)), news, useAi, judge, post, cfg);
              recent != [] && news != [] ==>
                count == |posted| && |stored| == (if |seen'| <= MaxSeen then |seen'| else MaxSeen)
                && (forall i, j :: 0 <= i < j < |stored| ==> stored[i] != stored[j])
                && (forall x :: x in stored ==> x in seen')
                && (|seen'| <= MaxSeen ==> forall x :: x in seen' ==> x in stored)
    {
      seen := AsSet(stored);
      if recent == [] {
        return 0;
      }
      var news := SelectNew(recent);
      if news == [] {
        return 0;
      }
      JudgeAndPost(news, useAi, judge, post, cfg);
      Save();
      count := sentCount;
    }

    /** `state["seen"] = list(seen)[-2000:]`: exactly min(|seen|, 2000) distinct uids, all of
        them seen, and all of the seen set when it fits. */
    method Save()
      modifies this
      ensures seen == old(seen) && sentCount == old(sentCount)
      ensures |stored| == if |seen| <= MaxSeen then |seen| else MaxSeen
      ensures forall i, j :: 0 <= i < j < |stored| ==> stored[i] != stored[j]
      ensures forall x :: x in stored ==> x in seen
      ensures |seen| <= MaxSeen ==> forall x :: x in seen ==> x in stored
    {
      var listing := Listing(seen);
      stored := KeepNewest(listing, MaxSeen);
      KeepNewestWithin(listing, MaxSeen);
      var k := |listing| - |stored|;
      forall i, j | 0 <= i < j < |stored|
        ensures stored[i] != stored[j]
      {
        assert stored[i] == listing[k + i] && stored[j] == listing[k + j];
      }
    }
  }
}
