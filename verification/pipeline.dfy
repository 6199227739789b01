/** One run of `process_articles_ai_driven`: the history filter against earlier runs, the
    in-batch suppression, the two-pass classification gate, the check against what this run
    already sent, and the write-back of the state. The classifier passes are oracles given as
    functions of the item; the notifier is not modelled. */
module Pipeline {
  import opened Text
  import opened Titles
  import opened Urls
  import opened Feed
  import opened StateStore
  import opened Batch
  import opened Correlator

  /** What earlier runs left behind, as the history filter reads it. */
  datatype Memory = Memory(seen: set<string>, seenTitles: set<string>, seenOriginalTitles: seq<string>, seenLinks: set<string>)

  /** The saved `seen_original_titles` keeps the newest 1000 titles. */
  const MaxSeenOriginalTitles: nat := 1000

  /** The canonical key of an item's link; the empty string when it has none. */
  function LinkKey(e: Entry, parse: Parser): string
  {
    NormalizeUrlSpec(e.link, parse)
  }

  // ---------------------------------------------------------------------------
  // Stage 1: the history filter

  /** Some remembered original title is similar to `title` at the default threshold. */
  predicate SimilarToAny(title: string, titles: seq<string>)
  {
    exists k :: 0 <= k < |titles| && IsSimilarTitle(title, titles[k], BatchThreshold)
  }

  /** The item is new to the history: its link key, uid and title key are unknown (each only
      when non-empty) and no remembered original title is similar to its title. */
  predicate Fresh(m: Memory, e: Entry, parse: Parser)
  {
    !(LinkKey(e, parse) != "" && LinkKey(e, parse) in m.seenLinks)
    && !(EntryUid(e) != "" && EntryUid(e) in m.seen)
    && !(NormalizeTitle(e.title) != "" && NormalizeTitle(e.title) in m.seenTitles)
    && !SimilarToAny(e.title, m.seenOriginalTitles)
  }

  /** The fresh items, in their order. */
  function FreshEntries(m: Memory, es: seq<Entry>, parse: Parser): seq<Entry>
  {
    if es == [] then []
    else FreshEntries(m, es[..|es| - 1], parse) + (if Fresh(m, es[|es| - 1], parse) then [es[|es| - 1]] else [])
  }

  /** An item is a candidate exactly when it is fresh, and the filter never adds items. */
  lemma {:induction false} FreshEntriesSpec(m: Memory, es: seq<Entry>, parse: Parser)
    ensures forall e :: e in FreshEntries(m, es, parse) <==> e in es && Fresh(m, e, parse)
    ensures |FreshEntries(m, es, parse)| <= |es|
  {
    if es != [] {
      var init, last := es[..|es| - 1], es[|es| - 1];
      FreshEntriesSpec(m, init, parse);
      assert es == init + [last];
      forall e
        ensures e in FreshEntries(m, es, parse) <==> e in es && Fresh(m, e, parse)
      {
        assert e in es <==> e in init || e == last;
      }
    }
  }

  /** Filtering commutes with concatenation, so the candidates keep their input order. */
  lemma {:induction false} FreshEntriesAppend(m: Memory, a: seq<Entry>, b: seq<Entry>, parse: Parser)
    ensures FreshEntries(m, a + b, parse) == FreshEntries(m, a, parse) + FreshEntries(m, b, parse)
    decreases |b|
  {
    if b == [] {
      assert a + b == a;
    } else {
      var b' := b[..|b| - 1];
      assert (a + b)[..|a + b| - 1] == a + b';
      assert (a + b)[|a + b| - 1] == b[|b| - 1];
      FreshEntriesAppend(m, a, b', parse);
    }
  }

  /** One more item is kept exactly when it is fresh. */
  lemma FreshEntriesSnoc(m: Memory, es: seq<Entry>, e: Entry, parse: Parser)
    ensures FreshEntries(m, es + [e], parse) == FreshEntries(m, es, parse) + (if Fresh(m, e, parse) then [e] else [])
  {
    assert (es + [e])[..|es|] == es;
  }

  // ---------------------------------------------------------------------------
  // Stage 3, first pass: what a judged item leaves in the memory

  /** Remember a judged item: its uid, title key, original title and link key, each only when
      non-empty. */
  function Mark(m: Memory, e: Entry, parse: Parser): Memory
  {
    MarkKeys(m, EntryUid(e), NormalizeTitle(e.title), e.title, LinkKey(e, parse))
  }

  function MarkKeys(m: Memory, uid: string, key: string, title: string, link: string): Memory
  {
    Memory(
      if uid != "" then m.seen + {uid} else m.seen,
      if key != "" then m.seenTitles + {key} else m.seenTitles,
      if title != "" then m.seenOriginalTitles + [title] else m.seenOriginalTitles,
      if link != "" then m.seenLinks + {link} else m.seenLinks)
  }

  /** The memory after the first pass: only items the first pass returned a verdict for are
      remembered. */
  function Judged(m: Memory, es: seq<Entry>, judge1: Entry -> Option<Judgment>, parse: Parser): Memory
  {
    if es == [] then m
    else
      var m' := Judged(m, es[..|es| - 1], judge1, parse);
      if judge1(es[|es| - 1]).Some? then Mark(m', es[|es| - 1], parse) else m'
  }

  /** The items, with their verdicts, the first pass hands to the second. */
  function FirstCandidates(es: seq<Entry>, judge1: Entry -> Option<Judgment>): seq<(Entry, Judgment)>
  {
    if es == [] then []
    else
      var e := es[|es| - 1];
      FirstCandidates(es[..|es| - 1], judge1)
      + (if judge1(e).Some? && IsSendDecision(judge1(e).value) then [(e, judge1(e).value)] else [])
  }

  /** A uid is remembered after the first pass exactly when it was before or some item with a
      verdict has it: an item without a verdict leaves no uid behind. */
  lemma JudgedSeenExactly(m: Memory, es: seq<Entry>, judge1: Entry -> Option<Judgment>, parse: Parser)
    ensures forall x :: x in Judged(m, es, judge1, parse).seen <==>
              x in m.seen || exists k :: 0 <= k < |es| && judge1(es[k]).Some? && EntryUid(es[k]) == x && x != ""
  {
    forall x | x in Judged(m, es, judge1, parse).seen && x !in m.seen
      ensures exists k :: 0 <= k < |es| && judge1(es[k]).Some? && EntryUid(es[k]) == x && x != ""
    {
      JudgedOnlyRemembers(m, es, judge1, parse, x);
    }
    forall k | 0 <= k < |es| && judge1(es[k]).Some? && EntryUid(es[k]) != ""
      ensures EntryUid(es[k]) in Judged(m, es, judge1, parse).seen
    {
      JudgedRemembers(m, es, judge1, parse, k);
    }
    JudgedGrows(m, es, judge1, parse);
  }

  /** The first pass only adds to what is remembered. */
  lemma {:induction false} JudgedGrows(m: Memory, es: seq<Entry>, judge1: Entry -> Option<Judgment>, parse: Parser)
    ensures var r := Judged(m, es, judge1, parse);
            m.seen <= r.seen && m.seenTitles <= r.seenTitles && m.seenLinks <= r.seenLinks
            && m.seenOriginalTitles <= r.seenOriginalTitles
  {
    if es != [] {
      JudgedGrows(m, es[..|es| - 1], judge1, parse);
    }
  }

  lemma {:induction false} JudgedRemembers(m: Memory, es: seq<Entry>, judge1: Entry -> Option<Judgment>, parse: Parser, k: nat)
    requires k < |es| && judge1(es[k]).Some? && EntryUid(es[k]) != ""
    ensures EntryUid(es[k]) in Judged(m, es, judge1, parse).seen
    decreases |es|
  {
    var init := es[..|es| - 1];
    if k < |es| - 1 {
      assert init[k] == es[k];
      JudgedRemembers(m, init, judge1, parse, k);
    }
  }

  lemma {:induction false} JudgedOnlyRemembers(m: Memory, es: seq<Entry>, judge1: Entry -> Option<Judgment>, parse: Parser, x: string)
    requires x in Judged(m, es, judge1, parse).seen && x !in m.seen
    ensures exists k :: 0 <= k < |es| && judge1(es[k]).Some? && EntryUid(es[k]) == x && x != ""
    decreases |es|
  {
    if es == [] {
      assert false;
    } else {
      var init := es[..|es| - 1];
      var last := |es| - 1;
      if x in Judged(m, init, judge1, parse).seen {
        JudgedOnlyRemembers(m, init, judge1, parse, x);
        var k :| 0 <= k < |init| && judge1(init[k]).Some? && EntryUid(init[k]) == x && x != "";
        assert es[k] == init[k];
      } else {
        assert 0 <= last < |es| && judge1(es[last]).Some? && EntryUid(es[last]) == x && x != "";
      }
    }
  }

  /** With no verdict at all the first pass leaves the memory as it was. */
  lemma {:induction false} UnjudgedLeavesMemory(m: Memory, es: seq<Entry>, judge1: Entry -> Option<Judgment>, parse: Parser)
    requires forall k :: 0 <= k < |es| ==> judge1(es[k]).None?
    ensures Judged(m, es, judge1, parse) == m
  {
    if es != [] {
      UnjudgedLeavesMemory(m, es[..|es| - 1], judge1, parse);
    }
  }

  /** A pair reaches the second pass exactly when its item is in the batch, the first pass
      returned that verdict for it, and the verdict says SCRAPE or WATCHLIST. */
  lemma {:induction false} FirstCandidatesSpec(es: seq<Entry>, judge1: Entry -> Option<Judgment>)
    ensures forall p :: p in FirstCandidates(es, judge1) <==>
              p.0 in es && judge1(p.0) == Some(p.1) && IsSendDecision(p.1)
  {
    if es != [] {
      FirstCandidatesSpec(es[..|es| - 1], judge1);
      assert es == es[..|es| - 1] + [es[|es| - 1]];
    }
  }

  /** What the write-back stores: the memory with the original titles cut to the newest 1000. */
  function SavedMemory(m: Memory): Memory
  {
    m.(seenOriginalTitles := KeepNewest(m.seenOriginalTitles, MaxSeenOriginalTitles))
  }

  /** An item the first pass judged is skipped by the history filter of every later run that
      starts from the saved state, as long as it has a uid. */
  lemma JudgedSkippedNextRun(m: Memory, es: seq<Entry>, judge1: Entry -> Option<Judgment>, parse: Parser, k: nat)
    requires k < |es| && judge1(es[k]).Some? && EntryUid(es[k]) != ""
    ensures !Fresh(SavedMemory(Judged(m, es, judge1, parse)), es[k], parse)
  {
    JudgedSeenExactly(m, es, judge1, parse);
    assert EntryUid(es[k]) in Judged(m, es, judge1, parse).seen;
  }

  // ---------------------------------------------------------------------------
  // Stage 3, second pass, and stage 4: the gate and the ledger

  /** What the full-text pass does: return a verdict or nothing, or raise with a message. */
  datatype SecondVerdict = Returned(judgment: Option<Judgment>) | Raised(message: string)

  /** The verdict the gate uses: the second one when there is one, else the first. */
  function Effective(first: Judgment, v: SecondVerdict): Judgment
  {
    match v
    case Returned(Some(j)) => j
    case _ => first
  }

  /** The error record a failed second pass logs. */
  function Failure(e: Entry, v: SecondVerdict, now: string): seq<ErrorRecord>
  {
    match v
    case Returned(None) => [ErrorRecord(now, "ai_judgment_failed", e.title, e.link, "2차 AI 판단 실패")]
    case Raised(message) => [ErrorRecord(now, "ai_judgment_error", e.title, e.link, message)]
    case Returned(Some(_)) => []
  }

  /** The ledger of sent items with their verdicts, the sent link keys, and the errors logged. */
  datatype Dispatch = Dispatch(ledger: seq<(Entry, Judgment)>, links: set<string>, errors: seq<ErrorRecord>)

  /** One candidate through the gate: it is sent when its verdict says so and no ledger entry
      matches it; a sent item joins the ledger and its link key the sent links. */
  function Step(d: Dispatch, c: (Entry, Judgment), v: SecondVerdict, now: string, parse: Parser): Dispatch
  {
    var e := c.0;
    var j := Effective(c.1, v);
    var errors := d.errors + Failure(e, v, now);
    if ShouldSendAiDriven(Some(j)) && !AlreadySent(e, j, d.ledger) then
      var link := LinkKey(e, parse);
      Dispatch(d.ledger + [(e, j)], if link != "" then d.links + {link} else d.links, errors)
    else
      Dispatch(d.ledger, d.links, errors)
  }

  /** All candidates through the gate, in order. */
  function Dispatched(d: Dispatch, cs: seq<(Entry, Judgment)>, judge2: Entry -> SecondVerdict, now: string, parse: Parser): Dispatch
  {
    if cs == [] then d
    else
      var c := cs[|cs| - 1];
      Step(Dispatched(d, cs[..|cs| - 1], judge2, now, parse), c, judge2(c.0), now, parse)
  }

  /** No ledger entry matches an earlier one. */
  predicate NoRepeats(ledger: seq<(Entry, Judgment)>)
  {
    forall k, l :: 0 <= k < l < |ledger| ==> !MatchesSent(ledger[l].0, ledger[l].1, ledger[k].0, ledger[k].1)
  }

  /** Every ledger entry has a verdict that sends it. */
  predicate AllSendable(ledger: seq<(Entry, Judgment)>)
  {
    forall k :: 0 <= k < |ledger| ==> ShouldSendAiDriven(Some(ledger[k].1))
  }

  /** One step either appends the candidate with the verdict it ends up with, which is then
      sendable and matches nothing in the ledger, adding its link key to the sent links, or
      leaves the ledger and the sent links alone. */
  lemma StepShape(d: Dispatch, c: (Entry, Judgment), v: SecondVerdict, now: string, parse: Parser)
    ensures var r := Step(d, c, v, now, parse);
            var j := Effective(c.1, v);
            (ShouldSendAiDriven(Some(j)) && !AlreadySent(c.0, j, d.ledger)
             && r.ledger == d.ledger + [(c.0, j)]
             && r.links == (if LinkKey(c.0, parse) != "" then d.links + {LinkKey(c.0, parse)} else d.links))
            || (r.ledger == d.ledger && r.links == d.links)
  {
  }

  /** The gate keeps the ledger free of repeats and of unsendable verdicts, and only appends
      to it, at most one entry per candidate. */
  lemma {:induction false} DispatchedClean(d: Dispatch, cs: seq<(Entry, Judgment)>, judge2: Entry -> SecondVerdict, now: string, parse: Parser)
    requires NoRepeats(d.ledger) && AllSendable(d.ledger)
    ensures var r := Dispatched(d, cs, judge2, now, parse);
            NoRepeats(r.ledger) && AllSendable(r.ledger) && d.ledger <= r.ledger
            && |r.ledger| <= |d.ledger| + |cs|
  {
    if cs != [] {
      var c := cs[|cs| - 1];
      DispatchedClean(d, cs[..|cs| - 1], judge2, now, parse);
      var p := Dispatched(d, cs[..|cs| - 1], judge2, now, parse);
      var r := Step(p, c, judge2(c.0), now, parse);
      StepShape(p, c, judge2(c.0), now, parse);
      if r.ledger != p.ledger {
        var j := Effective(c.1, judge2(c.0));
        forall k, l | 0 <= k < l < |r.ledger|
          ensures !MatchesSent(r.ledger[l].0, r.ledger[l].1, r.ledger[k].0, r.ledger[k].1)
        {
          assert r.ledger[k] == p.ledger[k];
          if l < |p.ledger| {
            assert r.ledger[l] == p.ledger[l];
          }
        }
      }
    }
  }

  /** Everything the gate appends is a candidate with the verdict the gate used for it. */
  lemma {:induction false} DispatchedFromCandidates(d: Dispatch, cs: seq<(Entry, Judgment)>, judge2: Entry -> SecondVerdict, now: string, parse: Parser)
    ensures var r := Dispatched(d, cs, judge2, now, parse);
            d.ledger <= r.ledger
            && forall k :: |d.ledger| <= k < |r.ledger| ==>
                 exists i :: 0 <= i < |cs| && r.ledger[k] == (cs[i].0, Effective(cs[i].1, judge2(cs[i].0)))
  {
    if cs != [] {
      var init := cs[..|cs| - 1];
      var c := cs[|cs| - 1];
      DispatchedFromCandidates(d, init, judge2, now, parse);
      var p := Dispatched(d, init, judge2, now, parse);
      var r := Step(p, c, judge2(c.0), now, parse);
      StepShape(p, c, judge2(c.0), now, parse);
      forall k | |d.ledger| <= k < |r.ledger|
        ensures exists i :: 0 <= i < |cs| && r.ledger[k] == (cs[i].0, Effective(cs[i].1, judge2(cs[i].0)))
      {
        if k < |p.ledger| {
          assert r.ledger[k] == p.ledger[k];
          var i :| 0 <= i < |init| && p.ledger[k] == (init[i].0, Effective(init[i].1, judge2(init[i].0)));
          assert cs[i] == init[i];
        } else {
          assert r.ledger[k] == (cs[|cs| - 1].0, Effective(cs[|cs| - 1].1, judge2(cs[|cs| - 1].0)));
        }
      }
    }
  }

  /** The sent links gain exactly the non-empty link keys of what the gate appends. */
  lemma DispatchedLinks(d: Dispatch, cs: seq<(Entry, Judgment)>, judge2: Entry -> SecondVerdict, now: string, parse: Parser)
    ensures var r := Dispatched(d, cs, judge2, now, parse);
            d.ledger <= r.ledger
            && forall x :: x in r.links <==>
                 x in d.links || exists k :: |d.ledger| <= k < |r.ledger| && LinkKey(r.ledger[k].0, parse) == x && x != ""
  {
    var r := Dispatched(d, cs, judge2, now, parse);
    DispatchedLinksGrow(d, cs, judge2, now, parse);
    forall x | x in r.links && x !in d.links
      ensures exists k :: |d.ledger| <= k < |r.ledger| && LinkKey(r.ledger[k].0, parse) == x && x != ""
    {
      DispatchedOnlySentLinks(d, cs, judge2, now, parse, x);
    }
    forall k | |d.ledger| <= k < |r.ledger| && LinkKey(r.ledger[k].0, parse) != ""
      ensures LinkKey(r.ledger[k].0, parse) in r.links
    {
      DispatchedSentLinks(d, cs, judge2, now, parse, k);
    }
  }

  lemma {:induction false} DispatchedLinksGrow(d: Dispatch, cs: seq<(Entry, Judgment)>, judge2: Entry -> SecondVerdict, now: string, parse: Parser)
    ensures var r := Dispatched(d, cs, judge2, now, parse);
            d.ledger <= r.ledger && d.links <= r.links
  {
    if cs != [] {
      var c := cs[|cs| - 1];
      DispatchedLinksGrow(d, cs[..|cs| - 1], judge2, now, parse);
      StepShape(Dispatched(d, cs[..|cs| - 1], judge2, now, parse), c, judge2(c.0), now, parse);
    }
  }

  lemma {:induction false} DispatchedSentLinks(d: Dispatch, cs: seq<(Entry, Judgment)>, judge2: Entry -> SecondVerdict, now: string, parse: Parser, k: nat)
    requires var r := Dispatched(d, cs, judge2, now, parse);
             |d.ledger| <= k < |r.ledger| && LinkKey(r.ledger[k].0, parse) != ""
    ensures var r := Dispatched(d, cs, judge2, now, parse);
            LinkKey(r.ledger[k].0, parse) in r.links
  {
    var c := cs[|cs| - 1];
    var p := Dispatched(d, cs[..|cs| - 1], judge2, now, parse);
    var r := Step(p, c, judge2(c.0), now, parse);
    StepShape(p, c, judge2(c.0), now, parse);
    if k < |p.ledger| {
      assert r.ledger[k] == p.ledger[k];
      DispatchedSentLinks(d, cs[..|cs| - 1], judge2, now, parse, k);
    }
  }

  lemma {:induction false} DispatchedOnlySentLinks(d: Dispatch, cs: seq<(Entry, Judgment)>, judge2: Entry -> SecondVerdict, now: string, parse: Parser, x: string)
    requires x in Dispatched(d, cs, judge2, now, parse).links && x !in d.links
    ensures var r := Dispatched(d, cs, judge2, now, parse);
            exists k :: |d.ledger| <= k < |r.ledger| && LinkKey(r.ledger[k].0, parse) == x && x != ""
  {
    if cs == [] {
      assert false;
    } else {
      var c := cs[|cs| - 1];
      var p := Dispatched(d, cs[..|cs| - 1], judge2, now, parse);
      var r := Step(p, c, judge2(c.0), now, parse);
      StepShape(p, c, judge2(c.0), now, parse);
      DispatchedLinksGrow(d, cs[..|cs| - 1], judge2, now, parse);
      if x in p.links {
        DispatchedOnlySentLinks(d, cs[..|cs| - 1], judge2, now, parse, x);
        var k :| |d.ledger| <= k < |p.ledger| && LinkKey(p.ledger[k].0, parse) == x && x != "";
        assert r.ledger[k] == p.ledger[k];
      } else {
        var k := |p.ledger|;
        assert |d.ledger| <= k < |r.ledger| && LinkKey(r.ledger[k].0, parse) == x && x != "";
      }
    }
  }

  /** A candidate whose full-text pass fails falls back to its first verdict, which was
      SCRAPE or WATCHLIST, so it is still sent unless the ledger already covers it. */
  lemma FallbackStillSends(first: Judgment, v: SecondVerdict)
    requires IsSendDecision(first) && !(v.Returned? && v.judgment.Some?)
    ensures Effective(first, v) == first && ShouldSendAiDriven(Some(Effective(first, v)))
  {
    ShouldSendMatchesCandidacy(first);
  }

  /** What a run ends with. */
  datatype Outcome = NoEntries | NoNewEntries | Saved(sent: nat)

  /** The memory a state holds. */
  function Stored(s: State): Memory
    reads s
  {
    Memory(s.seen, s.seenTitles, s.seenOriginalTitles, s.seenLinks)
  }

  /** One run: the working copies of the state collections, the ledger of this run, and the
      state and error log it writes to. */
  class Run {
    var seen: set<string>
    var seenTitles: set<string>
    var seenOriginalTitles: seq<string>
    var seenLinks: set<string>
    var sentLinks: set<string>
    var sentEntries: seq<(Entry, Judgment)>
    var sentCount: nat
    const state: State
    const log: ErrorLog
    const parse: Parser

    constructor (state: State, log: ErrorLog, parse: Parser)
      ensures this.state == state && this.log == log && this.parse == parse
      ensures sentEntries == [] && sentCount == 0
    {
      this.state := state;
      this.log := log;
      this.parse := parse;
      seen, seenTitles, seenOriginalTitles, seenLinks, sentLinks := {}, {}, [], {}, {};
      sentEntries, sentCount := [], 0;
    }

    /** The working memory. */
    function Working(): Memory
      reads this
    {
      Memory(seen, seenTitles, seenOriginalTitles, seenLinks)
    }

    /** The loop over the remembered original titles. */
    method SimilarToSeen(title: string) returns (dup: bool)
      ensures dup <==> SimilarToAny(title, seenOriginalTitles)
    {
      for k := 0 to |seenOriginalTitles|
        invariant forall n :: 0 <= n < k ==> !IsSimilarTitle(title, seenOriginalTitles[n], BatchThreshold)
      {
        if IsSimilarTitle(title, seenOriginalTitles[k], BatchThreshold) {
          return true;
        }
      }
      return false;
    }

    /** Stage 1: keep the fresh items, in order. */
    method HistoryFilter(entries: seq<Entry>) returns (candidates: seq<Entry>)
      ensures candidates == FreshEntries(Working(), entries, parse)
    {
      candidates := [];
      for i := 0 to |entries|
        invariant candidates == FreshEntries(Working(), entries[..i], parse)
      {
        assert entries[..i + 1] == entries[..i] + [entries[i]];
        FreshEntriesSnoc(Working(), entries[..i], entries[i], parse);
        var isFresh := IsFresh(entries[i]);
        if isFresh {
          candidates := candidates + [entries[i]];
        }
      }
      assert entries[..|entries|] == entries;
    }

    /** The checks of the history filter for one item, in the order the script makes them. */
    method IsFresh(e: Entry) returns (isFresh: bool)
      ensures isFresh == Fresh(Working(), e, parse)
    {
      if e.link != "" {
        var link := NormalizeUrl(e.link, parse);
        if link != "" && link in seenLinks {
          return false;
        }
      }
      var uid := EntryUid(e);
      var key := NormalizeTitle(e.title);
      if uid != "" && uid in seen {
        return false;
      }
      if key != "" && key in seenTitles {
        return false;
      }
      var dup := SimilarToSeen(e.title);
      return !dup;
    }

    /** The canonical key of an item's link, computed only when the link is not empty. */
    method LinkKeyOf(e: Entry) returns (link: string)
      ensures link == LinkKey(e, parse)
    {
      link := "";
      if e.link != "" {
        link := NormalizeUrl(e.link, parse);
      }
    }

    /** Stage 3, first pass: every item with a verdict is remembered, and those whose
        decision (SKIP when missing) is SCRAPE or WATCHLIST go on with their verdict. */
    method FirstPass(finals: seq<Entry>, judge1: Entry -> Option<Judgment>) returns (firstCandidates: seq<(Entry, Judgment)>)
      modifies this
      ensures Working() == Judged(old(Working()), finals, judge1, parse)
      ensures firstCandidates == FirstCandidates(finals, judge1)
      ensures sentLinks == old(sentLinks) && sentEntries == old(sentEntries) && sentCount == old(sentCount)
    {
      firstCandidates := [];
      for i := 0 to |finals|
        invariant Working() == Judged(old(Working()), finals[..i], judge1, parse)
        invariant firstCandidates == FirstCandidates(finals[..i], judge1)
        invariant sentLinks == old(sentLinks) && sentEntries == old(sentEntries) && sentCount == old(sentCount)
      {
        var e := finals[i];
        assert finals[..i + 1][..i] == finals[..i];
        var uid := EntryUid(e);
        var key := NormalizeTitle(e.title);
        var judgment := judge1(e);
        if judgment.None? {
          continue;
        }
        var decision := if judgment.value.decision.Some? then judgment.value.decision.value else "SKIP";
        if decision == "SCRAPE" || decision == "WATCHLIST" {
          firstCandidates := firstCandidates + [(e, judgment.value)];
        }
        var link := LinkKeyOf(e);
        Remember(uid, key, e.title, link);
      }
      assert finals[..|finals|] == finals;
    }

    /** The state update for one judged item. */
    method Remember(uid: string, key: string, title: string, link: string)
      modifies this
      ensures Working() == MarkKeys(old(Working()), uid, key, title, link)
      ensures sentLinks == old(sentLinks) && sentEntries == old(sentEntries) && sentCount == old(sentCount)
    {
      if uid != "" {
        seen := seen + {uid};
      }
      if key != "" {
        seenTitles := seenTitles + {key};
      }
      if title != "" {
        seenOriginalTitles := seenOriginalTitles + [title];
      }
      if link != "" {
        seenLinks := seenLinks + {link};
      }
    }

    /** Stage 3, second pass, and stage 4: each candidate is judged again on its full text,
        falling back to its first verdict (and logging why) when that fails; it is sent when
        the verdict says so and nothing in the ledger matches it. */
    method SecondPass(cs: seq<(Entry, Judgment)>, judge2: Entry -> SecondVerdict, now: string)
      requires sentCount == |sentEntries|
      modifies this, log
      ensures var d := Dispatched(Dispatch(old(sentEntries), old(sentLinks), []), cs, judge2, now, parse);
              sentEntries == d.ledger && sentLinks == d.links && log.records == LogAll(old(log.records), d.errors)
      ensures sentCount == |sentEntries|
      ensures Working() == old(Working())
    {
      ghost var d0 := Dispatch(old(sentEntries), old(sentLinks), []);
      for i := 0 to |cs|
        invariant var d := Dispatched(d0, cs[..i], judge2, now, parse);
                  sentEntries == d.ledger && sentLinks == d.links && log.records == LogAll(old(log.records), d.errors)
        invariant sentCount == |sentEntries|
        invariant Working() == old(Working())
      {
        var (e, first) := cs[i];
        assert cs[..i + 1][..i] == cs[..i];
        ghost var before := Dispatched(d0, cs[..i], judge2, now, parse);
        var verdict := judge2(e);
        var judgment := SecondJudgment(e, first, verdict, now);
        if Failure(e, verdict, now) == [] {
          assert before.errors + Failure(e, verdict, now) == before.errors;
        } else {
          LogAllAppend(old(log.records), before.errors, Failure(e, verdict, now)[0]);
        }
        Gate(e, judgment);
      }
      assert cs[..|cs|] == cs;
    }

    /** The full-text verdict, or the first one when the full-text pass returns nothing or
        raises, in which case the failure is logged. */
    method SecondJudgment(e: Entry, first: Judgment, verdict: SecondVerdict, now: string) returns (judgment: Judgment)
      modifies log
      ensures judgment == Effective(first, verdict)
      ensures |Failure(e, verdict, now)| <= 1
      ensures Failure(e, verdict, now) == [] ==> log.records == old(log.records)
      ensures Failure(e, verdict, now) != [] ==>
                log.records == KeepNewest(old(log.records) + [Failure(e, verdict, now)[0]], MaxErrorRecords)
    {
      judgment := first;
      match verdict {
        case Returned(r) =>
          if r.None? {
            log.LogError("ai_judgment_failed", e, "2차 AI 판단 실패", now);
          } else {
            judgment := r.value;
          }
        case Raised(message) =>
          log.LogError("ai_judgment_error", e, message, now);
      }
    }

    /** The gate for one candidate with the verdict it ends up with: it is sent when the verdict
        says so and nothing in the ledger matches it. */
    method Gate(e: Entry, judgment: Judgment)
      requires sentCount == |sentEntries|
      modifies this
      ensures var sent := ShouldSendAiDriven(Some(judgment)) && !AlreadySent(e, judgment, old(sentEntries));
              sentEntries == (if sent then old(sentEntries) + [(e, judgment)] else old(sentEntries))
              && sentLinks == (if sent && LinkKey(e, parse) != "" then old(sentLinks) + {LinkKey(e, parse)} else old(sentLinks))
      ensures sentCount == |sentEntries|
      ensures Working() == old(Working())
    {
      if ShouldSendAiDriven(Some(judgment)) {
        var dup := IsDuplicateSent(e, judgment, sentEntries);
        if !dup {
          // the item is posted here; the notifier is not modelled
          sentCount := sentCount + 1;
          if e.link != "" {
            var link := NormalizeUrl(e.link, parse);
            if link != "" {
              sentLinks := sentLinks + {link};
            }
          }
          sentEntries := sentEntries + [(e, judgment)];
        }
      }
    }

    /** Stage 5: the working collections go back to the state, the original titles cut to
        the newest 1000. */
    method WriteBack()
      modifies state
      ensures Stored(state) == SavedMemory(Working())
      ensures state.sentLinks == sentLinks && state.hasSeen && state.hasSentLinks
      ensures state.promptHash == old(state.promptHash) && state.lastPromptChange == old(state.lastPromptChange)
    {
      state.hasSeen := true;
      state.seen := seen;
      state.seenTitles := seenTitles;
      state.seenOriginalTitles := KeepNewest(seenOriginalTitles, MaxSeenOriginalTitles);
      state.seenLinks := seenLinks;
      state.hasSentLinks := true;
      state.sentLinks := sentLinks;
    }

    /** The working collections start as copies of the loaded state, with an empty ledger. */
    method Begin()
      modifies this
      ensures Working() == Stored(state) && sentLinks == state.sentLinks
      ensures sentEntries == [] && sentCount == 0
    {
      seen := state.seen;
      seenTitles := state.seenTitles;
      seenOriginalTitles := state.seenOriginalTitles;
      seenLinks := state.seenLinks;
      sentLinks := state.sentLinks;
      sentEntries := [];
      sentCount := 0;
    }

    /** `process_articles_ai_driven` on the items the feeds returned. Nothing is saved when
        there are no items or none survives the history filter; otherwise the state holds what
        the first pass remembered and the sent link keys, and the outcome counts what was sent. */
    method ProcessArticlesAiDriven(recent: seq<Entry>, judge1: Entry -> Option<Judgment>,
                                   judge2: Entry -> SecondVerdict, now: string) returns (outcome: Outcome)
      modifies this, state, log
      ensures recent == [] ==> outcome == NoEntries
      ensures recent != [] && FreshEntries(old(Stored(state)), recent, parse) == [] ==> outcome == NoNewEntries
      ensures outcome.Saved? <==> recent != [] && FreshEntries(old(Stored(state)), recent, parse) != []
      ensures !outcome.Saved? ==>
                Stored(state) == old(Stored(state)) && state.sentLinks == old(state.sentLinks)
                && log.records == old(log.records)
      ensures outcome.Saved? ==>
                var finals := Survivors(FreshEntries(old(Stored(state)), recent, parse));
                var d := Dispatched(Dispatch([], old(state.sentLinks), []), FirstCandidates(finals, judge1), judge2, now, parse);
                Stored(state) == SavedMemory(Judged(old(Stored(state)), finals, judge1, parse))
                && state.sentLinks == d.links && outcome.sent == |d.ledger|
                && log.records == LogAll(old(log.records), d.errors)
      ensures state.promptHash == old(state.promptHash) && state.lastPromptChange == old(state.lastPromptChange)
    {
      Begin();
      if recent == [] {
        return NoEntries;
      }
      var candidates := HistoryFilter(recent);
      if candidates == [] {
        return NoNewEntries;
      }
      var finals := SuppressInBatch(candidates);
      var firstCandidates := FirstPass(finals, judge1);
      SecondPass(firstCandidates, judge2, now);
      WriteBack();
      return Saved(sentCount);
    }
  }
}
