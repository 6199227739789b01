/** Feed items and classifier verdicts as the duplicate-suppression engine sees them. */
module Feed {
  import opened Text

  /** A feed item. A field the feed does not carry is the empty string; `ts` is the
      publication time in seconds, 0 when the feed gives none. */
  datatype Entry = Entry(id: string, guid: string, link: string, title: string, summary: string, ts: int)

  /** A list-valued verdict field: absent, given as one comma-separated string, or as a list. */
  datatype Listish = Absent | Text(s: string) | Items(xs: seq<string>)

  /** The fields of a classifier verdict the engine reads. `decision` is `None` when the key is
      missing or not a string. */
  datatype Judgment = Judgment(decision: Option<string>, cveIds: Listish, productsAffected: Listish, tags: Listish)

  // ---------------------------------------------------------------------------
  // Item identity

  /** `v` is the first non-empty string of `fields`, or empty when all of them are. */
  predicate IsFirstNonEmpty(fields: seq<string>, v: string)
  {
    (v == "" && forall k :: 0 <= k < |fields| ==> fields[k] == "")
    || exists k :: 0 <= k < |fields| && fields[k] == v && v != "" && forall j :: 0 <= j < k ==> fields[j] == ""
  }

  lemma FirstNonEmptyAt(fields: seq<string>, k: nat)
    requires k < |fields| && fields[k] != "" && forall j :: 0 <= j < k ==> fields[j] == ""
    ensures IsFirstNonEmpty(fields, fields[k])
  {
  }

  /** `entry_uid`: the link when there is one, otherwise the id, the guid or the title. */
  function EntryUid(e: Entry): string
  {
    if e.link != "" then e.link
    else if e.id != "" then e.id
    else if e.guid != "" then e.guid
    else e.title
  }

  /** The uid is the first non-empty field in the order link, id, guid, title. */
  lemma EntryUidSpec(e: Entry)
    ensures IsFirstNonEmpty([e.link, e.id, e.guid, e.title], EntryUid(e))
  {
    var fields := [e.link, e.id, e.guid, e.title];
    if e.link != "" {
      FirstNonEmptyAt(fields, 0);
    } else if e.id != "" {
      FirstNonEmptyAt(fields, 1);
    } else if e.guid != "" {
      FirstNonEmptyAt(fields, 2);
    } else if e.title != "" {
      FirstNonEmptyAt(fields, 3);
    }
  }

  /** Two items with the same non-empty link share their uid whatever their ids say. */
  lemma SameLinkSameUid(a: Entry, b: Entry)
    requires a.link == b.link && a.link != ""
    ensures EntryUid(a) == EntryUid(b)
  {
  }

  // ---------------------------------------------------------------------------
  // Verdict fields

  /** `[p.strip() for p in s.split(",") if p.strip()]` */
  function SplitItems(s: string): (r: seq<string>)
    ensures forall k :: 0 <= k < |r| ==> r[k] != "" && ',' !in r[k]
  {
    var pieces := Split(s, ',');
    StrippedNonEmpty(pieces)
  }

  function StrippedNonEmpty(pieces: seq<string>): (r: seq<string>)
    requires forall k :: 0 <= k < |pieces| ==> ',' !in pieces[k]
    ensures forall k :: 0 <= k < |r| ==> r[k] != "" && ',' !in r[k]
    decreases |pieces|
  {
    if |pieces| == 0 then []
    else
      var p := Strip(pieces[0]);
      StripKeeps(pieces[0], ',');
      if p != "" then [p] + StrippedNonEmpty(pieces[1..]) else StrippedNonEmpty(pieces[1..])
  }

  lemma StripKeeps(s: string, c: char)
    requires c !in s
    ensures c !in Strip(s)
  {
    var l := LStrip(s);
    assert forall x :: x in l ==> x in s;
    var r := RStrip(l);
    assert forall x :: x in r ==> x in l;
  }

  /** The items the correlator reads from a CVE or product field: a string is split on commas
      and trimmed, a list is taken as it is, an absent field is empty. */
  function ListItems(l: Listish): seq<string>
  {
    match l
    case Absent => []
    case Text(s) => SplitItems(s)
    case Items(xs) => xs
  }

  /** The items `for tag in tags` visits: a string is walked character by character. */
  function TagItems(l: Listish): (r: seq<string>)
    ensures l.Text? ==> forall k :: 0 <= k < |r| ==> |r[k]| == 1
  {
    match l
    case Absent => []
    case Text(s) => seq(|s|, i requires 0 <= i < |s| => [s[i]])
    case Items(xs) => xs
  }

  // ---------------------------------------------------------------------------
  // Dispatch decision

  /** The first-pass test: the decision, defaulting to SKIP, is SCRAPE or WATCHLIST. */
  predicate IsSendDecision(j: Judgment)
  {
    j.decision == Some("SCRAPE") || j.decision == Some("WATCHLIST")
  }

  /** `should_send_article_ai_driven`: a missing verdict or a missing `decision` is never sent;
      otherwise the verdict is followed — SCRAPE and WATCHLIST are sent, SKIP and anything
      else are filtered. */
  function ShouldSendAiDriven(j: Option<Judgment>): (send: bool)
    ensures send ==> j.Some?
    ensures j.Some? && j.value.decision.None? ==> !send
  {
    match j
    case None => false
    case Some(v) =>
      if v.decision.None? then false
      else if v.decision.value == "SCRAPE" then true
      else if v.decision.value == "WATCHLIST" then true
      else false
  }

  /** The dispatch test agrees with the first-pass candidate test, so a verdict that made an
      item a candidate is also one that sends it. */
  lemma ShouldSendMatchesCandidacy(j: Judgment)
    ensures ShouldSendAiDriven(Some(j)) <==> IsSendDecision(j)
  {
  }
}
