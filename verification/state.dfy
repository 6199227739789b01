/** The persisted run state of the AI-driven script and its error log, as in-memory values:
    loading with defaults, the prompt-change check, and the bounded lists. Reading and writing
    the JSON files is not modelled; the file contents are inputs. */
module StateStore {
  import opened Text
  import opened Feed

  // ---------------------------------------------------------------------------
  // Bounded lists

  /** `s[-n:]` for a positive `n`: the newest `n` elements, in their order. */
  function KeepNewest<T>(s: seq<T>, n: nat): (r: seq<T>)
    requires n > 0
    ensures |r| == if |s| <= n then |s| else n
    ensures r == s[|s| - |r|..]
  {
    if |s| <= n then s else s[|s| - n..]
  }

  /** Appending one element and keeping the newest `n` keeps that element last, keeps the
      order of the rest, and never holds more than `n`. */
  lemma AppendKeepNewest<T>(s: seq<T>, x: T, n: nat)
    requires n > 0
    ensures |KeepNewest(s + [x], n)| <= n
    ensures KeepNewest(s + [x], n)[|KeepNewest(s + [x], n)| - 1] == x
    ensures n > 1 ==> KeepNewest(s + [x], n) == KeepNewest(s, n - 1) + [x]
  {
    var r := KeepNewest(s + [x], n);
    if n > 1 {
      if |s| + 1 <= n {
        assert KeepNewest(s, n - 1) == s;
      } else {
        assert r == (s + [x])[|s| + 1 - n..];
        assert (s + [x])[|s| + 1 - n..] == s[|s| - (n - 1)..] + [x];
      }
    }
  }

  /** Trimming keeps only elements of the list, and keeps all of a list that fits. */
  lemma KeepNewestWithin<T>(s: seq<T>, n: nat)
    requires n > 0
    ensures forall x :: x in KeepNewest(s, n) ==> x in s
    ensures |s| <= n ==> KeepNewest(s, n) == s
  {
    forall x | x in KeepNewest(s, n)
      ensures x in s
    {
      var r := KeepNewest(s, n);
      var i :| 0 <= i < |r| && r[i] == x;
      assert x == s[|s| - |r| + i];
    }
  }

  /** Trimming twice to the same bound is trimming once. */
  lemma KeepNewestIdempotent<T>(s: seq<T>, n: nat)
    requires n > 0
    ensures KeepNewest(KeepNewest(s, n), n) == KeepNewest(s, n)
  {
  }

  // ---------------------------------------------------------------------------
  // The state file

  /** What a state file holds for each key the script reads; `None` stands for a missing key
      (and, for the two prompt fields, for `null`). */
  datatype StateFile = StateFile(
    seen: Option<seq<string>>,
    seenTitles: Option<seq<string>>,
    seenOriginalTitles: Option<seq<string>>,
    seenLinks: Option<seq<string>>,
    sentLinks: Option<seq<string>>,
    promptHash: Option<string>,
    lastPromptChange: Option<string>)

  function ToSet(s: Option<seq<string>>): (r: set<string>)
    ensures forall x :: x in r <==> s.Some? && x in s.value
  {
    match s
    case None => {}
    case Some(xs) => set x | x in xs
  }

  /** The loaded state dictionary. The four seen-collections are sets: the script turns the
      stored lists into sets on use and writes sets back, so their order carries nothing.
      `hasSeen` and `hasSentLinks` record whether those keys are present at all. */
  class State {
    var hasSeen: bool
    var seen: set<string>
    var seenTitles: set<string>
    var seenOriginalTitles: seq<string>
    var seenLinks: set<string>
    var hasSentLinks: bool
    var sentLinks: set<string>
    var promptHash: Option<string>
    var lastPromptChange: Option<string>

    /** `load_state`: without a file every key gets its empty default (there is no
        `sent_links` key); with a file, every key but `seen` and `sent_links` that is missing
        gets its default, and the rest is taken from the file. */
    constructor Load(file: Option<StateFile>)
      ensures file.None? ==> hasSeen && seen == {} && !hasSentLinks && sentLinks == {}
      ensures file.Some? ==> hasSeen == file.value.seen.Some? && seen == ToSet(file.value.seen)
      ensures file.Some? ==> hasSentLinks == file.value.sentLinks.Some?
      ensures file.Some? ==> sentLinks == ToSet(file.value.sentLinks)
      ensures file.None? ==> seenTitles == {} && seenOriginalTitles == [] && seenLinks == {}
      ensures file.Some? ==> seenTitles == ToSet(file.value.seenTitles)
      ensures file.Some? ==> seenLinks == ToSet(file.value.seenLinks)
      ensures file.Some? && file.value.seenOriginalTitles.Some? ==>
                seenOriginalTitles == file.value.seenOriginalTitles.value
      ensures file.Some? && file.value.seenOriginalTitles.None? ==> seenOriginalTitles == []
      ensures file.None? ==> promptHash.None? && lastPromptChange.None?
      ensures file.Some? ==> promptHash == file.value.promptHash
      ensures file.Some? ==> lastPromptChange == file.value.lastPromptChange
    {
      match file {
        case None =>
          hasSeen := true;
          seen := {};
          seenTitles := {};
          seenOriginalTitles := [];
          seenLinks := {};
          hasSentLinks := false;
          sentLinks := {};
          promptHash := None;
          lastPromptChange := None;
        case Some(f) =>
          hasSeen := f.seen.Some?;
          seen := ToSet(f.seen);
          seenTitles := ToSet(f.seenTitles);
          seenOriginalTitles := if f.seenOriginalTitles.Some? then f.seenOriginalTitles.value else [];
          seenLinks := ToSet(f.seenLinks);
          hasSentLinks := f.sentLinks.Some?;
          sentLinks := ToSet(f.sentLinks);
          promptHash := f.promptHash;
          lastPromptChange := f.lastPromptChange;
      }
    }

    /** `check_prompt_changed`, with the prompt hash and the clock reading passed in. */
    method CheckPromptChanged(currentHash: Option<string>, now: string) returns (changed: bool)
      modifies this
      ensures (changed, promptHash, lastPromptChange)
              == PromptCheck(old(promptHash), old(lastPromptChange), currentHash, now)
      ensures hasSeen == old(hasSeen) && seen == old(seen) && seenTitles == old(seenTitles)
      ensures seenOriginalTitles == old(seenOriginalTitles) && seenLinks == old(seenLinks)
      ensures hasSentLinks == old(hasSentLinks) && sentLinks == old(sentLinks)
    {
      if currentHash.None? {
        return false;
      }
      if promptHash.None? {
        promptHash := currentHash;
        return false;
      }
      if currentHash != promptHash {
        promptHash := currentHash;
        lastPromptChange := Some(now);
        return true;
      }
      return false;
    }
  }

  /** The prompt-change check on values: whether a change is reported, and the new stored hash
      and change time. */
  function PromptCheck(stored: Option<string>, last: Option<string>, current: Option<string>, now: string)
    : (r: (bool, Option<string>, Option<string>))
  {
    if current.None? then (false, stored, last)
    else if stored.None? then (false, current, last)
    else if current != stored then (true, current, Some(now))
    else (false, stored, last)
  }

  /** A change is reported exactly when both hashes are known and differ; afterwards the
      current hash is stored whenever it is known, and the change time moves only on a
      reported change. */
  lemma PromptCheckSpec(stored: Option<string>, last: Option<string>, current: Option<string>, now: string)
    ensures PromptCheck(stored, last, current, now).0 <==> current.Some? && stored.Some? && current != stored
    ensures current.Some? ==> PromptCheck(stored, last, current, now).1 == current
    ensures current.None? ==> PromptCheck(stored, last, current, now).1 == stored
    ensures PromptCheck(stored, last, current, now).2 == if PromptCheck(stored, last, current, now).0 then Some(now) else last
  {
  }

  /** Checking again with the same hash right after a check reports no change: a changed
      prompt is announced once. */
  lemma PromptCheckSettles(stored: Option<string>, last: Option<string>, current: Option<string>, now: string, later: string)
    ensures var (_, stored', last') := PromptCheck(stored, last, current, now);
            PromptCheck(stored', last', current, later) == (false, stored', last')
  {
  }

  // ---------------------------------------------------------------------------
  // The error log

  datatype ErrorRecord = ErrorRecord(timestamp: string, kind: string, title: string, link: string, message: string)

  const MaxErrorRecords: nat := 1000

  /** The records after logging `added` one at a time, each append trimming to the newest
      1000. */
  function LogAll(records: seq<ErrorRecord>, added: seq<ErrorRecord>): seq<ErrorRecord>
  {
    if added == [] then records
    else KeepNewest(LogAll(records, added[..|added| - 1]) + [added[|added| - 1]], MaxErrorRecords)
  }

  /** Logging several records one at a time is logging them all at once: the newest 1000 of
      the old records followed by the new ones. */
  lemma {:induction false} LogAllKeepsNewest(records: seq<ErrorRecord>, added: seq<ErrorRecord>)
    requires added != []
    ensures LogAll(records, added) == KeepNewest(records + added, MaxErrorRecords)
    decreases |added|
  {
    var init := added[..|added| - 1];
    var x := added[|added| - 1];
    assert added == init + [x];
    assert records + added == (records + init) + [x];
    if init == [] {
      assert records + added == records + [x];
    } else {
      LogAllKeepsNewest(records, init);
      KeepNewestAppend(records + init, x, MaxErrorRecords);
    }
  }

  /** Logging one more record is one more trimmed append. */
  lemma LogAllAppend(records: seq<ErrorRecord>, added: seq<ErrorRecord>, x: ErrorRecord)
    ensures LogAll(records, added + [x]) == KeepNewest(LogAll(records, added) + [x], MaxErrorRecords)
  {
    assert (added + [x])[..|added|] == added;
  }

  /** Trimming before an append does not change what the trimmed append keeps. */
  lemma KeepNewestAppend<T>(s: seq<T>, x: T, n: nat)
    requires n > 0
    ensures KeepNewest(KeepNewest(s, n) + [x], n) == KeepNewest(s + [x], n)
  {
    var k := KeepNewest(s, n);
    if |s| > n {
      assert (k + [x])[1..] == (s + [x])[|s| + 1 - n..];
    }
  }

  /** The error log file's records. */
  class ErrorLog {
    var records: seq<ErrorRecord>

    constructor (records: seq<ErrorRecord>)
      ensures this.records == records
    {
      this.records := records;
    }

    /** `log_error`: the new record is appended and only the newest 1000 are kept. */
    method LogError(kind: string, entry: Entry, message: string, now: string)
      modifies this
      ensures records == KeepNewest(old(records) + [ErrorRecord(now, kind, entry.title, entry.link, message)], MaxErrorRecords)
      ensures |records| <= MaxErrorRecords
      ensures records[|records| - 1] == ErrorRecord(now, kind, entry.title, entry.link, message)
    {
      var record := ErrorRecord(now, kind, entry.title, entry.link, message);
      AppendKeepNewest(records, record, MaxErrorRecords);
      records := KeepNewest(records + [record], MaxErrorRecords);
    }
  }
}
