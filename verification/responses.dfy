/** The text clean-up `judge_with_ai` applies to the classifier's reply before handing it to
    the JSON parser: markdown fences are removed, the first brace-balanced `{...}` is cut out
    by a depth counter, and raw line breaks inside JSON string literals are escaped.
    The JSON parser itself is not part of this model. */
module Responses {
  import opened Text

  // ---------------------------------------------------------------------------
  // Fence stripping

  /** `re.sub(marker + r'\s*', '', s)`: every non-overlapping occurrence of `marker`, scanned
      left to right, is deleted together with the whitespace that follows it. */
  function RemoveMarker(s: string, marker: string): (r: string)
    requires |marker| > 0
    ensures |r| <= |s|
    ensures forall c :: c in r ==> c in s
    decreases |s|
  {
    if StartsWith(s, marker) then
      var rest := LStrip(s[|marker|..]);
      SuffixMembers(s, |marker|);
      LStripMembers(s[|marker|..]);
      RemoveMarker(rest, marker)
    else if |s| == 0 then ""
    else
      SuffixMembers(s, 1);
      [s[0]] + RemoveMarker(s[1..], marker)
  }

  lemma SuffixMembers(s: string, k: nat)
    requires k <= |s|
    ensures forall c :: c in s[k..] ==> c in s
  {
    forall c | c in s[k..]
      ensures c in s
    {
      var i :| 0 <= i < |s[k..]| && s[k..][i] == c;
      assert s[k + i] == c;
    }
  }

  lemma LStripMembers(s: string)
    ensures forall c :: c in LStrip(s) ==> c in s
  {
    SuffixMembers(s, |s| - |LStrip(s)|);
  }

  /** A text without the marker's first character passes through untouched. */
  lemma {:induction false} RemoveMarkerAbsent(s: string, marker: string)
    requires |marker| > 0 && marker[0] !in s
    ensures RemoveMarker(s, marker) == s
    decreases |s|
  {
    if |s| > 0 {
      assert |marker| <= |s| ==> s[..|marker|][0] == s[0];
      RemoveMarkerAbsent(s[1..], marker);
      assert [s[0]] + s[1..] == s;
    }
  }

  /** Fence removal followed by `strip()`. */
  function StripFences(s: string): (r: string)
    ensures |r| <= |s|
    ensures |r| > 0 ==> !IsSpace(r[0]) && !IsSpace(r[|r| - 1])
  {
    Strip(RemoveMarker(RemoveMarker(s, "```json"), "```"))
  }

  /** A reply without any backtick is only stripped of surrounding whitespace. */
  lemma StripFencesNoBacktick(s: string)
    requires '`' !in s
    ensures StripFences(s) == Strip(s)
  {
    RemoveMarkerAbsent(s, "```json");
    RemoveMarkerAbsent(s, "```");
  }

  // ---------------------------------------------------------------------------
  // Brace depth

  function BraceDelta(c: char): int
  {
    if c == '{' then 1 else if c == '}' then -1 else 0
  }

  /** Number of `{` minus number of `}` in `s`. */
  function Depth(s: string): int
    decreases |s|
  {
    if |s| == 0 then 0 else Depth(s[..|s| - 1]) + BraceDelta(s[|s| - 1])
  }

  lemma {:induction false} DepthAppend(a: string, b: string)
    ensures Depth(a + b) == Depth(a) + Depth(b)
    decreases |b|
  {
    if |b| == 0 {
      assert a + b == a;
    } else {
      assert (a + b)[..|a + b| - 1] == a + b[..|b| - 1];
      DepthAppend(a, b[..|b| - 1]);
    }
  }

  /** Text with no closing brace never has negative depth. */
  lemma {:induction false} DepthNoClose(s: string)
    requires '}' !in s
    ensures Depth(s) >= 0
    decreases |s|
  {
    if |s| > 0 {
      DepthNoClose(s[..|s| - 1]);
    }
  }

  // ---------------------------------------------------------------------------
  // The scan as written: depth counted from the start of the reply

  /** Position `e` ends the scan: a `}` after the first `{` at which the running count of
      the whole prefix, stray closing braces included, is back to zero. */
  predicate ClosesAt(s: string, e: int)
  {
    0 <= e < |s| && s[e] == '}' && (exists j :: 0 <= j < e && s[j] == '{') && Depth(s[..e + 1]) == 0
  }

  /** The least position at or after `from` that ends the scan. */
  function FirstClosing(s: string, from: nat): (r: Option<nat>)
    ensures r.Some? ==> from <= r.value && ClosesAt(s, r.value)
    ensures r.Some? ==> forall k :: from <= k < r.value ==> !ClosesAt(s, k)
    ensures r.None? ==> forall k :: from <= k < |s| ==> !ClosesAt(s, k)
    decreases |s| - from
  {
    if from >= |s| then None
    else if ClosesAt(s, from) then Some(from)
    else FirstClosing(s, from + 1)
  }

  lemma FirstIndexBefore(s: string, c: char, e: nat)
    requires e <= |s| && exists j :: 0 <= j < e && s[j] == c
    ensures c in s && FirstIndex(s, c) < e
  {
    var k :| 0 <= k < e && s[k] == c;
    assert c in s;
  }

  /** The JSON text the scan cuts out, if any: from the first `{` to the closing position. */
  function JsonObject(s: string): (r: Option<string>)
    ensures r.None? <==> forall k :: 0 <= k < |s| ==> !ClosesAt(s, k)
    ensures r.Some? ==> |r.value| >= 2 && r.value[0] == '{' && r.value[|r.value| - 1] == '}'
  {
    match FirstClosing(s, 0)
    case None => None
    case Some(e) =>
      FirstIndexBefore(s, '{', e);
      Some(s[FirstIndex(s, '{')..e + 1])
  }

  lemma FirstIndexIs(s: string, c: char, i: nat)
    requires i < |s| && s[i] == c && forall j :: 0 <= j < i ==> s[j] != c
    ensures FirstIndex(s, c) == i
  {
  }

  /** The brace scan of `judge_with_ai`, as the loop runs: a `{` sets the start on its first
      occurrence and raises the count, a `}` lowers it, and the first `}` that brings the count
      to zero after a start has been seen ends the scan. */
  method FindJsonObject(s: string) returns (r: Option<string>)
    ensures r == JsonObject(s)
  {
    var count := 0;
    var start := -1;
    var i := 0;
    while i < |s|
      invariant 0 <= i <= |s|
      invariant count == Depth(s[..i])
      invariant start == -1 ==> forall j :: 0 <= j < i ==> s[j] != '{'
      invariant start != -1 ==> 0 <= start < i && s[start] == '{'
      invariant start != -1 ==> forall j :: 0 <= j < start ==> s[j] != '{'
      invariant FirstClosing(s, 0) == FirstClosing(s, i)
    {
      DepthStep(s, i);
      if s[i] == '{' {
        if start == -1 {
          start := i;
        }
        count := count + 1;
      } else if s[i] == '}' {
        count := count - 1;
        if count == 0 && start != -1 {
          assert ClosesAt(s, i);
          FirstIndexIs(s, '{', start);
          return Some(s[start..i + 1]);
        }
      }
      ScanStep(s, i);
      i := i + 1;
    }
    return None;
  }

  lemma DepthStep(s: string, i: nat)
    requires i < |s|
    ensures Depth(s[..i + 1]) == Depth(s[..i]) + BraceDelta(s[i])
  {
    assert s[..i + 1][..i] == s[..i];
  }

  /** A position that does not end the scan passes the search on to the next one. */
  lemma ScanStep(s: string, i: nat)
    requires i < |s| && !ClosesAt(s, i)
    ensures FirstClosing(s, i) == FirstClosing(s, i + 1)
  {
  }

  // ---------------------------------------------------------------------------
  // The scan counted from the first opening brace

  /** Position `e` closes the object opened at `f`: a `}` at which the braces of `s[f..e+1]`
      balance. */
  predicate BalancesAt(s: string, f: nat, e: int)
  {
    f <= e < |s| && s[e] == '}' && Depth(s[f..e + 1]) == 0
  }

  function FirstBalanced(s: string, f: nat, from: nat): (r: Option<nat>)
    ensures r.Some? ==> from <= r.value && BalancesAt(s, f, r.value)
    ensures r.Some? ==> forall k :: from <= k < r.value ==> !BalancesAt(s, f, k)
    ensures r.None? ==> forall k :: from <= k < |s| ==> !BalancesAt(s, f, k)
    decreases |s| - from
  {
    if from >= |s| then None
    else if BalancesAt(s, f, from) then Some(from)
    else FirstBalanced(s, f, from + 1)
  }

  /** A well-formed object: opens with `{`, closes with `}`, its depth stays positive on every
      non-empty proper prefix and is zero at the end. */
  predicate Balanced(t: string)
  {
    |t| >= 2 && t[0] == '{' && t[|t| - 1] == '}' && Depth(t) == 0
    && forall k :: 1 <= k < |t| ==> Depth(t[..k]) > 0
  }

  /** Between the opening brace and the first balancing position the depth stays positive. */
  lemma {:induction false} DepthPositiveBefore(s: string, f: nat, e: nat, k: nat)
    requires f < |s| && s[f] == '{' && f < k <= e < |s|
    requires forall j :: f <= j < e ==> !BalancesAt(s, f, j)
    ensures Depth(s[f..k]) > 0
    decreases k
  {
    if k == f + 1 {
      assert s[f..k] == [s[f]];
      assert s[f..k][..0] == [];
    } else {
      DepthPositiveBefore(s, f, e, k - 1);
      assert s[f..k][..k - 1 - f] == s[f..k - 1];
      assert !BalancesAt(s, f, k - 1);
    }
  }

  /** The object a depth counter started at the first `{` would cut out. */
  function BalancedObject(s: string): (r: Option<string>)
    ensures r.None? <==> ('{' !in s || forall k :: 0 <= k < |s| ==> !BalancesAt(s, FirstIndex(s, '{'), k))
  {
    if '{' !in s then None
    else
      var f := FirstIndex(s, '{');
      match FirstBalanced(s, f, 0)
      case None => None
      case Some(e) =>
        assert 0 <= e < |s| && BalancesAt(s, FirstIndex(s, '{'), e);
        Some(s[f..e + 1])
  }

  /** What the corrected scan cuts out is always a well-formed object. */
  lemma BalancedObjectWellFormed(s: string)
    ensures BalancedObject(s).Some? ==> Balanced(BalancedObject(s).value)
  {
    if '{' in s {
      var f := FirstIndex(s, '{');
      var fb := FirstBalanced(s, f, 0);
      if fb.Some? {
        FirstBalancedWellFormed(s, f, fb.value);
      }
    }
  }

  /** The text from an opening brace to the first position that balances it is well-formed. */
  lemma FirstBalancedWellFormed(s: string, f: nat, e: nat)
    requires f < |s| && s[f] == '{' && BalancesAt(s, f, e)
    requires forall j :: f <= j < e ==> !BalancesAt(s, f, j)
    ensures Balanced(s[f..e + 1])
  {
    var t := s[f..e + 1];
    assert e != f by {
      assert s[f..f + 1] == [s[f]];
      assert s[f..f + 1][..0] == [];
    }
    forall k | 1 <= k < |t|
      ensures Depth(t[..k]) > 0
    {
      assert t[..k] == s[f..f + k];
      DepthPositiveBefore(s, f, e, f + k);
    }
  }

  lemma NoBracesDepth(t: string)
    requires '{' !in t && '}' !in t
    ensures Depth(t) == 0
  {
    if |t| > 0 {
      assert forall c :: c in t[..|t| - 1] ==> c in t;
      NoBracesDepth(t[..|t| - 1]);
    }
  }

  /** Below the first `{`, neither scan can stop; above it, the two counts differ by the
      depth of the text before it, which is zero when that text has no braces. */
  lemma ClosesIffBalances(s: string, f: nat, k: nat)
    requires f < |s| && s[f] == '{' && (forall j :: 0 <= j < f ==> s[j] != '{') && '}' !in s[..f]
    requires k < |s|
    ensures ClosesAt(s, k) <==> BalancesAt(s, f, k)
  {
    if k > f {
      NoBracesDepth(s[..f]);
      assert s[..k + 1] == s[..f] + s[f..k + 1];
      DepthAppend(s[..f], s[f..k + 1]);
    }
  }

  lemma {:induction false} ClosingAgree(s: string, f: nat, from: nat)
    requires forall k :: 0 <= k < |s| ==> (ClosesAt(s, k) <==> BalancesAt(s, f, k))
    ensures FirstClosing(s, from) == FirstBalanced(s, f, from)
    decreases |s| - from
  {
    if from < |s| && !ClosesAt(s, from) {
      ClosingAgree(s, f, from + 1);
    }
  }

  /** When no `}` comes before the first `{`, the scan as written finds exactly the balanced
      object, so its result is well-formed. */
  lemma AgreeWithoutStrayClose(s: string, f: nat)
    requires f < |s| && s[f] == '{' && (forall j :: 0 <= j < f ==> s[j] != '{') && '}' !in s[..f]
    ensures JsonObject(s) == BalancedObject(s)
    ensures JsonObject(s).Some? ==> Balanced(JsonObject(s).value)
  {
    FirstIndexIs(s, '{', f);
    forall k | 0 <= k < |s|
      ensures ClosesAt(s, k) <==> BalancesAt(s, f, k)
    {
      ClosesIffBalances(s, f, k);
    }
    ClosingAgree(s, f, 0);
    BalancedObjectWellFormed(s);
  }

  /** A reply with a stray `}` before its object: the scan as written never finds the
      object, while a count started at the first `{` does. */
  lemma StrayCloseHidesObject(s: string)
    requires s == "}{}"
    ensures JsonObject(s) == None
    ensures BalancedObject(s) == Some("{}")
  {
    assert s[..1][..0] == [] && s[..2][..1] == s[..1] && s[..3][..2] == s[..2];
    assert Depth(s[..1]) == -1;
    assert Depth(s[..2]) == 0;
    assert Depth(s[..3]) == -1;
    assert !ClosesAt(s, 0) && !ClosesAt(s, 1) && !ClosesAt(s, 2);
    assert FirstIndex(s, '{') == 1;
    assert s[1..3] == "{}";
    assert Depth(s[1..3]) == 0 by {
      assert s[1..3][..1] == "{";
    }
    assert BalancesAt(s, 1, 2);
  }

  // ---------------------------------------------------------------------------
  // Escaping line breaks inside JSON strings

  /** One step of the `in_string` / `escape_next` state machine: the text it emits for `c`
      and the next values of the two flags. */
  function Step(c: char, inStr: bool, esc: bool): (string, bool, bool)
  {
    if esc then ([c], inStr, false)
    else if c == '\\' then ([c], inStr, true)
    else if c == '"' then ([c], !inStr, false)
    else if inStr && c == '\n' then ("\\n", inStr, false)
    else if inStr && c == '\r' then ("\\r", inStr, false)
    else ([c], inStr, esc)
  }

  /** The text emitted for `s` when the machine starts in the given state. */
  function FixFrom(s: string, inStr: bool, esc: bool): (r: string)
    ensures |r| >= |s|
    decreases |s|
  {
    if |s| == 0 then ""
    else
      var (out, inStr', esc') := Step(s[0], inStr, esc);
      out + FixFrom(s[1..], inStr', esc')
  }

  function FixNewlines(s: string): string
  {
    FixFrom(s, false, false)
  }

  lemma FixFromCons(s: string, inStr: bool, esc: bool)
    requires |s| > 0
    ensures FixFrom(s, inStr, esc)
            == Step(s[0], inStr, esc).0 + FixFrom(s[1..], Step(s[0], inStr, esc).1, Step(s[0], inStr, esc).2)
  {
  }

  /** The machine run from position `i` is one step followed by the run from `i + 1`. */
  lemma FixFromStep(s: string, i: nat, inStr: bool, esc: bool)
    requires i < |s|
    ensures FixFrom(s[i..], inStr, esc)
            == Step(s[i], inStr, esc).0 + FixFrom(s[i + 1..], Step(s[i], inStr, esc).1, Step(s[i], inStr, esc).2)
  {
    assert s[i..][1..] == s[i + 1..];
    FixFromCons(s[i..], inStr, esc);
  }

  lemma ConcatAssoc(a: string, b: string, c: string)
    ensures a + (b + c) == (a + b) + c
  {
  }

  /** `fix_newlines_in_json_strings`, step by step. */
  method FixNewlinesInJsonStrings(text: string) returns (r: string)
    ensures r == FixNewlines(text)
  {
    var result := "";
    var i := 0;
    var inString := false;
    var escapeNext := false;
    while i < |text|
      invariant 0 <= i <= |text|
      invariant result + FixFrom(text[i..], inString, escapeNext) == FixNewlines(text)
    {
      var out, inString', escapeNext' := StepChar(text[i], inString, escapeNext);
      FixFromStep(text, i, inString, escapeNext);
      ConcatAssoc(result, out, FixFrom(text[i + 1..], inString', escapeNext'));
      result, inString, escapeNext := result + out, inString', escapeNext';
      i := i + 1;
    }
    assert text[i..] == "";
    return result;
  }

  /** The body of the loop of `fix_newlines_in_json_strings` (aitest.py:727-745) for one
      character `c`: it takes the same branches as `Step`, and emits two characters exactly
      when it escapes a raw line break inside a string. */
  method StepChar(c: char, inString: bool, escapeNext: bool) returns (out: string, inString': bool, escapeNext': bool)
    ensures (out, inString', escapeNext') == Step(c, inString, escapeNext)
    ensures |out| == 2 <==> Rewrites(c, inString, escapeNext)
    ensures |out| == 1 ==> out == [c]
  {
    inString', escapeNext' := inString, escapeNext;
    if escapeNext {
      out := [c];
      escapeNext' := false;
    } else if c == '\\' {
      out := [c];
      escapeNext' := true;
    } else if c == '"' && !escapeNext {
      inString' := !inString;
      out := [c];
    } else if inString && c == '\n' {
      out := "\\n";
    } else if inString && c == '\r' {
      out := "\\r";
    } else {
      out := [c];
    }
  }

  /** The machine would rewrite `c`: a raw line break inside a string, not escaped. */
  predicate Rewrites(c: char, inStr: bool, esc: bool)
  {
    !esc && inStr && (c == '\n' || c == '\r')
  }

  /** Read by the same machine, `s` has no raw line break inside a string. */
  predicate NoRawBreakFrom(s: string, inStr: bool, esc: bool)
    decreases |s|
  {
    |s| == 0
    || (!Rewrites(s[0], inStr, esc)
        && var (_, inStr', esc') := Step(s[0], inStr, esc);
        NoRawBreakFrom(s[1..], inStr', esc'))
  }

  /** Whatever the machine emits for one character leaves it in the state it moves to, and
      emitting it rewrites nothing. */
  lemma StepOutputStable(c: char, inStr: bool, esc: bool, rest: string)
    ensures var (out, inStr', esc') := Step(c, inStr, esc);
            NoRawBreakFrom(out + rest, inStr, esc) <==> NoRawBreakFrom(rest, inStr', esc')
  {
    var (out, inStr', esc') := Step(c, inStr, esc);
    if |out| == 1 {
      assert (out + rest)[1..] == rest;
    } else {
      assert (out + rest)[1..] == [out[1]] + rest;
      assert ([out[1]] + rest)[1..] == rest;
    }
  }

  /** The output of the machine contains no raw line break inside a string. */
  lemma {:induction false} FixFromNoRawBreak(s: string, inStr: bool, esc: bool)
    ensures NoRawBreakFrom(FixFrom(s, inStr, esc), inStr, esc)
    decreases |s|
  {
    if |s| > 0 {
      var (out, inStr', esc') := Step(s[0], inStr, esc);
      FixFromNoRawBreak(s[1..], inStr', esc');
      StepOutputStable(s[0], inStr, esc, FixFrom(s[1..], inStr', esc'));
    }
  }

  /** Text that has no raw line break inside a string is left as it is. */
  lemma {:induction false} NoRawBreakUnchanged(s: string, inStr: bool, esc: bool)
    requires NoRawBreakFrom(s, inStr, esc)
    ensures FixFrom(s, inStr, esc) == s
    decreases |s|
  {
    if |s| > 0 {
      var (out, inStr', esc') := Step(s[0], inStr, esc);
      NoRawBreakUnchanged(s[1..], inStr', esc');
      assert [s[0]] + s[1..] == s;
    }
  }

  lemma {:induction false} NoBreakCharsNoRawBreak(s: string, inStr: bool, esc: bool)
    requires '\n' !in s && '\r' !in s
    ensures NoRawBreakFrom(s, inStr, esc)
    decreases |s|
  {
    if |s| > 0 {
      var (out, inStr', esc') := Step(s[0], inStr, esc);
      assert forall c :: c in s[1..] ==> c in s;
      NoBreakCharsNoRawBreak(s[1..], inStr', esc');
    }
  }

  /** Escaping is idempotent, and the result has no raw line break inside a string. */
  lemma FixNewlinesIdempotent(s: string)
    ensures NoRawBreakFrom(FixNewlines(s), false, false)
    ensures FixNewlines(FixNewlines(s)) == FixNewlines(s)
  {
    FixFromNoRawBreak(s, false, false);
    NoRawBreakUnchanged(FixNewlines(s), false, false);
  }

  /** A text without line breaks is returned unchanged. */
  lemma FixNewlinesNoBreaks(s: string)
    requires '\n' !in s && '\r' !in s
    ensures FixNewlines(s) == s
  {
    NoBreakCharsNoRawBreak(s, false, false);
    NoRawBreakUnchanged(s, false, false);
  }

  // ---------------------------------------------------------------------------
  // The whole clean-up

  /** The text handed to the JSON parser, or `None` when the reply holds no object. */
  function CleanedJson(reply: string): Option<string>
  {
    match JsonObject(StripFences(reply))
    case None => None
    case Some(j) => Some(FixNewlines(j))
  }

  /** Fence stripping, the brace scan and the escaping, in the order `judge_with_ai` runs them. */
  method CleanResponse(reply: string) returns (r: Option<string>)
    ensures r == CleanedJson(reply)
    ensures r.Some? ==> |r.value| >= 2 && r.value[0] == '{' && NoRawBreakFrom(r.value, false, false)
  {
    var cleaned := StripFences(reply);
    var found := FindJsonObject(cleaned);
    match found {
      case None =>
        r := None;
      case Some(j) =>
        var fixed := FixNewlinesInJsonStrings(j);
        FixNewlinesIdempotent(j);
        FixFromCons(j, false, false);
        r := Some(fixed);
    }
  }
}
