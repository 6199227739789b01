/** Canonical link keys (`normalize_url` in aitest.py): the mobile host prefix is rewritten,
    trailing slashes leave the path, tracking parameters leave the query, the remaining
    parameters are sorted by name, the fragment is dropped and the whole key is lower-cased. */
module Urls {
  import opened Text

  // ---------------------------------------------------------------------------
  // The parsed URL

  /** What `urlparse` returns; the query is given as the `name=value` pairs found in it, in
      order, already split and percent-decoded. */
  datatype UrlParts = UrlParts(
    scheme: string, netloc: string, path: string, params: string,
    query: seq<(string, string)>, fragment: string)

  /** `urlparse` as an oracle: `None` when it raises. */
  type Parser = string -> Option<UrlParts>

  // ---------------------------------------------------------------------------
  // The query dictionary built by `parse_qs`

  /** A `dict` from parameter name to its values, in insertion order. */
  type QueryDict = seq<(string, seq<string>)>

  /** No name occurs twice: the first name is not among the rest, which are distinct. */
  predicate DistinctKeys(d: QueryDict)
    decreases |d|
  {
    d == [] || (!HasKey(d[1..], d[0].0) && DistinctKeys(d[1..]))
  }

  predicate HasKey(d: QueryDict, k: string)
  {
    exists i :: 0 <= i < |d| && d[i].0 == k
  }

  /** The values of parameter `k` in the order they occur in the query. */
  function ValuesOf(pairs: seq<(string, string)>, k: string): seq<string>
    decreases |pairs|
  {
    if pairs == [] then []
    else
      var last := pairs[|pairs| - 1];
      ValuesOf(pairs[..|pairs| - 1], k) + (if last.0 == k then [last.1] else [])
  }

  /** `d[k].append(v)` when `k` is present, `d[k] = [v]` otherwise. */
  function AddValue(d: QueryDict, k: string, v: string): (r: QueryDict)
    decreases |d|
  {
    if d == [] then [(k, [v])]
    else if d[0].0 == k then [(k, d[0].1 + [v])] + d[1..]
    else [d[0]] + AddValue(d[1..], k, v)
  }

  /** `parse_qs`: the values of each name gathered under its first occurrence. */
  function ParseQs(pairs: seq<(string, string)>): QueryDict
    decreases |pairs|
  {
    if pairs == [] then []
    else
      var last := pairs[|pairs| - 1];
      AddValue(ParseQs(pairs[..|pairs| - 1]), last.0, last.1)
  }

  /** Adding a value keeps the names distinct. */
  lemma {:induction false} AddValueDistinct(d: QueryDict, k: string, v: string)
    requires DistinctKeys(d)
    ensures DistinctKeys(AddValue(d, k, v))
    decreases |d|
  {
    var r := AddValue(d, k, v);
    if d == [] {
      assert r[1..] == [];
    } else if d[0].0 != k {
      var rest := AddValue(d[1..], k, v);
      AddValueDistinct(d[1..], k, v);
      AddValueSpec(d[1..], k, v);
      assert r[1..] == rest;
      if HasKey(rest, d[0].0) {
        var i :| 0 <= i < |rest| && rest[i].0 == d[0].0;
        assert rest[i] in rest;
        InDictHasKey(d[1..], rest[i]);
      }
    } else {
      assert r[1..] == d[1..];
    }
  }

  /** Adding a value to `k` replaces the entry of `k` by one with `v` appended, or adds the
      entry `(k, [v])` when there is none; every other entry is kept. */
  lemma {:induction false} AddValueSpec(d: QueryDict, k: string, v: string)
    requires DistinctKeys(d)
    ensures forall e :: e in AddValue(d, k, v) <==>
              (e in d && e.0 != k) || (e.0 == k && (exists i :: 0 <= i < |d| && d[i].0 == k && e.1 == d[i].1 + [v]))
              || (e == (k, [v]) && !HasKey(d, k))
    decreases |d|
  {
    if d != [] && d[0].0 != k {
      AddValueSpec(d[1..], k, v);
      var r := AddValue(d, k, v);
      assert r == [d[0]] + AddValue(d[1..], k, v);
      forall e
        ensures e in r <==>
          (e in d && e.0 != k) || (e.0 == k && (exists i :: 0 <= i < |d| && d[i].0 == k && e.1 == d[i].1 + [v]))
          || (e == (k, [v]) && !HasKey(d, k))
      {
        if e.0 == k && (exists i :: 0 <= i < |d| && d[i].0 == k && e.1 == d[i].1 + [v]) {
          var i :| 0 <= i < |d| && d[i].0 == k && e.1 == d[i].1 + [v];
          assert d[1..][i - 1] == d[i];
        }
        if HasKey(d[1..], k) {
          var i :| 0 <= i < |d[1..]| && d[1..][i].0 == k;
          assert d[i + 1].0 == k;
        }
        if HasKey(d, k) {
          var i :| 0 <= i < |d| && d[i].0 == k;
          assert d[1..][i - 1].0 == k;
        }
      }
    } else if d != [] {
      AddValueAtHead(d, k, v);
    }
  }

  /** The case of `AddValueSpec` where the first entry is that of `k`. */
  lemma AddValueAtHead(d: QueryDict, k: string, v: string)
    requires DistinctKeys(d) && d != [] && d[0].0 == k
    ensures forall e :: e in AddValue(d, k, v) <==>
              (e in d && e.0 != k) || (e.0 == k && (exists i :: 0 <= i < |d| && d[i].0 == k && e.1 == d[i].1 + [v]))
              || (e == (k, [v]) && !HasKey(d, k))
  {
    var r := AddValue(d, k, v);
    assert r[1..] == d[1..];
    forall e
      ensures e in r <==>
        (e in d && e.0 != k) || (e.0 == k && (exists i :: 0 <= i < |d| && d[i].0 == k && e.1 == d[i].1 + [v]))
        || (e == (k, [v]) && !HasKey(d, k))
    {
      if e.0 == k && (exists i :: 0 <= i < |d| && d[i].0 == k && e.1 == d[i].1 + [v]) {
        var i :| 0 <= i < |d| && d[i].0 == k && e.1 == d[i].1 + [v];
        DistinctKeysAt(d, 0, i);
      }
      if e in d && e.0 != k {
        var i :| 0 <= i < |d| && d[i] == e;
        assert r[i] == e;
      }
      if e in d[1..] {
        InDictHasKey(d[1..], e);
      }
    }
  }

  /** In a dictionary with distinct names, a name sits at one position only. */
  lemma {:induction false} DistinctKeysAt(d: QueryDict, i: nat, j: nat)
    requires DistinctKeys(d)
    requires i < |d| && j < |d| && d[i].0 == d[j].0
    ensures i == j
    decreases i + j
  {
    if i > 0 && j > 0 {
      DistinctKeysAt(d[1..], i - 1, j - 1);
    }
  }

  lemma InDictHasKey(d: QueryDict, e: (string, seq<string>))
    requires e in d
    ensures HasKey(d, e.0)
  {
    var i :| 0 <= i < |d| && d[i] == e;
  }

  /** `parse_qs` gives each name once, with exactly the values that name has in the query. */
  lemma {:induction false} ParseQsSpec(pairs: seq<(string, string)>)
    ensures DistinctKeys(ParseQs(pairs))
    ensures forall e :: e in ParseQs(pairs) <==> e.1 == ValuesOf(pairs, e.0) && e.1 != []
    decreases |pairs|
  {
    if pairs != [] {
      var init := pairs[..|pairs| - 1];
      var last := pairs[|pairs| - 1];
      var d := ParseQs(init);
      ParseQsSpec(init);
      AddValueSpec(d, last.0, last.1);
      AddValueDistinct(d, last.0, last.1);
      var old_values := ValuesOf(init, last.0);
      if old_values != [] {
        InDictHasKey(d, (last.0, old_values));
      }
      assert ParseQs(pairs) == AddValue(d, last.0, last.1);
      forall e
        ensures e in ParseQs(pairs) <==> e.1 == ValuesOf(pairs, e.0) && e.1 != []
      {
        var values := ValuesOf(pairs, e.0);
        assert values == ValuesOf(init, e.0) + (if last.0 == e.0 then [last.1] else []);
        if e.0 == last.0 && HasKey(d, last.0) {
          var i :| 0 <= i < |d| && d[i].0 == last.0;
          assert d[i] in d;
          if e in ParseQs(pairs) {
            var i' :| 0 <= i' < |d| && d[i'].0 == last.0 && e.1 == d[i'].1 + [last.1];
            DistinctKeysAt(d, i, i');
          }
          if e.1 == values {
            assert e.1 == d[i].1 + [last.1];
            assert e in ParseQs(pairs);
          }
        } else if e.0 == last.0 {
          assert old_values == [];
          assert values == [last.1];
          assert e in ParseQs(pairs) <==> e == (last.0, [last.1]);
        } else {
          assert values == ValuesOf(init, e.0);
          assert e in ParseQs(pairs) <==> e in d;
        }
      }
    }
  }

  /** The query dictionary does not depend on the order of two adjacent parameters with
      different names. */
  lemma SwapValues(pre: seq<(string, string)>, x: (string, string), y: (string, string),
                   post: seq<(string, string)>, k: string)
    requires x.0 != y.0
    ensures ValuesOf(pre + [x, y] + post, k) == ValuesOf(pre + [y, x] + post, k)
    decreases |post|
  {
    if post == [] {
      assert (pre + [x, y] + post)[..|pre| + 1] == pre + [x];
      assert (pre + [y, x] + post)[..|pre| + 1] == pre + [y];
      assert (pre + [x])[..|pre|] == pre;
      assert (pre + [y])[..|pre|] == pre;
    } else {
      var a := pre + [x, y] + post;
      var b := pre + [y, x] + post;
      assert a[..|a| - 1] == pre + [x, y] + post[..|post| - 1];
      assert b[..|b| - 1] == pre + [y, x] + post[..|post| - 1];
      SwapValues(pre, x, y, post[..|post| - 1], k);
    }
  }

  /** `query_params.pop(k, None)` */
  function Pop(d: QueryDict, k: string): (r: QueryDict)
    ensures forall e :: e in r <==> e in d && e.0 != k
    decreases |d|
  {
    if d == [] then []
    else if d[0].0 == k then Pop(d[1..], k)
    else
      var rest := Pop(d[1..], k);
      assert forall e :: e in [d[0]] + rest <==> e == d[0] || e in rest;
      [d[0]] + rest
  }

  /** The seven tracking parameters. */
  const TrackingKeys: seq<string> :=
    ["utm_source", "utm_medium", "utm_campaign", "utm_term", "utm_content", "fbclid", "gclid"]

  /** The dictionary without the entries whose names are in `keys`. */
  function DropKeys(d: QueryDict, keys: seq<string>): (r: QueryDict)
    ensures forall e :: e in r <==> e in d && e.0 !in keys
    decreases |d|
  {
    if d == [] then []
    else
      var rest := DropKeys(d[1..], keys);
      assert forall e :: e in [d[0]] + rest <==> e == d[0] || e in rest;
      (if d[0].0 in keys then [] else [d[0]]) + rest
  }

  /** Dropping no names keeps the dictionary. */
  lemma {:induction false} DropNoKeys(d: QueryDict)
    ensures DropKeys(d, []) == d
    decreases |d|
  {
    if d != [] {
      DropNoKeys(d[1..]);
      assert d == [d[0]] + d[1..];
    }
  }

  /** Popping one more name after dropping some is dropping them all: the loop of pops
      computes `DropKeys`. */
  lemma {:induction false} PopAfterDropKeys(d: QueryDict, keys: seq<string>, k: string)
    ensures Pop(DropKeys(d, keys), k) == DropKeys(d, keys + [k])
    decreases |d|
  {
    if d != [] {
      PopAfterDropKeys(d[1..], keys, k);
      var rest := DropKeys(d[1..], keys);
      var rest' := DropKeys(d[1..], keys + [k]);
      assert Pop(rest, k) == rest';
      if d[0].0 in keys {
        assert DropKeys(d, keys) == rest;
        assert DropKeys(d, keys + [k]) == rest';
      } else if d[0].0 == k {
        assert DropKeys(d, keys) == [d[0]] + rest;
        assert ([d[0]] + rest)[1..] == rest;
        assert DropKeys(d, keys + [k]) == rest';
      } else {
        assert DropKeys(d, keys) == [d[0]] + rest;
        assert ([d[0]] + rest)[1..] == rest;
        assert DropKeys(d, keys + [k]) == [d[0]] + rest';
      }
    }
  }

  /** Dropping names keeps the names distinct. */
  lemma {:induction false} DropKeysDistinct(d: QueryDict, keys: seq<string>)
    requires DistinctKeys(d)
    ensures DistinctKeys(DropKeys(d, keys))
    decreases |d|
  {
    if d != [] {
      DropKeysDistinct(d[1..], keys);
      var r := DropKeys(d, keys);
      var rest := DropKeys(d[1..], keys);
      if d[0].0 in keys {
        assert r == rest;
      } else {
        assert r == [d[0]] + rest;
        assert r[1..] == rest;
        if HasKey(rest, d[0].0) {
          var i :| 0 <= i < |rest| && rest[i].0 == d[0].0;
          assert rest[i] in rest;
          InDictHasKey(d[1..], rest[i]);
        }
      }
    }
  }

  // ---------------------------------------------------------------------------
  // Python's string order and `sorted`

  /** `a < b` on Python strings: code point by code point, a proper prefix first. */
  predicate StrLess(a: string, b: string)
    decreases |a|
  {
    |b| > 0 && (|a| == 0 || a[0] < b[0] || (a[0] == b[0] && StrLess(a[1..], b[1..])))
  }

  lemma StrLessIrreflexive(a: string)
    ensures !StrLess(a, a)
  {
  }

  lemma {:induction false} StrLessTransitive(a: string, b: string, c: string)
    ensures StrLess(a, b) && StrLess(b, c) ==> StrLess(a, c)
    decreases |a|
  {
    if |a| > 0 && |b| > 0 && |c| > 0 {
      StrLessTransitive(a[1..], b[1..], c[1..]);
    }
  }

  lemma {:induction false} StrLessTotal(a: string, b: string)
    ensures a == b || StrLess(a, b) || StrLess(b, a)
    decreases |a|
  {
    if |a| > 0 && |b| > 0 && a[0] == b[0] {
      StrLessTotal(a[1..], b[1..]);
      if a[1..] == b[1..] {
        assert a == [a[0]] + a[1..] && b == [b[0]] + b[1..];
      }
    }
  }

  lemma StrLessAsymmetric(a: string, b: string)
    ensures !(StrLess(a, b) && StrLess(b, a))
  {
    StrLessTransitive(a, b, a);
    StrLessIrreflexive(a);
  }

  /** Entries in strictly increasing name order. */
  predicate SortedByKey(d: QueryDict)
  {
    forall i, j :: 0 <= i < j < |d| ==> StrLess(d[i].0, d[j].0)
  }

  function InsertByKey(e: (string, seq<string>), d: QueryDict): QueryDict
    decreases |d|
  {
    if d == [] then [e]
    else if StrLess(e.0, d[0].0) then [e] + d
    else [d[0]] + InsertByKey(e, d[1..])
  }

  /** Insertion adds exactly the one entry. */
  lemma {:induction false} InsertByKeyMultiset(e: (string, seq<string>), d: QueryDict)
    ensures multiset(InsertByKey(e, d)) == multiset(d) + multiset{e}
    decreases |d|
  {
    if d != [] && !StrLess(e.0, d[0].0) {
      InsertByKeyMultiset(e, d[1..]);
      assert d == [d[0]] + d[1..];
    }
  }

  /** Inserting an entry whose name is new into a name-sorted dictionary keeps it sorted. */
  lemma {:induction false} InsertByKeySpec(e: (string, seq<string>), d: QueryDict)
    requires SortedByKey(d)
    requires forall i :: 0 <= i < |d| ==> d[i].0 != e.0
    ensures SortedByKey(InsertByKey(e, d))
    ensures multiset(InsertByKey(e, d)) == multiset(d) + multiset{e}
    decreases |d|
  {
    InsertByKeyMultiset(e, d);
    if d != [] && !StrLess(e.0, d[0].0) {
      InsertByKeySpec(e, d[1..]);
      var rest := InsertByKey(e, d[1..]);
      var r := [d[0]] + rest;
      StrLessTotal(e.0, d[0].0);
      forall j | 0 < j < |r|
        ensures StrLess(r[0].0, r[j].0)
      {
        assert r[j] in multiset(rest);
        assert r[j] == e || r[j] in d[1..];
      }
    } else if d != [] {
      var r := [e] + d;
      forall i, j | 0 <= i < j < |r|
        ensures StrLess(r[i].0, r[j].0)
      {
        if i == 0 {
          StrLessTransitive(e.0, d[0].0, r[j].0);
        }
      }
    }
  }

  /** `sorted(d.items())`, as an insertion sort on the names. */
  function SortByKey(d: QueryDict): QueryDict
    decreases |d|
  {
    if d == [] then [] else InsertByKey(d[0], SortByKey(d[1..]))
  }

  /** The names of a dictionary are distinct, so `sorted` never compares two values: the
      result is in strictly increasing name order and holds the same entries. */
  lemma {:induction false} SortByKeySpec(d: QueryDict)
    requires DistinctKeys(d)
    ensures SortedByKey(SortByKey(d))
    ensures multiset(SortByKey(d)) == multiset(d)
    decreases |d|
  {
    if d != [] {
      SortByKeySpec(d[1..]);
      var rest := SortByKey(d[1..]);
      forall i | 0 <= i < |rest|
        ensures rest[i].0 != d[0].0
      {
        assert rest[i] in multiset(d[1..]);
        InDictHasKey(d[1..], rest[i]);
      }
      InsertByKeySpec(d[0], rest);
      assert d == [d[0]] + d[1..];
    }
  }

  lemma FirstIsMember(d: QueryDict)
    ensures |d| > 0 ==> d[0] in d
  {
  }

  /** Two name-sorted dictionaries with the same entries are the same dictionary. */
  lemma {:induction false} SortedUnique(a: QueryDict, b: QueryDict)
    requires SortedByKey(a) && SortedByKey(b)
    requires forall e :: e in a <==> e in b
    ensures a == b
    decreases |a|
  {
    if a != [] {
      SortedHeads(a, b);
      forall e
        ensures e in a[1..] <==> e in b[1..]
      {
        SortedTailMember(a, e);
        SortedTailMember(b, e);
      }
      SortedUnique(a[1..], b[1..]);
      assert a == [a[0]] + a[1..] && b == [b[0]] + b[1..];
    } else {
      FirstIsMember(b);
    }
  }

  /** Two name-sorted dictionaries with the same entries start with the same entry. */
  lemma SortedHeads(a: QueryDict, b: QueryDict)
    requires SortedByKey(a) && SortedByKey(b)
    requires forall e :: e in a <==> e in b
    requires a != []
    ensures b != [] && a[0] == b[0]
  {
    assert a[0] in a;
    var j :| 0 <= j < |b| && b[j] == a[0];
    assert b[0] in b;
    var i :| 0 <= i < |a| && a[i] == b[0];
    StrLessIrreflexive(a[0].0);
    StrLessAsymmetric(a[0].0, b[0].0);
  }

  /** The rest of a name-sorted dictionary holds every entry but the first. */
  lemma SortedTailMember(a: QueryDict, e: (string, seq<string>))
    requires SortedByKey(a) && a != []
    ensures e in a[1..] <==> e in a && e != a[0]
  {
    StrLessIrreflexive(e.0);
    if e in a[1..] {
      var k :| 0 <= k < |a[1..]| && a[1..][k] == e;
      assert a[k + 1] == e;
    }
    if e in a && e != a[0] {
      var m :| 0 <= m < |a| && a[m] == e;
      assert a[1..][m - 1] == e;
    }
  }


  // ---------------------------------------------------------------------------
  // `urlencode(..., doseq=True)` with `quote_plus`

  /** Characters `quote_plus` leaves alone. */
  predicate IsUnreserved(c: char)
  {
    IsAsciiLetter(c) || IsDigit(c) || c == '_' || c == '.' || c == '-' || c == '~'
  }

  /** The UTF-8 encoding of one character. */
  function Utf8(c: char): (bytes: seq<nat>)
    ensures 1 <= |bytes| <= 4
    ensures forall i :: 0 <= i < |bytes| ==> bytes[i] < 256
  {
    var cp := c as int;
    if cp < 0x80 then [cp]
    else if cp < 0x800 then [0xC0 + cp / 64, 0x80 + cp % 64]
    else if cp < 0x10000 then [0xE0 + cp / 4096, 0x80 + (cp / 64) % 64, 0x80 + cp % 64]
    else [0xF0 + cp / 262144, 0x80 + (cp / 4096) % 64, 0x80 + (cp / 64) % 64, 0x80 + cp % 64]
  }

  function HexDigit(n: nat): (c: char)
    requires n < 16
    ensures IsDigit(c) || IsAsciiUpper(c)
  {
    "0123456789ABCDEF"[n]
  }

  /** `%XX` for every byte. */
  function PercentEncode(bytes: seq<nat>): (r: string)
    requires forall i :: 0 <= i < |bytes| ==> bytes[i] < 256
    ensures |r| == 3 * |bytes|
    ensures forall i :: 0 <= i < |r| ==> r[i] == '%' || IsDigit(r[i]) || IsAsciiUpper(r[i])
    decreases |bytes|
  {
    if bytes == [] then []
    else ['%', HexDigit(bytes[0] / 16), HexDigit(bytes[0] % 16)] + PercentEncode(bytes[1..])
  }

  /** `quote_plus(s, safe='')`: the result never holds a separator the query string uses. */
  function QuotePlus(s: string): (r: string)
    ensures forall i :: 0 <= i < |r| ==> IsUnreserved(r[i]) || r[i] == '+' || r[i] == '%'
    ensures '&' !in r && '=' !in r && '#' !in r
    decreases |s|
  {
    if s == [] then []
    else
      (if IsUnreserved(s[0]) then [s[0]] else if s[0] == ' ' then "+" else PercentEncode(Utf8(s[0])))
      + QuotePlus(s[1..])
  }

  /** `name=value` for every value of every name, in dictionary order. */
  function EncodePairs(d: QueryDict): seq<string>
    decreases |d|
  {
    if d == [] then []
    else
      var (name, values) := d[0];
      seq(|values|, i requires 0 <= i < |values| => QuotePlus(name) + "=" + QuotePlus(values[i])) + EncodePairs(d[1..])
  }

  /** `'&'.join(pieces)` */
  function JoinAmp(pieces: seq<string>): string
    decreases |pieces|
  {
    if pieces == [] then ""
    else if |pieces| == 1 then pieces[0]
    else pieces[0] + "&" + JoinAmp(pieces[1..])
  }

  function UrlEncode(d: QueryDict): string
  {
    JoinAmp(EncodePairs(d))
  }

  // ---------------------------------------------------------------------------
  // Host, path and `urlunparse`

  /** The mobile host prefixes and their desktop replacements, in the order they are tried. */
  const MobilePrefixes: seq<(string, string)> := [("m.", ""), ("mobile.", ""), ("www.m.", "www.")]

  /** The host after rewriting the first matching mobile prefix, trying from `i` on. */
  function DesktopHostFrom(domain: string, i: nat): string
    decreases |domain| + |MobilePrefixes| - i
  {
    if i >= |MobilePrefixes| then domain
    else if StartsWith(domain, MobilePrefixes[i].0) then
      MobilePrefixes[i].1 + domain[|MobilePrefixes[i].0|..]
    else DesktopHostFrom(domain, i + 1)
  }

  function DesktopHost(domain: string): string
  {
    DesktopHostFrom(domain, 0)
  }

  /** The first matching prefix, and only that one, is rewritten; other hosts are kept. */
  lemma DesktopHostSpec(domain: string)
    ensures StartsWith(domain, "m.") ==> DesktopHost(domain) == domain[2..]
    ensures !StartsWith(domain, "m.") && StartsWith(domain, "mobile.") ==> DesktopHost(domain) == domain[7..]
    ensures !StartsWith(domain, "m.") && !StartsWith(domain, "mobile.") && StartsWith(domain, "www.m.")
            ==> DesktopHost(domain) == "www." + domain[6..]
    ensures !StartsWith(domain, "m.") && !StartsWith(domain, "mobile.") && !StartsWith(domain, "www.m.")
            ==> DesktopHost(domain) == domain
  {
    var _ := DesktopHostFrom(domain, 1);
    var _ := DesktopHostFrom(domain, 2);
    var _ := DesktopHostFrom(domain, 3);
  }

  /** The host rewrite is not idempotent: `m.m.x` becomes `m.x`, which becomes `x`. */
  lemma DesktopHostNotIdempotent()
    ensures DesktopHost("m.m.x") == "m.x"
    ensures DesktopHost(DesktopHost("m.m.x")) == "x"
  {
    DesktopHostSpec("m.m.x");
    DesktopHostSpec("m.x");
  }

  /** `path.rstrip('/') if path != '/' else '/'` */
  function NormalizePath(path: string): (r: string)
    ensures path == "/" ==> r == "/"
    ensures path != "/" ==> |r| <= |path| && (|r| == 0 || r[|r| - 1] != '/') && r == path[..|r|]
    ensures path != "/" ==> forall i :: |r| <= i < |path| ==> path[i] == '/'
  {
    if path == "/" then "/" else RStripChar(path, '/')
  }

  /** `urlunparse`, for the case the parsed URL has a host or none is needed
      (the `uses_netloc` special case is not part of this model). */
  function Unparse(scheme: string, netloc: string, path: string, params: string, query: string, fragment: string): string
  {
    var url := if params != "" then path + ";" + params else path;
    var url := if netloc != "" then "//" + netloc + (if url != "" && url[0] != '/' then "/" + url else url) else url;
    var url := if scheme != "" then scheme + ":" + url else url;
    var url := if query != "" then url + "?" + query else url;
    if fragment != "" then url + "#" + fragment else url
  }

  // ---------------------------------------------------------------------------
  // normalize_url

  /** The query left once the tracking parameters are popped. */
  function CleanQuery(p: UrlParts): QueryDict
  {
    DropKeys(ParseQs(p.query), TrackingKeys)
  }

  /** The query string of the canonical key: the cleaned parameters sorted by name, or
      nothing when none is left. */
  function CanonicalQuery(p: UrlParts): string
  {
    var cleaned := CleanQuery(p);
    if cleaned != [] then UrlEncode(SortByKey(cleaned)) else ""
  }

  /** The key of a URL `urlparse` rejected: stripped, lower-cased, trailing slashes removed
      unless the whole URL is one character. */
  function FallbackKey(url: string): string
  {
    var u := Lower(Strip(url));
    if EndsWith(u, "/") && |u| > 1 then RStripChar(u, '/') else u
  }

  /** The canonical key of a URL. */
  function NormalizeUrlSpec(url: string, parse: Parser): string
  {
    NormalizeUrlFrom(url, parse, 0)
  }

  /** `normalize_url` from step `stage` on: 0, the early return on an empty URL; 1, the key
      of the parsed URL, or the fallback key when `urlparse` fails. The URL length in the
      measure keeps a use of the key from unrolling both steps at once. */
  function NormalizeUrlFrom(url: string, parse: Parser, stage: nat): string
    decreases |url| + 1 - stage
  {
    if stage == 0 then
      if url == "" then "" else NormalizeUrlFrom(url, parse, 1)
    else
      match parse(Strip(url))
      case None => FallbackKey(url)
      case Some(p) => CanonicalKey(p)
  }

  /** The three outcomes of `normalize_url`: nothing for an empty URL, the fallback key when
      `urlparse` fails, the canonical key of the parsed URL otherwise. */
  lemma NormalizeUrlCases(url: string, parse: Parser)
    ensures url == "" ==> NormalizeUrlSpec(url, parse) == ""
    ensures url != "" && parse(Strip(url)).None? ==> NormalizeUrlSpec(url, parse) == FallbackKey(url)
    ensures url != "" && parse(Strip(url)).Some? ==>
              NormalizeUrlSpec(url, parse) == CanonicalKey(parse(Strip(url)).value)
  {
    if url != "" {
      assert NormalizeUrlFrom(url, parse, 0) == NormalizeUrlFrom(url, parse, 1);
    }
  }

  /** The key of a URL `urlparse` accepted. */
  function CanonicalKey(p: UrlParts): string
  {
    Lower(Unparse(p.scheme, DesktopHost(Lower(p.netloc)), NormalizePath(p.path), p.params, CanonicalQuery(p), ""))
  }

  /** The loop over the mobile prefixes: the first one the host starts with is replaced. */
  method RewriteMobileHost(netloc: string) returns (domain: string)
    ensures domain == DesktopHost(Lower(netloc))
  {
    domain := Lower(netloc);
    var i := 0;
    while i < |MobilePrefixes|
      invariant 0 <= i <= |MobilePrefixes|
      invariant domain == Lower(netloc)
      invariant DesktopHostFrom(domain, i) == DesktopHost(Lower(netloc))
    {
      var (mobile, desktop) := MobilePrefixes[i];
      if StartsWith(domain, mobile) {
        // `str.replace(mobile, desktop, 1)` on a host that starts with `mobile`
        domain := desktop + domain[|mobile|..];
        return;
      }
      i := i + 1;
    }
  }

  /** The loop popping each tracking parameter from the query dictionary. */
  method PopTrackingKeys(queryParams: QueryDict) returns (cleaned: QueryDict)
    ensures cleaned == DropKeys(queryParams, TrackingKeys)
  {
    cleaned := queryParams;
    DropNoKeys(queryParams);
    var t := 0;
    while t < |TrackingKeys|
      invariant 0 <= t <= |TrackingKeys|
      invariant cleaned == DropKeys(queryParams, TrackingKeys[..t])
    {
      PopAfterDropKeys(queryParams, TrackingKeys[..t], TrackingKeys[t]);
      cleaned := Pop(cleaned, TrackingKeys[t]);
      assert TrackingKeys[..t + 1] == TrackingKeys[..t] + [TrackingKeys[t]];
      t := t + 1;
    }
    assert TrackingKeys[..t] == TrackingKeys;
  }

  /** `normalize_url` */
  method NormalizeUrl(url: string, parse: Parser) returns (key: string)
    ensures url == "" ==> key == ""
    ensures key == NormalizeUrlSpec(url, parse)
  {
    NormalizeUrlCases(url, parse);
    if url == "" {
      return "";
    }
    var parsed := parse(Strip(url));
    if parsed.None? {
      key := Fallback(url);
    } else {
      key := Canonicalize(parsed.value);
    }
  }

  /** The key of a URL `urlparse` rejected: lower-cased, with trailing slashes removed. */
  method Fallback(url: string) returns (key: string)
    ensures key == FallbackKey(url)
  {
    key := Lower(Strip(url));
    if EndsWith(key, "/") && |key| > 1 {
      key := RStripChar(key, '/');
    }
  }

  /** The key of a parsed URL: desktop host, path without trailing slashes, tracking
      parameters removed and the rest sorted, no fragment, all lower-cased. */
  method Canonicalize(p: UrlParts) returns (key: string)
    ensures key == CanonicalKey(p)
  {
    var domain := RewriteMobileHost(p.netloc);
    var path := if p.path != "/" then RStripChar(p.path, '/') else "/";
    var queryParams := PopTrackingKeys(ParseQs(p.query));
    var sortedQuery := if queryParams != [] then UrlEncode(SortByKey(queryParams)) else "";
    key := Lower(Unparse(p.scheme, domain, path, p.params, sortedQuery, ""));
  }


  // ---------------------------------------------------------------------------
  // Properties of the canonical key

  lemma {:induction false} RStripCharLowerCase(s: string, c: char)
    requires IsLowerCase(s)
    ensures IsLowerCase(RStripChar(s, c))
  {
  }

  /** Every key is lower-case, whichever branch produced it. */
  lemma NormalizeUrlLowerCase(url: string, parse: Parser)
    ensures IsLowerCase(NormalizeUrlSpec(url, parse))
  {
    NormalizeUrlCases(url, parse);
    if url != "" {
      match parse(Strip(url))
      case None =>
        var u := Lower(Strip(url));
        LowerIsLowerCase(Strip(url));
        RStripCharLowerCase(u, '/');
      case Some(p) =>
        LowerIsLowerCase(Unparse(p.scheme, DesktopHost(Lower(p.netloc)), NormalizePath(p.path), p.params, CanonicalQuery(p), ""));
    }
  }

  /** The cleaned query holds no tracking parameter, each remaining name once with all
      of its values in order, and it is encoded in increasing name order. */
  lemma CleanQuerySpec(p: UrlParts)
    ensures forall e :: e in CleanQuery(p) ==> e.0 !in TrackingKeys
    ensures forall e :: e in CleanQuery(p) <==>
              e.0 !in TrackingKeys && e.1 == ValuesOf(p.query, e.0) && e.1 != []
    ensures DistinctKeys(CleanQuery(p)) && SortedByKey(SortByKey(CleanQuery(p)))
    ensures multiset(SortByKey(CleanQuery(p))) == multiset(CleanQuery(p))
  {
    ParseQsSpec(p.query);
    DropKeysDistinct(ParseQs(p.query), TrackingKeys);
    SortByKeySpec(CleanQuery(p));
  }

  /** Swapping two adjacent query parameters with different names leaves the key unchanged. */
  lemma ParameterOrderIrrelevant(p: UrlParts, pre: seq<(string, string)>, x: (string, string),
                                 y: (string, string), post: seq<(string, string)>)
    requires x.0 != y.0
    requires p.query == pre + [x, y] + post
    ensures CanonicalQuery(p) == CanonicalQuery(p.(query := pre + [y, x] + post))
    ensures CanonicalKey(p) == CanonicalKey(p.(query := pre + [y, x] + post))
  {
    var q := p.(query := pre + [y, x] + post);
    CleanQuerySpec(p);
    CleanQuerySpec(q);
    forall k
      ensures ValuesOf(p.query, k) == ValuesOf(q.query, k)
    {
      SwapValues(pre, x, y, post, k);
    }
    var a, b := CleanQuery(p), CleanQuery(q);
    assert forall e :: e in a <==> e in b;
    assert a == [] <==> b == [] by {
      if a != [] {
        assert a[0] in b;
      }
      if b != [] {
        assert b[0] in a;
      }
    }
    if a != [] {
      var sa, sb := SortByKey(a), SortByKey(b);
      forall e
        ensures e in sa <==> e in sb
      {
        assert e in sa <==> e in multiset(sa);
        assert e in sb <==> e in multiset(sb);
        assert e in a <==> e in multiset(a);
        assert e in b <==> e in multiset(b);
      }
      SortedUnique(sa, sb);
    }
  }

  /** The rewritten host keeps out every character the host and the desktop prefixes lack. */
  lemma DesktopHostKeepsOut(netloc: string, c: char)
    requires c !in netloc && !IsAsciiLetter(c) && c != '.'
    ensures c !in DesktopHost(Lower(netloc))
  {
    LowerKeepsOut(netloc, c);
    DesktopHostSpec(Lower(netloc));
  }

  lemma UnparseKeepsOut(scheme: string, netloc: string, path: string, params: string, query: string, c: char)
    requires c !in scheme && c !in netloc && c !in path && c !in params && c !in query
    requires c !in ";/:?"
    ensures c !in Unparse(scheme, netloc, path, params, query, "")
  {
  }

  /** The fragment is gone: no `#` is left in the key when the parsed components hold none. */
  lemma NoFragment(url: string, parse: Parser)
    requires url != "" && parse(Strip(url)).Some?
    requires var p := parse(Strip(url)).value;
      '#' !in p.scheme && '#' !in p.netloc && '#' !in p.path && '#' !in p.params
    ensures '#' !in NormalizeUrlSpec(url, parse)
  {
    NormalizeUrlCases(url, parse);
    CanonicalKeyNoFragment(parse(Strip(url)).value);
  }

  lemma CanonicalKeyNoFragment(p: UrlParts)
    requires '#' !in p.scheme && '#' !in p.netloc && '#' !in p.path && '#' !in p.params
    ensures '#' !in CanonicalKey(p)
  {
    var host, path, query := DesktopHost(Lower(p.netloc)), NormalizePath(p.path), CanonicalQuery(p);
    DesktopHostKeepsOut(p.netloc, '#');
    CanonicalQueryChars(p);
    assert '#' !in path;
    UnparseKeepsOut(p.scheme, host, path, p.params, query, '#');
    LowerKeepsOut(Unparse(p.scheme, host, path, p.params, query, ""), '#');
  }


  /** Lower-casing neither adds nor removes a character that is not a letter. */
  lemma LowerKeepsOut(s: string, c: char)
    requires c !in s && !IsAsciiLetter(c)
    ensures c !in Lower(s)
  {
  }

  lemma {:induction false} JoinAmpKeepsOut(pieces: seq<string>, c: char)
    requires c != '&' && forall i :: 0 <= i < |pieces| ==> c !in pieces[i]
    ensures c !in JoinAmp(pieces)
    decreases |pieces|
  {
    if |pieces| > 1 {
      JoinAmpKeepsOut(pieces[1..], c);
    }
  }

  lemma {:induction false} EncodePairsKeepsOut(d: QueryDict)
    ensures forall i :: 0 <= i < |EncodePairs(d)| ==> '#' !in EncodePairs(d)[i]
    decreases |d|
  {
    if d != [] {
      EncodePairsKeepsOut(d[1..]);
    }
  }

  lemma CanonicalQueryChars(p: UrlParts)
    ensures '#' !in CanonicalQuery(p)
  {
    var cleaned := CleanQuery(p);
    if cleaned != [] {
      EncodePairsKeepsOut(SortByKey(cleaned));
      JoinAmpKeepsOut(EncodePairs(SortByKey(cleaned)), '#');
    }
  }

  /** The path keeps no trailing slash, except the root path `/`. */
  lemma CanonicalPath(path: string)
    ensures NormalizePath(path) == "/" <==> path == "/"
    ensures path != "/" ==> !EndsWith(NormalizePath(path), "/")
  {
  }
}
