/** The phrase windows of a sentence and the two aggregation maps that
    indexing builds from them before a commit: source posting-list fragments
    keyed by (domain, phrase), and target counter increments keyed by phrase. */
module PhraseWindows {
  import opened DbKv
  import opened Totals

  /** `length` consecutive words of a sentence, from word `start`. */
  datatype Window = Window(start: nat, length: nat)

  /** The windows indexed for a sentence of `n` words. */
  predicate IsWindow(w: Window, n: nat, maxLength: nat)
  {
    1 <= w.length <= maxLength && w.start + w.length <= n
  }

  /** How many windows start at `start`: min(maxLength, n - start). */
  function RowLength(start: nat, n: nat, maxLength: nat): nat
  {
    if start >= n then 0 else if n - start < maxLength then n - start else maxLength
  }

  /** The windows from `start` of lengths 1 to `count`, shortest first. */
  function Row(start: nat, count: nat): seq<Window>
  {
    seq(count, i requires 0 <= i < count => Window(start, i + 1))
  }

  /** A row grows by its next longer window. */
  lemma RowSnoc(start: nat, count: nat)
    requires count > 0
    ensures Row(start, count) == Row(start, count - 1) + [Window(start, count)]
  {
  }

  /** The windows with a start below `s`, in the order the indexing loops visit
      them. */
  function WindowsBefore(s: nat, n: nat, maxLength: nat): seq<Window>
  {
    if s == 0 then [] else WindowsBefore(s - 1, n, maxLength) + Row(s - 1, RowLength(s - 1, n, maxLength))
  }

  /** All windows of a sentence of `n` words, in visiting order. */
  function Windows(n: nat, maxLength: nat): seq<Window>
  {
    WindowsBefore(n, n, maxLength)
  }

  /** The sum over every start position of min(maxLength, n - start). */
  function WindowCount(n: nat, maxLength: nat): nat
  {
    RowsFrom(0, n, maxLength)
  }

  function RowsFrom(s: nat, n: nat, maxLength: nat): nat
    decreases n - s
  {
    if s >= n then 0 else RowLength(s, n, maxLength) + RowsFrom(s + 1, n, maxLength)
  }

  /** Strict visiting order: by start, then by length. */
  predicate VisitedBefore(a: Window, b: Window)
  {
    a.start < b.start || (a.start == b.start && a.length < b.length)
  }

  lemma {:induction false} WindowsBeforeShape(s: nat, n: nat, maxLength: nat)
    ensures forall w :: w in WindowsBefore(s, n, maxLength) <==> IsWindow(w, n, maxLength) && w.start < s
    ensures forall i, j :: 0 <= i < j < |WindowsBefore(s, n, maxLength)| ==>
      VisitedBefore(WindowsBefore(s, n, maxLength)[i], WindowsBefore(s, n, maxLength)[j])
  {
    if s > 0 {
      WindowsBeforeShape(s - 1, n, maxLength);
      var prev, row := WindowsBefore(s - 1, n, maxLength), Row(s - 1, RowLength(s - 1, n, maxLength));
      var all := prev + row;
      assert all == WindowsBefore(s, n, maxLength);
      forall w ensures w in all <==> IsWindow(w, n, maxLength) && w.start < s {
        assert w in all <==> w in prev || w in row;
        if w in row {
          var i :| 0 <= i < |row| && row[i] == w;
        }
        if IsWindow(w, n, maxLength) && w.start == s - 1 {
          assert row[w.length - 1] == w;
        }
      }
      forall i, j | 0 <= i < j < |all| ensures VisitedBefore(all[i], all[j]) {
        if j < |prev| {
          assert all[i] == prev[i] && all[j] == prev[j];
        } else if i >= |prev| {
          assert all[i] == row[i - |prev|] && all[j] == row[j - |prev|];
        } else {
          assert all[i] == prev[i] && prev[i] in prev;
          assert all[j] == row[j - |prev|];
        }
      }
    }
  }

  /** The enumeration visits every window of the sentence, nothing else, and
      each exactly once. */
  lemma WindowsExact(n: nat, maxLength: nat)
    ensures forall w :: w in Windows(n, maxLength) <==> IsWindow(w, n, maxLength)
    ensures forall i, j :: 0 <= i < j < |Windows(n, maxLength)| ==> Windows(n, maxLength)[i] != Windows(n, maxLength)[j]
  {
    WindowsBeforeShape(n, n, maxLength);
    forall w | IsWindow(w, n, maxLength) ensures w.start < n { }
  }

  lemma {:induction false} WindowsBeforeLength(s: nat, n: nat, maxLength: nat)
    requires s <= n
    ensures |WindowsBefore(s, n, maxLength)| + RowsFrom(s, n, maxLength) == WindowCount(n, maxLength)
  {
    if s > 0 {
      WindowsBeforeLength(s - 1, n, maxLength);
    }
  }

  /** The number of windows is the sum over start of min(maxLength, n - start). */
  lemma WindowsLength(n: nat, maxLength: nat)
    ensures |Windows(n, maxLength)| == WindowCount(n, maxLength)
  {
    WindowsBeforeLength(n, n, maxLength);
  }

  /** Whether `words` occurs in `sentence` from position `s`. */
  predicate OccursAt(sentence: seq<Word>, words: seq<Word>, s: nat)
  {
    s + |words| <= |sentence| && sentence[s..s + |words|] == words
  }

  /** The start positions below `s` at which `words` occurs, increasing. */
  function StartsBefore(sentence: seq<Word>, words: seq<Word>, s: nat): seq<nat>
  {
    if s == 0 then []
    else StartsBefore(sentence, words, s - 1) + (if OccursAt(sentence, words, s - 1) then [s - 1] else [])
  }

  /** Every start position at which `words` occurs in `sentence`, increasing. */
  function Occurrences(sentence: seq<Word>, words: seq<Word>): seq<nat>
  {
    StartsBefore(sentence, words, |sentence|)
  }

  // ----- Source side: posting-list fragments -----

  /** Aggregated posting-list fragments, keyed by source-prefix key. */
  type PrefixBatch = map<Key, seq<Posting>>

  /** A missing entry reads as an empty fragment. */
  function Lookup(m: PrefixBatch, key: Key): seq<Posting>
  {
    if key in m then m[key] else []
  }

  /** The postings for a list of start positions. */
  function PostingsAt(domain: Domain, location: Location, starts: seq<nat>): seq<Posting>
  {
    if starts == [] then [] else [Posting(domain, location, starts[0])] + PostingsAt(domain, location, starts[1..])
  }

  lemma {:induction false} PostingsAtAppend(domain: Domain, location: Location, a: seq<nat>, b: seq<nat>)
    ensures PostingsAt(domain, location, a + b) == PostingsAt(domain, location, a) + PostingsAt(domain, location, b)
    decreases |a|
  {
    if a == [] {
      assert a + b == b;
    } else {
      assert (a + b)[1..] == a[1..] + b;
      PostingsAtAppend(domain, location, a[1..], b);
    }
  }

  /** The fragments after the windows from `start` of lengths 1 to `count`,
      shortest first: each appends its start to its phrase's fragment. */
  function RowPrefixes(m: PrefixBatch, domain: Domain, sentence: seq<Word>, location: Location, start: nat, count: nat): PrefixBatch
    requires start + count <= |sentence|
  {
    if count == 0 then m
    else
      var rest := RowPrefixes(m, domain, sentence, location, start, count - 1);
      var key := Prefix(domain, sentence[start..start + count]);
      rest[key := Lookup(rest, key) + [Posting(domain, location, start)]]
  }

  /** The fragments after the rows of every start below `s`, in visiting order. */
  function PrefixesBefore(m: PrefixBatch, domain: Domain, sentence: seq<Word>, location: Location, maxLength: nat, s: nat): PrefixBatch
    requires s <= |sentence|
  {
    if s == 0 then m
    else RowPrefixes(PrefixesBefore(m, domain, sentence, location, maxLength, s - 1), domain, sentence, location,
                     s - 1, RowLength(s - 1, |sentence|, maxLength))
  }

  /** The fragments after indexing a whole source sentence. */
  function SentencePrefixes(m: PrefixBatch, domain: Domain, sentence: seq<Word>, location: Location, maxLength: nat): PrefixBatch
  {
    PrefixesBefore(m, domain, sentence, location, maxLength, |sentence|)
  }

  /** No key holds an empty fragment. */
  predicate NoEmptyFragment(m: PrefixBatch)
  {
    forall k :: k in m ==> m[k] != []
  }

  lemma {:induction false} RowPrefixesNoEmpty(m: PrefixBatch, domain: Domain, sentence: seq<Word>, location: Location, start: nat, count: nat)
    requires start + count <= |sentence| && NoEmptyFragment(m)
    ensures NoEmptyFragment(RowPrefixes(m, domain, sentence, location, start, count))
  {
    if count > 0 {
      RowPrefixesNoEmpty(m, domain, sentence, location, start, count - 1);
    }
  }

  lemma {:induction false} PrefixesBeforeNoEmpty(m: PrefixBatch, domain: Domain, sentence: seq<Word>, location: Location, maxLength: nat, s: nat)
    requires s <= |sentence| && NoEmptyFragment(m)
    ensures NoEmptyFragment(PrefixesBefore(m, domain, sentence, location, maxLength, s))
  {
    if s > 0 {
      PrefixesBeforeNoEmpty(m, domain, sentence, location, maxLength, s - 1);
      RowPrefixesNoEmpty(PrefixesBefore(m, domain, sentence, location, maxLength, s - 1), domain, sentence, location,
                         s - 1, RowLength(s - 1, |sentence|, maxLength));
    }
  }

  /** Indexing a sentence only ever files non-empty fragments. */
  lemma SentencePrefixesNoEmpty(m: PrefixBatch, domain: Domain, sentence: seq<Word>, location: Location, maxLength: nat)
    requires NoEmptyFragment(m)
    ensures NoEmptyFragment(SentencePrefixes(m, domain, sentence, location, maxLength))
  {
    PrefixesBeforeNoEmpty(m, domain, sentence, location, maxLength, |sentence|);
  }

  /** Whether the row from `start` up to `count` words files a posting under `key`. */
  predicate RowHits(key: Key, domain: Domain, sentence: seq<Word>, start: nat, count: nat)
  {
    key.Prefix? && key.domain == domain && 1 <= |key.words| <= count && OccursAt(sentence, key.words, start)
  }

  /** One row adds a posting to the key of each of its phrases and to no other
      key; at most one per key, since its phrases differ in length. */
  lemma {:induction false} RowPrefixesAt(m: PrefixBatch, domain: Domain, sentence: seq<Word>, location: Location, start: nat, count: nat, key: Key)
    requires start + count <= |sentence|
    ensures var added := if RowHits(key, domain, sentence, start, count) then [Posting(domain, location, start)] else [];
      && Lookup(RowPrefixes(m, domain, sentence, location, start, count), key) == Lookup(m, key) + added
      && (key in RowPrefixes(m, domain, sentence, location, start, count) <==> key in m || added != [])
  {
    if count > 0 {
      RowPrefixesAt(m, domain, sentence, location, start, count - 1, key);
      var here := Prefix(domain, sentence[start..start + count]);
      assert here == key <==> key.Prefix? && key.domain == domain && |key.words| == count && OccursAt(sentence, key.words, start);
    }
  }

  /** The rows before `s` add, to the key of a phrase of this domain with 1 to
      maxLength words, one posting per occurrence starting below `s`, in
      increasing position; they add nothing to any other key. */
  lemma {:induction false} PrefixesBeforeAt(m: PrefixBatch, domain: Domain, sentence: seq<Word>, location: Location, maxLength: nat, s: nat, key: Key)
    requires s <= |sentence|
    ensures var added := if key.Prefix? && key.domain == domain && 1 <= |key.words| <= maxLength
                         then PostingsAt(domain, location, StartsBefore(sentence, key.words, s)) else [];
      && Lookup(PrefixesBefore(m, domain, sentence, location, maxLength, s), key) == Lookup(m, key) + added
      && (key in PrefixesBefore(m, domain, sentence, location, maxLength, s) <==> key in m || added != [])
  {
    if s > 0 {
      var prev := PrefixesBefore(m, domain, sentence, location, maxLength, s - 1);
      var r := RowLength(s - 1, |sentence|, maxLength);
      PrefixesBeforeAt(m, domain, sentence, location, maxLength, s - 1, key);
      RowPrefixesAt(prev, domain, sentence, location, s - 1, r, key);
      if key.Prefix? && key.domain == domain && 1 <= |key.words| <= maxLength {
        assert RowHits(key, domain, sentence, s - 1, r) <==> OccursAt(sentence, key.words, s - 1);
        PostingsAtStep(domain, location, sentence, key.words, s);
      } else {
        assert !RowHits(key, domain, sentence, s - 1, r);
      }
    }
  }

  /** One more start position adds its posting when the phrase occurs there. */
  lemma PostingsAtStep(domain: Domain, location: Location, sentence: seq<Word>, words: seq<Word>, s: nat)
    requires s > 0
    ensures PostingsAt(domain, location, StartsBefore(sentence, words, s))
         == PostingsAt(domain, location, StartsBefore(sentence, words, s - 1))
          + (if OccursAt(sentence, words, s - 1) then [Posting(domain, location, s - 1)] else [])
  {
    var here := if OccursAt(sentence, words, s - 1) then [s - 1] else [];
    assert PostingsAt(domain, location, here) == if OccursAt(sentence, words, s - 1) then [Posting(domain, location, s - 1)] else [];
    PostingsAtAppend(domain, location, StartsBefore(sentence, words, s - 1), here);
  }

  /** Of one sentence, the key of a phrase of this domain with 1 to maxLength
      words receives one posting for each place the phrase occurs, in sentence
      order; every other key is left as it was. */
  lemma SentencePrefixesAt(m: PrefixBatch, domain: Domain, sentence: seq<Word>, location: Location, maxLength: nat, key: Key)
    ensures var added := if key.Prefix? && key.domain == domain && 1 <= |key.words| <= maxLength
                         then PostingsAt(domain, location, Occurrences(sentence, key.words)) else [];
      && Lookup(SentencePrefixes(m, domain, sentence, location, maxLength), key) == Lookup(m, key) + added
      && (key in SentencePrefixes(m, domain, sentence, location, maxLength) <==> key in m || added != [])
  {
    PrefixesBeforeAt(m, domain, sentence, location, maxLength, |sentence|, key);
  }

  /** The lengths of all fragments. */
  function PostingSizes(m: PrefixBatch): map<Key, int>
  {
    map k | k in m :: |m[k]|
  }

  lemma {:induction false} RowPrefixesTotal(m: PrefixBatch, domain: Domain, sentence: seq<Word>, location: Location, start: nat, count: nat)
    requires start + count <= |sentence|
    ensures Total(PostingSizes(RowPrefixes(m, domain, sentence, location, start, count))) == Total(PostingSizes(m)) + count
  {
    if count > 0 {
      var rest := RowPrefixes(m, domain, sentence, location, start, count - 1);
      RowPrefixesTotal(m, domain, sentence, location, start, count - 1);
      var key := Prefix(domain, sentence[start..start + count]);
      var grown := Lookup(rest, key) + [Posting(domain, location, start)];
      assert PostingSizes(rest[key := grown]) == PostingSizes(rest)[key := |grown|];
      TotalUpdate(PostingSizes(rest), key, |grown|);
    }
  }

  lemma {:induction false} PrefixesBeforeTotal(m: PrefixBatch, domain: Domain, sentence: seq<Word>, location: Location, maxLength: nat, s: nat)
    requires s <= |sentence|
    ensures Total(PostingSizes(PrefixesBefore(m, domain, sentence, location, maxLength, s)))
         == Total(PostingSizes(m)) + |WindowsBefore(s, |sentence|, maxLength)|
  {
    if s > 0 {
      PrefixesBeforeTotal(m, domain, sentence, location, maxLength, s - 1);
      RowPrefixesTotal(PrefixesBefore(m, domain, sentence, location, maxLength, s - 1), domain, sentence, location,
                       s - 1, RowLength(s - 1, |sentence|, maxLength));
    }
  }

  /** Indexing a sentence adds exactly one posting per window. */
  lemma SentencePrefixesTotal(m: PrefixBatch, domain: Domain, sentence: seq<Word>, location: Location, maxLength: nat)
    ensures Total(PostingSizes(SentencePrefixes(m, domain, sentence, location, maxLength)))
         == Total(PostingSizes(m)) + WindowCount(|sentence|, maxLength)
  {
    PrefixesBeforeTotal(m, domain, sentence, location, maxLength, |sentence|);
    WindowsLength(|sentence|, maxLength);
  }

  /** The length loop stops after min(maxLength, n - start) windows, whether at
      maxLength or at the end of the sentence. */
  lemma RowLengthExit(start: nat, n: nat, maxLength: nat, length: nat)
    requires start < n && 1 <= length <= maxLength + 1 && start + length - 1 <= n
    requires length == maxLength + 1 || start + length > n
    ensures length - 1 == RowLength(start, n, maxLength)
  {
  }

  // ----- Target side: counter increments -----

  /** Aggregated counter increments, keyed by target-count key. */
  type CountBatch = map<Key, int>

  /** A missing entry reads as zero. */
  function LookupCount(m: CountBatch, key: Key): int
  {
    if key in m then m[key] else 0
  }

  /** The increments after the windows from `start` of lengths 1 to `count`. */
  function RowCounts(m: CountBatch, sentence: seq<Word>, start: nat, count: nat): CountBatch
    requires start + count <= |sentence|
  {
    if count == 0 then m
    else
      var rest := RowCounts(m, sentence, start, count - 1);
      var key := Count(sentence[start..start + count]);
      rest[key := LookupCount(rest, key) + 1]
  }

  /** The increments after the rows of every start below `s`. */
  function CountsBefore(m: CountBatch, sentence: seq<Word>, maxLength: nat, s: nat): CountBatch
    requires s <= |sentence|
  {
    if s == 0 then m
    else RowCounts(CountsBefore(m, sentence, maxLength, s - 1), sentence, s - 1, RowLength(s - 1, |sentence|, maxLength))
  }

  /** The increments after indexing a whole target sentence. */
  function SentenceCounts(m: CountBatch, sentence: seq<Word>, maxLength: nat): CountBatch
  {
    CountsBefore(m, sentence, maxLength, |sentence|)
  }

  lemma {:induction false} RowCountsAt(m: CountBatch, sentence: seq<Word>, start: nat, count: nat, key: Key)
    requires start + count <= |sentence|
    ensures var added := if key.Count? && 1 <= |key.words| <= count && OccursAt(sentence, key.words, start) then 1 else 0;
      && LookupCount(RowCounts(m, sentence, start, count), key) == LookupCount(m, key) + added
      && (key in RowCounts(m, sentence, start, count) <==> key in m || added > 0)
  {
    if count > 0 {
      RowCountsAt(m, sentence, start, count - 1, key);
      var here := Count(sentence[start..start + count]);
      assert here == key <==> key.Count? && |key.words| == count && OccursAt(sentence, key.words, start);
    }
  }

  lemma {:induction false} CountsBeforeAt(m: CountBatch, sentence: seq<Word>, maxLength: nat, s: nat, key: Key)
    requires s <= |sentence|
    ensures var added := if key.Count? && 1 <= |key.words| <= maxLength then |StartsBefore(sentence, key.words, s)| else 0;
      && LookupCount(CountsBefore(m, sentence, maxLength, s), key) == LookupCount(m, key) + added
      && (key in CountsBefore(m, sentence, maxLength, s) <==> key in m || added > 0)
  {
    if s > 0 {
      var prev := CountsBefore(m, sentence, maxLength, s - 1);
      var r := RowLength(s - 1, |sentence|, maxLength);
      CountsBeforeAt(m, sentence, maxLength, s - 1, key);
      RowCountsAt(prev, sentence, s - 1, r, key);
      if key.Count? && 1 <= |key.words| <= maxLength {
        assert (|key.words| <= r && OccursAt(sentence, key.words, s - 1)) <==> OccursAt(sentence, key.words, s - 1);
      }
    }
  }

  /** Of one sentence, the counter of a phrase with 1 to maxLength words is
      incremented once for each place the phrase occurs; no other key is. */
  lemma SentenceCountsAt(m: CountBatch, sentence: seq<Word>, maxLength: nat, key: Key)
    ensures var added := if key.Count? && 1 <= |key.words| <= maxLength then |Occurrences(sentence, key.words)| else 0;
      && LookupCount(SentenceCounts(m, sentence, maxLength), key) == LookupCount(m, key) + added
      && (key in SentenceCounts(m, sentence, maxLength) <==> key in m || added > 0)
  {
    CountsBeforeAt(m, sentence, maxLength, |sentence|, key);
  }

  lemma {:induction false} RowCountsTotal(m: CountBatch, sentence: seq<Word>, start: nat, count: nat)
    requires start + count <= |sentence|
    ensures Total(RowCounts(m, sentence, start, count)) == Total(m) + count
  {
    if count > 0 {
      var rest := RowCounts(m, sentence, start, count - 1);
      RowCountsTotal(m, sentence, start, count - 1);
      var key := Count(sentence[start..start + count]);
      TotalUpdate(rest, key, LookupCount(rest, key) + 1);
    }
  }

  lemma {:induction false} CountsBeforeTotal(m: CountBatch, sentence: seq<Word>, maxLength: nat, s: nat)
    requires s <= |sentence|
    ensures Total(CountsBefore(m, sentence, maxLength, s)) == Total(m) + |WindowsBefore(s, |sentence|, maxLength)|
  {
    if s > 0 {
      CountsBeforeTotal(m, sentence, maxLength, s - 1);
      RowCountsTotal(CountsBefore(m, sentence, maxLength, s - 1), sentence, s - 1, RowLength(s - 1, |sentence|, maxLength));
    }
  }

  /** Indexing a sentence adds one increment per window. */
  lemma SentenceCountsTotal(m: CountBatch, sentence: seq<Word>, maxLength: nat)
    ensures Total(SentenceCounts(m, sentence, maxLength)) == Total(m) + WindowCount(|sentence|, maxLength)
  {
    CountsBeforeTotal(m, sentence, maxLength, |sentence|);
    WindowsLength(|sentence|, maxLength);
  }
}
