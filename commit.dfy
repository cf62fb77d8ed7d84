/** The write batch that one indexing call commits: its layout, and what
    applying it does to every key of the store. */
module Commit {
  import opened Wrappers
  import opened DbKv
  import opened MergeOperator
  import opened Store
  import opened PhraseWindows
  import opened Corpora

  // ----- Aggregation over a whole batch of entries -----

  /** The source fragments of the first `i` entries, the j-th entry stored at
      offset `base + j`. */
  function AggregatePrefixes(entries: seq<CorpusEntry>, base: Location, maxLength: nat, i: nat): PrefixBatch
    requires i <= |entries|
  {
    if i == 0 then map[]
    else
      var e := entries[i - 1];
      SentencePrefixes(AggregatePrefixes(entries, base, maxLength, i - 1), e.domain, e.source, base + i - 1, maxLength)
  }

  /** The target increments of the first `i` entries. */
  function AggregateCounts(entries: seq<CorpusEntry>, maxLength: nat, i: nat): CountBatch
    requires i <= |entries|
  {
    if i == 0 then map[]
    else
      var e := entries[i - 1];
      SentenceCounts(AggregateCounts(entries, maxLength, i - 1), e.target, maxLength)
  }

  /** Reference definition: the postings a key should receive from the first
      `i` entries, namely one per occurrence of its phrase in the source of each
      entry of its domain, by entry and then by position. */
  function BatchPostings(entries: seq<CorpusEntry>, base: Location, maxLength: nat, i: nat, key: Key): seq<Posting>
    requires i <= |entries|
  {
    if i == 0 then []
    else
      BatchPostings(entries, base, maxLength, i - 1, key) + EntryPostings(entries[i - 1], base + i - 1, maxLength, key)
  }

  /** Reference definition: the occurrences of a key's phrase in the targets of
      the first `i` entries. */
  function BatchCount(entries: seq<CorpusEntry>, maxLength: nat, i: nat, key: Key): nat
    requires i <= |entries|
  {
    if i == 0 then 0
    else
      BatchCount(entries, maxLength, i - 1, key) + EntryCount(entries[i - 1], maxLength, key)
  }

  /** What one entry adds to the fragment of a key. */
  function EntryPostings(e: CorpusEntry, location: Location, maxLength: nat, key: Key): seq<Posting>
  {
    if key.Prefix? && key.domain == e.domain && 1 <= |key.words| <= maxLength
    then PostingsAt(e.domain, location, Occurrences(e.source, key.words)) else []
  }

  /** What one entry adds to the increment of a key. */
  function EntryCount(e: CorpusEntry, maxLength: nat, key: Key): nat
  {
    if key.Count? && 1 <= |key.words| <= maxLength then |Occurrences(e.target, key.words)| else 0
  }

  lemma AggregatePrefixesStep(entries: seq<CorpusEntry>, base: Location, maxLength: nat, i: nat, key: Key)
    requires 0 < i <= |entries|
    ensures Lookup(AggregatePrefixes(entries, base, maxLength, i), key)
         == Lookup(AggregatePrefixes(entries, base, maxLength, i - 1), key) + EntryPostings(entries[i - 1], base + i - 1, maxLength, key)
    ensures key in AggregatePrefixes(entries, base, maxLength, i)
        <==> key in AggregatePrefixes(entries, base, maxLength, i - 1) || |EntryPostings(entries[i - 1], base + i - 1, maxLength, key)| > 0
  {
    var e := entries[i - 1];
    var loc: Location := base + i - 1;
    var prev := AggregatePrefixes(entries, base, maxLength, i - 1);
    assert AggregatePrefixes(entries, base, maxLength, i) == SentencePrefixes(prev, e.domain, e.source, loc, maxLength);
    SentencePrefixesAt(prev, e.domain, e.source, loc, maxLength, key);
  }

  lemma AggregateCountsStep(entries: seq<CorpusEntry>, maxLength: nat, i: nat, key: Key)
    requires 0 < i <= |entries|
    ensures var prev, next := AggregateCounts(entries, maxLength, i - 1), AggregateCounts(entries, maxLength, i);
      var added := EntryCount(entries[i - 1], maxLength, key);
      && LookupCount(next, key) == LookupCount(prev, key) + added
      && (key in next <==> key in prev || added > 0)
  {
    var e := entries[i - 1];
    var prev := AggregateCounts(entries, maxLength, i - 1);
    assert AggregateCounts(entries, maxLength, i) == SentenceCounts(prev, e.target, maxLength);
    SentenceCountsAt(prev, e.target, maxLength, key);
  }

  lemma BatchPostingsStep(entries: seq<CorpusEntry>, base: Location, maxLength: nat, i: nat, key: Key)
    requires 0 < i <= |entries|
    ensures BatchPostings(entries, base, maxLength, i, key)
         == BatchPostings(entries, base, maxLength, i - 1, key) + EntryPostings(entries[i - 1], base + i - 1, maxLength, key)
  {
  }

  /** The aggregated fragment of a key is exactly its reference postings, and
      only keys that received postings have a fragment. */
  lemma AggregatePrefixesAt(entries: seq<CorpusEntry>, base: Location, maxLength: nat, i: nat, key: Key)
    requires i <= |entries|
    ensures Lookup(AggregatePrefixes(entries, base, maxLength, i), key) == BatchPostings(entries, base, maxLength, i, key)
    ensures key in AggregatePrefixes(entries, base, maxLength, i) <==> BatchPostings(entries, base, maxLength, i, key) != []
  {
    AggregateLookup(entries, base, maxLength, i, key);
    AggregateNoEmpty(entries, base, maxLength, i);
  }

  lemma {:induction false} AggregateLookup(entries: seq<CorpusEntry>, base: Location, maxLength: nat, i: nat, key: Key)
    requires i <= |entries|
    ensures Lookup(AggregatePrefixes(entries, base, maxLength, i), key) == BatchPostings(entries, base, maxLength, i, key)
  {
    if i > 0 {
      AggregateLookup(entries, base, maxLength, i - 1, key);
      AggregatePrefixesStep(entries, base, maxLength, i, key);
      BatchPostingsStep(entries, base, maxLength, i, key);
    }
  }

  lemma {:induction false} AggregateNoEmpty(entries: seq<CorpusEntry>, base: Location, maxLength: nat, i: nat)
    requires i <= |entries|
    ensures NoEmptyFragment(AggregatePrefixes(entries, base, maxLength, i))
  {
    if i > 0 {
      var e := entries[i - 1];
      AggregateNoEmpty(entries, base, maxLength, i - 1);
      SentencePrefixesNoEmpty(AggregatePrefixes(entries, base, maxLength, i - 1), e.domain, e.source, base + i - 1, maxLength);
    }
  }

  /** The aggregated increment of a key is exactly its reference count, and
      only keys whose phrase occurs have an increment. */
  lemma {:induction false} AggregateCountsAt(entries: seq<CorpusEntry>, maxLength: nat, i: nat, key: Key)
    requires i <= |entries|
    ensures LookupCount(AggregateCounts(entries, maxLength, i), key) == BatchCount(entries, maxLength, i, key)
    ensures key in AggregateCounts(entries, maxLength, i) <==> BatchCount(entries, maxLength, i, key) > 0
  {
    if i > 0 {
      AggregateCountsAt(entries, maxLength, i - 1, key);
      AggregateCountsStep(entries, maxLength, i, key);
    }
  }

  /** Source fragments are only ever filed under source-prefix keys. */
  lemma {:induction false} BatchPostingsKind(entries: seq<CorpusEntry>, base: Location, maxLength: nat, i: nat, key: Key)
    requires i <= |entries|
    requires !key.Prefix?
    ensures BatchPostings(entries, base, maxLength, i, key) == []
  {
    if i > 0 {
      BatchPostingsKind(entries, base, maxLength, i - 1, key);
    }
  }

  /** Target increments are only ever filed under target-count keys. */
  lemma {:induction false} BatchCountKind(entries: seq<CorpusEntry>, maxLength: nat, i: nat, key: Key)
    requires i <= |entries|
    requires !key.Count?
    ensures BatchCount(entries, maxLength, i, key) == 0
  {
    if i > 0 {
      BatchCountKind(entries, maxLength, i - 1, key);
    }
  }

  /** The aggregation maps only hold keys of their own kind. */
  lemma AggregateKinds(entries: seq<CorpusEntry>, base: Location, maxLength: nat)
    ensures forall k :: k in AggregatePrefixes(entries, base, maxLength, |entries|) ==> k.Prefix?
    ensures forall k :: k in AggregateCounts(entries, maxLength, |entries|) ==> k.Count?
  {
    forall k | k in AggregatePrefixes(entries, base, maxLength, |entries|) ensures k.Prefix? {
      AggregatePrefixesAt(entries, base, maxLength, |entries|, k);
      if !k.Prefix? {
        BatchPostingsKind(entries, base, maxLength, |entries|, k);
      }
    }
    forall k | k in AggregateCounts(entries, maxLength, |entries|) ensures k.Count? {
      AggregateCountsAt(entries, maxLength, |entries|, k);
      if !k.Count? {
        BatchCountKind(entries, maxLength, |entries|, k);
      }
    }
  }

  // ----- The layout of the write batch -----

  function PrefixValues(m: PrefixBatch): map<Key, Value>
  {
    map k | k in m :: PostingList(m[k])
  }

  function CountValues(m: CountBatch): map<Key, Value>
  {
    map k | k in m :: Counter(m[k])
  }

  /** `ops` holds one Merge per key of `values`, carrying that key's value, in
      some order (the iteration order of a hash map). */
  predicate MergeEnumeration(ops: seq<Op>, values: map<Key, Value>)
  {
    && (forall i :: 0 <= i < |ops| ==> ops[i].MergeOp? && ops[i].key in values && ops[i].value == values[ops[i].key])
    && (forall i, j :: 0 <= i < j < |ops| ==> ops[i].key != ops[j].key)
    && (forall k :: k in values ==> exists i :: 0 <= i < |ops| && ops[i].key == k)
  }

  /** Issues one Merge per entry of an aggregation map. */
  method EmitMerges(values: map<Key, Value>) returns (ops: seq<Op>)
    ensures MergeEnumeration(ops, values)
  {
    ops := [];
    var rest := values.Keys;
    while rest != {}
      invariant rest <= values.Keys
      invariant forall i :: 0 <= i < |ops| ==>
        ops[i].MergeOp? && ops[i].key in values && ops[i].key !in rest && ops[i].value == values[ops[i].key]
      invariant forall i, j :: 0 <= i < j < |ops| ==> ops[i].key != ops[j].key
      invariant forall k :: k in values && k !in rest ==> exists i :: 0 <= i < |ops| && ops[i].key == k
      decreases rest
    {
      var k :| k in rest;
      ghost var before := ops;
      ops := ops + [MergeOp(k, values[k])];
      assert forall i :: 0 <= i < |before| ==> ops[i] == before[i];
      assert ops[|before|].key == k;
      rest := rest - {k};
    }
  }

  /** One Put of an empty marker per deleted domain, in order. */
  function DeletionPuts(deletions: seq<Domain>): (r: seq<Op>)
    ensures |r| == |deletions|
    ensures forall i :: 0 <= i < |r| ==> r[i] == PutOp(Deletion(deletions[i]), Empty)
    decreases |deletions|
  {
    if deletions == [] then []
    else DeletionPuts(deletions[..|deletions| - 1]) + [PutOp(Deletion(deletions[|deletions| - 1]), Empty)]
  }

  function ManifestPut(manifest: Option<StorageManifest>): seq<Op>
  {
    if manifest.Some? then [PutOp(Manifest, ManifestValue(manifest.value))] else []
  }

  /** The batch committed by indexing: the merges of the source fragments, the
      merges of the target increments, the deletion markers, the streams Put
      and, outside bulk-load mode, the manifest Put, in that order. */
  ghost predicate CommitLayout(wb: seq<Op>, prefixes: PrefixBatch, counts: CountBatch, deletions: seq<Domain>,
                               persistedStreams: StreamOffsets, manifest: Option<StorageManifest>)
  {
    && (forall k :: k in prefixes ==> k.Prefix?)
    && (forall k :: k in counts ==> k.Count?)
    && exists prefixMerges, countMerges ::
         Sections(wb, prefixMerges, countMerges, prefixes, counts, deletions, persistedStreams, manifest)
  }

  /** The layout with its two merge sections named. */
  predicate Sections(wb: seq<Op>, prefixMerges: seq<Op>, countMerges: seq<Op>, prefixes: PrefixBatch, counts: CountBatch,
                     deletions: seq<Domain>, persistedStreams: StreamOffsets, manifest: Option<StorageManifest>)
  {
    && MergeEnumeration(prefixMerges, PrefixValues(prefixes))
    && MergeEnumeration(countMerges, CountValues(counts))
    && wb == prefixMerges + countMerges + DeletionPuts(deletions)
             + [PutOp(Streams, StreamsValue(persistedStreams))] + ManifestPut(manifest)
  }

  /** A batch assembled from enumerations of the aggregation maps of some
      entries has the commit layout and always applies. */
  lemma AssembledLayout(db: Db, wb: seq<Op>, prefixMerges: seq<Op>, countMerges: seq<Op>, entries: seq<CorpusEntry>,
                        base: Location, maxLength: nat, deletions: seq<Domain>, persistedStreams: StreamOffsets,
                        manifest: Option<StorageManifest>)
    requires MergeEnumeration(prefixMerges, PrefixValues(AggregatePrefixes(entries, base, maxLength, |entries|)))
    requires MergeEnumeration(countMerges, CountValues(AggregateCounts(entries, maxLength, |entries|)))
    requires wb == prefixMerges + countMerges + DeletionPuts(deletions)
                   + [PutOp(Streams, StreamsValue(persistedStreams))] + ManifestPut(manifest)
    ensures CommitLayout(wb, AggregatePrefixes(entries, base, maxLength, |entries|), AggregateCounts(entries, maxLength, |entries|),
                         deletions, persistedStreams, manifest)
    ensures ApplyBatch(db, wb).Some?
  {
    var prefixes, counts := AggregatePrefixes(entries, base, maxLength, |entries|), AggregateCounts(entries, maxLength, |entries|);
    AggregateKinds(entries, base, maxLength);
    assert Sections(wb, prefixMerges, countMerges, prefixes, counts, deletions, persistedStreams, manifest);
    CommitAccepted(wb, prefixes, counts, deletions, persistedStreams, manifest);
    ApplyBatchCommits(db, wb);
  }

  lemma OpsOnMissing(ops: seq<Op>, key: Key)
    requires forall i :: 0 <= i < |ops| ==> ops[i].key != key
    ensures OpsOn(ops, key) == []
    decreases |ops|
  {
    if ops != [] {
      OpsOnMissing(ops[1..], key);
    }
  }

  lemma {:induction false} OpsOnSingle(ops: seq<Op>, key: Key, i: nat)
    requires i < |ops| && ops[i].key == key
    requires forall j :: 0 <= j < |ops| && j != i ==> ops[j].key != key
    ensures OpsOn(ops, key) == [ops[i]]
    decreases |ops|
  {
    if i == 0 {
      OpsOnMissing(ops[1..], key);
    } else {
      OpsOnSingle(ops[1..], key, i - 1);
    }
  }

  /** In an enumeration, the only operation on a key is that key's Merge. */
  lemma MergeEnumerationOn(ops: seq<Op>, values: map<Key, Value>, key: Key)
    requires MergeEnumeration(ops, values)
    ensures OpsOn(ops, key) == if key in values then [MergeOp(key, values[key])] else []
  {
    if key in values {
      var i :| 0 <= i < |ops| && ops[i].key == key;
      OpsOnSingle(ops, key, i);
    } else {
      OpsOnMissing(ops, key);
    }
  }

  lemma DeletionPutsOn(deletions: seq<Domain>, key: Key)
    ensures forall i :: 0 <= i < |OpsOn(DeletionPuts(deletions), key)| ==> OpsOn(DeletionPuts(deletions), key)[i] == PutOp(key, Empty)
    ensures OpsOn(DeletionPuts(deletions), key) != [] <==> key.Deletion? && key.domain in deletions
  {
    var puts := DeletionPuts(deletions);
    var on := OpsOn(puts, key);
    OpsOnMembers(puts, key);
    if key.Deletion? && key.domain in deletions {
      var i :| 0 <= i < |deletions| && deletions[i] == key.domain;
      assert puts[i] in puts && puts[i].key == key;
      assert puts[i] in on;
    }
    if on != [] {
      assert on[0] in on;
      var j :| 0 <= j < |puts| && puts[j] == on[0];
      assert key == Deletion(deletions[j]);
    }
  }

  lemma {:induction false} OpsOnMembers(ops: seq<Op>, key: Key)
    ensures forall op :: op in OpsOn(ops, key) <==> op in ops && op.key == key
    decreases |ops|
  {
    if ops != [] {
      OpsOnMembers(ops[1..], key);
      assert ops == [ops[0]] + ops[1..];
    }
  }

  /** A run of Puts of the same value leaves exactly that value. */
  lemma {:induction false} ApplyPuts(key: Key, current: Option<Value>, ops: seq<Op>, v: Value)
    requires ops != []
    requires forall i :: 0 <= i < |ops| ==> ops[i] == PutOp(key, v)
    ensures ApplyToValue(key, current, ops) == Some(v)
    decreases |ops|
  {
    if |ops| > 1 {
      ApplyPuts(key, Some(v), ops[1..], v);
    }
  }

  lemma CommitAccepted(wb: seq<Op>, prefixes: PrefixBatch, counts: CountBatch, deletions: seq<Domain>,
                       persistedStreams: StreamOffsets, manifest: Option<StorageManifest>)
    requires CommitLayout(wb, prefixes, counts, deletions, persistedStreams, manifest)
    ensures MergesAccepted(wb)
  {
    var pm, cm :| Sections(wb, pm, cm, prefixes, counts, deletions, persistedStreams, manifest);
    var tail := DeletionPuts(deletions) + [PutOp(Streams, StreamsValue(persistedStreams))] + ManifestPut(manifest);
    assert forall j :: 0 <= j < |tail| ==> tail[j].PutOp?;
    assert wb == (pm + cm) + tail;
    forall i | 0 <= i < |wb| ensures wb[i].MergeOp? ==> Mergeable(wb[i].key) {
      if i < |pm| {
        assert wb[i] == pm[i];
      } else if i < |pm| + |cm| {
        assert wb[i] == cm[i - |pm|];
      } else {
        assert wb[i] == tail[i - |pm| - |cm|];
      }
    }
  }

  /** The operations a committed indexing batch performs on one key. */
  lemma CommitOpsOn(wb: seq<Op>, prefixes: PrefixBatch, counts: CountBatch, deletions: seq<Domain>,
                    persistedStreams: StreamOffsets, manifest: Option<StorageManifest>, key: Key)
    requires CommitLayout(wb, prefixes, counts, deletions, persistedStreams, manifest)
    ensures OpsOn(wb, key)
         == (if key in prefixes then [MergeOp(key, PostingList(prefixes[key]))] else [])
          + (if key in counts then [MergeOp(key, Counter(counts[key]))] else [])
          + OpsOn(DeletionPuts(deletions), key)
          + (if key == Streams then [PutOp(Streams, StreamsValue(persistedStreams))] else [])
          + (if key == Manifest then ManifestPut(manifest) else [])
  {
    var pm, cm :| Sections(wb, pm, cm, prefixes, counts, deletions, persistedStreams, manifest);
    SectionsOn(wb, pm, cm, prefixes, counts, deletions, persistedStreams, manifest, key);
  }

  lemma SectionsOn(wb: seq<Op>, pm: seq<Op>, cm: seq<Op>, prefixes: PrefixBatch, counts: CountBatch, deletions: seq<Domain>,
                   persistedStreams: StreamOffsets, manifest: Option<StorageManifest>, key: Key)
    requires Sections(wb, pm, cm, prefixes, counts, deletions, persistedStreams, manifest)
    ensures OpsOn(wb, key)
         == (if key in prefixes then [MergeOp(key, PostingList(prefixes[key]))] else [])
          + (if key in counts then [MergeOp(key, Counter(counts[key]))] else [])
          + OpsOn(DeletionPuts(deletions), key)
          + (if key == Streams then [PutOp(Streams, StreamsValue(persistedStreams))] else [])
          + (if key == Manifest then ManifestPut(manifest) else [])
  {
    var dels, streamsPut, manifestPut := DeletionPuts(deletions), [PutOp(Streams, StreamsValue(persistedStreams))], ManifestPut(manifest);
    OpsOnAppend(pm + cm + dels + streamsPut, manifestPut, key);
    OpsOnAppend(pm + cm + dels, streamsPut, key);
    OpsOnAppend(pm + cm, dels, key);
    OpsOnAppend(pm, cm, key);
    assert OpsOn(wb, key) == OpsOn(pm, key) + OpsOn(cm, key) + OpsOn(dels, key) + OpsOn(streamsPut, key) + OpsOn(manifestPut, key);
    MergeEnumerationOn(pm, PrefixValues(prefixes), key);
    assert OpsOn(pm, key) == if key in prefixes then [MergeOp(key, PostingList(prefixes[key]))] else [];
    MergeEnumerationOn(cm, CountValues(counts), key);
    assert OpsOn(cm, key) == if key in counts then [MergeOp(key, Counter(counts[key]))] else [];
    assert OpsOn(streamsPut, key) == if key == Streams then streamsPut else [];
    ManifestPutOn(manifest, key);
  }

  lemma ManifestPutOn(manifest: Option<StorageManifest>, key: Key)
    ensures OpsOn(ManifestPut(manifest), key) == if key == Manifest then ManifestPut(manifest) else []
  {
    if manifest.Some? {
      assert ManifestPut(manifest)[1..] == [];
    }
  }

  /** What a committed indexing batch leaves under each key: a source-prefix
      key reads as its old postings followed by the batch's fragment; a
      target-count key as its old counter plus the batch's increment; each
      deleted domain gets its marker; the streams key holds the streams given
      to the batch, which are the ones from before it; the manifest is
      written outside bulk-load mode; and every other key is unchanged. The
      batch never contains a merge the hook declines, so it always applies. */
  lemma CommitEffect(db: Db, wb: seq<Op>, prefixes: PrefixBatch, counts: CountBatch, deletions: seq<Domain>,
                     persistedStreams: StreamOffsets, manifest: Option<StorageManifest>, key: Key)
    requires CommitLayout(wb, prefixes, counts, deletions, persistedStreams, manifest)
    ensures ApplyBatch(db, wb).Some?
    ensures var after := Get(ApplyBatch(db, wb).value, key);
      && (key in prefixes ==> after.Some? && after.value.PostingList?
                               && PostingsOf(after.value) == PostingsOfOpt(Get(db, key)) + prefixes[key])
      && (key in counts ==> after.Some? && after.value.Counter?
                             && CountOf(after.value) == CountOfOpt(Get(db, key)) + counts[key])
      && (key.Deletion? && key.domain in deletions ==> after == Some(Empty))
      && (key == Streams ==> after == Some(StreamsValue(persistedStreams)))
      && (key == Manifest && manifest.Some? ==> after == Some(ManifestValue(manifest.value)))
      && ((key !in prefixes && key !in counts && !(key.Deletion? && key.domain in deletions)
           && key != Streams && !(key == Manifest && manifest.Some?)) ==> after == Get(db, key))
  {
    if key.Prefix? {
      assert key !in counts;
      PrefixKeyEffect(db, wb, prefixes, counts, deletions, persistedStreams, manifest, key);
    } else if key.Count? {
      assert key !in prefixes;
      CountKeyEffect(db, wb, prefixes, counts, deletions, persistedStreams, manifest, key);
    } else {
      assert key !in prefixes && key !in counts;
      OtherKeyEffect(db, wb, prefixes, counts, deletions, persistedStreams, manifest, key);
    }
  }

  lemma PrefixKeyEffect(db: Db, wb: seq<Op>, prefixes: PrefixBatch, counts: CountBatch, deletions: seq<Domain>,
                        persistedStreams: StreamOffsets, manifest: Option<StorageManifest>, key: Key)
    requires CommitLayout(wb, prefixes, counts, deletions, persistedStreams, manifest) && key.Prefix?
    ensures ApplyBatch(db, wb).Some?
    ensures var after := Get(ApplyBatch(db, wb).value, key);
      && (key in prefixes ==> after.Some? && after.value.PostingList?
                               && PostingsOf(after.value) == PostingsOfOpt(Get(db, key)) + prefixes[key])
      && (key !in prefixes ==> after == Get(db, key))
  {
    CommitAccepted(wb, prefixes, counts, deletions, persistedStreams, manifest);
    ApplyBatchAt(db, wb, key);
    CommitOpsOn(wb, prefixes, counts, deletions, persistedStreams, manifest, key);
    DeletionPutsOn(deletions, key);
    assert key !in counts && OpsOn(DeletionPuts(deletions), key) == [];
    if key in prefixes {
      assert OpsOn(wb, key) == [MergeOp(key, PostingList(prefixes[key]))];
    } else {
      assert OpsOn(wb, key) == [];
    }
  }

  lemma CountKeyEffect(db: Db, wb: seq<Op>, prefixes: PrefixBatch, counts: CountBatch, deletions: seq<Domain>,
                       persistedStreams: StreamOffsets, manifest: Option<StorageManifest>, key: Key)
    requires CommitLayout(wb, prefixes, counts, deletions, persistedStreams, manifest) && key.Count?
    ensures ApplyBatch(db, wb).Some?
    ensures var after := Get(ApplyBatch(db, wb).value, key);
      && (key in counts ==> after.Some? && after.value.Counter?
                             && CountOf(after.value) == CountOfOpt(Get(db, key)) + counts[key])
      && (key !in counts ==> after == Get(db, key))
  {
    CommitAccepted(wb, prefixes, counts, deletions, persistedStreams, manifest);
    ApplyBatchAt(db, wb, key);
    CommitOpsOn(wb, prefixes, counts, deletions, persistedStreams, manifest, key);
    DeletionPutsOn(deletions, key);
    assert key !in prefixes && OpsOn(DeletionPuts(deletions), key) == [];
    if key in counts {
      assert OpsOn(wb, key) == [MergeOp(key, Counter(counts[key]))];
    } else {
      assert OpsOn(wb, key) == [];
    }
  }

  lemma OtherKeyEffect(db: Db, wb: seq<Op>, prefixes: PrefixBatch, counts: CountBatch, deletions: seq<Domain>,
                       persistedStreams: StreamOffsets, manifest: Option<StorageManifest>, key: Key)
    requires CommitLayout(wb, prefixes, counts, deletions, persistedStreams, manifest) && !key.Prefix? && !key.Count?
    ensures ApplyBatch(db, wb).Some?
    ensures var after := Get(ApplyBatch(db, wb).value, key);
      && (key.Deletion? && key.domain in deletions ==> after == Some(Empty))
      && (key == Streams ==> after == Some(StreamsValue(persistedStreams)))
      && (key == Manifest && manifest.Some? ==> after == Some(ManifestValue(manifest.value)))
      && ((!(key.Deletion? && key.domain in deletions) && key != Streams && !(key == Manifest && manifest.Some?))
          ==> after == Get(db, key))
  {
    CommitAccepted(wb, prefixes, counts, deletions, persistedStreams, manifest);
    ApplyBatchAt(db, wb, key);
    CommitOpsOn(wb, prefixes, counts, deletions, persistedStreams, manifest, key);
    DeletionPutsOn(deletions, key);
    var onD := OpsOn(DeletionPuts(deletions), key);
    assert key !in prefixes && key !in counts;
    if key == Streams {
      assert OpsOn(wb, key) == [PutOp(Streams, StreamsValue(persistedStreams))];
    } else if key == Manifest {
      assert OpsOn(wb, key) == ManifestPut(manifest);
    } else {
      assert OpsOn(wb, key) == onD;
      if onD != [] {
        ApplyPuts(key, Get(db, key), onD, Empty);
      }
    }
  }

  /** End to end: committing the batch built from some entries leaves every
      source-prefix key reading as its old postings followed by one posting
      per occurrence of its phrase in the sources of the entries of its
      domain, and every target-count key as its old counter plus the
      occurrences of its phrase in the targets. */
  lemma BatchEffect(db: Db, wb: seq<Op>, entries: seq<CorpusEntry>, base: Location, maxLength: nat,
                    deletions: seq<Domain>, persistedStreams: StreamOffsets, manifest: Option<StorageManifest>, key: Key)
    requires CommitLayout(wb, AggregatePrefixes(entries, base, maxLength, |entries|), AggregateCounts(entries, maxLength, |entries|),
                          deletions, persistedStreams, manifest)
    ensures ApplyBatch(db, wb).Some?
    ensures key.Prefix? ==> PostingsOfOpt(Get(ApplyBatch(db, wb).value, key))
                            == PostingsOfOpt(Get(db, key)) + BatchPostings(entries, base, maxLength, |entries|, key)
    ensures key.Count? ==> CountOfOpt(Get(ApplyBatch(db, wb).value, key))
                           == CountOfOpt(Get(db, key)) + BatchCount(entries, maxLength, |entries|, key)
  {
    var prefixes, counts := AggregatePrefixes(entries, base, maxLength, |entries|), AggregateCounts(entries, maxLength, |entries|);
    if key.Prefix? {
      PrefixKeyEffect(db, wb, prefixes, counts, deletions, persistedStreams, manifest, key);
      AggregatePrefixesAt(entries, base, maxLength, |entries|, key);
    } else if key.Count? {
      CountKeyEffect(db, wb, prefixes, counts, deletions, persistedStreams, manifest, key);
      AggregateCountsAt(entries, maxLength, |entries|, key);
    } else {
      CommitAccepted(wb, prefixes, counts, deletions, persistedStreams, manifest);
      ApplyBatchCommits(db, wb);
    }
  }
}
