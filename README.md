# Phrase index of the suffix-array phrase table

This project models the phrase index behind the phrase-based decoder's
suffix-array phrase table, and proves properties of that model. The index is
layered on an ordered key-value store. Ingesting a batch of aligned sentence
pairs does the following:

- it appends each pair to an append-only corpus storage, which returns the
  pair's offset;
- it enumerates every window of at most `prefixLength` words of the source and
  of the target;
- it aggregates the source windows into posting-list fragments and the target
  windows into counter increments;
- it commits all of that, together with domain-deletion markers, the stream
  offsets and the storage manifest, as one atomic write batch.

The store folds the fragments into the stored values through an associative
merge hook: posting lists concatenate and counters add. Queries count the
occurrences of a phrase. A scan exports every posting list and counter.

Modules, following the structure of the program:

- `DbKv` (`dbkv.dfy`): the five key kinds (source prefix, target count,
  streams, manifest, domain deletion) and the logical value each one holds.
- `MergeOperator` (`merge_operator.dfy`): the merge hook, its associativity,
  and the value any sequence or grouping of merges leaves.
- `Store` (`store.dfy`): the store as a finite map, and write batches of Put
  and Merge operations applied all-or-nothing.
- `PhraseWindows` (`windows.dfy`): the windows of a sentence in the order the
  indexing loops visit them, and the aggregation maps of one sentence.
- `Corpora` (`corpora_storage.dfy`): the corpus storage as a class over an
  append-only log.
- `Gc` (`garbage_collector.dfy`): the garbage collector, reduced to its set of
  domains pending deletion.
- `Commit` (`commit.dfy`): aggregation over a whole batch, the layout of the
  committed write batch, and the effect of that batch on every key.
- `SuffixArrayIndex` (`suffix_array.dfy`): the `SuffixArray` class, with
  `streams` and the store as fields, and its indexing, commit and counting
  methods.
- `IndexScan` (`index_iterator.dfy`): the export iterator.
- `Totals` and `Wrappers`: a map sum and the `Option`/`Outcome` types.

Design points kept from the code:

- `PutBatch` persists the stream offsets held *before* the batch (line 195).
  Only after a successful write does it replace them with the batch's offsets
  (line 210). `PutBatch` and `Commit.CommitEffect` state this ordering.
- In bulk-load mode, `PutBatch` still writes the streams key. Only the
  storage flush and the manifest Put are skipped (lines 195-202).
- `CountOccurrences` floors the count at 1 in every case, including a phrase
  that has no entry at all (line 266).

Where `PutBatch`'s emit loops iterate a hash map (lines 179-188), the model
picks the next key by nondeterministic choice. The resulting merges are specified only as an
enumeration: one Merge per key, each key once, in any order.

Source paths below are relative to the repository root.

## Model

| member | source | states |
|---|---|---|
| MergeOperator.Merge | src/decoder-phrasebased/src/native/suffixarray-phrasetable/suffixarray/SuffixArray.cpp:32-44 | The hook merges exactly the source-prefix and target-count keys. It declines every other key kind, which leaves the output untouched. |
| MergeOperator.MergePositionLists | src/decoder-phrasebased/src/native/suffixarray-phrasetable/suffixarray/SuffixArray.cpp:46-51 | With no existing value, the result is the new value itself. Otherwise its postings are the existing postings followed by the new ones. |
| MergeOperator.MergeCounts | src/decoder-phrasebased/src/native/suffixarray-phrasetable/suffixarray/SuffixArray.cpp:53-59 | The result is a counter holding the new count plus the existing one, where an absent existing value adds nothing. |
| MergeOperator.MergeAssociative | src/decoder-phrasebased/src/native/suffixarray-phrasetable/suffixarray/SuffixArray.cpp:30-44 | On every key the hook accepts, merging a then b equals merging once with the merge of a and b. |
| MergeOperator.FoldMergeAppend | src/decoder-phrasebased/src/native/suffixarray-phrasetable/suffixarray/SuffixArray.cpp:30-44 | Folding merges over xs + ys equals folding over xs, then over ys. |
| MergeOperator.FoldMergeCollapse | src/decoder-phrasebased/src/native/suffixarray-phrasetable/suffixarray/SuffixArray.cpp:30-44 | Folding a run of operands equals a single merge of their pre-merged value. |
| MergeOperator.FoldMergeGrouping | src/decoder-phrasebased/src/native/suffixarray-phrasetable/suffixarray/SuffixArray.cpp:30-44 | Pre-merging any contiguous run of operands never changes the final stored value, so any grouping of merges gives the same value. |
| MergeOperator.FoldMergePostings | src/decoder-phrasebased/src/native/suffixarray-phrasetable/suffixarray/SuffixArray.cpp:46-51 | After any number of merges, a source-prefix key reads as its existing postings followed by every fragment, in order. |
| MergeOperator.FoldMergeCounts | src/decoder-phrasebased/src/native/suffixarray-phrasetable/suffixarray/SuffixArray.cpp:53-59 | After any number of merges, a target-count key reads as its existing counter plus the sum of every increment. |
| Store.ApplyBatchCommits | src/decoder-phrasebased/src/native/suffixarray-phrasetable/suffixarray/SuffixArray.cpp:204-207 | A write batch applies as one unit, in order. In the model it applies if and only if the hook accepts every Merge in it, and otherwise none of it applies (see `Store.ApplyOp` under Left out). |
| Store.ApplyBatchAt | src/decoder-phrasebased/src/native/suffixarray-phrasetable/suffixarray/SuffixArray.cpp:204-207 | In a committed batch, each key ends up with its old value transformed only by the operations on that key, in batch order. |
| Store.ApplyTwoPuts | src/decoder-phrasebased/src/native/suffixarray-phrasetable/suffixarray/SuffixArray.cpp:144-155 | A batch of two Puts applies, and leaves both keys holding their values, the second Put winning a clash. |
| PhraseWindows.WindowsExact | src/decoder-phrasebased/src/native/suffixarray-phrasetable/suffixarray/SuffixArray.cpp:218-226 | The row-by-row enumeration `Windows` holds exactly the windows with 1 <= length <= prefixLength and start + length <= n, each of them once. `AddPrefixesToBatch` and `AddTargetCountsToBatch` are proved to visit exactly this sequence. |
| PhraseWindows.WindowsBeforeShape | src/decoder-phrasebased/src/native/suffixarray-phrasetable/suffixarray/SuffixArray.cpp:218-226 | Up to start s, the enumeration holds exactly the windows starting before s, ordered by start and then by length. |
| PhraseWindows.WindowsLength | src/decoder-phrasebased/src/native/suffixarray-phrasetable/suffixarray/SuffixArray.cpp:218-226 | The number of windows is the sum over start positions of min(prefixLength, n - start). |
| PhraseWindows.RowLengthExit | src/decoder-phrasebased/src/native/suffixarray-phrasetable/suffixarray/SuffixArray.cpp:219-221 | The length loop ends after min(prefixLength, n - start) windows, whether it stops at prefixLength or at the break. |
| PhraseWindows.SentencePrefixesAt | src/decoder-phrasebased/src/native/suffixarray-phrasetable/suffixarray/SuffixArray.cpp:214-227 | After one source sentence, a prefix key of the sentence's domain with 1 to prefixLength words gains one posting (domain, location, start) per occurrence of its phrase, in sentence order. No other key changes. A key is present afterwards if and only if it was present before or gained postings. |
| PhraseWindows.SentencePrefixesTotal | src/decoder-phrasebased/src/native/suffixarray-phrasetable/suffixarray/SuffixArray.cpp:214-227 | Indexing one sentence adds exactly one posting per window: the total fragment size grows by the window count. |
| PhraseWindows.SentencePrefixesNoEmpty | src/decoder-phrasebased/src/native/suffixarray-phrasetable/suffixarray/SuffixArray.cpp:214-227 | Indexing a sentence keeps the invariant that no key of the source map holds an empty fragment: a key only appears with a posting. |
| PhraseWindows.SentenceCountsAt | src/decoder-phrasebased/src/native/suffixarray-phrasetable/suffixarray/SuffixArray.cpp:229-241 | After one target sentence, a count key with 1 to prefixLength words grows by the number of occurrences of its phrase. No other key changes, and a key is present afterwards if and only if it was before or was incremented. |
| PhraseWindows.SentenceCountsTotal | src/decoder-phrasebased/src/native/suffixarray-phrasetable/suffixarray/SuffixArray.cpp:229-241 | The increments of one sentence sum to its window count. |
| Commit.AggregatePrefixesAt | src/decoder-phrasebased/src/native/suffixarray-phrasetable/suffixarray/SuffixArray.cpp:170-177 | Over a whole batch, each key's aggregated fragment equals the reference postings: one per occurrence of its phrase in each source of its domain, the entry at offset base + j listed j-th. Only keys with postings are present. |
| Commit.AggregateCountsAt | src/decoder-phrasebased/src/native/suffixarray-phrasetable/suffixarray/SuffixArray.cpp:170-177 | Over a whole batch, each key's aggregated increment equals the occurrences of its phrase over all targets. Only keys with a positive increment are present. |
| Commit.AggregateKinds | src/decoder-phrasebased/src/native/suffixarray-phrasetable/suffixarray/SuffixArray.cpp:223-237 | The source map holds only source-prefix keys, and the target map only target-count keys. |
| Commit.EmitMerges | src/decoder-phrasebased/src/native/suffixarray-phrasetable/suffixarray/SuffixArray.cpp:179-188 | The loop emits one Merge per key of the aggregation map, carrying that key's value, and each key exactly once. |
| Commit.DeletionPuts | src/decoder-phrasebased/src/native/suffixarray-phrasetable/suffixarray/SuffixArray.cpp:191-192 | There is one Put of an empty marker under the deletion key of each deleted domain, in order. |
| Commit.AssembledLayout | src/decoder-phrasebased/src/native/suffixarray-phrasetable/suffixarray/SuffixArray.cpp:179-203 | A batch assembled as merges, then deletion Puts, then the streams Put, then the optional manifest Put has the commit layout and is never rejected by the store. |
| Commit.CommitAccepted | src/decoder-phrasebased/src/native/suffixarray-phrasetable/suffixarray/SuffixArray.cpp:179-207 | Every Merge of a batch with the commit layout is on a key kind the hook accepts. |
| Commit.CommitOpsOn | src/decoder-phrasebased/src/native/suffixarray-phrasetable/suffixarray/SuffixArray.cpp:179-203 | The operations such a batch performs on any one key, in order. |
| Commit.CommitEffect | src/decoder-phrasebased/src/native/suffixarray-phrasetable/suffixarray/SuffixArray.cpp:179-207 | The committed batch always applies. Prefix keys read old postings plus fragment; count keys read old counter plus increment. Deleted domains get their marker, and the streams key holds the streams given to the batch. The manifest is written only when present. Every other key is unchanged. |
| Commit.BatchEffect | src/decoder-phrasebased/src/native/suffixarray-phrasetable/suffixarray/SuffixArray.cpp:163-207 | End to end: after the commit, a prefix key reads its old postings plus one posting per occurrence of its phrase in the batch's sources of its domain. A count key reads its old counter plus the occurrences of its phrase in the batch's targets. |
| Corpora.CorporaStorage.Append | src/decoder-phrasebased/src/native/suffixarray-phrasetable/suffixarray/SuffixArray.cpp:173 | Appending returns a fresh offset, the length of the log before the append. The entry is then readable at that offset, every earlier offset still reads the same entry, and the flushed extent is unchanged. |
| Corpora.CorporaStorage.Flush | src/decoder-phrasebased/src/native/suffixarray-phrasetable/suffixarray/SuffixArray.cpp:199-200 | After a flush the whole log is durable, the log itself is unchanged, and every offset reads as before. |
| Gc.GarbageCollector.MarkForDeletion | src/decoder-phrasebased/src/native/suffixarray-phrasetable/suffixarray/SuffixArray.cpp:211 | The pending set grows by exactly the given domains. |
| SuffixArrayIndex.SuffixArray.constructor | src/decoder-phrasebased/src/native/suffixarray-phrasetable/suffixarray/SuffixArray.cpp:114-118 | The in-memory streams are read back from the streams key; a missing value reads as no offsets. |
| SuffixArrayIndex.SuffixArray.AddPrefixesToBatch | src/decoder-phrasebased/src/native/suffixarray-phrasetable/suffixarray/SuffixArray.cpp:214-227 | The nested loops visit exactly the windows of `Windows`, in that order, and compute exactly the one-sentence source aggregation, whose per-key and total effects are SentencePrefixesAt and SentencePrefixesTotal. |
| SuffixArrayIndex.SuffixArray.AddTargetCountsToBatch | src/decoder-phrasebased/src/native/suffixarray-phrasetable/suffixarray/SuffixArray.cpp:229-241 | The nested loops visit exactly the windows of `Windows`, in that order, and compute exactly the one-sentence target aggregation, whose effects are SentenceCountsAt and SentenceCountsTotal. |
| SuffixArrayIndex.SuffixArray.IndexEntries | src/decoder-phrasebased/src/native/suffixarray-phrasetable/suffixarray/SuffixArray.cpp:166-177 | Every entry is appended to the storage in order, and the maps equal the whole-batch aggregations, each entry's postings carrying the offset it was stored at. |
| SuffixArrayIndex.SuffixArray.PutBatch | src/decoder-phrasebased/src/native/suffixarray-phrasetable/suffixarray/SuffixArray.cpp:163-212 | The batch has the commit layout, with the pre-batch streams, and the manifest only outside bulk load, after a flush. It always applies. On success the store is the batch applied, the streams become the batch's offsets, and the deletions go to the collector. On failure the store, the streams and the collector are unchanged. |
| SuffixArrayIndex.SuffixArray.CommitWriteBatch | src/decoder-phrasebased/src/native/suffixarray-phrasetable/suffixarray/SuffixArray.cpp:204-211 | Only a successful write changes the store, advances the streams and hands the deletions to the collector. A failed write changes nothing and reports an index fault. |
| SuffixArrayIndex.SuffixArray.ForceCompaction | src/decoder-phrasebased/src/native/suffixarray-phrasetable/suffixarray/SuffixArray.cpp:142-161 | In bulk-load mode it flushes the storage and commits a batch of the streams Put then the manifest Put. A successful write stores both values; a failed one leaves the store unchanged. Outside bulk load it writes nothing. The storage log and the streams are never changed. |
| SuffixArrayIndex.SuffixArray.CountOccurrences | src/decoder-phrasebased/src/native/suffixarray-phrasetable/suffixarray/SuffixArray.cpp:247-267 | The result is 1 for phrases longer than prefixLength. Otherwise it is max(total, 1), where the total is the posting-list sizes summed over every domain (source) or the stored counter (target). It is always at least 1. |
| SuffixArrayIndex.SourceOccurrencesCoverDomain | src/decoder-phrasebased/src/native/suffixarray-phrasetable/suffixarray/SuffixArray.cpp:253-257 | The source total counts at least the postings of the phrase in any one domain. |
| IndexScan.EntryOf | src/decoder-phrasebased/src/native/suffixarray-phrasetable/suffixarray/SuffixArray.cpp:301-323 | A source entry carries the key's domain, words and postings, with the count equal to the number of postings. A target entry has domain 0, no postings and the stored counter. |
| IndexScan.ExportMembers | src/decoder-phrasebased/src/native/suffixarray-phrasetable/suffixarray/SuffixArray.cpp:292-339 | The scan of a sequence of keys reports an entry if and only if it is the entry of one of its indexed keys. |
| IndexScan.ExportOfStore | src/decoder-phrasebased/src/native/suffixarray-phrasetable/suffixarray/SuffixArray.cpp:283-339 | A full scan of the store reports exactly the entries of its posting-list and counter keys. |
| IndexScan.IndexIterator.constructor | src/decoder-phrasebased/src/native/suffixarray-phrasetable/suffixarray/SuffixArray.cpp:283-286 | The scan starts at the first key. |
| IndexScan.IndexIterator.Next | src/decoder-phrasebased/src/native/suffixarray-phrasetable/suffixarray/SuffixArray.cpp:292-339 | Next skips keys of any other kind and moves past the key it reports, reporting that key's entry. It returns false only once the store is exhausted, and then leaves the output entry as it was. The reported entry followed by the rest of the scan is the whole remaining export. |

## Left out

- The byte encoding of keys and values is not part of this model (`dbkv.h`, `PostingList::Serialize`, `SerializeCount`, `SerializeStreams`). Keys are a datatype of five kinds and values are their logical content. As a consequence, the prefix-length byte of a key and the key order of the store are not modelled.
- RocksDB's internals are left out: options, the write-ahead log, compaction (`CompactRange` has no effect on contents here) and concurrent readers. The store is a map with atomic batch application.
- `Store.ApplyOp`: a Merge the hook declines makes the whole batch fail in this model. The real store records the operand at write time and only calls the hook later, on read or compaction, so the write itself would succeed and the key would become unreadable. The indexing batch never holds such a Merge (`Commit.CommitAccepted`), so no result above depends on this choice.
- A failing `db->Write` is modelled as the parameter `writeSucceeds`, and the thrown `index_exception` as the `IndexFault` outcome.
- The corpus storage's exceptions are left out: so are its disk layout and its byte offsets. Offsets are positions in the log.
- The iterator's `status()` check, which throws, is left out: the iteration is modelled as always succeeding.
- `IndexScan.IndexIterator.Next`: the store's byte order is not modelled. The iterator walks a snapshot sequence of the store's entries, so `ExportOfStore` states which entries are reported but not their order.
- `SuffixArrayIndex.SuffixArray.CountOccurrences`: the prefix cursor (`PrefixCursor`) is not part of this model. It is replaced by the set of source-prefix keys with exactly the phrase's words, summed in an arbitrary order.
- `DeserializeCount` and `DeserializeStreams` of a missing value are not part of this model. An absent counter is read as 0, and absent stream offsets as no offsets.
- 64-bit counters and the `(length_t) start` and `(size_t)` casts are left out. The model uses unbounded integers, since counts and positions stay far from those limits.
- `GetRandomSamples`, `NewCollector` and the `Collector` are left out: they do random, context-biased sampling whose code is not part of this model.
- The garbage collector's sweep, pacing and background thread are left out. It is reduced to the set of pending domains.
- The constructor's filesystem checks and store opening are left out, as are the manifest read-back and the destructor. The constructor receives the store, the storage and the collector already opened.
- `SuffixArrayIndex.SuffixArray.IndexEntries` and `SuffixArrayIndex.SuffixArray.CommitWriteBatch` are not separate functions in the code. They are the entry loop (lines 166-177) and the commit tail (lines 204-211) of `PutBatch`, split out as methods of their own.
