/** The phrase index: ingestion of update batches into the key-value store
    and the corpus storage, bulk-load finalisation, and occurrence counting. */
module SuffixArrayIndex {
  import opened Wrappers
  import opened DbKv
  import opened MergeOperator
  import opened Store
  import opened PhraseWindows
  import opened Totals
  import opened Corpora
  import opened Gc
  import opened Commit

  /** What one ingestion call receives: entries to index, domains to delete,
      and the stream offsets reached once the batch is consumed. */
  datatype UpdateBatch = UpdateBatch(data: seq<CorpusEntry>, deletions: seq<Domain>, streams: StreamOffsets)

  /** The posting-list sizes of the source keys of `phrase`, one per domain. */
  function SourceSizes(db: Db, keys: set<Key>): map<Key, int>
  {
    map k | k in keys && k in db :: |PostingsOf(db[k])|
  }

  function SourceKeys(db: Db, phrase: seq<Word>): set<Key>
  {
    set k | k in db && k.Prefix? && k.words == phrase
  }

  /** Occurrences of a source phrase over every domain: the summed sizes of its
      posting lists. */
  ghost function SourceOccurrences(db: Db, phrase: seq<Word>): int
  {
    Total(SourceSizes(db, SourceKeys(db, phrase)))
  }

  /** Occurrences of a target phrase: its counter, zero when absent. */
  function TargetOccurrences(db: Db, phrase: seq<Word>): int
  {
    CountOfOpt(Get(db, Count(phrase)))
  }

  /** Every domain's postings of a phrase are part of the global count. */
  lemma SourceOccurrencesCoverDomain(db: Db, domain: Domain, phrase: seq<Word>)
    ensures SourceOccurrences(db, phrase) >= |PostingsOfOpt(Get(db, Prefix(domain, phrase)))|
  {
    var sizes := SourceSizes(db, SourceKeys(db, phrase));
    var key := Prefix(domain, phrase);
    if key in db {
      assert key in sizes;
      TotalAtLeast(sizes, key);
    } else {
      TotalNonNegative(sizes);
    }
  }

  class SuffixArray {
    const prefixLength: nat
    const openForBulkLoad: bool
    /** The in-memory stream offsets. */
    var streams: StreamOffsets
    /** The key-value store. */
    var db: Db
    const storage: CorporaStorage
    const garbageCollector: GarbageCollector

    ghost predicate Valid()
      reads this, storage
    {
      storage.Valid()
    }

    /** Opening an existing index: the stream offsets are read back from the
        store, where a missing value reads as no offsets. */
    constructor (prefixLength: nat, prepareForBulkLoad: bool, db: Db, storage: CorporaStorage, garbageCollector: GarbageCollector)
      requires storage.Valid()
      ensures Valid()
      ensures this.prefixLength == prefixLength && openForBulkLoad == prepareForBulkLoad
      ensures this.db == db && this.storage == storage && this.garbageCollector == garbageCollector
      ensures streams == StreamsOf(Get(db, Streams))
    {
      this.prefixLength := prefixLength;
      openForBulkLoad := prepareForBulkLoad;
      this.db := db;
      this.storage := storage;
      this.garbageCollector := garbageCollector;
      streams := StreamsOf(Get(db, Streams));
    }

    /** Appends one posting per window of the source sentence to the fragment
        of that window's phrase in this domain. */
    method AddPrefixesToBatch(domain: Domain, sentence: seq<Word>, location: Location, outBatch: PrefixBatch)
      returns (result: PrefixBatch, ghost visited: seq<Window>)
      ensures result == SentencePrefixes(outBatch, domain, sentence, location, prefixLength)
      ensures visited == Windows(|sentence|, prefixLength)
    {
      var size := |sentence|;
      result := outBatch;
      visited := [];
      var start := 0;
      while start < size
        invariant 0 <= start <= size
        invariant result == PrefixesBefore(outBatch, domain, sentence, location, prefixLength, start)
        invariant visited == WindowsBefore(start, size, prefixLength)
      {
        ghost var done, doneWindows := result, visited;
        var length := 1;
        while length <= prefixLength
          invariant 1 <= length <= prefixLength + 1
          invariant start + length - 1 <= size
          invariant result == RowPrefixes(done, domain, sentence, location, start, length - 1)
          invariant visited == doneWindows + Row(start, length - 1)
        {
          if start + length > size {
            break;
          }
          var key := Prefix(domain, sentence[start..start + length]);
          result := result[key := Lookup(result, key) + [Posting(domain, location, start)]];
          RowSnoc(start, length);
          visited := visited + [Window(start, length)];
          length := length + 1;
        }
        RowLengthExit(start, size, prefixLength, length);
        start := start + 1;
      }
    }

    /** Adds one to the increment of each window's phrase of the target sentence. */
    method AddTargetCountsToBatch(sentence: seq<Word>, outBatch: CountBatch) returns (result: CountBatch, ghost visited: seq<Window>)
      ensures result == SentenceCounts(outBatch, sentence, prefixLength)
      ensures visited == Windows(|sentence|, prefixLength)
    {
      var size := |sentence|;
      result := outBatch;
      visited := [];
      var start := 0;
      while start < size
        invariant 0 <= start <= size
        invariant result == CountsBefore(outBatch, sentence, prefixLength, start)
        invariant visited == WindowsBefore(start, size, prefixLength)
      {
        ghost var done, doneWindows := result, visited;
        var length := 1;
        while length <= prefixLength
          invariant 1 <= length <= prefixLength + 1
          invariant start + length - 1 <= size
          invariant result == RowCounts(done, sentence, start, length - 1)
          invariant visited == doneWindows + Row(start, length - 1)
        {
          if start + length > size {
            break;
          }
          var key := Count(sentence[start..start + length]);
          result := result[key := LookupCount(result, key) + 1];
          RowSnoc(start, length);
          visited := visited + [Window(start, length)];
          length := length + 1;
        }
        RowLengthExit(start, size, prefixLength, length);
        start := start + 1;
      }
    }

    /** Appends each entry to the storage and aggregates its windows, the
        entry's postings carrying the offset the storage returned for it. */
    method IndexEntries(data: seq<CorpusEntry>) returns (sourcePrefixes: PrefixBatch, targetCounts: CountBatch)
      requires Valid()
      modifies storage
      ensures Valid()
      ensures storage.log == old(storage.log) + data && storage.flushed == old(storage.flushed)
      ensures sourcePrefixes == AggregatePrefixes(data, |old(storage.log)|, prefixLength, |data|)
      ensures targetCounts == AggregateCounts(data, prefixLength, |data|)
    {
      ghost var base := |storage.log|;
      sourcePrefixes := map[];
      targetCounts := map[];
      var i := 0;
      while i < |data|
        invariant 0 <= i <= |data|
        invariant storage.Valid() && storage.flushed == old(storage.flushed)
        invariant storage.log == old(storage.log) + data[..i]
        invariant sourcePrefixes == AggregatePrefixes(data, base, prefixLength, i)
        invariant targetCounts == AggregateCounts(data, prefixLength, i)
      {
        var entry := data[i];
        var offset := storage.Append(entry.domain, entry.source, entry.target, entry.alignment);
        assert data[..i + 1] == data[..i] + [entry];
        ghost var sourceWindows, targetWindows;
        sourcePrefixes, sourceWindows := AddPrefixesToBatch(entry.domain, entry.source, offset, sourcePrefixes);
        targetCounts, targetWindows := AddTargetCountsToBatch(entry.target, targetCounts);
        i := i + 1;
      }
      assert data[..i] == data;
    }

    /** The manifest Put of a commit: written outside bulk-load mode only. */
    function CommitManifest(extent: nat): Option<StorageManifest>
    {
      if openForBulkLoad then None else Some(StorageManifest(extent))
    }

    /** Ingests a batch: appends every entry to the storage, aggregates their
        windows, and commits one write batch made of the merges, the deletion
        markers, the streams as they were before this batch and, outside
        bulk-load mode, the manifest of the flushed storage. Only after a
        successful write do the in-memory streams take the batch's offsets
        and the deleted domains go to the collector. `writeSucceeds` stands
        for the outcome of the store's write. */
    method PutBatch(batch: UpdateBatch, writeSucceeds: bool) returns (outcome: Outcome, writeBatch: seq<Op>)
      requires Valid()
      modifies this, storage, garbageCollector
      ensures Valid()
      ensures storage.log == old(storage.log) + batch.data
      ensures storage.flushed == if openForBulkLoad then old(storage.flushed) else |storage.log|
      ensures CommitLayout(writeBatch,
                           AggregatePrefixes(batch.data, |old(storage.log)|, prefixLength, |batch.data|),
                           AggregateCounts(batch.data, prefixLength, |batch.data|),
                           batch.deletions, old(streams), CommitManifest(|storage.log|))
      ensures ApplyBatch(old(db), writeBatch).Some?
      ensures writeSucceeds ==> outcome == Success && db == ApplyBatch(old(db), writeBatch).value
                                && streams == batch.streams
                                && garbageCollector.pending == old(garbageCollector.pending) + DomainSet(batch.deletions)
      ensures !writeSucceeds ==> outcome == IndexFault && db == old(db) && streams == old(streams)
                                 && garbageCollector.pending == old(garbageCollector.pending)
    {
      ghost var base := |storage.log|;
      var sourcePrefixes, targetCounts := IndexEntries(batch.data);
      var prefixMerges := EmitMerges(PrefixValues(sourcePrefixes));
      var countMerges := EmitMerges(CountValues(targetCounts));
      var deletionPuts: seq<Op> := [];
      var j := 0;
      while j < |batch.deletions|
        invariant 0 <= j <= |batch.deletions|
        invariant deletionPuts == DeletionPuts(batch.deletions[..j])
      {
        assert batch.deletions[..j + 1][..j] == batch.deletions[..j];
        deletionPuts := deletionPuts + [PutOp(Deletion(batch.deletions[j]), Empty)];
        j := j + 1;
      }
      assert batch.deletions[..j] == batch.deletions;
      writeBatch := prefixMerges + countMerges + deletionPuts + [PutOp(Streams, StreamsValue(streams))];
      if !openForBulkLoad {
        storage.Flush();
        writeBatch := writeBatch + [PutOp(Manifest, ManifestValue(storage.GetManifest()))];
      }
      assert writeBatch == prefixMerges + countMerges + DeletionPuts(batch.deletions)
                           + [PutOp(Streams, StreamsValue(old(streams)))] + ManifestPut(CommitManifest(|storage.log|));
      AssembledLayout(db, writeBatch, prefixMerges, countMerges, batch.data, base, prefixLength,
                      batch.deletions, old(streams), CommitManifest(|storage.log|));
      outcome := CommitWriteBatch(writeBatch, batch.streams, batch.deletions, writeSucceeds);
    }

    /** Writes a batch to the store; only once it is written do the in-memory
        streams advance and the deleted domains go to the collector. A failed
        write leaves everything as it was. */
    method CommitWriteBatch(writeBatch: seq<Op>, nextStreams: StreamOffsets, deletions: seq<Domain>, writeSucceeds: bool)
      returns (outcome: Outcome)
      requires ApplyBatch(db, writeBatch).Some?
      modifies this, garbageCollector
      ensures writeSucceeds ==> outcome == Success && db == ApplyBatch(old(db), writeBatch).value
                                && streams == nextStreams
                                && garbageCollector.pending == old(garbageCollector.pending) + DomainSet(deletions)
      ensures !writeSucceeds ==> outcome == IndexFault && db == old(db) && streams == old(streams)
                                 && garbageCollector.pending == old(garbageCollector.pending)
    {
      if !writeSucceeds {
        return IndexFault;
      }
      db := ApplyBatch(db, writeBatch).value;
      streams := nextStreams;
      garbageCollector.MarkForDeletion(deletions);
      outcome := Success;
    }

    /** Ends a bulk load: persists the streams and the manifest of the flushed
        storage in one write batch. Outside bulk-load mode nothing is written.
        The compaction that follows has no effect on the store's contents. */
    method ForceCompaction(writeSucceeds: bool) returns (outcome: Outcome, writeBatch: seq<Op>)
      requires Valid()
      modifies this, storage
      ensures Valid() && streams == old(streams)
      ensures storage.log == old(storage.log)
      ensures openForBulkLoad ==>
        && storage.flushed == |storage.log|
        && writeBatch == [PutOp(Streams, StreamsValue(streams)), PutOp(Manifest, ManifestValue(StorageManifest(|storage.log|)))]
        && (writeSucceeds ==>
              outcome == Success
              && db == old(db)[Streams := StreamsValue(streams)][Manifest := ManifestValue(StorageManifest(|storage.log|))])
        && (!writeSucceeds ==> outcome == IndexFault && db == old(db))
      ensures !openForBulkLoad ==>
        outcome == Success && writeBatch == [] && db == old(db) && storage.flushed == old(storage.flushed)
    {
      writeBatch := [];
      outcome := Success;
      if openForBulkLoad {
        writeBatch := [PutOp(Streams, StreamsValue(streams))];
        storage.Flush();
        writeBatch := writeBatch + [PutOp(Manifest, ManifestValue(storage.GetManifest()))];
        if !writeSucceeds {
          return IndexFault, writeBatch;
        }
        ApplyTwoPuts(db, Streams, StreamsValue(streams), Manifest, ManifestValue(storage.GetManifest()));
        db := ApplyBatch(db, writeBatch).value;
      }
    }

    /** Occurrences of a phrase: 1 for phrases longer than the indexed windows;
        otherwise the sum of its posting-list sizes over every domain (source)
        or its counter (target), floored at 1. */
    method CountOccurrences(isSource: bool, phrase: seq<Word>) returns (count: nat)
      ensures count >= 1
      ensures |phrase| > prefixLength ==> count == 1
      ensures |phrase| <= prefixLength ==>
        var total := if isSource then SourceOccurrences(db, phrase) else TargetOccurrences(db, phrase);
        count == if total > 1 then total else 1
    {
      if |phrase| > prefixLength {
        return 1;
      }
      var total := 0;
      if isSource {
        var keys := SourceKeys(db, phrase);
        while keys != {}
          invariant keys <= SourceKeys(db, phrase)
          invariant total + Total(SourceSizes(db, keys)) == SourceOccurrences(db, phrase)
          decreases |keys|
        {
          var k :| k in keys;
          var sizes := SourceSizes(db, keys);
          TotalRemove(sizes, k);
          assert sizes - {k} == SourceSizes(db, keys - {k});
          total := total + |PostingsOf(db[k])|;
          keys := keys - {k};
        }
        assert SourceSizes(db, keys) == map[];
      } else {
        total := CountOfOpt(Get(db, Count(phrase)));
      }
      count := if total > 1 then total else 1;
    }
  }
}
