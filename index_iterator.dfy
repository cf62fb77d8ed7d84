/** The export scan over the whole store: only posting-list and counter keys
    are reported, every other key is skipped. */
module IndexScan {
  import opened DbKv
  import opened Store

  /** One reported entry: a source phrase of a domain with its postings and
      their number, or a target phrase with its counter. */
  datatype IndexEntry = IndexEntry(isSource: bool, domain: Domain, words: seq<Word>, positions: seq<Posting>, count: int)

  /** The key kinds the scan reports. */
  predicate Indexed(key: Key)
  {
    key.Prefix? || key.Count?
  }

  /** What the scan reports for an indexed key: for a source prefix its
      domain, words and postings, counted; for a target count its words and
      counter, with domain 0 and no postings. */
  function EntryOf(key: Key, value: Value): (r: IndexEntry)
    requires Indexed(key)
    ensures r.isSource <==> key.Prefix?
    ensures r.words == key.words
    ensures r.isSource ==> r.domain == key.domain && r.positions == PostingsOf(value) && r.count == |r.positions|
    ensures !r.isSource ==> r.domain == 0 && r.positions == [] && r.count == CountOf(value)
  {
    if key.Prefix? then IndexEntry(true, key.domain, key.words, PostingsOf(value), |PostingsOf(value)|)
    else IndexEntry(false, 0, key.words, [], CountOf(value))
  }

  /** Reference definition: what a scan over `entries` reports, in order. */
  function Export(entries: seq<(Key, Value)>): seq<IndexEntry>
    decreases |entries|
  {
    if entries == [] then []
    else (if Indexed(entries[0].0) then [EntryOf(entries[0].0, entries[0].1)] else []) + Export(entries[1..])
  }

  /** The scan reports an entry exactly for each indexed key of the snapshot. */
  lemma {:induction false} ExportMembers(entries: seq<(Key, Value)>, e: IndexEntry)
    ensures e in Export(entries) <==>
      exists i :: 0 <= i < |entries| && Indexed(entries[i].0) && e == EntryOf(entries[i].0, entries[i].1)
    decreases |entries|
  {
    if entries != [] {
      ExportMembers(entries[1..], e);
      if e in Export(entries[1..]) {
        var i :| 0 <= i < |entries[1..]| && Indexed(entries[1..][i].0) && e == EntryOf(entries[1..][i].0, entries[1..][i].1);
        assert entries[i + 1] == entries[1..][i];
      }
      if exists i :: 0 <= i < |entries| && Indexed(entries[i].0) && e == EntryOf(entries[i].0, entries[i].1) {
        var i :| 0 <= i < |entries| && Indexed(entries[i].0) && e == EntryOf(entries[i].0, entries[i].1);
        if i > 0 {
          assert entries[1..][i - 1] == entries[i];
        }
      }
    }
  }

  /** `entries` lists the store's contents, each key once. */
  predicate Snapshot(entries: seq<(Key, Value)>, db: Db)
  {
    && (forall i :: 0 <= i < |entries| ==> entries[i].0 in db && db[entries[i].0] == entries[i].1)
    && (forall k :: k in db ==> exists i :: 0 <= i < |entries| && entries[i].0 == k)
    && (forall i, j :: 0 <= i < j < |entries| ==> entries[i].0 != entries[j].0)
  }

  /** A full scan of the store reports the entry of every posting-list and
      counter key, and nothing that is not such an entry. */
  lemma ExportOfStore(entries: seq<(Key, Value)>, db: Db, e: IndexEntry)
    requires Snapshot(entries, db)
    ensures e in Export(entries) <==> exists k :: k in db && Indexed(k) && e == EntryOf(k, db[k])
  {
    ExportMembers(entries, e);
    if exists k :: k in db && Indexed(k) && e == EntryOf(k, db[k]) {
      var k :| k in db && Indexed(k) && e == EntryOf(k, db[k]);
      var i :| 0 <= i < |entries| && entries[i].0 == k;
      assert Indexed(entries[i].0) && e == EntryOf(entries[i].0, entries[i].1);
    }
  }

  /** A scan over a snapshot of the store's contents, in key order. */
  class IndexIterator {
    const entries: seq<(Key, Value)>
    /** The next position of the underlying store iterator. */
    var position: nat

    ghost predicate Valid()
      reads this
    {
      position <= |entries|
    }

    /** Opens the scan at the first key. */
    constructor (entries: seq<(Key, Value)>)
      ensures Valid() && this.entries == entries && position == 0
    {
      this.entries := entries;
      position := 0;
    }

    /** Advances past the next indexed key and reports it; keys of any other
        kind are passed over. When the store is exhausted it reports nothing
        and leaves `outEntry` as it was. */
    method Next(outEntry: IndexEntry) returns (found: bool, entry: IndexEntry)
      requires Valid()
      modifies this
      ensures Valid()
      ensures Export(entries[old(position)..]) == if found then [entry] + Export(entries[position..]) else []
      ensures found ==> old(position) < position && Indexed(entries[position - 1].0)
                        && entry == EntryOf(entries[position - 1].0, entries[position - 1].1)
      ensures !found ==> position == |entries| && entry == outEntry
      ensures forall i :: old(position) <= i < (if found then position - 1 else position) ==> !Indexed(entries[i].0)
    {
      while position < |entries|
        invariant old(position) <= position <= |entries|
        invariant Export(entries[old(position)..]) == Export(entries[position..])
        invariant forall i :: old(position) <= i < position ==> !Indexed(entries[i].0)
        decreases |entries| - position
      {
        var key := entries[position].0;
        var value := entries[position].1;
        assert entries[position..][1..] == entries[position + 1..];
        position := position + 1;
        if key.Prefix? {
          var positions := PostingsOf(value);
          return true, IndexEntry(true, key.domain, key.words, positions, |positions|);
        } else if key.Count? {
          return true, IndexEntry(false, 0, key.words, [], CountOf(value));
        }
      }
      assert entries[position..] == [];
      return false, outEntry;
    }
  }
}
