/** The append-only storage of aligned sentence pairs. Only its contract is
    modelled: appends return fresh, stable offsets, and a flush makes the
    appended extent durable and describes it in the manifest. */
module Corpora {
  import opened Wrappers
  import opened DbKv

  /** Pairs (source position, target position) linking the two sentences. */
  type Alignment = seq<(nat, nat)>

  /** The unit of ingestion. */
  datatype CorpusEntry = CorpusEntry(domain: Domain, source: seq<Word>, target: seq<Word>, alignment: Alignment)

  class CorporaStorage {
    /** Every entry ever appended; an offset is a position in this log. */
    var log: seq<CorpusEntry>
    /** How much of the log has been flushed. */
    var flushed: nat

    ghost predicate Valid()
      reads this
    {
      flushed <= |log|
    }

    /** Storage reopened from a manifest: the entries it describes are durable. */
    constructor (entries: seq<CorpusEntry>)
      ensures Valid() && log == entries && flushed == |entries|
    {
      log := entries;
      flushed := |entries|;
    }

    /** Appends one entry and returns its offset, which no earlier append
        returned and no later append changes. */
    method Append(domain: Domain, source: seq<Word>, target: seq<Word>, alignment: Alignment) returns (location: Location)
      requires Valid()
      modifies this
      ensures Valid()
      ensures location == |old(log)|
      ensures log == old(log) + [CorpusEntry(domain, source, target, alignment)]
      ensures flushed == old(flushed)
      ensures Read(location) == Some(CorpusEntry(domain, source, target, alignment))
      ensures forall l: Location :: l < |old(log)| ==> Read(l) == old(Read(l))
    {
      location := |log|;
      log := log + [CorpusEntry(domain, source, target, alignment)];
    }

    /** Makes every appended entry durable. */
    method Flush()
      requires Valid()
      modifies this
      ensures Valid()
      ensures log == old(log) && flushed == |log|
      ensures forall l: Location :: Read(l) == old(Read(l))
    {
      flushed := |log|;
    }

    /** The manifest describes the durable extent. */
    function GetManifest(): StorageManifest
      reads this
    {
      StorageManifest(flushed)
    }

    /** The entry stored at an offset, if the offset was ever issued. */
    function Read(location: Location): (r: Option<CorpusEntry>)
      reads this
      ensures r.Some? <==> location < |log|
      ensures r.Some? ==> r.value == log[location]
    {
      if location < |log| then Some(log[location]) else None
    }
  }
}
