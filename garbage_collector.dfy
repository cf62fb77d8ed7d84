/** The background reclamation of deleted domains, reduced to what indexing
    hands it: the set of domains pending deletion. */
module Gc {
  import opened DbKv

  /** The domains named in a list. */
  function DomainSet(domains: seq<Domain>): (r: set<Domain>)
    ensures forall d :: d in r <==> d in domains
  {
    set d | d in domains
  }

  class GarbageCollector {
    var pending: set<Domain>

    constructor ()
      ensures pending == {}
    {
      pending := {};
    }

    /** Queues the given domains for reclamation. */
    method MarkForDeletion(domains: seq<Domain>)
      modifies this
      ensures pending == old(pending) + DomainSet(domains)
    {
      pending := pending + DomainSet(domains);
    }
  }
}
