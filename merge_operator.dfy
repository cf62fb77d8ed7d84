/** The associative merge hook registered with the key-value store. */
module MergeOperator {
  import opened Wrappers
  import opened DbKv

  /** What the hook reports: the new value, or that it declines the key
      (then the output value is left untouched). */
  datatype MergeResult = Merged(value: Value) | Declined

  /** The key kinds the hook accepts. */
  predicate Mergeable(key: Key)
  {
    key.Prefix? || key.Count?
  }

  /** Posting lists merge by concatenation, the existing fragment first. */
  function MergePositionLists(existing: Option<Value>, value: Value): (r: Value)
    ensures existing.None? ==> r == value
    ensures PostingsOf(r) == PostingsOfOpt(existing) + PostingsOf(value)
  {
    if existing.Some? then PostingList(PostingsOf(existing.value) + PostingsOf(value))
    else value
  }

  /** Counters merge by addition; an absent existing counter counts as nothing. */
  function MergeCounts(existing: Option<Value>, value: Value): (r: Value)
    ensures r.Counter?
    ensures CountOf(r) == CountOf(value) + CountOfOpt(existing)
  {
    var count := CountOf(value);
    Counter(if existing.Some? then count + CountOf(existing.value) else count)
  }

  /** Dispatch on the key's type tag. */
  function Merge(key: Key, existing: Option<Value>, value: Value): (r: MergeResult)
    ensures r.Merged? <==> Mergeable(key)
  {
    match key
    case Prefix(_, _) => Merged(MergePositionLists(existing, value))
    case Count(_) => Merged(MergeCounts(existing, value))
    case _ => Declined
  }

  /** Merging twice equals merging once with the partial merge of the two
      operands: the hook is associative. */
  lemma MergeAssociative(key: Key, existing: Option<Value>, a: Value, b: Value)
    requires Mergeable(key)
    ensures Merge(key, Some(Merge(key, existing, a).value), b)
         == Merge(key, existing, Merge(key, Some(a), b).value)
  {
  }

  /** The value stored after merging `operands`, oldest first, onto `existing`. */
  function FoldMerge(key: Key, existing: Option<Value>, operands: seq<Value>): (r: Option<Value>)
    requires Mergeable(key)
    ensures operands != [] ==> r.Some?
    decreases |operands|
  {
    if operands == [] then existing
    else FoldMerge(key, Some(Merge(key, existing, operands[0]).value), operands[1..])
  }

  /** The partial merge of a non-empty run of operands into one operand. */
  function Collapse(key: Key, operands: seq<Value>): Value
    requires Mergeable(key) && |operands| > 0
  {
    FoldMerge(key, Some(operands[0]), operands[1..]).value
  }

  /** Folding a concatenation folds the first part, then the second. */
  lemma {:induction false} FoldMergeAppend(key: Key, existing: Option<Value>, xs: seq<Value>, ys: seq<Value>)
    requires Mergeable(key)
    ensures FoldMerge(key, existing, xs + ys) == FoldMerge(key, FoldMerge(key, existing, xs), ys)
    decreases |xs|
  {
    if xs != [] {
      assert (xs + ys)[1..] == xs[1..] + ys;
      FoldMergeAppend(key, Some(Merge(key, existing, xs[0]).value), xs[1..], ys);
    } else {
      assert xs + ys == ys;
    }
  }

  /** Folding a run of operands equals one merge of their partial merge. */
  lemma {:induction false} FoldMergeCollapse(key: Key, existing: Option<Value>, operands: seq<Value>)
    requires Mergeable(key) && |operands| > 0
    ensures FoldMerge(key, existing, operands) == Some(Merge(key, existing, Collapse(key, operands)).value)
    decreases |operands|
  {
    var a, rest := operands[0], operands[1..];
    if rest != [] {
      var afterA := Some(Merge(key, existing, a).value);
      FoldMergeCollapse(key, afterA, rest);
      FoldMergeCollapse(key, Some(a), rest);
      MergeAssociative(key, existing, a, Collapse(key, rest));
    }
  }

  /** Any grouping gives the same value: partially merging any contiguous run of
      operands before they reach the stored value changes nothing. This is what
      lets the store merge fragments at write, flush or compaction time. */
  lemma FoldMergeGrouping(key: Key, existing: Option<Value>, xs: seq<Value>, ys: seq<Value>, zs: seq<Value>)
    requires Mergeable(key) && |ys| > 0
    ensures FoldMerge(key, existing, xs + ys + zs) == FoldMerge(key, existing, xs + [Collapse(key, ys)] + zs)
  {
    var before := FoldMerge(key, existing, xs);
    FoldMergeAppend(key, existing, xs + ys, zs);
    FoldMergeAppend(key, existing, xs, ys);
    FoldMergeAppend(key, existing, xs + [Collapse(key, ys)], zs);
    FoldMergeAppend(key, existing, xs, [Collapse(key, ys)]);
    FoldMergeCollapse(key, before, ys);
  }

  /** All posting fragments in order. */
  function ConcatPostings(operands: seq<Value>): seq<Posting>
  {
    if operands == [] then [] else PostingsOf(operands[0]) + ConcatPostings(operands[1..])
  }

  /** The sum of all counter increments. */
  function SumCounts(operands: seq<Value>): int
  {
    if operands == [] then 0 else CountOf(operands[0]) + SumCounts(operands[1..])
  }

  /** On a source-prefix key, however many merges produced the stored value, it
      reads as the existing postings followed by every fragment, in order. */
  lemma {:induction false} FoldMergePostings(key: Key, existing: Option<Value>, operands: seq<Value>)
    requires key.Prefix?
    ensures PostingsOfOpt(FoldMerge(key, existing, operands)) == PostingsOfOpt(existing) + ConcatPostings(operands)
    decreases |operands|
  {
    if operands != [] {
      FoldMergePostings(key, Some(Merge(key, existing, operands[0]).value), operands[1..]);
    }
  }

  /** On a target-count key, the stored value reads as the existing counter plus
      every increment, and it is always a counter once anything was merged. */
  lemma {:induction false} FoldMergeCounts(key: Key, existing: Option<Value>, operands: seq<Value>)
    requires key.Count?
    ensures CountOfOpt(FoldMerge(key, existing, operands)) == CountOfOpt(existing) + SumCounts(operands)
    decreases |operands|
  {
    if operands != [] {
      FoldMergeCounts(key, Some(Merge(key, existing, operands[0]).value), operands[1..]);
    }
  }
}
