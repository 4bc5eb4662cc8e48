/** The order in which one summary supersedes another. */
module VersionOrder {
  import opened Items
  import Text

  /** The fields of a watermark that decide which of two summaries is newer. */
  datatype Version = Version(
    sequence: nat, hybrid: Option<HybridTime>, observedAt: Time, operation: string)

  function VersionOf(item: Item): Version {
    var e := item.envelope;
    Version(e.sequence, e.hybrid, e.observedAt, e.operation)
  }

  function CompareHybridTime(left: Option<HybridTime>, right: Option<HybridTime>): int {
    if left.None? && right.None? then 0
    else if left.None? then -1
    else if right.None? then 1
    else if left.value.wall != right.value.wall then
      if left.value.wall < right.value.wall then -1 else 1
    else if left.value.counter < right.value.counter then -1
    else if left.value.counter > right.value.counter then 1
    else 0
  }

  predicate NewerThan(left: Version, right: Version) {
    if left.sequence > 0 || right.sequence > 0 then
      if left.sequence != right.sequence then left.sequence > right.sequence
      else Text.Less(right.operation, left.operation)
    else if left.hybrid.Some? || right.hybrid.Some? then
      CompareHybridTime(left.hybrid, right.hybrid) > 0
    else if left.observedAt != right.observedAt then left.observedAt > right.observedAt
    else Text.Less(right.operation, left.operation)
  }

  predicate Newer(x: Item, y: Item) {
    NewerThan(VersionOf(x), VersionOf(y))
  }

  // NewerThan is a strict weak order over all versions, whichever of the
  // sequence, hybrid time and observed time each of them carries.

  lemma NewerAsymmetric(a: Version, b: Version)
    ensures !(NewerThan(a, b) && NewerThan(b, a))
    ensures !NewerThan(a, a)
  {
    Text.LessTotal(a.operation, b.operation);
    Text.LessTotal(a.operation, a.operation);
  }

  lemma NotNewerTransitive(a: Version, b: Version, c: Version)
    requires !NewerThan(a, b) && !NewerThan(b, c)
    ensures !NewerThan(a, c)
  {
    if !Text.Less(b.operation, a.operation) && !Text.Less(c.operation, b.operation) {
      NotLessTransitive(c.operation, b.operation, a.operation);
    }
  }

  /** The same order read positively: newer than something at least as new. */
  lemma NewerTransitive(a: Version, b: Version, c: Version)
    requires (NewerThan(a, b) && !NewerThan(c, b)) || (!NewerThan(b, a) && NewerThan(b, c))
    ensures NewerThan(a, c)
  {
    if !NewerThan(a, c) {
      if NewerThan(a, b) && !NewerThan(c, b) {
        NotNewerTransitive(a, c, b);
      } else {
        NotNewerTransitive(b, a, c);
      }
    }
  }

  lemma NotLessTransitive(a: string, b: string, c: string)
    requires !Text.Less(a, b) && !Text.Less(b, c)
    ensures !Text.Less(a, c)
  {
  }
}
