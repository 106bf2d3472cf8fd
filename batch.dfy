/**
 * The batch loop of `__invoke` (src/Sanitizer.php:26-36) and what it
 * promises: each attachment is visited once, in query order, and the counter
 * is the number of attachments whose stem needed a change.
 */
module Batch {
  import opened Planner
  import opened Reconcile

  /** The counter never exceeds the number of results. */
  lemma {:induction false} CountTrueBound(results: seq<bool>)
    ensures CountTrue(results) <= |results|
    decreases |results|
  {
    if results != [] {
      CountTrueBound(results[1..]);
    }
  }

  /** A loop whose body leaves `other`'s record alone leaves it alone when `other` is not visited. */
  lemma {:induction false} LoopKeepsUnvisited(visit: (World, int, Outcome) -> (bool, World), w: World, posts: seq<int>, outcomes: seq<Outcome>, other: int)
    requires |outcomes| == |posts| && other !in posts
    requires forall v, id, o :: id != other ==> AttachedFile(visit(v, id, o).1, other) == AttachedFile(v, other)
    ensures AttachedFile(Loop(visit, w, posts, outcomes).1, other) == AttachedFile(w, other)
    decreases |posts|
  {
    if posts != [] {
      var n := |posts| - 1;
      assert other !in posts[..n] by {
        forall k | 0 <= k < n ensures posts[..n][k] != other { assert posts[..n][k] == posts[k]; }
      }
      LoopKeepsUnvisited(visit, w, posts[..n], outcomes[..n], other);
    }
  }

  /** One visit leaves the record of every other attachment as it was. */
  lemma VisitKeepsOtherRecords(host: Host, other: int)
    ensures forall v, id, o :: id != other ==> AttachedFile(Body(host)(v, id, o).1, other) == AttachedFile(v, other)
  {
    forall v, id, o | id != other
      ensures AttachedFile(Body(host)(v, id, o).1, other) == AttachedFile(v, other)
    {
      assert Body(host)(v, id, o) == Visit(host, v, id, o);
      SanitizeKeepsOtherRecords(host, v, id, AttachedFile(v, id), o, other);
    }
  }

  /** The pass leaves the record of an attachment it does not visit as it was. */
  lemma RunKeepsUnvisitedRecords(host: Host, w: World, posts: seq<int>, outcomes: seq<Outcome>, other: int)
    requires |outcomes| == |posts| && other !in posts
    ensures AttachedFile(Run(host, w, posts, outcomes).1, other) == AttachedFile(w, other)
  {
    VisitKeepsOtherRecords(host, other);
    LoopKeepsUnvisited(Body(host), w, posts, outcomes, other);
  }

  predicate Distinct(posts: seq<int>) {
    forall i, j :: 0 <= i < j < |posts| ==> posts[i] != posts[j]
  }

  /** Whether the attachment `id` needs a change, judged on its path in `w`. */
  predicate NeedsChange(host: Host, w: World, id: int) {
    Plan(host.sanitizeTitle, AttachedFile(w, id)).Some?
  }

  /** A loop over one more attachment is the loop over the others followed by one visit. */
  lemma LoopSnoc(visit: (World, int, Outcome) -> (bool, World), w: World, prefix: seq<int>, outs: seq<Outcome>, id: int, o: Outcome)
    requires |outs| == |prefix|
    ensures var before := Loop(visit, w, prefix, outs);
      var last := visit(before.1, id, o);
      Loop(visit, w, prefix + [id], outs + [o]) == (before.0 + [last.0], last.1)
  {
    assert (prefix + [id])[..|prefix|] == prefix;
    assert (outs + [o])[..|prefix|] == outs;
  }

  /** A run over one more attachment is the run over the others followed by one call. */
  lemma RunSnoc(host: Host, w: World, prefix: seq<int>, outs: seq<Outcome>, id: int, o: Outcome)
    requires |outs| == |prefix|
    ensures var before := Run(host, w, prefix, outs);
      var last := Visit(host, before.1, id, o);
      Run(host, w, prefix + [id], outs + [o]) == (before.0 + [last.0], last.1)
  {
    var before := Loop(Body(host), w, prefix, outs);
    assert Body(host)(before.1, id, o) == Visit(host, before.1, id, o);
    LoopSnoc(Body(host), w, prefix, outs, id, o);
  }

  /**
   * One more pass of the loop: when the next visit, from the world the run
   * over the first `i` attachments left, gives `b` and `after`, the run over
   * the first `i + 1` has one more result, `b`, and leaves `after`.
   */
  lemma RunPrefixStep(host: Host, w: World, posts: seq<int>, i: int, outs: seq<Outcome>, o: Outcome, b: bool, after: World)
    requires 0 <= i < |posts| && |outs| == i
    requires Visit(host, Run(host, w, posts[..i], outs).1, posts[i], o) == (b, after)
    ensures Run(host, w, posts[..i + 1], outs + [o]) == (Run(host, w, posts[..i], outs).0 + [b], after)
  {
    PrefixSnoc(posts, i);
    RunSnoc(host, w, posts[..i], outs, posts[i], o);
  }

  /**
   * The same step for the loop's two variables: when a run ends in `b` and
   * `after` after the results `prev`, its world is `after` and its count is
   * that of `prev`, plus one exactly when the last visit returned true.
   */
  lemma RunStep(r: (seq<bool>, World), prev: seq<bool>, b: bool, after: World, count: nat)
    requires r == (prev + [b], after)
    requires count == CountTrue(prev)
    ensures r.1 == after
    ensures CountTrue(r.0) == if b then count + 1 else count
  {
    CountTrueSnoc(prev, b);
  }

  /** The prefix as long as the whole sequence is the sequence. */
  lemma PrefixWhole(posts: seq<int>)
    ensures posts[..|posts|] == posts
  {
  }

  /** The prefix of length `i + 1` is the prefix of length `i` followed by the element at `i`. */
  lemma PrefixSnoc(posts: seq<int>, i: int)
    requires 0 <= i < |posts|
    ensures posts[..i + 1] == posts[..i] + [posts[i]]
  {
  }

  /** One call reports a change exactly when its path has a plan. */
  lemma SanitizeReportsPlan(host: Host, w: World, id: int, attachment: string, o: Outcome)
    ensures Sanitize(host, w, id, attachment, o).0 == Plan(host.sanitizeTitle, attachment).Some?
  {
  }

  /** Dropping the last attachment keeps the rest distinct, and the last one is not among them. */
  lemma DistinctPrefix(posts: seq<int>)
    requires Distinct(posts) && posts != []
    ensures var n := |posts| - 1; Distinct(posts[..n]) && posts[n] !in posts[..n]
  {
    var n := |posts| - 1;
    assert forall k :: 0 <= k < n ==> posts[..n][k] == posts[k];
  }

  /** The verdict `needs` gives each of `posts`, in order. */
  function Verdicts(needs: int -> bool, posts: seq<int>): (r: seq<bool>)
    ensures |r| == |posts|
  {
    if posts == [] then [] else Verdicts(needs, posts[..|posts| - 1]) + [needs(posts[|posts| - 1])]
  }

  /** The verdict at position `i` is about the attachment at position `i`. */
  lemma {:induction false} VerdictsAt(needs: int -> bool, posts: seq<int>, i: int)
    requires 0 <= i < |posts|
    ensures Verdicts(needs, posts)[i] == needs(posts[i])
    decreases |posts|
  {
    var n := |posts| - 1;
    if i < n {
      VerdictsAt(needs, posts[..n], i);
      assert posts[..n][i] == posts[i];
    }
  }

  /**
   * What a pass over `posts` ought to report, judged on the paths stored in
   * `w` before it starts: one verdict per attachment, in query order.
   */
  function Reports(host: Host, w: World, posts: seq<int>): seq<bool> {
    Verdicts(id => NeedsChange(host, w, id), posts)
  }

  /** The verdict at position `i` is about the attachment at position `i`. */
  lemma ReportsAt(host: Host, w: World, posts: seq<int>, i: int)
    requires 0 <= i < |posts|
    ensures Reports(host, w, posts)[i] == NeedsChange(host, w, posts[i])
  {
    VerdictsAt(id => NeedsChange(host, w, id), posts, i);
  }

  /**
   * A pass over distinct attachments reports, for each of them, whether its
   * stem differed from its slug when the pass started, whatever the host
   * calls answered: an attachment's path is not touched before its own visit.
   */
  lemma {:induction false} RunReports(host: Host, w: World, posts: seq<int>, outcomes: seq<Outcome>)
    requires |outcomes| == |posts| && Distinct(posts)
    ensures Run(host, w, posts, outcomes).0 == Reports(host, w, posts)
    decreases |posts|
  {
    if posts != [] {
      var n := |posts| - 1;
      var prefix, outs := posts[..n], outcomes[..n];
      assert posts == prefix + [posts[n]];
      assert outcomes == outs + [outcomes[n]];
      DistinctPrefix(posts);
      RunReports(host, w, prefix, outs);
      RunKeepsUnvisitedRecords(host, w, prefix, outs, posts[n]);
      RunResultsSnoc(host, w, prefix, outs, posts[n], outcomes[n]);
      ReportsSnoc(host, w, prefix, posts[n]);
    }
  }

  /**
   * The results of a run end with the verdict on the last attachment, when the
   * earlier visits left its path as it was.
   */
  lemma RunResultsSnoc(host: Host, w: World, prefix: seq<int>, outs: seq<Outcome>, id: int, o: Outcome)
    requires |outs| == |prefix|
    requires AttachedFile(Run(host, w, prefix, outs).1, id) == AttachedFile(w, id)
    ensures Run(host, w, prefix + [id], outs + [o]).0 == Run(host, w, prefix, outs).0 + [NeedsChange(host, w, id)]
  {
    RunSnoc(host, w, prefix, outs, id, o);
    var before := Run(host, w, prefix, outs);
    SanitizeReportsPlan(host, before.1, id, AttachedFile(before.1, id), o);
  }

  /** The expected reports end with the verdict on the last attachment. */
  lemma ReportsSnoc(host: Host, w: World, prefix: seq<int>, id: int)
    ensures Reports(host, w, prefix + [id]) == Reports(host, w, prefix) + [NeedsChange(host, w, id)]
  {
    var needs := id => NeedsChange(host, w, id);
    assert (prefix + [id])[..|prefix|] == prefix;
    assert Verdicts(needs, prefix + [id]) == Verdicts(needs, prefix) + [needs(id)];
  }

  /**
   * Each attachment is visited once, in query order, and the visit reports a
   * change exactly when the stem of its path at the start of the pass differs
   * from its slug.
   */
  lemma RunVisitsEachOnce(host: Host, w: World, posts: seq<int>, outcomes: seq<Outcome>, i: int)
    requires |outcomes| == |posts| && Distinct(posts) && 0 <= i < |posts|
    ensures Run(host, w, posts, outcomes).0[i] == NeedsChange(host, w, posts[i])
  {
    RunReports(host, w, posts, outcomes);
    ReportsAt(host, w, posts, i);
  }

  /** How many of `posts` need a change, judged on their paths in `w`. */
  function CountNeedingChange(host: Host, w: World, posts: seq<int>): nat {
    CountTrue(Reports(host, w, posts))
  }

  /**
   * The final count is the number of attachments whose stem differed from its
   * slug when the pass started: failed updates and failed renames do not
   * change it, and it never exceeds the number of attachments.
   */
  lemma RunCount(host: Host, w: World, posts: seq<int>, outcomes: seq<Outcome>)
    requires |outcomes| == |posts| && Distinct(posts)
    ensures CountTrue(Run(host, w, posts, outcomes).0) == CountNeedingChange(host, w, posts)
    ensures CountNeedingChange(host, w, posts) <= |posts|
  {
    RunReports(host, w, posts, outcomes);
    CountTrueBound(Reports(host, w, posts));
  }

  /** The count never exceeds the number of attachments, even when some are listed twice. */
  lemma RunCountBound(host: Host, w: World, posts: seq<int>, outcomes: seq<Outcome>)
    requires |outcomes| == |posts|
    ensures CountTrue(Run(host, w, posts, outcomes).0) <= |posts|
  {
    CountTrueBound(Run(host, w, posts, outcomes).0);
  }

  /** So two runs over the same attachments count the same, however the host calls answered. */
  lemma CountIgnoresFailures(host: Host, w: World, posts: seq<int>, o1: seq<Outcome>, o2: seq<Outcome>)
    requires |o1| == |posts| && |o2| == |posts| && Distinct(posts)
    ensures CountTrue(Run(host, w, posts, o1).0) == CountTrue(Run(host, w, posts, o2).0)
  {
    RunCount(host, w, posts, o1);
    RunCount(host, w, posts, o2);
  }

  /** Counting one more result. */
  lemma {:induction false} CountTrueSnoc(results: seq<bool>, b: bool)
    ensures CountTrue(results + [b]) == CountTrue(results) + (if b then 1 else 0)
    decreases |results|
  {
    if results != [] {
      assert (results + [b])[1..] == results[1..] + [b];
      CountTrueSnoc(results[1..], b);
    }
  }
}
