/**
 The span tracker of the event stream: a map from span to parent that calls to
 `ChildSpan` grow, and a depth read off by walking it. The identifiers are
 drawn outside the model and arrive as parameters.
 */
module Spans {

  /** The walk gives up beyond this many steps. */
  const MAX_DEPTH := 100

  /** A span whose chain of parents reaches a span without one after exactly `d` steps. */
  ghost predicate AtDepth(parents: map<string, string>, span: string, d: nat)
    decreases d
  {
    && span in parents
    && if d == 0 then parents[span] == "" else parents[span] != "" && AtDepth(parents, parents[span], d - 1)
  }

  /** An identifier nobody has seen: neither a span, nor named as a parent, nor the empty mark of a root. */
  ghost predicate Unseen(parents: map<string, string>, id: string) {
    id != "" && id !in parents && forall s :: s in parents ==> parents[s] != id
  }

  class SpanTracker {
    const root: string
    var parents: map<string, string>

    constructor (id: string)
      ensures root == id && parents == map[id := ""]
    {
      root, parents := id, map[id := ""];
    }

    method ChildSpan(parent: string, id: string)
      modifies this`parents
      ensures parents == old(parents)[id := parent]
    {
      parents := parents[id := parent];
    }

    /** The depth of a span, whatever the map holds, cycles included. */
    method Depth(span: string) returns (depth: int)
      ensures depth == -1 || 0 <= depth <= 100
      ensures 0 <= depth ==> AtDepth(parents, span, depth)
      ensures depth == -1 ==> forall d: nat :: d <= 100 ==> !AtDepth(parents, span, d)
    {
      depth := 0;
      var current := span;
      while true
        invariant 0 <= depth <= MAX_DEPTH
        invariant forall d: nat :: d < depth ==> !AtDepth(parents, span, d)
        invariant forall d: nat :: AtDepth(parents, span, depth + d) <==> AtDepth(parents, current, d)
        decreases MAX_DEPTH - depth
      {
        assert AtDepth(parents, span, depth + 0) <==> AtDepth(parents, current, 0);
        if current !in parents {
          forall d: nat | d <= MAX_DEPTH ensures !AtDepth(parents, span, d) {
            if depth <= d {
              assert AtDepth(parents, span, depth + (d - depth)) <==> AtDepth(parents, current, d - depth);
            }
          }
          return -1;
        }
        if parents[current] == "" {
          return;
        }
        forall d: nat ensures AtDepth(parents, span, depth + 1 + d) <==> AtDepth(parents, parents[current], d) {
          assert AtDepth(parents, span, depth + (1 + d)) <==> AtDepth(parents, current, 1 + d);
        }
        depth := depth + 1;
        current := parents[current];
        if depth > MAX_DEPTH {
          return -1;
        }
      }
    }
  }

  lemma {:induction false} DepthIsUnique(parents: map<string, string>, span: string, d: nat, e: nat)
    requires AtDepth(parents, span, d) && AtDepth(parents, span, e)
    ensures d == e
    decreases d
  {
    if d > 0 && e > 0 {
      DepthIsUnique(parents, parents[span], d - 1, e - 1);
    }
  }

  /** A new span leaves the depth of every other span as it was. */
  lemma {:induction false} OthersKeepTheirDepth(parents: map<string, string>, id: string, parent: string, span: string,
                                                d: nat)
    requires Unseen(parents, id) && span != id
    ensures AtDepth(parents[id := parent], span, d) <==> AtDepth(parents, span, d)
    decreases d
  {
    if d > 0 && span in parents {
      OthersKeepTheirDepth(parents, id, parent, parents[span], d - 1);
    }
  }

  /**
   A new span is one deeper than its parent, a root when it names none, and without a depth under an unknown
   parent.
   */
  lemma ChildIsOneDeeper(parents: map<string, string>, id: string, parent: string, d: nat)
    requires Unseen(parents, id) && parent != id && "" !in parents
    ensures AtDepth(parents[id := parent], id, d) <==>
            if parent == "" then d == 0 else d > 0 && AtDepth(parents, parent, d - 1)
  {
    if d > 0 {
      OthersKeepTheirDepth(parents, id, parent, parent, d - 1);
    }
  }

  // -------------------------------------------------- whole runs

  datatype Call = ChildSpan(parent: string, id: string)

  /** The map after the calls of a run. */
  function Grown(root: string, calls: seq<Call>): map<string, string> {
    if calls == [] then map[root := ""]
    else Grown(root, calls[..|calls| - 1])[calls[|calls| - 1].id := calls[|calls| - 1].parent]
  }

  /** A run whose identifiers are fresh when drawn and whose parents are spans already handed out. */
  ghost predicate Nested(root: string, calls: seq<Call>) {
    && root != ""
    && (calls != [] ==>
          var n := |calls| - 1;
          && Nested(root, calls[..n])
          && Unseen(Grown(root, calls[..n]), calls[n].id)
          && calls[n].parent in Grown(root, calls[..n]))
  }

  /** A span placed in the tree under `root`, at most `bound` deep. */
  ghost predicate InTree(root: string, parents: map<string, string>, span: string, bound: nat) {
    exists d: nat :: d <= bound && AtDepth(parents, span, d) && (d == 0 <==> span == root)
  }

  lemma ChildJoinsTheTree(root: string, parents: map<string, string>, id: string, parent: string, span: string,
                          bound: nat)
    requires Unseen(parents, id) && id != root && "" !in parents && parent in parents
    requires InTree(root, parents, if span == id then parent else span, bound)
    ensures InTree(root, parents[id := parent], span, bound + 1)
  {
    var up := if span == id then parent else span;
    var d: nat :| d <= bound && AtDepth(parents, up, d) && (d == 0 <==> up == root);
    if span == id {
      ChildIsOneDeeper(parents, id, parent, d + 1);
    } else {
      OthersKeepTheirDepth(parents, id, parent, span, d);
    }
  }

  /** Every span of a nested run has a depth, and the root alone has depth 0. */
  lemma {:induction false} RunsGrowATree(root: string, calls: seq<Call>)
    requires Nested(root, calls)
    ensures "" !in Grown(root, calls) && AtDepth(Grown(root, calls), root, 0)
    ensures forall s :: s in Grown(root, calls) ==> InTree(root, Grown(root, calls), s, |calls|)
  {
    if calls == [] {
      assert AtDepth(Grown(root, calls), root, 0);
    } else {
      var n := |calls| - 1;
      var before, id, parent := Grown(root, calls[..n]), calls[n].id, calls[n].parent;
      RunsGrowATree(root, calls[..n]);
      OthersKeepTheirDepth(before, id, parent, root, 0);
      forall s | s in Grown(root, calls) ensures InTree(root, Grown(root, calls), s, |calls|) {
        ChildJoinsTheTree(root, before, id, parent, s, n);
      }
    }
  }

  /** A depth once held is held for the rest of the run. */
  lemma {:induction false} DepthsAreStable(root: string, calls: seq<Call>, k: nat, span: string, d: nat)
    requires Nested(root, calls) && k <= |calls| && AtDepth(Grown(root, calls[..k]), span, d)
    ensures AtDepth(Grown(root, calls), span, d)
    decreases |calls|
  {
    if k == |calls| {
      assert calls[..k] == calls;
    } else {
      var n := |calls| - 1;
      assert calls[..n][..k] == calls[..k];
      DepthsAreStable(root, calls[..n], k, span, d);
      OthersKeepTheirDepth(Grown(root, calls[..n]), calls[n].id, calls[n].parent, span, d);
    }
  }

  /** A ring of parents, which a caller can only make by naming an identifier before it is drawn, has no depth. */
  lemma {:induction false} RingsHaveNoDepth(a: string, b: string, d: nat)
    requires a != "" && b != ""
    ensures !AtDepth(map[a := b, b := a], a, d) && !AtDepth(map[a := b, b := a], b, d)
  {
    if d > 0 {
      RingsHaveNoDepth(a, b, d - 1);
    }
  }

  /** A span as deep as you like: each call names the span handed out last. */
  function Name(i: nat): string {
    seq(i + 1, _ => 'x')
  }

  function Chain(n: nat): seq<Call> {
    if n == 0 then [] else Chain(n - 1) + [ChildSpan(Name(n - 1), Name(n))]
  }

  lemma NamesDiffer(i: nat, j: nat)
    ensures Name(i) == Name(j) <==> i == j
    ensures Name(i) != ""
  {
    assert |Name(i)| == i + 1 && |Name(j)| == j + 1;
  }

  /** The spans of a chain are the names handed out, each under the one before. */
  ghost predicate ChainMap(parents: map<string, string>, n: nat) {
    && (forall i: nat :: i <= n ==> Name(i) in parents)
    && (forall s :: s in parents ==>
                      (exists i: nat :: i <= n && s == Name(i))
                      && (parents[s] == "" || exists i: nat :: i < n && parents[s] == Name(i)))
  }

  /** A chain is a nested run, and its last span is as deep as the chain is long. */
  lemma {:induction false} ChainsAreDeep(n: nat)
    ensures Nested(Name(0), Chain(n)) && ChainMap(Grown(Name(0), Chain(n)), n)
    ensures AtDepth(Grown(Name(0), Chain(n)), Name(n), n)
  {
    if n == 0 {
      NamesDiffer(0, 0);
    } else {
      ChainsAreDeep(n - 1);
      ChainStep(n);
      ExtendChain(Grown(Name(0), Chain(n - 1)), n);
    }
  }

  lemma ChainStep(n: nat)
    requires n > 0
    ensures Chain(n) != [] && Chain(n)[..|Chain(n)| - 1] == Chain(n - 1)
            && Chain(n)[|Chain(n)| - 1] == ChildSpan(Name(n - 1), Name(n))
  {
  }

  /** A chain's next span is unseen and one deeper than its last. */
  lemma ExtendChain(before: map<string, string>, n: nat)
    requires n > 0 && ChainMap(before, n - 1) && AtDepth(before, Name(n - 1), n - 1)
    ensures Unseen(before, Name(n)) && Name(n - 1) in before
    ensures ChainMap(before[Name(n) := Name(n - 1)], n) && AtDepth(before[Name(n) := Name(n - 1)], Name(n), n)
  {
    FreshName(before, n);
    ChildIsOneDeeper(before, Name(n), Name(n - 1), n);
    ChainMapGrows(before, n);
  }

  lemma FreshName(before: map<string, string>, n: nat)
    requires n > 0 && ChainMap(before, n - 1)
    ensures Unseen(before, Name(n)) && "" !in before && Name(n - 1) != Name(n) && Name(n - 1) != ""
  {
    forall i: nat ensures (Name(i) == Name(n) <==> i == n) && Name(i) != "" {
      NamesDiffer(i, n);
    }
  }

  lemma ChainMapGrows(before: map<string, string>, n: nat)
    requires n > 0 && ChainMap(before, n - 1)
    ensures ChainMap(before[Name(n) := Name(n - 1)], n)
  {
    var after := before[Name(n) := Name(n - 1)];
    forall s | s in after
      ensures (exists i: nat :: i <= n && s == Name(i))
              && (after[s] == "" || exists i: nat :: i < n && after[s] == Name(i))
    {
      if s != Name(n) {
        assert s in before;
      }
    }
  }

  /**
   The limit is real: the last span of a chain has a depth the walk can report if and only if the chain is no
   longer than the limit.
   */
  lemma DeepSpansReportNoDepth(n: nat)
    ensures Reported(Grown(Name(0), Chain(n)), Name(n)) <==> n <= 100
  {
    ChainsAreDeep(n);
    ReportedExactly(Grown(Name(0), Chain(n)), Name(n), n);
  }

  /** A span whose depth the walk reports. */
  ghost predicate Reported(parents: map<string, string>, span: string) {
    exists d: nat :: d <= MAX_DEPTH && AtDepth(parents, span, d)
  }

  lemma ReportedExactly(parents: map<string, string>, span: string, n: nat)
    requires AtDepth(parents, span, n)
    ensures Reported(parents, span) <==> n <= MAX_DEPTH
  {
    if Reported(parents, span) {
      var d: nat :| d <= MAX_DEPTH && AtDepth(parents, span, d);
      DepthIsUnique(parents, span, n, d);
    }
  }
}
