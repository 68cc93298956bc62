// Breadth-first expansion of entity names over the relation table, in batches.
module GraphExpansion {
  import opened Text
  import opened IdOrder

  datatype Name = Name(text: string)

  datatype Row = Row(source: Name, target: Name)

  // ---- distance in the undirected relation graph ----

  predicate Joins(r: Row, a: Name, b: Name) { (r.source == a && r.target == b) || (r.source == b && r.target == a) }

  ghost predicate Adjacent(rels: seq<Row>, a: Name, b: Name) { exists r :: r in rels && Joins(r, a, b) }

  function FarEnds(r: Row, names: set<Name>): set<Name> {
    (if r.source in names then {r.target} else {}) + (if r.target in names then {r.source} else {})
  }

  /** The names one relation away from `names`. */
  function Neighbours(rels: seq<Row>, names: set<Name>): set<Name> {
    if rels == [] then {} else FarEnds(rels[0], names) + Neighbours(rels[1..], names)
  }

  lemma {:induction false} NeighboursAre(rels: seq<Row>, names: set<Name>, x: Name)
    ensures x in Neighbours(rels, names) <==> exists y :: y in names && Adjacent(rels, y, x)
    decreases |rels|
  {
    if rels != [] {
      var r, rest := rels[0], rels[1..];
      NeighboursAre(rest, names, x);
      forall y ensures Adjacent(rels, y, x) <==> Joins(r, y, x) || Adjacent(rest, y, x) {
        assert forall q :: q in rels <==> q == r || q in rest;
      }
      if x in FarEnds(r, names) {
        var y := if r.source in names && r.target == x then r.source else r.target;
        assert Joins(r, y, x);
      }
    }
  }

  /** The names at most `n` relations away from a seed. */
  ghost function Within(rels: seq<Row>, seeds: seq<Name>, n: nat): set<Name> {
    if n == 0 then Elems(seeds) else Within(rels, seeds, n - 1) + Neighbours(rels, Within(rels, seeds, n - 1))
  }

  /** The names exactly `n` relations away. */
  ghost function Level(rels: seq<Row>, seeds: seq<Name>, n: nat): set<Name> {
    if n == 0 then Elems(seeds) else Within(rels, seeds, n) - Within(rels, seeds, n - 1)
  }

  ghost predicate IsWalk(rels: seq<Row>, p: seq<Name>) {
    forall i :: 0 <= i < |p| - 1 ==> Linked(rels, p[i], p[i + 1])
  }

  /** Some row has the two names for its ends, either way round. */
  ghost predicate Linked(rels: seq<Row>, a: Name, b: Name) {
    exists r :: r in rels && (r == Row(a, b) || r == Row(b, a))
  }

  lemma LinkedIsAdjacent(rels: seq<Row>, a: Name, b: Name)
    ensures Linked(rels, a, b) <==> Adjacent(rels, a, b)
  {
    if r :| r in rels && (r == Row(a, b) || r == Row(b, a)) { assert Joins(r, a, b); }
    if r :| r in rels && Joins(r, a, b) { assert r == Row(a, b) || r == Row(b, a); }
  }

  ghost predicate WalkFromSeed(rels: seq<Row>, seeds: seq<Name>, x: Name, p: seq<Name>) {
    p != [] && p[0] in seeds && p[|p| - 1] == x && IsWalk(rels, p)
  }

  /** Being within distance `n` means being the end of a walk of at most `n` relations from a seed. */
  lemma {:induction false} WithinIffWalk(rels: seq<Row>, seeds: seq<Name>, n: nat, x: Name)
    ensures x in Within(rels, seeds, n) <==> exists p :: WalkFromSeed(rels, seeds, x, p) && |p| <= n + 1
    decreases n
  {
    if x in Within(rels, seeds, n) {
      var p := WalkTo(rels, seeds, n, x);
    }
    forall p | WalkFromSeed(rels, seeds, x, p) && |p| <= n + 1 ensures x in Within(rels, seeds, n) {
      WalkStaysWithin(rels, seeds, p);
      WithinGrows(rels, seeds, |p| - 1, n);
    }
  }

  lemma {:induction false} WalkTo(rels: seq<Row>, seeds: seq<Name>, n: nat, x: Name) returns (p: seq<Name>)
    requires x in Within(rels, seeds, n)
    ensures WalkFromSeed(rels, seeds, x, p) && |p| <= n + 1
    decreases n
  {
    if n == 0 {
      p := [x];
    } else if x in Within(rels, seeds, n - 1) {
      p := WalkTo(rels, seeds, n - 1, x);
    } else {
      NeighboursAre(rels, Within(rels, seeds, n - 1), x);
      var y :| y in Within(rels, seeds, n - 1) && Adjacent(rels, y, x);
      var q := WalkTo(rels, seeds, n - 1, y);
      p := q + [x];
      LinkedIsAdjacent(rels, y, x);
      forall i | 0 <= i < |p| - 1 ensures Linked(rels, p[i], p[i + 1]) {
        if i < |q| - 1 { assert p[i] == q[i] && p[i + 1] == q[i + 1]; }
      }
    }
  }

  lemma {:induction false} WalkStaysWithin(rels: seq<Row>, seeds: seq<Name>, p: seq<Name>)
    requires p != [] && p[0] in seeds && IsWalk(rels, p)
    ensures p[|p| - 1] in Within(rels, seeds, |p| - 1)
    decreases |p|
  {
    if |p| > 1 {
      var q := p[..|p| - 1];
      forall i | 0 <= i < |q| - 1 ensures Linked(rels, q[i], q[i + 1]) {
        assert Linked(rels, p[i], p[i + 1]);
      }
      WalkStaysWithin(rels, seeds, q);
      var k := |p| - 2;
      assert Linked(rels, p[k], p[k + 1]);
      LinkedIsAdjacent(rels, p[k], p[k + 1]);
      NeighboursAre(rels, Within(rels, seeds, k), p[k + 1]);
    }
  }

  lemma {:induction false} WithinGrows(rels: seq<Row>, seeds: seq<Name>, m: nat, n: nat)
    requires m <= n
    ensures Within(rels, seeds, m) <= Within(rels, seeds, n)
    decreases n - m
  {
    if m < n {
      WithinGrows(rels, seeds, m, n - 1);
    }
  }

  // ---- the expansion ----

  type Labels = map<Name, int>

  predicate CapReached(cap: Option<nat>, size: nat) { cap.Some? && size >= cap.value }

  /** The query for the rows that touch the batch; the order of the rows is the database's. */
  method SelectRows(rels: seq<Row>, batch: seq<Name>) returns (rows: seq<Row>)
    ensures forall r :: r in rows <==> r in rels && (r.source in batch || r.target in batch)
  {
    rows := [];
    for i := 0 to |rels|
      invariant forall r :: r in rows <==> r in rels[..i] && (r.source in batch || r.target in batch)
    {
      assert rels[..i + 1] == rels[..i] + [rels[i]];
      if rels[i].source in batch || rels[i].target in batch { rows := rows + [rels[i]]; }
    }
    assert rels[..|rels|] == rels;
  }

  /** `found` are the new names of one round: fresh, distinct, each next to the batch. */
  ghost predicate FoundNextTo(rels: seq<Row>, batch: seq<Name>, before: Labels, found: seq<Name>) {
    && Distinct(found)
    && forall x :: x in found ==> x !in before && x in Neighbours(rels, Elems(batch))
  }

  ghost predicate Labelled(before: Labels, found: seq<Name>, hop: int, after: Labels) {
    && (forall x :: x in after <==> x in before || x in found)
    && (forall x :: x in before ==> after[x] == before[x])
    && forall x :: x in found && x !in before ==> after[x] == hop
  }

  /** One round: every row that touches the batch adds the end that is not known yet. */
  method Round(rels: seq<Row>, batch: seq<Name>, hop: int, cap: Option<nat>, expanded0: Labels)
    returns (expanded: Labels, found: seq<Name>)
    requires forall x :: x in batch ==> x in expanded0
    ensures FoundNextTo(rels, batch, expanded0, found) && Labelled(expanded0, found, hop, expanded)
    ensures |expanded| == |expanded0| + |found|
    ensures Neighbours(rels, Elems(batch)) <= expanded.Keys || CapReached(cap, |expanded|)
  {
    expanded, found := expanded0, [];
    var rows := SelectRows(rels, batch);
    for i := 0 to |rows|
      invariant FoundNextTo(rels, batch, expanded0, found) && Labelled(expanded0, found, hop, expanded)
      invariant |expanded| == |expanded0| + |found|
      invariant CapReached(cap, |expanded|) || forall k :: 0 <= k < i ==> rows[k].source in expanded && rows[k].target in expanded
    {
      var r := rows[i];
      assert r in rows;
      var other := if r.source in expanded then r.target else r.source;
      if other !in expanded && !CapReached(cap, |expanded|) {
        OtherIsNeighbour(rels, batch, expanded0, expanded, r, other);
        expanded := expanded[other := hop];
        found := found + [other];
      }
    }
    if !CapReached(cap, |expanded|) {
      forall x | x in Neighbours(rels, Elems(batch)) ensures x in expanded {
        NeighboursAre(rels, Elems(batch), x);
        var y :| y in Elems(batch) && Adjacent(rels, y, x);
        var r :| r in rels && Joins(r, y, x);
        assert r in rows;
      }
    }
  }

  /** A name that is not known yet is the far end of a row whose near end is in the batch. */
  lemma OtherIsNeighbour(rels: seq<Row>, batch: seq<Name>, before: Labels, expanded: Labels, r: Row, other: Name)
    requires r in rels && (r.source in batch || r.target in batch)
    requires forall x :: x in batch ==> x in expanded
    requires other == (if r.source in expanded then r.target else r.source) && other !in expanded
    ensures other in Neighbours(rels, Elems(batch))
  {
    var near := if other == r.target then r.source else r.target;
    assert near in batch;
    assert Joins(r, near, other);
    assert Adjacent(rels, near, other);
    NeighboursAre(rels, Elems(batch), other);
  }

  // ---- what holds between rounds ----

  ghost predicate SoundLabels(rels: seq<Row>, seeds: seq<Name>, hop: nat, expanded: Labels) {
    && (forall s :: s in seeds ==> s in expanded && expanded[s] == 0)
    && forall x {:trigger AtMost(rels, seeds, x, expanded[x])} :: x in expanded ==>
         expanded[x] <= hop && AtMost(rels, seeds, x, expanded[x])
  }

  /** `x` is at most `d` relations away from a seed. */
  ghost predicate AtMost(rels: seq<Row>, seeds: seq<Name>, x: Name, d: int) {
    d >= 0 && x in Within(rels, seeds, d)
  }

  /** All neighbours of names that have left the queue are known, unless the size cap stopped the expansion. */
  ghost predicate ExpandedAround(rels: seq<Row>, expanded: Labels, queue: seq<Name>, cap: Option<nat>) {
    && (forall x :: x in queue ==> x in expanded)
    && (CapReached(cap, |expanded|) ||
        forall y {:trigger NeighboursKnown(rels, expanded, y)} :: y in expanded && y !in queue ==> NeighboursKnown(rels, expanded, y))
  }

  ghost predicate NeighboursKnown(rels: seq<Row>, expanded: Labels, y: Name) {
    forall x :: x in Neighbours(rels, {y}) ==> x in expanded
  }

  lemma RoundSound(rels: seq<Row>, seeds: seq<Name>, hop: nat, batch: seq<Name>, before: Labels, found: seq<Name>, after: Labels)
    requires SoundLabels(rels, seeds, hop, before) && forall x :: x in batch ==> x in before
    requires FoundNextTo(rels, batch, before, found) && Labelled(before, found, hop + 1, after)
    ensures SoundLabels(rels, seeds, hop + 1, after)
  {
    forall x | x in after ensures after[x] <= hop + 1 && AtMost(rels, seeds, x, after[x]) {
      if x in before {
        assert AtMost(rels, seeds, x, before[x]);
      } else {
        NeighboursAre(rels, Elems(batch), x);
        var y :| y in Elems(batch) && Adjacent(rels, y, x);
        assert AtMost(rels, seeds, y, before[y]);
        WithinGrows(rels, seeds, before[y], hop);
        NeighboursAre(rels, Within(rels, seeds, hop), x);
      }
    }
  }

  lemma RoundExpands(rels: seq<Row>, queue: seq<Name>, batch: seq<Name>, rest: seq<Name>, cap: Option<nat>,
                     before: Labels, found: seq<Name>, after: Labels, hop: int)
    requires ExpandedAround(rels, before, queue, cap) && queue == batch + rest
    requires Labelled(before, found, hop, after) && |after| == |before| + |found|
    requires Neighbours(rels, Elems(batch)) <= after.Keys || CapReached(cap, |after|)
    ensures ExpandedAround(rels, after, rest + found, cap)
  {
    assert forall x :: x in rest + found <==> x in rest || x in found;
    if !CapReached(cap, |after|) {
      forall y | y in after && y !in rest + found ensures NeighboursKnown(rels, after, y) {
        if y in batch {
          forall x | x in Neighbours(rels, {y}) ensures x in after {
            NeighboursAre(rels, {y}, x);
            NeighboursAre(rels, Elems(batch), x);
          }
        } else {
          assert NeighboursKnown(rels, before, y);
        }
      }
    }
  }

  /** Once the queue is empty and the cap was not hit, everything reachable has been found. */
  lemma {:induction false} DrainedIsClosed(rels: seq<Row>, seeds: seq<Name>, expanded: Labels, cap: Option<nat>, n: nat)
    requires ExpandedAround(rels, expanded, [], cap) && !CapReached(cap, |expanded|)
    requires forall s :: s in seeds ==> s in expanded
    ensures Within(rels, seeds, n) <= expanded.Keys
    decreases n
  {
    if n > 0 {
      DrainedIsClosed(rels, seeds, expanded, cap, n - 1);
      forall x | x in Neighbours(rels, Within(rels, seeds, n - 1)) ensures x in expanded {
        NeighboursAre(rels, Within(rels, seeds, n - 1), x);
        var y :| y in Within(rels, seeds, n - 1) && Adjacent(rels, y, x);
        assert NeighboursKnown(rels, expanded, y);
        NeighboursAre(rels, {y}, x);
      }
    }
  }

  // ---- when the batches are large enough ----

  /** No level overflows a batch, and the size cap leaves room for everything within `maxHops`. */
  ghost predicate Fits(rels: seq<Row>, seeds: seq<Name>, maxHops: nat, batchSize: nat, cap: Option<nat>) {
    && |seeds| <= batchSize
    && (forall d :: 1 <= d < maxHops ==> |Level(rels, seeds, d)| <= batchSize)
    && (cap.Some? ==> |Within(rels, seeds, maxHops)| <= cap.value)
  }

  /** Every label is the name's distance. */
  ghost predicate ExactLabels(rels: seq<Row>, seeds: seq<Name>, hop: nat, expanded: Labels) {
    forall x {:trigger AtDistance(rels, seeds, x, expanded[x])} :: x in expanded ==>
      expanded[x] <= hop && AtDistance(rels, seeds, x, expanded[x])
  }

  ghost predicate AtDistance(rels: seq<Row>, seeds: seq<Name>, x: Name, d: int) {
    d >= 0 && x in Level(rels, seeds, d)
  }

  /** Exactly the names within `hop`, each at its distance; the queue holds the last level. */
  ghost predicate ExactUpTo(rels: seq<Row>, seeds: seq<Name>, hop: nat, expanded: Labels, queue: seq<Name>) {
    && expanded.Keys == Within(rels, seeds, hop)
    && ExactLabels(rels, seeds, hop, expanded)
    && Elems(queue) == Level(rels, seeds, hop)
    && (hop == 0 ==> queue == seeds) && (hop > 0 ==> Distinct(queue))
  }

  /** Only names of the last level can have neighbours that are not within reach yet. */
  lemma NewNeighbours(rels: seq<Row>, seeds: seq<Name>, hop: nat, x: Name)
    ensures x in Level(rels, seeds, hop + 1) ==> x in Neighbours(rels, Level(rels, seeds, hop))
    ensures x in Neighbours(rels, Level(rels, seeds, hop)) ==> x in Within(rels, seeds, hop + 1)
  {
    if x in Level(rels, seeds, hop + 1) {
      NeighboursAre(rels, Within(rels, seeds, hop), x);
      var y :| y in Within(rels, seeds, hop) && Adjacent(rels, y, x);
      if y !in Level(rels, seeds, hop) {
        NeighboursAre(rels, Within(rels, seeds, hop - 1), x);
      }
      NeighboursAre(rels, Level(rels, seeds, hop), x);
    }
    if x in Neighbours(rels, Level(rels, seeds, hop)) {
      NeighboursAre(rels, Level(rels, seeds, hop), x);
      NeighboursAre(rels, Within(rels, seeds, hop), x);
    }
  }

  lemma QueueFits(rels: seq<Row>, seeds: seq<Name>, maxHops: nat, batchSize: nat, cap: Option<nat>, hop: nat, expanded: Labels, queue: seq<Name>)
    requires Fits(rels, seeds, maxHops, batchSize, cap) && ExactUpTo(rels, seeds, hop, expanded, queue) && hop < maxHops
    ensures |queue| <= batchSize
  {
    if hop > 0 {
      DistinctCardinality(queue);
    }
  }

  /** The cap cannot have cut a round short when everything within reach fits under it. */
  lemma CapDoesNotCut(after: set<Name>, target: set<Name>, all: set<Name>, cap: Option<nat>)
    requires after <= target <= all && (cap.Some? ==> |all| <= cap.value) && CapReached(cap, |after|)
    ensures after == target
  {
    assert all == after + (all - after);
  }

  /** A round that expands a whole level reaches the next one entirely. */
  lemma RoundReaches(rels: seq<Row>, seeds: seq<Name>, maxHops: nat, cap: Option<nat>, hop: nat,
                     before: set<Name>, found: set<Name>, after: set<Name>)
    requires hop < maxHops && (cap.Some? ==> |Within(rels, seeds, maxHops)| <= cap.value)
    requires before == Within(rels, seeds, hop) && after == before + found
    requires found <= Neighbours(rels, Level(rels, seeds, hop))
    requires Neighbours(rels, Level(rels, seeds, hop)) <= after || CapReached(cap, |after|)
    ensures after == Within(rels, seeds, hop + 1)
  {
    NextLevelIs(rels, seeds, hop);
    WithinGrows(rels, seeds, hop + 1, maxHops);
    ReachesAll(before, Neighbours(rels, Level(rels, seeds, hop)), found, Within(rels, seeds, maxHops), cap);
  }

  lemma ReachesAll(before: set<Name>, near: set<Name>, found: set<Name>, all: set<Name>, cap: Option<nat>)
    requires found <= near && before + near <= all && (cap.Some? ==> |all| <= cap.value)
    requires near <= before + found || CapReached(cap, |before + found|)
    ensures before + found == before + near
  {
    if CapReached(cap, |before + found|) {
      CapDoesNotCut(before + found, before + near, all, cap);
    }
  }

  lemma NextLevelIs(rels: seq<Row>, seeds: seq<Name>, hop: nat)
    ensures Within(rels, seeds, hop + 1) == Within(rels, seeds, hop) + Neighbours(rels, Level(rels, seeds, hop))
  {
    WithinGrows(rels, seeds, hop, hop + 1);
    forall x ensures x in Within(rels, seeds, hop + 1) <==>
                     x in Within(rels, seeds, hop) || x in Neighbours(rels, Level(rels, seeds, hop)) {
      NewNeighbours(rels, seeds, hop, x);
      if x in Within(rels, seeds, hop + 1) && x !in Within(rels, seeds, hop) {
        assert x in Level(rels, seeds, hop + 1);
      }
    }
  }

  lemma RoundExact(rels: seq<Row>, seeds: seq<Name>, maxHops: nat, batchSize: nat, cap: Option<nat>, hop: nat,
                   before: Labels, queue: seq<Name>, found: seq<Name>, after: Labels)
    requires Fits(rels, seeds, maxHops, batchSize, cap) && hop < maxHops && ExactUpTo(rels, seeds, hop, before, queue)
    requires FoundNextTo(rels, queue, before, found) && Labelled(before, found, hop + 1, after)
    requires Neighbours(rels, Elems(queue)) <= after.Keys || CapReached(cap, |after|)
    ensures ExactUpTo(rels, seeds, hop + 1, after, found)
  {
    assert after.Keys == before.Keys + Elems(found);
    assert |after| == |after.Keys|;
    RoundReaches(rels, seeds, maxHops, cap, hop, before.Keys, Elems(found), after.Keys);
    assert Elems(found) == Within(rels, seeds, hop + 1) - Within(rels, seeds, hop);
    NextLabels(rels, seeds, hop, before, found, after);
  }

  lemma NextLabels(rels: seq<Row>, seeds: seq<Name>, hop: nat, before: Labels, found: seq<Name>, after: Labels)
    requires ExactLabels(rels, seeds, hop, before)
    requires Labelled(before, found, hop + 1, after) && Elems(found) == Level(rels, seeds, hop + 1)
    ensures ExactLabels(rels, seeds, hop + 1, after)
  {
    forall x | x in after ensures after[x] <= hop + 1 && AtDistance(rels, seeds, x, after[x]) {
      if x in before {
        assert AtDistance(rels, seeds, x, before[x]);
      } else {
        assert x in Elems(found);
      }
    }
  }

  /** An empty level ends the growth. */
  lemma {:induction false} EmptyLevelEnds(rels: seq<Row>, seeds: seq<Name>, hop: nat, n: nat)
    requires Level(rels, seeds, hop) == {} && hop <= n
    ensures Within(rels, seeds, n) == Within(rels, seeds, hop) && Level(rels, seeds, n) == {}
    decreases n - hop
  {
    if hop < n {
      EmptyLevelEnds(rels, seeds, hop, n - 1);
      forall x | x in Level(rels, seeds, n) ensures false {
        NewNeighbours(rels, seeds, n - 1, x);
        NeighboursAre(rels, Level(rels, seeds, n - 1), x);
      }
      forall x | x in Within(rels, seeds, n) ensures x in Within(rels, seeds, n - 1) {
        assert x !in Level(rels, seeds, n);
      }
      WithinGrows(rels, seeds, n - 1, n);
    }
  }

  ghost predicate Exact(rels: seq<Row>, seeds: seq<Name>, maxHops: nat, expanded: Labels) {
    expanded.Keys == Within(rels, seeds, maxHops) && ExactLabels(rels, seeds, maxHops, expanded)
  }

  /** What every round keeps; `fits` says whether the batches are large enough. */
  ghost predicate Invariant(rels: seq<Row>, seeds: seq<Name>, cap: Option<nat>, fits: bool, hop: nat, expanded: Labels, queue: seq<Name>) {
    && SoundLabels(rels, seeds, hop, expanded) && ExpandedAround(rels, expanded, queue, cap)
    && (fits ==> ExactUpTo(rels, seeds, hop, expanded, queue))
  }

  /** Takes a batch off the queue and appends what its round finds. */
  method Advance(rels: seq<Row>, ghost seeds: seq<Name>, ghost maxHops: nat, batchSize: nat, cap: Option<nat>, ghost fits: bool,
                 hop: nat, expanded0: Labels, queue0: seq<Name>)
    returns (expanded: Labels, queue: seq<Name>)
    requires Invariant(rels, seeds, cap, fits, hop, expanded0, queue0) && hop < maxHops
    requires fits ==> Fits(rels, seeds, maxHops, batchSize, cap)
    ensures Invariant(rels, seeds, cap, fits, hop + 1, expanded, queue)
  {
    var size := if |queue0| < batchSize then |queue0| else batchSize;
    var batch, rest := queue0[..size], queue0[size..];
    assert queue0 == batch + rest;
    var found;
    expanded, found := Round(rels, batch, hop + 1, cap, expanded0);
    queue := rest + found;
    RoundSound(rels, seeds, hop, batch, expanded0, found, expanded);
    RoundExpands(rels, queue0, batch, rest, cap, expanded0, found, expanded, hop + 1);
    if fits {
      QueueFits(rels, seeds, maxHops, batchSize, cap, hop, expanded0, queue0);
      assert batch == queue0 && queue == found;
      RoundExact(rels, seeds, maxHops, batchSize, cap, hop, expanded0, queue0, found, expanded);
    }
  }

  function Rounds(maxHops: int): nat { if maxHops < 0 then 0 else maxHops }

  /**
   * The expansion of `searchGraphLocal` (no cap) and `searchRelated` (with one). Every label is an upper bound of
   * the distance; when the batches fit, labels are exact and nothing within `maxHops` is missing; and when the
   * queue ran empty below the cap, everything reachable has been found.
   */
  method Expand(seeds: seq<Name>, rels: seq<Row>, maxHops: int, batchSize: nat, cap: Option<nat>)
    returns (expanded: Labels, queue: seq<Name>)
    ensures SoundLabels(rels, seeds, Rounds(maxHops), expanded)
    ensures Fits(rels, seeds, Rounds(maxHops), batchSize, cap) ==> Exact(rels, seeds, Rounds(maxHops), expanded)
    ensures queue == [] && !CapReached(cap, |expanded|) ==> forall n: nat :: Within(rels, seeds, n) <= expanded.Keys
    ensures forall x :: x in expanded ==> exists p :: WalkFromSeed(rels, seeds, x, p) && |p| <= expanded[x] + 1
    ensures forall x :: x in expanded ==> 0 <= expanded[x] <= (if maxHops < 0 then 0 else maxHops)
    ensures Fits(rels, seeds, Rounds(maxHops), batchSize, cap) ==>
              forall x, p :: WalkFromSeed(rels, seeds, x, p) && |p| <= (if maxHops < 0 then 0 else maxHops) + 1 ==>
                x in expanded && expanded[x] < |p|
    ensures queue == [] && (cap.Some? ==> |expanded| < cap.value) ==>
              forall x, p :: WalkFromSeed(rels, seeds, x, p) ==> x in expanded
  {
    ghost var fits := Fits(rels, seeds, Rounds(maxHops), batchSize, cap);
    expanded, queue := Explore(rels, seeds, Rounds(maxHops), batchSize, cap, fits);
    if queue == [] && !CapReached(cap, |expanded|) {
      forall n: nat ensures Within(rels, seeds, n) <= expanded.Keys {
        DrainedIsClosed(rels, seeds, expanded, cap, n);
      }
      forall x, p | WalkFromSeed(rels, seeds, x, p) ensures x in expanded { WalkStaysWithin(rels, seeds, p); }
    }
    LabelsAreWalks(rels, seeds, Rounds(maxHops), expanded);
    if fits { LabelsAreShortest(rels, seeds, Rounds(maxHops), expanded); }
  }

  lemma LabelsAreWalks(rels: seq<Row>, seeds: seq<Name>, hop: nat, expanded: Labels)
    requires SoundLabels(rels, seeds, hop, expanded)
    ensures forall x :: x in expanded ==> 0 <= expanded[x] <= hop
    ensures forall x :: x in expanded ==> exists p :: WalkFromSeed(rels, seeds, x, p) && |p| <= expanded[x] + 1
  {
    forall x | x in expanded
      ensures 0 <= expanded[x] <= hop && exists p :: WalkFromSeed(rels, seeds, x, p) && |p| <= expanded[x] + 1
    {
      assert AtMost(rels, seeds, x, expanded[x]);
      var p := WalkTo(rels, seeds, expanded[x], x);
    }
  }

  /** No walk is shorter than the label. */
  lemma LabelsAreShortest(rels: seq<Row>, seeds: seq<Name>, maxHops: nat, expanded: Labels)
    requires Exact(rels, seeds, maxHops, expanded)
    ensures forall x, p :: WalkFromSeed(rels, seeds, x, p) && |p| <= maxHops + 1 ==> x in expanded && expanded[x] < |p|
  {
    forall x, p | WalkFromSeed(rels, seeds, x, p) && |p| <= maxHops + 1 ensures x in expanded && expanded[x] < |p| {
      WalkStaysWithin(rels, seeds, p);
      WithinGrows(rels, seeds, |p| - 1, maxHops);
      assert AtDistance(rels, seeds, x, expanded[x]);
      if expanded[x] >= |p| { WithinGrows(rels, seeds, |p| - 1, expanded[x] - 1); }
    }
  }

  method Explore(rels: seq<Row>, seeds: seq<Name>, maxHops: nat, batchSize: nat, cap: Option<nat>, ghost fits: bool)
    returns (expanded: Labels, queue: seq<Name>)
    requires fits ==> Fits(rels, seeds, maxHops, batchSize, cap)
    ensures SoundLabels(rels, seeds, maxHops, expanded) && ExpandedAround(rels, expanded, queue, cap)
    ensures fits ==> Exact(rels, seeds, maxHops, expanded)
  {
    expanded, queue := Seeded(seeds), seeds;
    var hop := 0;
    SeedsInvariant(rels, seeds, cap, fits, expanded, queue);
    while queue != [] && hop < maxHops
      invariant hop <= maxHops && Invariant(rels, seeds, cap, fits, hop, expanded, queue)
      decreases maxHops - hop
    {
      expanded, queue := Advance(rels, seeds, maxHops, batchSize, cap, fits, hop, expanded, queue);
      hop := hop + 1;
    }
    Finished(rels, seeds, maxHops, cap, fits, hop, expanded, queue);
  }

  lemma SeedsInvariant(rels: seq<Row>, seeds: seq<Name>, cap: Option<nat>, fits: bool, expanded: Labels, queue: seq<Name>)
    requires expanded == Seeded(seeds) && queue == seeds
    ensures Invariant(rels, seeds, cap, fits, 0, expanded, queue)
  {
    assert Elems(seeds) == Within(rels, seeds, 0) == Level(rels, seeds, 0);
  }

  lemma Finished(rels: seq<Row>, seeds: seq<Name>, maxHops: nat, cap: Option<nat>, fits: bool,
                 hop: nat, expanded: Labels, queue: seq<Name>)
    requires Invariant(rels, seeds, cap, fits, hop, expanded, queue) && hop <= maxHops
    requires queue == [] || hop == maxHops
    ensures SoundLabels(rels, seeds, maxHops, expanded) && (fits ==> Exact(rels, seeds, maxHops, expanded))
  {
    forall x | x in expanded ensures expanded[x] <= maxHops && AtMost(rels, seeds, x, expanded[x]) {
      assert AtMost(rels, seeds, x, expanded[x]);
    }
    if fits {
      EmptyLevelEndsIfDrained(rels, seeds, hop, maxHops, queue);
      forall x | x in expanded ensures expanded[x] <= maxHops && AtDistance(rels, seeds, x, expanded[x]) {
        assert AtDistance(rels, seeds, x, expanded[x]);
      }
    }
  }

  lemma EmptyLevelEndsIfDrained(rels: seq<Row>, seeds: seq<Name>, hop: nat, maxHops: nat, queue: seq<Name>)
    requires hop <= maxHops && (queue == [] || hop == maxHops) && Elems(queue) == Level(rels, seeds, hop)
    ensures Within(rels, seeds, maxHops) == Within(rels, seeds, hop)
  {
    if hop < maxHops {
      EmptyLevelEnds(rels, seeds, hop, maxHops);
    }
  }

  function Seeded(seeds: seq<Name>): (expanded: Labels)
    ensures expanded.Keys == Elems(seeds) && forall x :: x in expanded ==> expanded[x] == 0
  {
    map x | x in seeds :: 0
  }
}
