// The tool-call waterfall: a re-entrant next() chain run one await at a time, and disposal that waits for runs to end.
module Waterfall {
  datatype Decision = Allow | Ask | Deny

  function Rank(d: Decision): nat { match d case Allow => 0 case Ask => 1 case Deny => 2 }

  function Merge(current: Decision, incoming: Decision): Decision {
    if Rank(incoming) > Rank(current) then incoming else current
  }

  /** How a middleware settles: without a decision, with one, or by throwing. */
  datatype Result = Silent | Returned(decision: Decision) | Threw

  /** What a settled middleware contributes to the outcome. */
  function Contribution(result: Result, failClosed: bool): Decision {
    match result
    case Silent => Allow
    case Returned(d) => d
    case Threw => if failClosed then Deny else Allow
  }

  /** A middleware, by what it does when invoked: how often it calls `next()` and awaits it before settling, how often
      it calls `next()` without awaiting it, and how it settles. */
  datatype Middleware = Middleware(nexts: nat, forgotten: nat, result: Result) {
    function Calls(): nat { nexts + forgotten }
  }

  // ---- how far a chain gets ----

  /** `next()` calls made by the middlewares from `a` to `b`, less the number of these middlewares. */
  function Balance(mws: seq<Middleware>, a: nat, b: nat): int
    requires a <= b <= |mws|
    decreases b
  {
    if a == b then 0 else Balance(mws, a, b - 1) + mws[b - 1].Calls() - 1
  }

  /** `k` invocations of the step function that start at position `a` leave the shared index at `b`. */
  ghost predicate Reaches(mws: seq<Middleware>, a: nat, b: nat, k: nat) {
    && a <= b <= |mws|
    && (forall c :: a <= c < b ==> Balance(mws, a, c) + k > 0)
    && (b == |mws| || Balance(mws, a, b) + k == 0)
  }

  lemma {:induction false} BalanceSplits(mws: seq<Middleware>, a: nat, b: nat, c: nat)
    requires a <= b <= c <= |mws|
    ensures Balance(mws, a, c) == Balance(mws, a, b) + Balance(mws, b, c)
    decreases c
  {
    if b < c {
      BalanceSplits(mws, a, b, c - 1);
    }
  }

  /** The index the chain ends at is determined by the middlewares alone. */
  lemma ReachesUnique(mws: seq<Middleware>, a: nat, b1: nat, b2: nat, k: nat)
    requires Reaches(mws, a, b1, k) && Reaches(mws, a, b2, k)
    ensures b1 == b2
  {
  }

  lemma ReachesOneMore(mws: seq<Middleware>, a: nat, b: nat, c: nat, k: nat)
    requires Reaches(mws, a, b, k) && Reaches(mws, b, c, 1)
    ensures Reaches(mws, a, c, k + 1)
  {
    forall d | a <= d < c ensures Balance(mws, a, d) + k + 1 > 0 {
      if d >= b { BalanceSplits(mws, a, b, d); }
    }
    BalanceSplits(mws, a, b, c);
  }

  /** Invoking the middleware at `a` and then its `next()` calls is one step. */
  lemma ReachesStep(mws: seq<Middleware>, a: nat, b: nat)
    requires a < |mws| && Reaches(mws, a + 1, b, mws[a].Calls())
    ensures Reaches(mws, a, b, 1)
  {
    forall d | a <= d <= b ensures d > a ==> Balance(mws, a, d) == mws[a].Calls() - 1 + Balance(mws, a + 1, d) {
      if d > a {
        BalanceSplits(mws, a, a + 1, d);
        assert Balance(mws, a, a) == 0;
      }
    }
  }

  // ---- the outcome ----

  /** The strictest contribution of the middlewares from `a` to `b`, merged into `d`. */
  function MergeRange(mws: seq<Middleware>, a: nat, b: nat, failClosed: bool, d: Decision): Decision
    requires a <= b <= |mws|
    decreases b
  {
    if a == b then d else Merge(MergeRange(mws, a, b - 1, failClosed, d), Contribution(mws[b - 1].result, failClosed))
  }

  /** Merging computes a maximum, in whatever order the middlewares settle. */
  ghost predicate IsMaximum(mws: seq<Middleware>, a: nat, b: nat, failClosed: bool, d: Decision, r: Decision)
    requires a <= b <= |mws|
  {
    && Rank(r) >= Rank(d)
    && (forall i :: a <= i < b ==> Rank(r) >= Rank(Contribution(mws[i].result, failClosed)))
    && (r == d || exists i :: a <= i < b && r == Contribution(mws[i].result, failClosed))
  }

  lemma {:induction false} MergeRangeIsMaximum(mws: seq<Middleware>, a: nat, b: nat, failClosed: bool, d: Decision)
    requires a <= b <= |mws|
    ensures IsMaximum(mws, a, b, failClosed, d, MergeRange(mws, a, b, failClosed, d))
    decreases b
  {
    if a < b {
      MergeRangeIsMaximum(mws, a, b - 1, failClosed, d);
    }
  }

  lemma MaximumUnique(mws: seq<Middleware>, a: nat, b: nat, failClosed: bool, d: Decision, r1: Decision, r2: Decision)
    requires a <= b <= |mws| && IsMaximum(mws, a, b, failClosed, d, r1) && IsMaximum(mws, a, b, failClosed, d, r2)
    ensures r1 == r2
  {
    assert Rank(r1) == Rank(r2);
  }

  lemma MaximumJoins(mws: seq<Middleware>, a: nat, b: nat, c: nat, failClosed: bool, d: Decision, r1: Decision, r2: Decision)
    requires a <= b <= c <= |mws|
    requires IsMaximum(mws, a, b, failClosed, d, r1) && IsMaximum(mws, b, c, failClosed, r1, r2)
    ensures IsMaximum(mws, a, c, failClosed, d, r2)
  {
  }

  /** What a maximum from `allow` on means: a denial, or a throw that counts as one, wins over a question, and that over
      silence. */
  lemma MaximumMeans(mws: seq<Middleware>, n: nat, failClosed: bool, r: Decision)
    requires n <= |mws| && IsMaximum(mws, 0, n, failClosed, Allow, r)
    ensures r.Deny? <==> exists i :: 0 <= i < n && (mws[i].result == Returned(Deny) || (failClosed && mws[i].result == Threw))
    ensures r.Ask? <==> !r.Deny? && exists i :: 0 <= i < n && mws[i].result == Returned(Ask)
  {
    if i :| 0 <= i < n && (mws[i].result == Returned(Deny) || (failClosed && mws[i].result == Threw)) {
      assert Rank(r) >= Rank(Contribution(mws[i].result, failClosed));
    }
    if i :| 0 <= i < n && mws[i].result == Returned(Ask) {
      assert Rank(r) >= Rank(Contribution(mws[i].result, failClosed));
    }
  }

  /** The `next()` calls the middlewares make and await. */
  function Awaited(mws: seq<Middleware>): nat {
    if mws == [] then 0 else Awaited(mws[..|mws| - 1]) + mws[|mws| - 1].nexts
  }

  lemma {:induction false} BalanceIsAwaited(mws: seq<Middleware>, n: nat)
    requires n <= |mws| && AllAwait(mws)
    ensures Balance(mws, 0, n) == Awaited(mws[..n]) - n
    decreases n
  {
    if n > 0 {
      BalanceIsAwaited(mws, n - 1);
      assert mws[..n][..n - 1] == mws[..n - 1];
    }
  }

  /** Every `next()` call is awaited, and one at a time; module `WaterfallOrder` has the other cases. */
  predicate AllAwait(mws: seq<Middleware>) { forall i :: 0 <= i < |mws| ==> mws[i].forgotten == 0 }

  /** One run of the chain: the snapshot of the middlewares and the state its steps share. */
  class ChainRun {
    const middlewares: seq<Middleware>
    const failClosed: bool
    var index: nat
    var decision: Decision

    constructor (middlewares: seq<Middleware>, failClosed: bool)
      ensures this.middlewares == middlewares && this.failClosed == failClosed
      ensures index == 0 && decision == Allow
    {
      this.middlewares, this.failClosed := middlewares, failClosed;
      index, decision := 0, Allow;
    }

    /** The step function, handed to every middleware as its `next`. */
    method Step()
      requires index <= |middlewares| && AllAwait(middlewares)
      modifies this
      ensures Reaches(middlewares, old(index), index, 1)
      ensures IsMaximum(middlewares, old(index), index, failClosed, old(decision), decision)
      decreases |middlewares| - index
    {
      if index >= |middlewares| { return; }
      var start := index;
      var middleware := middlewares[index];
      index := index + 1;
      for k := 0 to middleware.nexts
        invariant Reaches(middlewares, start + 1, index, k)
        invariant IsMaximum(middlewares, start + 1, index, failClosed, old(decision), decision)
      {
        ghost var before, merged := index, decision;
        Step();
        ReachesOneMore(middlewares, start + 1, before, index, k);
        MaximumJoins(middlewares, start + 1, before, index, failClosed, old(decision), merged, decision);
      }
      ReachesStep(middlewares, start, index);
      ghost var merged := decision;
      match middleware.result {
        case Silent =>
        case Returned(d) => decision := Merge(decision, d);
        case Threw => if failClosed { decision := Merge(decision, Deny); }
      }
      SettleMaximum(middlewares, start, index, failClosed, old(decision), merged, decision);
    }
  }

  /** The middleware at `a` settles last and merges its own contribution. */
  lemma SettleMaximum(mws: seq<Middleware>, a: nat, b: nat, failClosed: bool, d: Decision, inner: Decision, r: Decision)
    requires a < b <= |mws| && IsMaximum(mws, a + 1, b, failClosed, d, inner)
    requires r == Merge(inner, Contribution(mws[a].result, failClosed))
    ensures IsMaximum(mws, a, b, failClosed, d, r)
  {
  }

  /** `run`: one step from the start of the chain. While the list lasts `run` and every `next()` call invoke one middleware
      each; the run ends when the list does, or when all calls so far have been made. */
  method RunChain(middlewares: seq<Middleware>, failClosed: bool) returns (decision: Decision, invoked: nat)
    requires AllAwait(middlewares)
    ensures Reaches(middlewares, 0, invoked, 1)
    ensures decision == MergeRange(middlewares, 0, invoked, failClosed, Allow)
    ensures invoked == |middlewares| || invoked == 1 + Awaited(middlewares[..invoked])
    ensures forall n :: 0 <= n < invoked ==> n < 1 + Awaited(middlewares[..n])
    ensures decision == Deny <==>
              exists i :: 0 <= i < invoked && (middlewares[i].result == Returned(Deny) || (failClosed && middlewares[i].result == Threw))
    ensures decision == Ask <==> decision != Deny && exists i :: 0 <= i < invoked && middlewares[i].result == Returned(Ask)
  {
    var run := new ChainRun(middlewares, failClosed);
    run.Step();
    decision, invoked := run.decision, run.index;
    MergeRangeIsMaximum(middlewares, 0, invoked, failClosed, Allow);
    MaximumUnique(middlewares, 0, invoked, failClosed, Allow, decision, MergeRange(middlewares, 0, invoked, failClosed, Allow));
    MaximumMeans(middlewares, invoked, failClosed, decision);
    forall n | 0 <= n <= invoked ensures Balance(middlewares, 0, n) == Awaited(middlewares[..n]) - n {
      BalanceIsAwaited(middlewares, n);
    }
  }

  // ---- disposal ----

  /**
   * The lifecycle fields of `ToolCallWaterfall`. `waiting` says that a dispose call created the quiescence promise,
   * `released` that it has been resolved; `active` are the runs that were accepted and have not ended.
   */
  class ToolCallWaterfall {
    var middlewares: seq<Middleware>
    var inFlight: int
    var disposeRequested: bool
    var waiting: bool
    var released: bool
    ghost var active: set<nat>
    ghost var timerFired: bool

    /** What every step keeps: the count is right, and an unreleased promise exists only while runs are active. */
    ghost predicate Valid()
      reads this
    {
      && inFlight == |active|
      && (waiting ==> disposeRequested) && (released ==> waiting)
      && (disposeRequested && !timerFired ==> ((waiting && !released) <==> active != {}))
    }

    /** A dispose call returns once the promise it awaits is resolved (at once when there is none). */
    predicate DisposeMayReturn()
      reads this
    {
      disposeRequested && (waiting ==> released)
    }

    constructor (middlewares: seq<Middleware>)
      ensures Valid() && !disposeRequested && active == {} && this.middlewares == middlewares
    {
      this.middlewares, inFlight, disposeRequested, waiting, released := middlewares, 0, false, false, false;
      active, timerFired := {}, false;
    }

    method BeginRun(ghost id: nat) returns (accepted: bool, snapshot: seq<Middleware>)
      requires Valid() && id !in active
      modifies this
      ensures Valid() && accepted == !old(disposeRequested)
      ensures active == if accepted then old(active) + {id} else old(active)
      ensures accepted ==> snapshot == middlewares
      ensures disposeRequested == old(disposeRequested) && released == old(released) && waiting == old(waiting)
      ensures timerFired == old(timerFired) && middlewares == old(middlewares)
    {
      if disposeRequested { return false, []; }
      inFlight := inFlight + 1;
      active := active + {id};
      return true, middlewares;
    }

    method EndRun(ghost id: nat)
      requires Valid() && id in active
      modifies this
      ensures Valid() && active == old(active) - {id} && timerFired == old(timerFired)
      ensures disposeRequested == old(disposeRequested) && waiting == old(waiting) && middlewares == old(middlewares)
      ensures released == (old(released) || (old(waiting) && active == {}))
    {
      inFlight := inFlight - 1;
      active := active - {id};
      if disposeRequested && inFlight == 0 && waiting { released := true; }
    }

    /** The synchronous part of `dispose`; a second call only awaits what the first one awaits. */
    method RequestDispose()
      requires Valid()
      modifies this
      ensures Valid() && disposeRequested && active == old(active) && timerFired == old(timerFired)
      ensures waiting == (old(waiting) || (!old(disposeRequested) && active != {}))
      ensures released == old(released)
      ensures middlewares == if !old(disposeRequested) && active == {} then [] else old(middlewares)
    {
      if disposeRequested { return; }
      disposeRequested := true;
      if inFlight == 0 {
        middlewares := [];
        return;
      }
      waiting := true;
    }

    method FireTimer()
      requires Valid() && waiting && !released
      modifies this
      ensures Valid() && released && timerFired && middlewares == [] && active == old(active)
      ensures disposeRequested == old(disposeRequested) && waiting == old(waiting)
    {
      released, timerFired := true, true;
      middlewares := [];
    }

    /** The rest of `dispose` once its promise is resolved: quiescence, unless the timer cut the wait short. */
    method FinishDispose()
      requires Valid() && DisposeMayReturn()
      modifies this
      ensures Valid() && DisposeMayReturn() && timerFired == old(timerFired) && active == old(active)
      ensures middlewares == if waiting then [] else old(middlewares)
      ensures timerFired || (inFlight == 0 && active == {})
    {
      if waiting { middlewares := []; }
    }
  }
}
