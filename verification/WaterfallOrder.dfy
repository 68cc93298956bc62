// The next() chain when its calls overlap or are not awaited: what the outcome of a run can miss, and when it cannot.
module WaterfallOrder {
  import opened Text
  import opened Waterfall

  // ---- the machine ----

  /** An invoked middleware: who invoked it, whether that call is awaited, whether the first middleware waits for it
      through awaited calls only, how many calls of each kind it has made, and whether it is still running. */
  datatype Frame = Frame(parent: int, awaited: bool, attached: bool, calls: nat, forgot: nat, live: bool)

  /** The shared index is the number of frames; `outcome` is what `run` has read. */
  datatype Chain = Chain(frames: seq<Frame>, decision: Decision, outcome: Option<Decision>)

  /** An awaited call, one that is not, a middleware settling, and `run` reading the decision. */
  datatype Event = Call(i: nat) | Forget(i: nat) | Settle(i: nat) | Finish

  const ROOT := Frame(-1, true, true, 0, 0, true)

  function Begin(mws: seq<Middleware>): Chain {
    Chain(if mws == [] then [] else [ROOT], Allow, None)
  }

  /** A middleware settles when it has made its awaited calls and what they invoked has settled. The other calls can be
      made at any time, even afterwards. The outcome can be read once the first middleware has settled. */
  ghost predicate Enabled(mws: seq<Middleware>, s: Chain, e: Event) {
    && |s.frames| <= |mws|
    && match e
       case Call(i) => i < |s.frames| && s.frames[i].live && s.frames[i].calls < mws[i].nexts
       case Forget(i) => i < |s.frames| && s.frames[i].forgot < mws[i].forgotten
       case Settle(i) =>
         && i < |s.frames| && s.frames[i].live && s.frames[i].calls == mws[i].nexts
         && forall j :: 0 <= j < |s.frames| && s.frames[j].parent == i && s.frames[j].awaited ==> !s.frames[j].live
       case Finish => s.outcome.None? && (s.frames != [] ==> !s.frames[0].live)
  }

  /** A call invokes the next middleware, or returns at once at the end of the list. */
  function Invoke(mws: seq<Middleware>, s: Chain, i: nat, caller: Frame, child: Frame): Chain
    requires i < |s.frames| <= |mws|
  {
    s.(frames := s.frames[i := caller] + if |s.frames| < |mws| then [child] else [])
  }

  function Apply(mws: seq<Middleware>, failClosed: bool, s: Chain, e: Event): Chain
    requires Enabled(mws, s, e)
  {
    match e
    case Call(i) =>
      var f := s.frames[i];
      Invoke(mws, s, i, f.(calls := f.calls + 1), Frame(i, true, f.attached, 0, 0, true))
    case Forget(i) =>
      var f := s.frames[i];
      Invoke(mws, s, i, f.(forgot := f.forgot + 1), Frame(i, false, false, 0, 0, true))
    case Settle(i) =>
      s.(frames := s.frames[i := s.frames[i].(live := false)],
         decision := Merge(s.decision, Contribution(mws[i].result, failClosed)))
    case Finish => s.(outcome := Some(s.decision))
  }

  /** `s` is reached from the start of the chain by these events. */
  ghost predicate Reachable(mws: seq<Middleware>, failClosed: bool, s: Chain, events: seq<Event>)
    decreases |events|
  {
    if events == [] then s == Begin(mws)
    else
      var front, last := events[..|events| - 1], events[|events| - 1];
      exists before :: StepFrom(mws, failClosed, before, last, s) && Reachable(mws, failClosed, before, front)
  }

  ghost predicate StepFrom(mws: seq<Middleware>, failClosed: bool, before: Chain, e: Event, s: Chain) {
    Enabled(mws, before, e) && s == Apply(mws, failClosed, before, e)
  }

  lemma ReachNext(mws: seq<Middleware>, failClosed: bool, s: Chain, events: seq<Event>, e: Event)
    requires Reachable(mws, failClosed, s, events) && Enabled(mws, s, e)
    ensures Reachable(mws, failClosed, Apply(mws, failClosed, s, e), events + [e])
  {
    var more := events + [e];
    assert more[..|more| - 1] == events && more[|more| - 1] == e;
    assert StepFrom(mws, failClosed, s, e, Apply(mws, failClosed, s, e));
  }

  // ---- how many middlewares are invoked ----

  /** Calls outstanding once `k` middlewares have been invoked, counting the first one as called by `run`. */
  function Due(mws: seq<Middleware>, k: nat): int
    requires k <= |mws|
  {
    Balance(mws, 0, k) + 1
  }

  function EndFrom(mws: seq<Middleware>, k: nat): (n: nat)
    requires k <= |mws| && forall c :: 0 <= c < k ==> Balance(mws, 0, c) + 1 > 0
    ensures Reaches(mws, 0, n, 1)
    decreases |mws| - k
  {
    if k == |mws| || Due(mws, k) == 0 then k
    else
      assert k > 0 ==> Due(mws, k) >= Due(mws, k - 1) - 1;
      EndFrom(mws, k + 1)
  }

  /** How many middlewares a chain invokes in the end; the same in every order. */
  function Invoked(mws: seq<Middleware>): (n: nat)
    ensures Reaches(mws, 0, n, 1)
  {
    EndFrom(mws, 0)
  }

  /** The strictest of what the invoked middlewares decide. */
  function FullOutcome(mws: seq<Middleware>, failClosed: bool): (d: Decision)
    ensures IsMaximum(mws, 0, Invoked(mws), failClosed, Allow, d)
  {
    MergeRangeIsMaximum(mws, 0, Invoked(mws), failClosed, Allow);
    MergeRange(mws, 0, Invoked(mws), failClosed, Allow)
  }

  // ---- what every event keeps ----

  function Sum(q: seq<int>): int { if q == [] then 0 else Sum(q[..|q| - 1]) + q[|q| - 1] }

  lemma SumAppend(q: seq<int>, x: int)
    ensures Sum(q + [x]) == Sum(q) + x
  {
    assert (q + [x])[..|q|] == q;
  }

  lemma {:induction false} SumUpdate(q: seq<int>, i: nat, x: int)
    requires i < |q|
    ensures Sum(q[i := x]) == Sum(q) - q[i] + x
    decreases |q|
  {
    var n := |q| - 1;
    if i < n {
      SumUpdate(q[..n], i, x);
      assert q[i := x][..n] == q[..n][i := x];
    } else {
      assert q[i := x][..n] == q[..n];
    }
  }

  lemma {:induction false} SumPositive(q: seq<int>) returns (i: nat)
    requires Sum(q) > 0
    ensures i < |q| && q[i] > 0
    decreases |q|
  {
    if q[|q| - 1] > 0 { i := |q| - 1; } else { i := SumPositive(q[..|q| - 1]); }
  }

  lemma {:induction false} SumNotNegative(q: seq<int>)
    requires forall i :: 0 <= i < |q| ==> q[i] >= 0
    ensures Sum(q) >= 0 && forall i :: 0 <= i < |q| ==> Sum(q) >= q[i]
    decreases |q|
  {
    if q != [] { SumNotNegative(q[..|q| - 1]); }
  }

  /** Awaited calls the first middleware still waits for. */
  function HeldBy(m: Middleware, f: Frame): int { if f.attached then m.nexts - f.calls else 0 }

  /** Calls still to come that it does not wait for. */
  function LooseIn(m: Middleware, f: Frame): int {
    m.forgotten - f.forgot + if f.attached then 0 else m.nexts - f.calls
  }

  function Held(mws: seq<Middleware>, frames: seq<Frame>): (q: seq<int>)
    requires |frames| <= |mws|
    ensures |q| == |frames| && forall i :: 0 <= i < |frames| ==> q[i] == HeldBy(mws[i], frames[i])
  {
    seq(|frames|, i requires 0 <= i < |frames| => HeldBy(mws[i], frames[i]))
  }

  function Loose(mws: seq<Middleware>, frames: seq<Frame>): (q: seq<int>)
    requires |frames| <= |mws|
    ensures |q| == |frames| && forall i :: 0 <= i < |frames| ==> q[i] == LooseIn(mws[i], frames[i])
  {
    seq(|frames|, i requires 0 <= i < |frames| => LooseIn(mws[i], frames[i]))
  }

  function HeldCalls(mws: seq<Middleware>, frames: seq<Frame>): int
    requires |frames| <= |mws|
  {
    Sum(Held(mws, frames))
  }

  function LooseCalls(mws: seq<Middleware>, frames: seq<Frame>): int
    requires |frames| <= |mws|
  {
    Sum(Loose(mws, frames))
  }

  /** While the list lasts every call invokes a middleware, so the calls to come are those outstanding; at the end of the
      list calls are lost. */
  ghost predicate Accounted(mws: seq<Middleware>, frames: seq<Frame>) {
    && |frames| <= Invoked(mws) && (mws != [] ==> frames != [])
    && HeldCalls(mws, frames) + LooseCalls(mws, frames) <= Due(mws, |frames|)
    && (|frames| < |mws| ==> HeldCalls(mws, frames) + LooseCalls(mws, frames) == Due(mws, |frames|))
  }

  ghost predicate ConsistentAt(mws: seq<Middleware>, frames: seq<Frame>, i: nat)
    requires i < |frames| <= |mws|
  {
    var f := frames[i];
    && f.calls <= mws[i].nexts && f.forgot <= mws[i].forgotten && (!f.live ==> f.calls == mws[i].nexts)
    && (if i == 0 then f.parent == -1 && f.attached
        else
          && 0 <= f.parent < i && (f.awaited && f.live ==> frames[f.parent].live)
          && (f.attached <==> f.awaited && frames[f.parent].attached))
  }

  ghost predicate Consistent(mws: seq<Middleware>, frames: seq<Frame>)
    requires |frames| <= |mws|
  {
    forall i :: 0 <= i < |frames| ==> ConsistentAt(mws, frames, i)
  }

  /** `d` is the strictest of what the settled middlewares decided. */
  ghost predicate IsSettledMaximum(mws: seq<Middleware>, failClosed: bool, frames: seq<Frame>, d: Decision)
    requires |frames| <= |mws|
  {
    && (forall i :: 0 <= i < |frames| && !frames[i].live ==> Rank(d) >= Rank(Contribution(mws[i].result, failClosed)))
    && (d == Allow || exists i :: 0 <= i < |frames| && !frames[i].live && d == Contribution(mws[i].result, failClosed))
  }

  ghost predicate ChainInv(mws: seq<Middleware>, failClosed: bool, s: Chain) {
    && Accounted(mws, s.frames) && Consistent(mws, s.frames) && IsSettledMaximum(mws, failClosed, s.frames, s.decision)
    && (s.outcome.Some? && s.frames != [] ==> !s.frames[0].live)
  }

  lemma BalanceNext(mws: seq<Middleware>, k: nat)
    requires k < |mws|
    ensures Due(mws, k + 1) == Due(mws, k) + mws[k].Calls() - 1
  {
  }

  /** The effect of a call on the calls to come: `held` says whether an awaited call of an attached middleware is made. */
  lemma CallCounts(mws: seq<Middleware>, s: Chain, i: nat, caller: Frame, child: Frame, held: bool)
    requires i < |s.frames| <= |mws| && caller.attached == s.frames[i].attached
    requires HeldBy(mws[i], caller) == HeldBy(mws[i], s.frames[i]) - (if held then 1 else 0)
    requires LooseIn(mws[i], caller) == LooseIn(mws[i], s.frames[i]) - (if held then 0 else 1)
    requires child.calls == child.forgot == 0
    ensures var next := Invoke(mws, s, i, caller, child).frames;
            var n := |s.frames|;
            && HeldCalls(mws, next) == HeldCalls(mws, s.frames) - (if held then 1 else 0)
                                       + (if n < |mws| && child.attached then mws[n].nexts else 0)
            && LooseCalls(mws, next) == LooseCalls(mws, s.frames) - (if held then 0 else 1)
                                        + (if n < |mws| then mws[n].forgotten + (if child.attached then 0 else mws[n].nexts) else 0)
  {
    var called, next, n := s.frames[i := caller], Invoke(mws, s, i, caller, child).frames, |s.frames|;
    SumUpdate(Held(mws, s.frames), i, HeldBy(mws[i], caller));
    SumUpdate(Loose(mws, s.frames), i, LooseIn(mws[i], caller));
    assert Held(mws, called) == Held(mws, s.frames)[i := HeldBy(mws[i], caller)];
    assert Loose(mws, called) == Loose(mws, s.frames)[i := LooseIn(mws[i], caller)];
    if n < |mws| {
      SumAppend(Held(mws, called), HeldBy(mws[n], child));
      SumAppend(Loose(mws, called), LooseIn(mws[n], child));
      assert Held(mws, next) == Held(mws, called) + [HeldBy(mws[n], child)];
      assert Loose(mws, next) == Loose(mws, called) + [LooseIn(mws[n], child)];
    } else {
      assert next == called;
    }
  }

  lemma CountsNotNegative(mws: seq<Middleware>, frames: seq<Frame>)
    requires |frames| <= |mws| && Consistent(mws, frames)
    ensures HeldCalls(mws, frames) >= 0 && LooseCalls(mws, frames) >= 0
    ensures forall i :: 0 <= i < |frames| ==>
              HeldCalls(mws, frames) >= HeldBy(mws[i], frames[i]) && LooseCalls(mws, frames) >= LooseIn(mws[i], frames[i])
  {
    forall i | 0 <= i < |frames| ensures HeldBy(mws[i], frames[i]) >= 0 && LooseIn(mws[i], frames[i]) >= 0 {
      assert ConsistentAt(mws, frames, i);
    }
    SumNotNegative(Held(mws, frames));
    SumNotNegative(Loose(mws, frames));
  }

  /** The list of invoked middlewares grows only while calls are outstanding. */
  lemma MoreInvoked(mws: seq<Middleware>, k: nat)
    requires 0 < k <= Invoked(mws) && k < |mws| && Due(mws, k) > 0
    ensures k < Invoked(mws)
  {
  }

  lemma InvokeKeepsAccounts(mws: seq<Middleware>, s: Chain, i: nat, caller: Frame, child: Frame, held: bool)
    requires i < |s.frames| <= |mws| && Accounted(mws, s.frames) && Consistent(mws, s.frames) && caller.attached == s.frames[i].attached
    requires HeldBy(mws[i], caller) == HeldBy(mws[i], s.frames[i]) - (if held then 1 else 0)
    requires LooseIn(mws[i], caller) == LooseIn(mws[i], s.frames[i]) - (if held then 0 else 1)
    requires if held then HeldBy(mws[i], s.frames[i]) > 0 else LooseIn(mws[i], s.frames[i]) > 0
    requires child.calls == child.forgot == 0
    ensures Accounted(mws, Invoke(mws, s, i, caller, child).frames)
  {
    var n := |s.frames|;
    CallCounts(mws, s, i, caller, child, held);
    CountsNotNegative(mws, s.frames);
    if n < |mws| {
      MoreInvoked(mws, n);
      BalanceNext(mws, n);
    }
  }

  lemma InvokeKeepsFrames(mws: seq<Middleware>, s: Chain, i: nat, caller: Frame, child: Frame)
    requires i < |s.frames| <= |mws| && Consistent(mws, s.frames)
    requires caller == s.frames[i].(calls := caller.calls, forgot := caller.forgot)
    requires caller.calls <= mws[i].nexts && caller.forgot <= mws[i].forgotten && (!caller.live ==> caller.calls == mws[i].nexts)
    requires child == Frame(i, child.awaited, child.awaited && caller.attached, 0, 0, true) && (child.awaited ==> caller.live)
    ensures Consistent(mws, Invoke(mws, s, i, caller, child).frames)
  {
    var next := Invoke(mws, s, i, caller, child).frames;
    forall j | 0 <= j < |next| ensures ConsistentAt(mws, next, j) {
      if j < |s.frames| { assert ConsistentAt(mws, s.frames, j); }
    }
  }

  lemma SettleKeepsFrames(mws: seq<Middleware>, s: Chain, i: nat)
    requires Enabled(mws, s, Settle(i)) && Accounted(mws, s.frames) && Consistent(mws, s.frames)
    ensures var next := s.frames[i := s.frames[i].(live := false)];
            Accounted(mws, next) && Consistent(mws, next)
  {
    var next := s.frames[i := s.frames[i].(live := false)];
    assert Held(mws, next) == Held(mws, s.frames) && Loose(mws, next) == Loose(mws, s.frames);
    forall j | 0 <= j < |next| ensures ConsistentAt(mws, next, j) {
      assert ConsistentAt(mws, s.frames, j);
    }
  }

  lemma InvokeKeepsMaximum(mws: seq<Middleware>, failClosed: bool, s: Chain, i: nat, caller: Frame, child: Frame)
    requires i < |s.frames| <= |mws| && IsSettledMaximum(mws, failClosed, s.frames, s.decision)
    requires caller.live == s.frames[i].live && child.live
    ensures IsSettledMaximum(mws, failClosed, Invoke(mws, s, i, caller, child).frames, s.decision)
  {
    var next := Invoke(mws, s, i, caller, child).frames;
    if s.decision != Allow {
      var k :| 0 <= k < |s.frames| && !s.frames[k].live && s.decision == Contribution(mws[k].result, failClosed);
      assert !next[k].live;
    }
  }

  lemma SettleKeepsMaximum(mws: seq<Middleware>, failClosed: bool, s: Chain, i: nat)
    requires i < |s.frames| <= |mws| && IsSettledMaximum(mws, failClosed, s.frames, s.decision)
    ensures IsSettledMaximum(mws, failClosed, s.frames[i := s.frames[i].(live := false)],
                             Merge(s.decision, Contribution(mws[i].result, failClosed)))
  {
    var next, d := s.frames[i := s.frames[i].(live := false)], Merge(s.decision, Contribution(mws[i].result, failClosed));
    assert !next[i].live;
    if d == s.decision && d != Allow {
      var k :| 0 <= k < |s.frames| && !s.frames[k].live && s.decision == Contribution(mws[k].result, failClosed);
      assert !next[k].live;
    }
  }

  lemma InvokeKeepsInv(mws: seq<Middleware>, failClosed: bool, s: Chain, i: nat, caller: Frame, child: Frame, held: bool, next: Chain)
    requires ChainInv(mws, failClosed, s) && i < |s.frames|
    requires caller == s.frames[i].(calls := caller.calls, forgot := caller.forgot)
    requires caller.calls <= mws[i].nexts && caller.forgot <= mws[i].forgotten && (!caller.live ==> caller.calls == mws[i].nexts)
    requires child == Frame(i, child.awaited, child.awaited && caller.attached, 0, 0, true) && (child.awaited ==> caller.live)
    requires HeldBy(mws[i], caller) == HeldBy(mws[i], s.frames[i]) - (if held then 1 else 0)
    requires LooseIn(mws[i], caller) == LooseIn(mws[i], s.frames[i]) - (if held then 0 else 1)
    requires if held then HeldBy(mws[i], s.frames[i]) > 0 else LooseIn(mws[i], s.frames[i]) > 0
    requires next == Invoke(mws, s, i, caller, child)
    ensures ChainInv(mws, failClosed, next)
  {
    InvokeKeepsAccounts(mws, s, i, caller, child, held);
    InvokeKeepsFrames(mws, s, i, caller, child);
    InvokeKeepsMaximum(mws, failClosed, s, i, caller, child);
  }

  lemma CallKeepsInv(mws: seq<Middleware>, failClosed: bool, s: Chain, i: nat, next: Chain)
    requires ChainInv(mws, failClosed, s) && Enabled(mws, s, Call(i)) && next == Apply(mws, failClosed, s, Call(i))
    ensures ChainInv(mws, failClosed, next)
  {
    var f := s.frames[i];
    assert ConsistentAt(mws, s.frames, i);
    InvokeKeepsInv(mws, failClosed, s, i, f.(calls := f.calls + 1), Frame(i, true, f.attached, 0, 0, true), f.attached, next);
  }

  lemma ForgetKeepsInv(mws: seq<Middleware>, failClosed: bool, s: Chain, i: nat, next: Chain)
    requires ChainInv(mws, failClosed, s) && Enabled(mws, s, Forget(i)) && next == Apply(mws, failClosed, s, Forget(i))
    ensures ChainInv(mws, failClosed, next)
  {
    var f := s.frames[i];
    assert ConsistentAt(mws, s.frames, i);
    InvokeKeepsInv(mws, failClosed, s, i, f.(forgot := f.forgot + 1), Frame(i, false, false, 0, 0, true), false, next);
  }

  lemma EventKeepsInv(mws: seq<Middleware>, failClosed: bool, s: Chain, e: Event)
    requires ChainInv(mws, failClosed, s) && Enabled(mws, s, e)
    ensures ChainInv(mws, failClosed, Apply(mws, failClosed, s, e))
  {
    match e
    case Call(i) => CallKeepsInv(mws, failClosed, s, i, Apply(mws, failClosed, s, e));
    case Forget(i) => ForgetKeepsInv(mws, failClosed, s, i, Apply(mws, failClosed, s, e));
    case Settle(i) =>
      SettleKeepsFrames(mws, s, i);
      SettleKeepsMaximum(mws, failClosed, s, i);
    case Finish =>
  }

  lemma BeginInv(mws: seq<Middleware>, failClosed: bool)
    ensures ChainInv(mws, failClosed, Begin(mws))
  {
    if mws != [] {
      var frames := [ROOT];
      SumAppend([], HeldBy(mws[0], ROOT));
      SumAppend([], LooseIn(mws[0], ROOT));
      assert Held(mws, frames) == [] + [HeldBy(mws[0], ROOT)] && Loose(mws, frames) == [] + [LooseIn(mws[0], ROOT)];
      assert Balance(mws, 0, 0) == 0;
      assert ConsistentAt(mws, frames, 0);
    } else {
      assert Held(mws, []) == [] && Loose(mws, []) == [];
    }
  }

  lemma {:induction false} ReachableInv(mws: seq<Middleware>, failClosed: bool, s: Chain, events: seq<Event>)
    requires Reachable(mws, failClosed, s, events)
    ensures ChainInv(mws, failClosed, s)
    decreases |events|
  {
    if events == [] {
      BeginInv(mws, failClosed);
    } else {
      var front, last := events[..|events| - 1], events[|events| - 1];
      var before :| StepFrom(mws, failClosed, before, last, s) && Reachable(mws, failClosed, before, front);
      ReachableInv(mws, failClosed, before, front);
      EventKeepsInv(mws, failClosed, before, last);
    }
  }

  // ---- chains that have come to rest ----

  /** Nothing is running and every call has been made. */
  ghost predicate AtRest(mws: seq<Middleware>, s: Chain) {
    && |s.frames| <= |mws|
    && forall i :: 0 <= i < |s.frames| ==> !s.frames[i].live && s.frames[i].forgot == mws[i].forgotten
  }

  lemma {:induction false} SumZero(q: seq<int>)
    requires forall i :: 0 <= i < |q| ==> q[i] == 0
    ensures Sum(q) == 0
    decreases |q|
  {
    if q != [] { SumZero(q[..|q| - 1]); }
  }

  /** In whatever order the events come, a chain at rest has invoked the same middlewares and decided the same. */
  lemma InterleavingIrrelevant(mws: seq<Middleware>, failClosed: bool, s: Chain, events: seq<Event>)
    requires Reachable(mws, failClosed, s, events) && AtRest(mws, s)
    ensures |s.frames| == Invoked(mws) && s.decision == FullOutcome(mws, failClosed)
  {
    ReachableInv(mws, failClosed, s, events);
    forall i | 0 <= i < |s.frames| ensures HeldBy(mws[i], s.frames[i]) == 0 && LooseIn(mws[i], s.frames[i]) == 0 {
      assert ConsistentAt(mws, s.frames, i);
    }
    SumZero(Held(mws, s.frames));
    SumZero(Loose(mws, s.frames));
    MaximumUnique(mws, 0, Invoked(mws), failClosed, Allow, s.decision, FullOutcome(mws, failClosed));
  }

  lemma {:induction false} LatestLive(frames: seq<Frame>, n: nat) returns (i: nat)
    requires n <= |frames| && exists j :: 0 <= j < n && frames[j].live
    ensures i < n && frames[i].live && forall j :: i < j < n ==> !frames[j].live
  {
    if frames[n - 1].live { i := n - 1; } else { i := LatestLive(frames, n - 1); }
  }

  /** A chain that is not at rest can always go on. */
  lemma NeverStuck(mws: seq<Middleware>, failClosed: bool, s: Chain, events: seq<Event>) returns (e: Event)
    requires Reachable(mws, failClosed, s, events) && !AtRest(mws, s)
    ensures Enabled(mws, s, e) && e != Finish
  {
    ReachableInv(mws, failClosed, s, events);
    if exists j :: 0 <= j < |s.frames| && s.frames[j].live {
      var i := LatestLive(s.frames, |s.frames|);
      assert ConsistentAt(mws, s.frames, i);
      forall j | 0 <= j < |s.frames| && s.frames[j].parent == i ensures !s.frames[j].live {
        assert ConsistentAt(mws, s.frames, j);
      }
      e := if s.frames[i].calls < mws[i].nexts then Call(i) else Settle(i);
    } else {
      var i :| 0 <= i < |s.frames| && s.frames[i].forgot != mws[i].forgotten;
      assert ConsistentAt(mws, s.frames, i);
      e := Forget(i);
    }
  }

  // ---- what the outcome sees ----

  /** Once the first middleware has settled, so has everything it waits for through awaited calls. */
  lemma {:induction false} AttachedSettled(mws: seq<Middleware>, frames: seq<Frame>, i: nat)
    requires i < |frames| <= |mws| && Consistent(mws, frames) && frames[i].attached && !frames[0].live
    ensures !frames[i].live
    decreases i
  {
    assert ConsistentAt(mws, frames, i);
    if i > 0 {
      AttachedSettled(mws, frames, frames[i].parent);
    }
  }

  lemma SettledMeans(mws: seq<Middleware>, failClosed: bool, frames: seq<Frame>, d: Decision)
    requires |frames| <= |mws| && IsSettledMaximum(mws, failClosed, frames, d)
    ensures d == Deny <==>
              exists i :: 0 <= i < |frames| && !frames[i].live && (mws[i].result == Returned(Deny) || (failClosed && mws[i].result == Threw))
    ensures d == Ask <==> d != Deny && exists i :: 0 <= i < |frames| && !frames[i].live && mws[i].result == Returned(Ask)
  {
    if i :| 0 <= i < |frames| && !frames[i].live && (mws[i].result == Returned(Deny) || (failClosed && mws[i].result == Threw)) {
      assert Rank(d) >= Rank(Contribution(mws[i].result, failClosed));
    }
    if i :| 0 <= i < |frames| && !frames[i].live && mws[i].result == Returned(Ask) {
      assert Rank(d) >= Rank(Contribution(mws[i].result, failClosed));
    }
  }

  /** The outcome is the strictest of what had been decided when it was read, and everything awaited had. */
  lemma OutcomeIsSettledMaximum(mws: seq<Middleware>, failClosed: bool, s: Chain, events: seq<Event>)
    requires Reachable(mws, failClosed, s, events) && Enabled(mws, s, Finish)
    ensures var read := Apply(mws, failClosed, s, Finish);
            read.outcome == Some(s.decision) && IsSettledMaximum(mws, failClosed, s.frames, s.decision)
    ensures forall i :: 0 <= i < |s.frames| && s.frames[i].attached ==> !s.frames[i].live
    ensures s.decision == Deny <==>
              exists i :: 0 <= i < |s.frames| && !s.frames[i].live && (mws[i].result == Returned(Deny) || (failClosed && mws[i].result == Threw))
    ensures s.decision == Ask <==>
              s.decision != Deny && exists i :: 0 <= i < |s.frames| && !s.frames[i].live && mws[i].result == Returned(Ask)
  {
    ReachableInv(mws, failClosed, s, events);
    SettledMeans(mws, failClosed, s.frames, s.decision);
    forall i | 0 <= i < |s.frames| && s.frames[i].attached ensures !s.frames[i].live {
      AttachedSettled(mws, s.frames, i);
    }
  }

  /** A first middleware that calls `next()` without awaiting it, and allows; the second would deny. */
  function Careless(): seq<Middleware> { [Middleware(0, 1, Returned(Allow)), Middleware(0, 0, Returned(Deny))] }

  /** Its run can end with `allow` while the second middleware is still running; the denial is lost. */
  lemma LateDenialLost()
    ensures var s := Chain([Frame(-1, true, true, 0, 1, false), Frame(0, false, false, 0, 0, true)], Allow, Some(Allow));
            Reachable(Careless(), true, s, [Forget(0), Settle(0), Finish])
    ensures FullOutcome(Careless(), true) == Deny
  {
    var mws := Careless();
    var s1 := Chain([Frame(-1, true, true, 0, 1, true), Frame(0, false, false, 0, 0, true)], Allow, None);
    var s2 := Chain([Frame(-1, true, true, 0, 1, false), Frame(0, false, false, 0, 0, true)], Allow, None);
    ReachTo(mws, true, Begin(mws), [], Forget(0), s1, [Forget(0)]);
    ReachTo(mws, true, s1, [Forget(0)], Settle(0), s2, [Forget(0), Settle(0)]);
    ReachTo(mws, true, s2, [Forget(0), Settle(0)], Finish, s2.(outcome := Some(Allow)), [Forget(0), Settle(0), Finish]);
    CarelessInvokesBoth();
  }

  lemma ReachTo(mws: seq<Middleware>, failClosed: bool, s: Chain, events: seq<Event>, e: Event, next: Chain, more: seq<Event>)
    requires Reachable(mws, failClosed, s, events) && Enabled(mws, s, e)
    requires next == Apply(mws, failClosed, s, e) && more == events + [e]
    ensures Reachable(mws, failClosed, next, more)
  {
    ReachNext(mws, failClosed, s, events, e);
  }

  lemma CarelessInvokesBoth()
    ensures Invoked(Careless()) == 2 && FullOutcome(Careless(), true) == Deny
  {
    var mws := Careless();
    assert Balance(mws, 0, 0) == 0 && Balance(mws, 0, 1) == 0;
    assert Reaches(mws, 0, 2, 1);
    ReachesUnique(mws, 0, 2, Invoked(mws), 1);
    assert Contribution(mws[1].result, true) == Deny;
  }

  // ---- building interleavings ----

  ghost predicate AllLive(frames: seq<Frame>) { forall i :: 0 <= i < |frames| ==> frames[i].live }

  /** What a call by frame `i` does to the frames. */
  ghost predicate Grew(frames: seq<Frame>, next: seq<Frame>, i: nat, attached: bool, grows: bool) {
    && |next| == |frames| + (if grows then 1 else 0)
    && (forall j :: 0 <= j < |frames| ==> next[j].attached == frames[j].attached && next[j].live == frames[j].live)
    && (forall j :: 0 <= j < |frames| && j != i ==> next[j] == frames[j])
    && (grows ==> var child := next[|frames|]; child.attached == attached && child.live && child.calls == child.forgot == 0)
  }

  /** What a call does to the calls to come, in a list with `n` invoked middlewares. */
  ghost predicate Counted(mws: seq<Middleware>, frames: seq<Frame>, next: seq<Frame>, held: bool, attached: bool)
    requires |frames| <= |mws| && |next| <= |mws|
  {
    var n := |frames|;
    && HeldCalls(mws, next) == HeldCalls(mws, frames) - (if held then 1 else 0) + (if n < |mws| && attached then mws[n].nexts else 0)
    && LooseCalls(mws, next) == LooseCalls(mws, frames) - (if held then 0 else 1)
                                + (if n < |mws| then mws[n].forgotten + (if attached then 0 else mws[n].nexts) else 0)
  }

  lemma CallEffect(mws: seq<Middleware>, failClosed: bool, s: Chain, i: nat)
    requires Enabled(mws, s, Call(i)) && Consistent(mws, s.frames)
    ensures var next, attached := Apply(mws, failClosed, s, Call(i)), s.frames[i].attached;
            && Grew(s.frames, next.frames, i, attached, |s.frames| < |mws|)
            && Counted(mws, s.frames, next.frames, attached, attached)
            && next.outcome == s.outcome && next.decision == s.decision
    ensures s.frames[i].attached ==> HeldCalls(mws, s.frames) > 0
    ensures !s.frames[i].attached ==> LooseCalls(mws, s.frames) > 0
  {
    var f := s.frames[i];
    assert ConsistentAt(mws, s.frames, i);
    CountsNotNegative(mws, s.frames);
    CallCounts(mws, s, i, f.(calls := f.calls + 1), Frame(i, true, f.attached, 0, 0, true), f.attached);
  }

  lemma ForgetEffect(mws: seq<Middleware>, failClosed: bool, s: Chain, i: nat)
    requires Enabled(mws, s, Forget(i)) && Consistent(mws, s.frames)
    ensures var next := Apply(mws, failClosed, s, Forget(i));
            && Grew(s.frames, next.frames, i, false, |s.frames| < |mws|)
            && Counted(mws, s.frames, next.frames, false, false)
            && next.outcome == s.outcome && next.decision == s.decision
    ensures LooseCalls(mws, s.frames) > 0
  {
    var f := s.frames[i];
    assert ConsistentAt(mws, s.frames, i);
    CountsNotNegative(mws, s.frames);
    CallCounts(mws, s, i, f.(forgot := f.forgot + 1), Frame(i, false, false, 0, 0, true), false);
  }

  /** Some call of the wanted kind is still to come. */
  lemma SomeCall(mws: seq<Middleware>, s: Chain, held: bool) returns (e: Event)
    requires |s.frames| <= |mws| && Consistent(mws, s.frames) && AllLive(s.frames)
    requires if held then HeldCalls(mws, s.frames) > 0 else LooseCalls(mws, s.frames) > 0
    ensures Enabled(mws, s, e) && (e.Call? || (e.Forget? && !held))
    ensures e.Call? ==> s.frames[e.i].attached == held
  {
    var i := SumPositive(if held then Held(mws, s.frames) else Loose(mws, s.frames));
    assert ConsistentAt(mws, s.frames, i);
    e := if held || s.frames[i].forgot == mws[i].forgotten then Call(i) else Forget(i);
  }

  /** While the list lasts, a call of the wanted kind that is still to come invokes the next middleware. */
  lemma NextInvoked(mws: seq<Middleware>, failClosed: bool, s: Chain, events: seq<Event>, held: bool) returns (t: Chain, more: seq<Event>)
    requires Reachable(mws, failClosed, s, events) && s.outcome.None? && AllLive(s.frames) && 0 < |s.frames| < |mws|
    requires if held then HeldCalls(mws, s.frames) > 0 else LooseCalls(mws, s.frames) > 0
    ensures Reachable(mws, failClosed, t, more) && t.outcome.None? && AllLive(t.frames) && |t.frames| == |s.frames| + 1
    ensures forall i :: 0 <= i < |s.frames| ==> t.frames[i].attached == s.frames[i].attached
    ensures var child := t.frames[|s.frames|]; child.attached == held && child.calls == child.forgot == 0
    ensures HeldCalls(mws, t.frames) == HeldCalls(mws, s.frames) + if held then mws[|s.frames|].nexts - 1 else 0
    ensures LooseCalls(mws, t.frames) == LooseCalls(mws, s.frames)
                                         + if held then mws[|s.frames|].forgotten else mws[|s.frames|].Calls() - 1
  {
    ReachableInv(mws, failClosed, s, events);
    var e := SomeCall(mws, s, held);
    if e.Call? { CallEffect(mws, failClosed, s, e.i); } else { ForgetEffect(mws, failClosed, s, e.i); }
    more, t := events + [e], Apply(mws, failClosed, s, e);
    ReachNext(mws, failClosed, s, events, e);
  }

  function LiveFlags(frames: seq<Frame>): (q: seq<int>)
    ensures |q| == |frames| && forall i :: 0 <= i < |frames| ==> q[i] == if frames[i].live then 1 else 0
  {
    seq(|frames|, i requires 0 <= i < |frames| => if frames[i].live then 1 else 0)
  }

  lemma {:induction false} LatestAttached(frames: seq<Frame>, n: nat) returns (i: nat)
    requires 0 < n <= |frames| && frames[0].attached && frames[0].live
    ensures i < n && frames[i].attached && frames[i].live && forall j :: i < j < n ==> !(frames[j].attached && frames[j].live)
  {
    if frames[n - 1].attached && frames[n - 1].live { i := n - 1; } else { i := LatestAttached(frames, n - 1); }
  }

  /** The frames in `t` are those in `s`, where only attached ones have moved on, and further attached ones. */
  ghost predicate OnlyAttachedMoved(s: seq<Frame>, t: seq<Frame>) {
    && |s| <= |t|
    && (forall i :: 0 <= i < |s| ==> t[i].attached == s[i].attached && (!s[i].attached ==> t[i] == s[i]))
    && forall i :: |s| <= i < |t| ==> t[i].attached
  }

  /** One more event of the attached part of the chain, on its latest running middleware. */
  lemma AttachedEvent(mws: seq<Middleware>, failClosed: bool, s: Chain, events: seq<Event>) returns (e: Event)
    requires Reachable(mws, failClosed, s, events) && s.outcome.None? && s.frames != [] && s.frames[0].live
    ensures Enabled(mws, s, e) && OnlyAttachedMoved(s.frames, Apply(mws, failClosed, s, e).frames)
    ensures var t := Apply(mws, failClosed, s, e);
            && t.outcome.None? && HeldCalls(mws, s.frames) >= 0 && Sum(LiveFlags(s.frames)) >= 0
            && (|t.frames| > |s.frames| || HeldCalls(mws, t.frames) < HeldCalls(mws, s.frames)
                || (HeldCalls(mws, t.frames) == HeldCalls(mws, s.frames) && Sum(LiveFlags(t.frames)) < Sum(LiveFlags(s.frames))))
  {
    ReachableInv(mws, failClosed, s, events);
    CountsNotNegative(mws, s.frames);
    SumNotNegative(LiveFlags(s.frames));
    assert ConsistentAt(mws, s.frames, 0);
    var i := LatestAttached(s.frames, |s.frames|);
    var f := s.frames[i];
    assert ConsistentAt(mws, s.frames, i);
    forall j | 0 <= j < |s.frames| && s.frames[j].parent == i && s.frames[j].awaited ensures !s.frames[j].live {
      assert ConsistentAt(mws, s.frames, j);
    }
    if f.calls < mws[i].nexts {
      e := Call(i);
      CallEffect(mws, failClosed, s, i);
    } else {
      e := Settle(i);
      SettleEffect(mws, s.frames, i);
    }
  }

  lemma SettleEffect(mws: seq<Middleware>, frames: seq<Frame>, i: nat)
    requires i < |frames| <= |mws| && frames[i].live
    ensures var next := frames[i := frames[i].(live := false)];
            && HeldCalls(mws, next) == HeldCalls(mws, frames) && LooseCalls(mws, next) == LooseCalls(mws, frames)
            && Sum(LiveFlags(next)) == Sum(LiveFlags(frames)) - 1
  {
    var next := frames[i := frames[i].(live := false)];
    assert Held(mws, next) == Held(mws, frames) && Loose(mws, next) == Loose(mws, frames);
    assert LiveFlags(next) == LiveFlags(frames)[i := 0];
    SumUpdate(LiveFlags(frames), i, 0);
  }

  /** Whatever has happened, the run can end without any event outside its attached part. */
  lemma {:induction false} RunOut(mws: seq<Middleware>, failClosed: bool, s: Chain, events: seq<Event>) returns (t: Chain, more: seq<Event>)
    requires Reachable(mws, failClosed, s, events) && s.outcome.None?
    ensures Reachable(mws, failClosed, t, more) && t.outcome == Some(t.decision) && OnlyAttachedMoved(s.frames, t.frames)
    decreases |mws| - |s.frames|, if |s.frames| <= |mws| then HeldCalls(mws, s.frames) else 0, Sum(LiveFlags(s.frames))
  {
    ReachableInv(mws, failClosed, s, events);
    if s.frames == [] || !s.frames[0].live {
      t, more := Apply(mws, failClosed, s, Finish), events + [Finish];
      ReachNext(mws, failClosed, s, events, Finish);
    } else {
      var e := AttachedEvent(mws, failClosed, s, events);
      ReachNext(mws, failClosed, s, events, e);
      var next := Apply(mws, failClosed, s, e);
      ReachableInv(mws, failClosed, next, events + [e]);
      t, more := RunOut(mws, failClosed, next, events + [e]);
    }
  }

  // ---- exactly when the outcome is the full maximum ----

  predicate Decides(m: Middleware, failClosed: bool, d: Decision) { Contribution(m.result, failClosed) == d }

  /**
   * One pass over the list: the most un-awaited calls that can be outstanding once `k` middlewares have been invoked and
   * the first one waits for none that decides `d`; negative when it must wait for one.
   */
  function LooseAt(mws: seq<Middleware>, failClosed: bool, d: Decision, k: nat): int
    requires 1 <= k <= |mws|
    decreases k
  {
    var m := mws[k - 1];
    if k == 1 then if Decides(m, failClosed, d) then -1 else m.forgotten
    else
      var before := LooseAt(mws, failClosed, d, k - 1);
      if before < 0 || (before == 0 && Decides(m, failClosed, d)) then -1
      else if Decides(m, failClosed, d) || before == Due(mws, k - 1) then before + m.Calls() - 1
      else if before == 0 || m.nexts == 0 then before + m.forgotten
      else before + m.Calls() - 1
  }

  /** Some order lets the run end before any middleware with the strictest decision has settled. */
  predicate CanMiss(mws: seq<Middleware>, failClosed: bool) {
    var d := FullOutcome(mws, failClosed);
    d != Allow && Invoked(mws) > 0 && LooseAt(mws, failClosed, d, Invoked(mws)) >= 0
  }

  ghost predicate AlwaysFull(mws: seq<Middleware>, failClosed: bool) {
    forall s, events :: Reachable(mws, failClosed, s, events) && s.outcome.Some? ==> s.outcome.value == FullOutcome(mws, failClosed)
  }

  ghost predicate NoneAttached(mws: seq<Middleware>, failClosed: bool, d: Decision, frames: seq<Frame>)
    requires |frames| <= |mws|
  {
    forall i :: 0 <= i < |frames| && frames[i].attached ==> !Decides(mws[i], failClosed, d)
  }

  lemma {:induction false} LooseAtMost(mws: seq<Middleware>, failClosed: bool, d: Decision, k: nat)
    requires 1 <= k <= Invoked(mws)
    ensures LooseAt(mws, failClosed, d, k) <= Due(mws, k)
    decreases k
  {
    BalanceNext(mws, k - 1);
    if k == 1 {
      assert Due(mws, 0) == 1;
    } else {
      LooseAtMost(mws, failClosed, d, k - 1);
      assert Balance(mws, 0, k - 1) + 1 > 0;
    }
  }

  /** Which kind of call invokes the next middleware in the schedule that `LooseAt` counts. */
  lemma LooseNext(mws: seq<Middleware>, failClosed: bool, d: Decision, k: nat) returns (held: bool)
    requires 1 <= k < Invoked(mws) && LooseAt(mws, failClosed, d, k + 1) >= 0
    ensures var loose := LooseAt(mws, failClosed, d, k);
            && 0 <= loose <= Due(mws, k)
            && (if held then !Decides(mws[k], failClosed, d) && loose < Due(mws, k) else loose > 0)
            && LooseAt(mws, failClosed, d, k + 1) == loose + (if held then mws[k].forgotten else mws[k].Calls() - 1)
            && Due(mws, k + 1) == Due(mws, k) + mws[k].Calls() - 1
  {
    LooseAtMost(mws, failClosed, d, k);
    BalanceNext(mws, k);
    assert Balance(mws, 0, k) + 1 > 0;
    var loose := LooseAt(mws, failClosed, d, k);
    held := !Decides(mws[k], failClosed, d) && loose != Due(mws, k) && (loose == 0 || mws[k].nexts == 0);
  }

  /** The schedule that `LooseAt` counts. */
  lemma {:induction false} Schedule(mws: seq<Middleware>, failClosed: bool, d: Decision, k: nat) returns (s: Chain, events: seq<Event>)
    requires 1 <= k <= Invoked(mws) && LooseAt(mws, failClosed, d, k) >= 0
    ensures Reachable(mws, failClosed, s, events) && s.outcome.None? && AllLive(s.frames) && |s.frames| == k
    ensures NoneAttached(mws, failClosed, d, s.frames)
    ensures LooseCalls(mws, s.frames) == LooseAt(mws, failClosed, d, k)
    ensures HeldCalls(mws, s.frames) == Due(mws, k) - LooseAt(mws, failClosed, d, k)
    decreases k
  {
    if k == 1 {
      s, events := Begin(mws), [];
      BeginCounts(mws);
    } else {
      var held := LooseNext(mws, failClosed, d, k - 1);
      var s0, events0 := Schedule(mws, failClosed, d, k - 1);
      s, events := NextInvoked(mws, failClosed, s0, events0, held);
      NoneAttachedNext(mws, failClosed, d, s0.frames, s.frames);
    }
  }

  lemma NoneAttachedNext(mws: seq<Middleware>, failClosed: bool, d: Decision, frames: seq<Frame>, next: seq<Frame>)
    requires |frames| + 1 == |next| <= |mws| && NoneAttached(mws, failClosed, d, frames)
    requires forall i :: 0 <= i < |frames| ==> next[i].attached == frames[i].attached
    requires next[|frames|].attached ==> !Decides(mws[|frames|], failClosed, d)
    ensures NoneAttached(mws, failClosed, d, next)
  {
  }

  lemma BeginCounts(mws: seq<Middleware>)
    requires mws != []
    ensures HeldCalls(mws, [ROOT]) == mws[0].nexts && LooseCalls(mws, [ROOT]) == mws[0].forgotten
    ensures Due(mws, 1) == mws[0].Calls()
  {
    SumAppend([], HeldBy(mws[0], ROOT));
    SumAppend([], LooseIn(mws[0], ROOT));
    assert Held(mws, [ROOT]) == [] + [HeldBy(mws[0], ROOT)] && Loose(mws, [ROOT]) == [] + [LooseIn(mws[0], ROOT)];
    BalanceNext(mws, 0);
    assert Due(mws, 0) == 1;
  }

  /** If the strictest decision can be missed, some run misses it. */
  lemma MissedInSomeOrder(mws: seq<Middleware>, failClosed: bool) returns (t: Chain, more: seq<Event>)
    requires CanMiss(mws, failClosed)
    ensures Reachable(mws, failClosed, t, more) && t.outcome.Some? && t.outcome.value != FullOutcome(mws, failClosed)
  {
    var d := FullOutcome(mws, failClosed);
    var s, events := Schedule(mws, failClosed, d, Invoked(mws));
    t, more := RunOut(mws, failClosed, s, events);
    ReachableInv(mws, failClosed, t, more);
  }

  /** An outcome once read is at least what every attached middleware decided, and one of the decisions. */
  ghost predicate Heard(mws: seq<Middleware>, failClosed: bool, frames: seq<Frame>, v: Decision)
    requires |frames| <= |mws|
  {
    && (forall i :: 0 <= i < |frames| && frames[i].attached ==> Rank(v) >= Rank(Contribution(mws[i].result, failClosed)))
    && (v == Allow || exists i :: 0 <= i < |frames| && v == Contribution(mws[i].result, failClosed))
  }

  lemma {:induction false} OutcomeHeard(mws: seq<Middleware>, failClosed: bool, s: Chain, events: seq<Event>)
    requires Reachable(mws, failClosed, s, events) && s.outcome.Some?
    ensures |s.frames| <= |mws| && Heard(mws, failClosed, s.frames, s.outcome.value)
    ensures forall i :: 0 <= i < |s.frames| && s.frames[i].attached ==> !s.frames[i].live
    decreases |events|
  {
    ReachableInv(mws, failClosed, s, events);
    forall i | 0 <= i < |s.frames| && s.frames[i].attached ensures !s.frames[i].live {
      AttachedSettled(mws, s.frames, i);
    }
    var front, last := events[..|events| - 1], events[|events| - 1];
    var before :| StepFrom(mws, failClosed, before, last, s) && Reachable(mws, failClosed, before, front);
    if last != Finish {
      OutcomeHeard(mws, failClosed, before, front);
      ReachableInv(mws, failClosed, before, front);
      HeardStays(mws, failClosed, before, last);
    }
  }

  lemma HeardStays(mws: seq<Middleware>, failClosed: bool, s: Chain, e: Event)
    requires |s.frames| <= |mws| && Consistent(mws, s.frames) && Enabled(mws, s, e) && s.outcome.Some?
    requires Heard(mws, failClosed, s.frames, s.outcome.value)
    requires forall i :: 0 <= i < |s.frames| && s.frames[i].attached ==> !s.frames[i].live
    ensures var next := Apply(mws, failClosed, s, e);
            next.outcome == s.outcome && |next.frames| <= |mws| && Heard(mws, failClosed, next.frames, s.outcome.value)
  {
    match e
    case Call(i) => CallEffect(mws, failClosed, s, i);
    case Forget(i) => ForgetEffect(mws, failClosed, s, i);
    case Settle(i) =>
    case Finish => assert false;
  }

  /** While no middleware that decides `d` is attached, `LooseAt` bounds the un-awaited calls. */
  lemma {:induction false} LooseBounded(mws: seq<Middleware>, failClosed: bool, d: Decision, s: Chain, events: seq<Event>)
    requires Reachable(mws, failClosed, s, events) && s.frames != [] && |s.frames| <= |mws|
    requires NoneAttached(mws, failClosed, d, s.frames)
    ensures 0 <= LooseCalls(mws, s.frames) <= LooseAt(mws, failClosed, d, |s.frames|)
    decreases |events|
  {
    ReachableInv(mws, failClosed, s, events);
    CountsNotNegative(mws, s.frames);
    if events == [] {
      BeginCounts(mws);
      assert s.frames[0].attached;
    } else {
      var front, last := events[..|events| - 1], events[|events| - 1];
      var before :| StepFrom(mws, failClosed, before, last, s) && Reachable(mws, failClosed, before, front);
      ReachableInv(mws, failClosed, before, front);
      AttachedKept(mws, failClosed, before, last);
      LooseBounded(mws, failClosed, d, before, front);
      LooseStep(mws, failClosed, d, before, last);
    }
  }

  lemma LooseGrows(mws: seq<Middleware>, failClosed: bool, d: Decision, k: nat, loose: int, held: bool)
    requires 1 <= k < |mws| && 0 <= loose <= LooseAt(mws, failClosed, d, k) <= Due(mws, k)
    requires if held then !Decides(mws[k], failClosed, d) && loose < Due(mws, k) else loose > 0
    ensures loose + (if held then mws[k].forgotten else mws[k].Calls() - 1) <= LooseAt(mws, failClosed, d, k + 1)
  {
  }

  lemma LooseCall(mws: seq<Middleware>, failClosed: bool, d: Decision, s: Chain, i: nat)
    requires Enabled(mws, s, Call(i)) && Consistent(mws, s.frames)
    requires 0 <= LooseCalls(mws, s.frames) <= LooseAt(mws, failClosed, d, |s.frames|) <= Due(mws, |s.frames|)
    requires HeldCalls(mws, s.frames) + LooseCalls(mws, s.frames) <= Due(mws, |s.frames|)
    requires |s.frames| < |mws| && s.frames[i].attached ==> !Decides(mws[|s.frames|], failClosed, d)
    ensures var next := Apply(mws, failClosed, s, Call(i)).frames;
            |next| <= |mws| && LooseCalls(mws, next) <= LooseAt(mws, failClosed, d, |next|)
  {
    var next, k := Apply(mws, failClosed, s, Call(i)).frames, |s.frames|;
    CallEffect(mws, failClosed, s, i);
    LooseAfter(mws, failClosed, d, k, LooseCalls(mws, s.frames), s.frames[i].attached, LooseCalls(mws, next));
  }

  lemma LooseForget(mws: seq<Middleware>, failClosed: bool, d: Decision, s: Chain, i: nat)
    requires Enabled(mws, s, Forget(i)) && Consistent(mws, s.frames)
    requires 0 <= LooseCalls(mws, s.frames) <= LooseAt(mws, failClosed, d, |s.frames|) <= Due(mws, |s.frames|)
    ensures var next := Apply(mws, failClosed, s, Forget(i)).frames;
            |next| <= |mws| && LooseCalls(mws, next) <= LooseAt(mws, failClosed, d, |next|)
  {
    var next, k := Apply(mws, failClosed, s, Forget(i)).frames, |s.frames|;
    ForgetEffect(mws, failClosed, s, i);
    LooseAfter(mws, failClosed, d, k, LooseCalls(mws, s.frames), false, LooseCalls(mws, next));
  }

  lemma LooseStep(mws: seq<Middleware>, failClosed: bool, d: Decision, s: Chain, e: Event)
    requires ChainInv(mws, failClosed, s) && s.frames != [] && Enabled(mws, s, e)
    requires LooseCalls(mws, s.frames) <= LooseAt(mws, failClosed, d, |s.frames|)
    requires var next := Apply(mws, failClosed, s, e).frames; |next| <= |mws| && NoneAttached(mws, failClosed, d, next)
    ensures var next := Apply(mws, failClosed, s, e).frames;
            LooseCalls(mws, next) <= LooseAt(mws, failClosed, d, |next|)
  {
    CountsNotNegative(mws, s.frames);
    LooseAtMost(mws, failClosed, d, |s.frames|);
    match e
    case Call(i) =>
      if |s.frames| < |mws| {
        assert Apply(mws, failClosed, s, e).frames[|s.frames|].attached == s.frames[i].attached;
      }
      LooseCall(mws, failClosed, d, s, i);
    case Forget(i) => LooseForget(mws, failClosed, d, s, i);
    case Settle(i) => SettleEffect(mws, s.frames, i);
    case Finish =>
  }

  lemma LooseAfter(mws: seq<Middleware>, failClosed: bool, d: Decision, k: nat, loose: int, held: bool, after: int)
    requires 1 <= k <= |mws| && 0 <= loose <= LooseAt(mws, failClosed, d, k) <= Due(mws, k)
    requires k < |mws| && held ==> !Decides(mws[k], failClosed, d) && loose < Due(mws, k)
    requires held || loose > 0
    requires after == loose - (if held then 0 else 1)
                      + (if k < |mws| then mws[k].forgotten + (if held then 0 else mws[k].nexts) else 0)
    ensures after <= LooseAt(mws, failClosed, d, if k < |mws| then k + 1 else k)
  {
    if k < |mws| { LooseGrows(mws, failClosed, d, k, loose, held); }
  }

  /** An event keeps the frames there are attached or not. */
  lemma AttachedKept(mws: seq<Middleware>, failClosed: bool, s: Chain, e: Event)
    requires Enabled(mws, s, e)
    ensures var next := Apply(mws, failClosed, s, e).frames;
            |s.frames| <= |next| && forall i :: 0 <= i < |s.frames| ==> next[i].attached == s.frames[i].attached
  {
  }

  /** Once every outstanding call is un-awaited, all later ones are. */
  lemma {:induction false} LooseStays(mws: seq<Middleware>, failClosed: bool, d: Decision, k: nat, n: nat)
    requires 1 <= k <= n <= Invoked(mws) && LooseAt(mws, failClosed, d, k) == Due(mws, k)
    ensures LooseAt(mws, failClosed, d, n) == Due(mws, n)
    decreases n
  {
    if k < n {
      LooseStays(mws, failClosed, d, k, n - 1);
      BalanceNext(mws, n - 1);
      assert Balance(mws, 0, n - 1) + 1 > 0;
    }
  }

  lemma DueNotNegative(mws: seq<Middleware>)
    ensures Due(mws, Invoked(mws)) >= 0
  {
    var n := Invoked(mws);
    if n == 0 {
      assert Due(mws, 0) == 1;
    } else {
      BalanceNext(mws, n - 1);
      assert Balance(mws, 0, n - 1) + 1 > 0;
    }
  }

  /** With its attached part settled, a chain has only un-awaited calls to come. */
  lemma NothingHeld(mws: seq<Middleware>, frames: seq<Frame>)
    requires |frames| <= |mws| && Consistent(mws, frames)
    requires forall i :: 0 <= i < |frames| && frames[i].attached ==> !frames[i].live
    ensures HeldCalls(mws, frames) == 0
  {
    forall i | 0 <= i < |frames| ensures HeldBy(mws[i], frames[i]) == 0 {
      assert ConsistentAt(mws, frames, i);
    }
    SumZero(Held(mws, frames));
  }

  /** If by the end of the attached part no strictest decision is attached, none ever is. */
  lemma UnheardCanMiss(mws: seq<Middleware>, failClosed: bool, frames: seq<Frame>)
    requires frames != [] && Accounted(mws, frames) && |frames| <= |mws| && HeldCalls(mws, frames) == 0
    requires var d := FullOutcome(mws, failClosed);
             d != Allow && 0 <= LooseCalls(mws, frames) <= LooseAt(mws, failClosed, d, |frames|)
    ensures CanMiss(mws, failClosed)
  {
    var d, k := FullOutcome(mws, failClosed), |frames|;
    if k < |mws| {
      LooseAtMost(mws, failClosed, d, k);
      LooseStays(mws, failClosed, d, k, Invoked(mws));
      DueNotNegative(mws);
    }
  }

  /** A run that reads less than the strictest decision shows that it can be missed. */
  lemma MissMeansCanMiss(mws: seq<Middleware>, failClosed: bool, s: Chain, events: seq<Event>)
    requires Reachable(mws, failClosed, s, events) && s.outcome.Some? && s.outcome.value != FullOutcome(mws, failClosed)
    ensures CanMiss(mws, failClosed)
  {
    var d := FullOutcome(mws, failClosed);
    ReachableInv(mws, failClosed, s, events);
    OutcomeHeard(mws, failClosed, s, events);
    assert Rank(s.outcome.value) < Rank(d);
    LooseBounded(mws, failClosed, d, s, events);
    NothingHeld(mws, s.frames);
    UnheardCanMiss(mws, failClosed, s.frames);
  }

  /** The outcome is the strictest decision of all invoked middlewares in every order, if and only if the one-pass count
      says that the first middleware must wait for one that takes it. */
  lemma AlwaysFullIff(mws: seq<Middleware>, failClosed: bool)
    ensures AlwaysFull(mws, failClosed) <==> !CanMiss(mws, failClosed)
  {
    if CanMiss(mws, failClosed) {
      var t, more := MissedInSomeOrder(mws, failClosed);
      assert Reachable(mws, failClosed, t, more);
    } else {
      forall s, events | Reachable(mws, failClosed, s, events) && s.outcome.Some?
        ensures s.outcome.value == FullOutcome(mws, failClosed)
      {
        if s.outcome.value != FullOutcome(mws, failClosed) {
          MissMeansCanMiss(mws, failClosed, s, events);
        }
      }
    }
  }

  // ---- exactly when nothing runs on ----

  /** Every invoked middleware, but for the last, awaits all its `next()` calls. */
  predicate AwaitAllButLast(mws: seq<Middleware>) { forall i :: 0 <= i < Invoked(mws) - 1 ==> mws[i].forgotten == 0 }

  ghost predicate Quiet(s: Chain) { forall i :: 0 <= i < |s.frames| ==> !s.frames[i].live }

  ghost predicate Ended(mws: seq<Middleware>, failClosed: bool, s: Chain) {
    s.outcome.Some? && exists events :: Reachable(mws, failClosed, s, events)
  }

  lemma {:induction false} AwaitingHasNoSlack(mws: seq<Middleware>, failClosed: bool, d: Decision, k: nat, p: nat)
    requires AwaitAllButLast(mws) && p < Invoked(mws) && Decides(mws[p], failClosed, d) && 1 <= k <= Invoked(mws)
    ensures k < Invoked(mws) ==> LooseAt(mws, failClosed, d, k) <= 0
    ensures p < k ==> LooseAt(mws, failClosed, d, k) < 0
    decreases k
  {
    if k > 1 {
      AwaitingHasNoSlack(mws, failClosed, d, k - 1, p);
      assert Balance(mws, 0, k - 1) + 1 > 0;
    }
  }

  /** In particular no decision is missed where all but the last invoked middleware await their calls. */
  lemma AwaitingNeverMisses(mws: seq<Middleware>, failClosed: bool)
    requires AwaitAllButLast(mws)
    ensures AlwaysFull(mws, failClosed)
  {
    var d, n := FullOutcome(mws, failClosed), Invoked(mws);
    if d != Allow {
      var p :| 0 <= p < n && d == Contribution(mws[p].result, failClosed);
      AwaitingHasNoSlack(mws, failClosed, d, n, p);
    }
    AlwaysFullIff(mws, failClosed);
  }

  lemma {:induction false} AllAttached(mws: seq<Middleware>, failClosed: bool, s: Chain, events: seq<Event>)
    requires AwaitAllButLast(mws) && Reachable(mws, failClosed, s, events)
    ensures forall i :: 0 <= i < |s.frames| ==> s.frames[i].attached
    decreases |events|
  {
    if events != [] {
      var front, last := events[..|events| - 1], events[|events| - 1];
      var before :| StepFrom(mws, failClosed, before, last, s) && Reachable(mws, failClosed, before, front);
      AllAttached(mws, failClosed, before, front);
      ReachableInv(mws, failClosed, before, front);
      AttachedStays(mws, failClosed, before, last);
    }
  }

  lemma AttachedStays(mws: seq<Middleware>, failClosed: bool, s: Chain, e: Event)
    requires AwaitAllButLast(mws) && ChainInv(mws, failClosed, s) && Enabled(mws, s, e)
    requires forall i :: 0 <= i < |s.frames| ==> s.frames[i].attached
    ensures var next := Apply(mws, failClosed, s, e).frames;
            forall i :: 0 <= i < |next| ==> next[i].attached
  {
    match e
    case Call(i) => CallEffect(mws, failClosed, s, i);
    case Forget(i) =>
      ForgetEffect(mws, failClosed, s, i);
      CountsNotNegative(mws, s.frames);
      if |s.frames| < |mws| { MoreInvoked(mws, |s.frames|); }
    case _ =>
  }

  /** Some order invokes `k` middlewares before any settles. */
  lemma {:induction false} InvokeMany(mws: seq<Middleware>, failClosed: bool, k: nat) returns (s: Chain, events: seq<Event>)
    requires 1 <= k <= Invoked(mws)
    ensures Reachable(mws, failClosed, s, events) && s.outcome.None? && AllLive(s.frames) && |s.frames| == k
    ensures s.frames[k - 1].forgot == 0
    decreases k
  {
    if k == 1 {
      s, events := Begin(mws), [];
    } else {
      var s0, events0 := InvokeMany(mws, failClosed, k - 1);
      ReachableInv(mws, failClosed, s0, events0);
      assert Balance(mws, 0, k - 1) + 1 > 0;
      s, events := NextInvoked(mws, failClosed, s0, events0, HeldCalls(mws, s0.frames) > 0);
    }
  }

  /** A middleware before the last that forgets a call lets the run end while another is running. */
  lemma RunsOn(mws: seq<Middleware>, failClosed: bool, i: nat) returns (t: Chain)
    requires i < Invoked(mws) - 1 && mws[i].forgotten > 0
    ensures Ended(mws, failClosed, t) && !Quiet(t)
  {
    var s, events := InvokeMany(mws, failClosed, i + 1);
    ReachNext(mws, failClosed, s, events, Forget(i));
    var next := Apply(mws, failClosed, s, Forget(i));
    var more;
    t, more := RunOut(mws, failClosed, next, events + [Forget(i)]);
    assert t.frames[i + 1] == next.frames[i + 1];
  }

  lemma EndedQuiet(mws: seq<Middleware>, failClosed: bool, s: Chain)
    requires AwaitAllButLast(mws) && Ended(mws, failClosed, s)
    ensures Quiet(s)
  {
    var events :| Reachable(mws, failClosed, s, events);
    AllAttached(mws, failClosed, s, events);
    OutcomeHeard(mws, failClosed, s, events);
  }

  /** After a run has ended no middleware it invoked is running, in every order, if and only if every invoked middleware
      but the last awaits its calls. */
  lemma QuietWhenEndedIff(mws: seq<Middleware>, failClosed: bool)
    ensures (forall s :: Ended(mws, failClosed, s) ==> Quiet(s)) <==> AwaitAllButLast(mws)
  {
    if AwaitAllButLast(mws) {
      forall s | Ended(mws, failClosed, s) ensures Quiet(s) {
        EndedQuiet(mws, failClosed, s);
      }
    } else {
      var i :| 0 <= i < Invoked(mws) - 1 && mws[i].forgotten != 0;
      var t := RunsOn(mws, failClosed, i);
    }
  }

  // ---- disposal over all accepted runs ----

  /** Every accepted run, each over its own snapshot of the middlewares, has ended: what `dispose` waits for. */
  ghost predicate AllEnded(snapshots: seq<seq<Middleware>>, failClosed: bool, runs: seq<Chain>) {
    |runs| == |snapshots| && forall r :: 0 <= r < |runs| ==> Ended(snapshots[r], failClosed, runs[r])
  }

  ghost predicate AllQuiet(runs: seq<Chain>) { forall r :: 0 <= r < |runs| ==> Quiet(runs[r]) }

  lemma {:induction false} SomeEnd(snapshots: seq<seq<Middleware>>, failClosed: bool) returns (runs: seq<Chain>)
    ensures AllEnded(snapshots, failClosed, runs)
    decreases |snapshots|
  {
    if snapshots == [] {
      runs := [];
    } else {
      var n := |snapshots| - 1;
      var front := SomeEnd(snapshots[..n], failClosed);
      var last, events := RunOut(snapshots[n], failClosed, Begin(snapshots[n]), []);
      runs := front + [last];
    }
  }

  /** A dispose that returns without its timer finds every accepted run ended. No middleware is then running, however the
      runs went, if and only if in every snapshot all but the last invoked middleware await their calls. */
  lemma DisposeQuietIff(snapshots: seq<seq<Middleware>>, failClosed: bool)
    ensures (forall runs :: AllEnded(snapshots, failClosed, runs) ==> AllQuiet(runs)) <==>
            forall r :: 0 <= r < |snapshots| ==> AwaitAllButLast(snapshots[r])
  {
    if r :| 0 <= r < |snapshots| && !AwaitAllButLast(snapshots[r]) {
      var i :| 0 <= i < Invoked(snapshots[r]) - 1 && snapshots[r][i].forgotten != 0;
      var t := RunsOn(snapshots[r], failClosed, i);
      var runs := SomeEnd(snapshots, failClosed);
      var mixed := runs[r := t];
      assert AllEnded(snapshots, failClosed, mixed) && !Quiet(mixed[r]);
    } else {
      forall runs | AllEnded(snapshots, failClosed, runs) ensures AllQuiet(runs) {
        forall r | 0 <= r < |runs| ensures Quiet(runs[r]) {
          EndedQuiet(snapshots[r], failClosed, runs[r]);
        }
      }
    }
  }
}
