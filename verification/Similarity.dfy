// Cosine similarity of sparse token counts.
module Similarity {
  /** One entry of a frequency map; maps are lists of entries, in insertion order, with distinct tokens. */
  datatype Count = Count(token: string, count: nat)

  type Frequencies = seq<Count>

  predicate IsMap(m: Frequencies) {
    m == [] || (IsMap(m[..|m| - 1]) && !Has(m[..|m| - 1], m[|m| - 1].token))
  }

  predicate Has(m: Frequencies, token: string) { m != [] && (m[|m| - 1].token == token || Has(m[..|m| - 1], token)) }

  /** The count of a token; zero when the map does not have it. */
  function Get(m: Frequencies, token: string): nat {
    if m == [] then 0 else if m[|m| - 1].token == token then m[|m| - 1].count else Get(m[..|m| - 1], token)
  }

  lemma {:induction false} GetAbsent(m: Frequencies, token: string)
    requires !Has(m, token)
    ensures Get(m, token) == 0
    decreases |m|
  {
    if m != [] { GetAbsent(m[..|m| - 1], token); }
  }

  // ---- sums over the entries of a map ----

  function Norm(m: Frequencies): nat {
    if m == [] then 0 else Norm(m[..|m| - 1]) + m[|m| - 1].count * m[|m| - 1].count
  }

  /** The sum of products over the entries of `a`, with `b` looked up. */
  function Dot(a: Frequencies, b: Frequencies): nat {
    if a == [] then 0 else Dot(a[..|a| - 1], b) + a[|a| - 1].count * Get(b, a[|a| - 1].token)
  }

  /** The part of `b`'s norm on the tokens of `a`. */
  function Shared(a: Frequencies, b: Frequencies): nat {
    if a == [] then 0 else Shared(a[..|a| - 1], b) + Get(b, a[|a| - 1].token) * Get(b, a[|a| - 1].token)
  }

  /** The sum of squared cross differences of one pair of counts against the entries of `a`. */
  function Cross(a: Frequencies, b: Frequencies, x: nat, y: nat): nat {
    if a == [] then 0
    else
      var d := a[|a| - 1].count * y - Get(b, a[|a| - 1].token) * x;
      SquareNotNegative(d);
      Cross(a[..|a| - 1], b, x, y) + d * d
  }

  lemma SquareNotNegative(d: int)
    ensures d * d >= 0
    ensures d * d == 0 <==> d == 0
  {
  }

  // ---- the algorithm ----

  /** A similarity: zero, or dot / (sqrt(normA) * sqrt(normB)) with both norms positive. */
  datatype Score = Zero | Ratio(dot: nat, normA: nat, normB: nat)

  method SumOfSquares(m: Frequencies) returns (norm: nat)
    ensures norm == Norm(m)
  {
    norm := 0;
    for i := 0 to |m|
      invariant norm == Norm(m[..i])
    {
      assert m[..i + 1][..i] == m[..i];
      norm := norm + m[i].count * m[i].count;
    }
    assert m[..|m|] == m;
  }

  method SumOfProducts(smaller: Frequencies, larger: Frequencies) returns (dot: nat)
    ensures dot == Dot(smaller, larger)
  {
    dot := 0;
    for i := 0 to |smaller|
      invariant dot == Dot(smaller[..i], larger)
    {
      assert smaller[..i + 1][..i] == smaller[..i];
      if Has(larger, smaller[i].token) {
        dot := dot + smaller[i].count * Get(larger, smaller[i].token);
      } else {
        GetAbsent(larger, smaller[i].token);
      }
    }
    assert smaller[..|smaller|] == smaller;
  }

  method CosineSimilarity(a: Frequencies, b: Frequencies) returns (score: Score)
    requires IsMap(a) && IsMap(b)
    ensures score == if Norm(a) == 0 || Norm(b) == 0 then Zero else Ratio(Dot(a, b), Norm(a), Norm(b))
  {
    var normA := SumOfSquares(a);
    var normB := SumOfSquares(b);
    if normA == 0 || normB == 0 { return Zero; }
    var smaller, larger := if |a| < |b| then a else b, if |a| < |b| then b else a;
    var dot := SumOfProducts(smaller, larger);
    DotSymmetric(a, b);
    return Ratio(dot, normA, normB);
  }

  // ---- either map may be iterated ----

  lemma {:induction false} DotAddEntry(b: Frequencies, a: Frequencies, e: Count)
    requires IsMap(b) && IsMap(a) && !Has(a, e.token)
    ensures Dot(b, a + [e]) == Dot(b, a) + e.count * Get(b, e.token)
    decreases |b|
  {
    assert (a + [e])[..|a|] == a;
    if b != [] {
      var front, last := b[..|b| - 1], b[|b| - 1];
      DotAddEntry(front, a, e);
      if last.token == e.token {
        GetAbsent(front, e.token);
        GetAbsent(a, e.token);
        assert last.count * Get(a + [e], last.token) == e.count * last.count;
      }
    }
  }

  /** The dot product does not depend on which map is iterated, so it is symmetric. */
  lemma {:induction false} DotSymmetric(a: Frequencies, b: Frequencies)
    requires IsMap(a) && IsMap(b)
    ensures Dot(a, b) == Dot(b, a)
    decreases |a|
  {
    if a == [] {
      DotEmpty(b);
    } else {
      var front, last := a[..|a| - 1], a[|a| - 1];
      DotSymmetric(front, b);
      DotAddEntry(b, front, last);
      assert front + [last] == a;
    }
  }

  lemma {:induction false} DotEmpty(b: Frequencies)
    ensures Dot(b, []) == 0
    decreases |b|
  {
    if b != [] {
      DotEmpty(b[..|b| - 1]);
    }
  }

  // ---- the score is at most one ----

  /** Lagrange's step: one pair's cross terms are what it adds to the gap in the Cauchy-Schwarz inequality. */
  lemma {:induction false} CrossExpands(a: Frequencies, b: Frequencies, x: nat, y: nat)
    ensures Cross(a, b, x, y) == Norm(a) * (y * y) - 2 * (Dot(a, b) * (x * y)) + Shared(a, b) * (x * x)
    decreases |a|
  {
    if a != [] {
      var front, last := a[..|a| - 1], a[|a| - 1];
      CrossExpands(front, b, x, y);
      CrossTerm(Norm(front), Dot(front, b), Shared(front, b), last.count, Get(b, last.token), x, y);
    }
  }

  lemma CrossTerm(n: int, d: int, s: int, p: int, q: int, x: int, y: int)
    ensures n * (y * y) - 2 * (d * (x * y)) + s * (x * x) + (p * y - q * x) * (p * y - q * x) ==
            (n + p * p) * (y * y) - 2 * ((d + p * q) * (x * y)) + (s + q * q) * (x * x)
  {
    assert (p * y - q * x) * (p * y - q * x) == p * p * (y * y) - 2 * (p * q * (x * y)) + q * q * (x * x);
  }

  lemma GapStep(n: int, d: int, s: int, x: int, y: int)
    ensures (n + x * x) * (s + y * y) - (d + x * y) * (d + x * y) ==
            n * s - d * d + (n * (y * y) - 2 * (d * (x * y)) + s * (x * x))
  {
  }

  /** All pairs of counts on the tokens of `a` are in proportion. */
  predicate InProportion(a: Frequencies, b: Frequencies) {
    a == [] || (InProportion(a[..|a| - 1], b) && Cross(a[..|a| - 1], b, a[|a| - 1].count, Get(b, a[|a| - 1].token)) == 0)
  }

  /** Cauchy-Schwarz on the tokens of `a`, with equality exactly in proportion. */
  lemma {:induction false} CauchySchwarz(a: Frequencies, b: Frequencies)
    ensures Dot(a, b) * Dot(a, b) <= Norm(a) * Shared(a, b)
    ensures Dot(a, b) * Dot(a, b) == Norm(a) * Shared(a, b) <==> InProportion(a, b)
    decreases |a|
  {
    if a != [] {
      var front, last := a[..|a| - 1], a[|a| - 1];
      CauchySchwarz(front, b);
      CrossExpands(front, b, last.count, Get(b, last.token));
      GapStep(Norm(front), Dot(front, b), Shared(front, b), last.count, Get(b, last.token));
    }
  }

  // ---- the norm of `b` splits into tokens of `a` and the others ----

  /** The part of `b`'s norm on tokens `a` does not have. */
  function Outside(a: Frequencies, b: Frequencies): nat {
    if b == [] then 0
    else Outside(a, b[..|b| - 1]) + if Has(a, b[|b| - 1].token) then 0 else b[|b| - 1].count * b[|b| - 1].count
  }

  lemma {:induction false} SharedAddEntry(a: Frequencies, b: Frequencies, e: Count)
    requires IsMap(a) && !Has(b, e.token)
    ensures Shared(a, b + [e]) == Shared(a, b) + if Has(a, e.token) then e.count * e.count else 0
    decreases |a|
  {
    assert (b + [e])[..|b|] == b;
    if a != [] {
      var front, last := a[..|a| - 1], a[|a| - 1];
      SharedAddEntry(front, b, e);
      if last.token == e.token {
        GetAbsent(b, e.token);
        assert Get(b + [e], last.token) == e.count && Get(b, last.token) == 0;
      } else {
        assert Get(b + [e], last.token) == Get(b, last.token);
      }
    }
  }

  lemma {:induction false} NormSplits(a: Frequencies, b: Frequencies)
    requires IsMap(a) && IsMap(b)
    ensures Norm(b) == Shared(a, b) + Outside(a, b)
    decreases |b|
  {
    if b == [] {
      SharedEmpty(a);
    } else {
      var front, last := b[..|b| - 1], b[|b| - 1];
      NormSplits(a, front);
      SharedAddEntry(a, front, last);
      assert front + [last] == b;
    }
  }

  lemma {:induction false} SharedEmpty(a: Frequencies)
    ensures Shared(a, []) == 0
    decreases |a|
  {
    if a != [] { SharedEmpty(a[..|a| - 1]); }
  }

  // ---- the main results ----

  /** The counts of any two tokens are in the same ratio in both maps. */
  ghost predicate Proportional(a: Frequencies, b: Frequencies) {
    forall k, l :: Get(a, k) * Get(b, l) == Get(a, l) * Get(b, k)
  }

  lemma Distribute(n: nat, s: nat, o: nat)
    ensures n * (s + o) == n * s + n * o
    ensures n > 0 ==> (n * o == 0 <==> o == 0)
  {
  }

  /** `x` and `y` are in the ratio of the two counts of every token of `a`. */
  ghost predicate Balances(a: Frequencies, b: Frequencies, x: nat, y: nat) {
    forall k :: Has(a, k) ==> Get(a, k) * y == x * Get(b, k)
  }

  lemma GetFront(a: Frequencies, k: string)
    requires IsMap(a) && a != []
    ensures Has(a, k) <==> Has(a[..|a| - 1], k) || k == a[|a| - 1].token
    ensures Has(a[..|a| - 1], k) ==> k != a[|a| - 1].token && Get(a, k) == Get(a[..|a| - 1], k)
  {
  }

  lemma {:induction false} CrossZero(a: Frequencies, b: Frequencies, x: nat, y: nat)
    requires IsMap(a)
    ensures Cross(a, b, x, y) == 0 <==> Balances(a, b, x, y)
    decreases |a|
  {
    if a != [] {
      var front, last := a[..|a| - 1], a[|a| - 1];
      CrossZero(front, b, x, y);
      SquareNotNegative(last.count * y - Get(b, last.token) * x);
      GetFront(a, last.token);
      if Balances(a, b, x, y) {
        forall k | Has(front, k) ensures Get(front, k) * y == x * Get(b, k) { GetFront(a, k); }
        assert Get(a, last.token) * y == x * Get(b, last.token);
      }
      if Balances(front, b, x, y) && last.count * y == x * Get(b, last.token) {
        forall k | Has(a, k) ensures Get(a, k) * y == x * Get(b, k) { GetFront(a, k); }
      }
    }
  }

  ghost predicate PairwiseOn(a: Frequencies, b: Frequencies) {
    forall k, l :: Has(a, k) && Has(a, l) ==> Get(a, k) * Get(b, l) == Get(a, l) * Get(b, k)
  }

  lemma {:induction false} PairwiseIffInProportion(a: Frequencies, b: Frequencies)
    requires IsMap(a)
    ensures InProportion(a, b) <==> PairwiseOn(a, b)
    decreases |a|
  {
    if a != [] {
      var front, last := a[..|a| - 1], a[|a| - 1];
      PairwiseIffInProportion(front, b);
      CrossZero(front, b, last.count, Get(b, last.token));
      PairwiseStep(a, b);
    }
  }

  lemma PairwiseStep(a: Frequencies, b: Frequencies)
    requires IsMap(a) && a != []
    ensures var front, last := a[..|a| - 1], a[|a| - 1];
            PairwiseOn(a, b) <==> PairwiseOn(front, b) && Balances(front, b, last.count, Get(b, last.token))
  {
    var front, last := a[..|a| - 1], a[|a| - 1];
    GetFront(a, last.token);
    if PairwiseOn(a, b) {
      forall k, l | Has(front, k) && Has(front, l) ensures Get(front, k) * Get(b, l) == Get(front, l) * Get(b, k) {
        GetFront(a, k);
        GetFront(a, l);
      }
      forall k | Has(front, k) ensures Get(front, k) * Get(b, last.token) == last.count * Get(b, k) {
        GetFront(a, k);
      }
    }
    if PairwiseOn(front, b) && Balances(front, b, last.count, Get(b, last.token)) {
      forall k, l | Has(a, k) && Has(a, l) ensures Get(a, k) * Get(b, l) == Get(a, l) * Get(b, k) {
        GetFront(a, k);
        GetFront(a, l);
      }
    }
  }

  /** `b` counts nothing on tokens `a` does not have. */
  ghost predicate Covers(a: Frequencies, b: Frequencies) { forall l :: !Has(a, l) ==> Get(b, l) == 0 }

  lemma {:induction false} OutsideZeroIff(a: Frequencies, b: Frequencies)
    requires IsMap(b)
    ensures Outside(a, b) == 0 <==> Covers(a, b)
    decreases |b|
  {
    if b != [] {
      var front, last := b[..|b| - 1], b[|b| - 1];
      OutsideZeroIff(a, front);
      SquareNotNegative(last.count);
      GetAbsent(front, last.token);
      assert Get(b, last.token) == last.count;
      forall l | l != last.token ensures Get(b, l) == Get(front, l) {}
    }
  }

  lemma {:induction false} PositiveCount(m: Frequencies) returns (k: string)
    requires Norm(m) > 0 && IsMap(m)
    ensures Has(m, k) && Get(m, k) > 0
    decreases |m|
  {
    var front, last := m[..|m| - 1], m[|m| - 1];
    SquareNotNegative(last.count);
    if last.count > 0 {
      k := last.token;
    } else {
      k := PositiveCount(front);
    }
  }

  lemma ProportionalCovers(a: Frequencies, b: Frequencies)
    requires IsMap(a) && Norm(a) > 0 && Proportional(a, b)
    ensures Covers(a, b)
  {
    var k := PositiveCount(a);
    forall l | !Has(a, l) ensures Get(b, l) == 0 {
      GetAbsent(a, l);
      assert Get(a, k) * Get(b, l) == Get(a, l) * Get(b, k);
      Distribute(Get(a, k), 0, Get(b, l));
    }
  }

  /** Where one token counts nothing in either map, the two products are zero. */
  lemma ZeroProducts(p: nat, q: nat, r: nat, s: nat)
    ensures p == 0 && s == 0 ==> p * q == r * s
    ensures q == 0 && r == 0 ==> p * q == r * s
  {
  }

  lemma ProportionalIff(a: Frequencies, b: Frequencies)
    requires IsMap(a) && IsMap(b) && Norm(a) > 0
    ensures Proportional(a, b) <==> PairwiseOn(a, b) && Outside(a, b) == 0
  {
    OutsideZeroIff(a, b);
    if Proportional(a, b) {
      ProportionalCovers(a, b);
    }
    if PairwiseOn(a, b) && Covers(a, b) {
      forall k, l ensures Get(a, k) * Get(b, l) == Get(a, l) * Get(b, k) {
        ZeroProducts(Get(a, k), Get(b, l), Get(a, l), Get(b, k));
        if !Has(a, k) { GetAbsent(a, k); }
        if !Has(a, l) { GetAbsent(a, l); }
      }
    }
  }

  lemma {:induction false} SelfPrefix(prefix: Frequencies, a: Frequencies)
    requires IsMap(a) && prefix <= a
    ensures Dot(prefix, a) == Norm(prefix)
    decreases |prefix|
  {
    if prefix != [] {
      SelfPrefix(prefix[..|prefix| - 1], a);
      GetAt(a, |prefix| - 1);
    }
  }

  lemma {:induction false} GetAt(a: Frequencies, i: nat)
    requires IsMap(a) && i < |a|
    ensures Has(a, a[i].token) && Get(a, a[i].token) == a[i].count
    decreases |a|
  {
    if i < |a| - 1 {
      GetAt(a[..|a| - 1], i);
    }
  }

  /** The score lies between 0 and 1: its square is at most 1. It is 1 exactly when the two maps are proportional. */
  lemma ScoreBound(a: Frequencies, b: Frequencies)
    requires IsMap(a) && IsMap(b) && Norm(a) > 0 && Norm(b) > 0
    ensures Dot(a, b) * Dot(a, b) <= Norm(a) * Norm(b)
    ensures Dot(a, b) * Dot(a, b) == Norm(a) * Norm(b) <==> Proportional(a, b)
  {
    CauchySchwarz(a, b);
    NormSplits(a, b);
    Distribute(Norm(a), Shared(a, b), Outside(a, b));
    PairwiseIffInProportion(a, b);
    ProportionalIff(a, b);
  }

  /** A non-empty map scores 1 against itself. */
  lemma SelfScore(a: Frequencies)
    requires IsMap(a)
    ensures Dot(a, a) == Norm(a)
  {
    SelfPrefix(a, a);
  }

  // ---- counting tokens ----

  /** One more occurrence of a token: its entry is updated in place, or appended. */
  function Bump(m: Frequencies, token: string): (r: Frequencies)
    decreases |m|
  {
    if m == [] then [Count(token, 1)]
    else if m[|m| - 1].token == token then m[..|m| - 1] + [Count(token, m[|m| - 1].count + 1)]
    else if Has(m, token) then Bump(m[..|m| - 1], token) + [m[|m| - 1]]
    else m + [Count(token, 1)]
  }

  lemma {:induction false} BumpCounts(m: Frequencies, token: string)
    requires IsMap(m)
    ensures IsMap(Bump(m, token))
    ensures forall k :: Has(Bump(m, token), k) <==> Has(m, k) || k == token
    ensures forall k :: Get(Bump(m, token), k) == Get(m, k) + if k == token then 1 else 0
    decreases |m|
  {
    if m == [] {
      assert [Count(token, 1)][..0] == [];
    } else {
      var front, last := m[..|m| - 1], m[|m| - 1];
      var r := Bump(m, token);
      if last.token == token {
        assert r[..|r| - 1] == front;
      } else if Has(m, token) {
        BumpCounts(front, token);
        assert r[..|r| - 1] == Bump(front, token);
      } else {
        GetAbsent(m, token);
        assert r[..|r| - 1] == m;
      }
    }
  }

  /** The map counts exactly the occurrences of each token. */
  method TokenFrequencies(tokens: seq<string>) returns (m: Frequencies)
    ensures IsMap(m)
    ensures forall k :: Get(m, k) == multiset(tokens)[k]
    ensures forall k :: Has(m, k) <==> k in tokens
  {
    m := [];
    for i := 0 to |tokens|
      invariant IsMap(m)
      invariant forall k :: Get(m, k) == multiset(tokens[..i])[k]
      invariant forall k :: Has(m, k) <==> k in tokens[..i]
    {
      assert tokens[..i + 1] == tokens[..i] + [tokens[i]];
      BumpCounts(m, tokens[i]);
      m := Bump(m, tokens[i]);
    }
    assert tokens[..|tokens|] == tokens;
  }
}
