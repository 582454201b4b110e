/**
 Maximal marginal relevance (services/retrieval/mmr.py), over the reals: a greedy choice by
 relevance to the query against similarity to what is already chosen.
 */
module Mmr {
  import opened Common
  import opened Sorting

  datatype MmrError = NegativeTopK | LambdaOutOfRange | DimensionMismatch

  function Dot(a: seq<real>, b: seq<real>): real
    requires |a| == |b|
  {
    if a == [] then 0.0 else Dot(a[..|a| - 1], b[..|b| - 1]) + a[|a| - 1] * b[|b| - 1]
  }

  lemma {:induction false} DotIsSymmetric(a: seq<real>, b: seq<real>)
    requires |a| == |b|
    ensures Dot(a, b) == Dot(b, a)
  {
    if a != [] { DotIsSymmetric(a[..|a| - 1], b[..|b| - 1]); }
  }

  function Combined(k: real, a: seq<real>, b: seq<real>): (c: seq<real>)
    requires |a| == |b|
    ensures |c| == |a|
  {
    seq(|a|, i requires 0 <= i < |a| => k * a[i] + b[i])
  }

  lemma OneMoreTerm(k: real, x: real, y: real, z: real, d: real, e: real)
    ensures k * d + e + (k * x + y) * z == k * (d + x * z) + (e + y * z)
  {
    assert (k * x + y) * z == k * (x * z) + y * z;
    assert k * (d + x * z) == k * d + k * (x * z);
  }

  lemma CombinedPrefix(k: real, a: seq<real>, b: seq<real>, n: nat)
    requires |a| == |b| && n <= |a|
    ensures Combined(k, a, b)[..n] == Combined(k, a[..n], b[..n])
  {
    forall i | 0 <= i < n ensures Combined(k, a, b)[..n][i] == Combined(k, a[..n], b[..n])[i] {
      assert a[..n][i] == a[i] && b[..n][i] == b[i];
    }
  }

  lemma {:induction false} DotIsLinear(k: real, a: seq<real>, b: seq<real>, c: seq<real>)
    requires |a| == |b| == |c|
    ensures Dot(Combined(k, a, b), c) == k * Dot(a, c) + Dot(b, c)
  {
    if a != [] {
      var n := |a| - 1;
      DotIsLinear(k, a[..n], b[..n], c[..n]);
      CombinedPrefix(k, a, b, n);
      OneMoreTerm(k, a[n], b[n], c[n], Dot(a[..n], c[..n]), Dot(b[..n], c[..n]));
    }
  }

  function Unit(n: nat, k: nat): (u: seq<real>)
    ensures |u| == n
  {
    seq(n, i requires 0 <= i < n => if i == k then 1.0 else 0.0)
  }

  /** Against the k-th unit vector the product is the k-th coordinate; with linearity this is all there is
      to say about it. */
  lemma {:induction false} DotOfUnit(a: seq<real>, k: nat)
    ensures Dot(a, Unit(|a|, k)) == if k < |a| then a[k] else 0.0
  {
    if a != [] {
      var n := |a| - 1;
      DotOfUnit(a[..n], k);
      assert Unit(|a|, k)[..n] == Unit(n, k);
    }
  }

  /** Embeddings of the candidates and of the query, all of one dimension. */
  datatype Problem = Problem(query: seq<real>, embeddings: seq<seq<real>>, lambdaParam: real)
  {
    ghost predicate Valid() {
      && 0.0 <= lambdaParam <= 1.0
      && forall i :: 0 <= i < |embeddings| ==> |embeddings[i]| == |query|
    }

    function Count(): nat { |embeddings| }

    function Relevance(i: nat): real
      requires Valid() && i < Count()
    {
      Dot(embeddings[i], query)
    }

    function Similarity(i: nat, j: nat): real
      requires Valid() && i < Count() && j < Count()
    {
      Dot(embeddings[i], embeddings[j])
    }
  }

  ghost predicate AreIndices(p: Problem, s: seq<nat>) {
    forall i :: 0 <= i < |s| ==> s[i] < p.Count()
  }

  /** The largest similarity to anything selected. */
  function Penalty(p: Problem, i: nat, selected: seq<nat>): real
    requires p.Valid() && i < p.Count() && AreIndices(p, selected) && selected != []
  {
    var last := p.Similarity(i, selected[|selected| - 1]);
    if |selected| == 1 then last
    else
      var rest := Penalty(p, i, selected[..|selected| - 1]);
      if last > rest then last else rest
  }

  lemma {:induction false} PenaltyIsMaximum(p: Problem, i: nat, selected: seq<nat>)
    requires p.Valid() && i < p.Count() && AreIndices(p, selected) && selected != []
    ensures forall j :: 0 <= j < |selected| ==> p.Similarity(i, selected[j]) <= Penalty(p, i, selected)
    ensures exists j :: 0 <= j < |selected| && p.Similarity(i, selected[j]) == Penalty(p, i, selected)
  {
    var last := |selected| - 1;
    if last > 0 {
      var init := selected[..last];
      PenaltyIsMaximum(p, i, init);
      var j :| 0 <= j < |init| && p.Similarity(i, init[j]) == Penalty(p, i, init);
      assert p.Similarity(i, selected[j]) == Penalty(p, i, init);
      forall j | 0 <= j < last ensures p.Similarity(i, selected[j]) <= Penalty(p, i, selected) {
        assert selected[j] == init[j];
      }
      assert p.Similarity(i, selected[last]) <= Penalty(p, i, selected);
    } else {
      assert p.Similarity(i, selected[0]) == Penalty(p, i, selected);
    }
  }

  /** The marginal score: plain relevance for the first choice, the weighted difference afterwards. */
  function Marginal(p: Problem, i: nat, selected: seq<nat>): real
    requires p.Valid() && i < p.Count() && AreIndices(p, selected)
  {
    if selected == [] then p.Relevance(i)
    else p.lambdaParam * p.Relevance(i) - (1.0 - p.lambdaParam) * Penalty(p, i, selected)
  }

  /** c is not yet chosen, and no other unchosen candidate scores more; among equals c is the earliest. */
  ghost predicate EarliestBest(p: Problem, selected: seq<nat>, c: nat)
    requires p.Valid() && AreIndices(p, selected)
  {
    && c < p.Count() && c !in selected
    && (forall i {:trigger Marginal(p, i, selected)} :: 0 <= i < p.Count() && i !in selected ==>
          && Marginal(p, i, selected) <= Marginal(p, c, selected)
          && (Marginal(p, i, selected) == Marginal(p, c, selected) ==> c <= i))
  }

  /** Every choice was the earliest best given the choices before it. */
  ghost predicate Greedy(p: Problem, s: seq<nat>)
    requires p.Valid()
  {
    && AreIndices(p, s)
    && (forall t :: 0 <= t < |s| ==> EarliestBest(p, s[..t], s[t]))
  }

  // ---------------------------------------------------------------- what a choice weighs

  /** The largest inner product of a candidate's embedding with those of the chosen. */
  ghost predicate Attains(p: Problem, i: nat, chosen: seq<nat>, m: real)
    requires p.Valid() && i < p.Count() && AreIndices(p, chosen)
  {
    && (exists j :: 0 <= j < |chosen| && Dot(p.embeddings[i], p.embeddings[chosen[j]]) == m)
    && (forall j :: 0 <= j < |chosen| ==> Dot(p.embeddings[i], p.embeddings[chosen[j]]) <= m)
  }

  /** What c gains over i in relevance to the query outweighs what it is more similar to the chosen, or they
      balance and c comes first. */
  ghost predicate Outweighs(p: Problem, chosen: seq<nat>, c: nat, i: nat)
    requires p.Valid() && c < p.Count() && i < p.Count() && AreIndices(p, chosen)
  {
    var gain := Dot(p.embeddings[c], p.query) - Dot(p.embeddings[i], p.query);
    if chosen == [] then gain > 0.0 || (gain == 0.0 && c <= i)
    else
      forall mc, mi :: Attains(p, c, chosen, mc) && Attains(p, i, chosen, mi) ==>
        Favours(p.lambdaParam, gain, mc - mi, c <= i)
  }

  /** The gain in relevance, weighted by lambda, against the excess in similarity, weighted by 1 - lambda. */
  predicate Favours(lambda: real, gain: real, excess: real, first: bool) {
    lambda * gain > (1.0 - lambda) * excess || (lambda * gain == (1.0 - lambda) * excess && first)
  }

  /** Every choice outweighs every candidate not yet chosen. */
  ghost predicate BestTrades(p: Problem, s: seq<nat>)
    requires p.Valid()
  {
    && AreIndices(p, s)
    && forall t: nat, i: nat {:trigger TradesAt(p, s, t, i)} :: t < |s| && i < p.Count() ==> TradesAt(p, s, t, i)
  }

  ghost predicate TradesAt(p: Problem, s: seq<nat>, t: nat, i: nat)
    requires p.Valid() && AreIndices(p, s) && t < |s| && i < p.Count()
  {
    s[t] !in s[..t] && (i !in s[..t] ==> Outweighs(p, s[..t], s[t], i))
  }

  lemma PenaltyAttained(p: Problem, i: nat, chosen: seq<nat>, m: real)
    requires p.Valid() && i < p.Count() && AreIndices(p, chosen) && chosen != [] && Attains(p, i, chosen, m)
    ensures Penalty(p, i, chosen) == m
  {
    PenaltyIsMaximum(p, i, chosen);
  }

  lemma HigherScoreFavours(lambda: real, rc: real, mc: real, x: real, ri: real, mi: real, y: real, first: bool)
    requires x == lambda * rc - (1.0 - lambda) * mc && y == lambda * ri - (1.0 - lambda) * mi
    requires x > y || (x == y && first)
    ensures Favours(lambda, rc - ri, mc - mi, first)
  {
    assert lambda * (rc - ri) == lambda * rc - lambda * ri;
    assert (1.0 - lambda) * (mc - mi) == (1.0 - lambda) * mc - (1.0 - lambda) * mi;
  }

  lemma ProductIsPositive(x: real, y: real)
    requires x > 0.0 && y > 0.0
    ensures x * y > 0.0
  {
  }

  lemma HigherMarginalFavours(p: Problem, chosen: seq<nat>, c: nat, i: nat)
    requires p.Valid() && AreIndices(p, chosen) && c < p.Count() && i < p.Count() && chosen != []
    requires Marginal(p, i, chosen) < Marginal(p, c, chosen)
             || (Marginal(p, i, chosen) == Marginal(p, c, chosen) && c <= i)
    ensures Favours(p.lambdaParam, p.Relevance(c) - p.Relevance(i), Penalty(p, c, chosen) - Penalty(p, i, chosen),
                    c <= i)
  {
    HigherScoreFavours(p.lambdaParam, p.Relevance(c), Penalty(p, c, chosen), Marginal(p, c, chosen), p.Relevance(i),
      Penalty(p, i, chosen), Marginal(p, i, chosen), c <= i);
  }

  lemma SameFavours(lambda: real, gain: real, excess: real, first: bool, gain': real, excess': real)
    requires Favours(lambda, gain, excess, first) && gain == gain' && excess == excess'
    ensures Favours(lambda, gain', excess', first)
  {
  }

  /** Where relevance cannot decide, similarity does, and the other way round. */
  lemma SimilarityDecides(lambda: real, gain: real, excess: real, first: bool)
    requires lambda == 0.0 || (0.0 <= lambda < 1.0 && gain == 0.0)
    requires Favours(lambda, gain, excess, first)
    ensures excess < 0.0 || (excess == 0.0 && first)
  {
    assert lambda * gain == 0.0;
    if excess > 0.0 { ProductIsPositive(1.0 - lambda, excess); }
    if excess == 0.0 { assert (1.0 - lambda) * excess == 0.0; }
  }

  lemma RelevanceDecides(lambda: real, gain: real, first: bool)
    requires 0.0 < lambda && Favours(lambda, gain, 0.0, first)
    ensures gain > 0.0 || (gain == 0.0 && first)
  {
    assert (1.0 - lambda) * 0.0 == 0.0;
    if gain < 0.0 { ProductIsPositive(lambda, -gain); }
    if gain == 0.0 { assert lambda * gain == 0.0; }
  }

  lemma ChoiceOutweighs(p: Problem, chosen: seq<nat>, c: nat, i: nat)
    requires p.Valid() && AreIndices(p, chosen) && EarliestBest(p, chosen, c) && i < p.Count() && i !in chosen
    ensures Outweighs(p, chosen, c, i)
  {
    assert Marginal(p, i, chosen) <= Marginal(p, c, chosen);
    if chosen != [] {
      HigherMarginalFavours(p, chosen, c, i);
      var gain, excess := p.Relevance(c) - p.Relevance(i), Penalty(p, c, chosen) - Penalty(p, i, chosen);
      forall mc, mi | Attains(p, c, chosen, mc) && Attains(p, i, chosen, mi)
        ensures Favours(p.lambdaParam, Dot(p.embeddings[c], p.query) - Dot(p.embeddings[i], p.query), mc - mi, c <= i)
      {
        PenaltyAttained(p, c, chosen, mc);
        PenaltyAttained(p, i, chosen, mi);
        SameFavours(p.lambdaParam, gain, excess, c <= i, gain, mc - mi);
      }
    }
  }

  lemma GreedyTrades(p: Problem, s: seq<nat>)
    requires p.Valid() && Greedy(p, s)
    ensures BestTrades(p, s)
  {
    forall t: nat, i: nat | t < |s| && i < p.Count() ensures TradesAt(p, s, t, i) {
      assert EarliestBest(p, s[..t], s[t]);
      if i !in s[..t] { ChoiceOutweighs(p, s[..t], s[t], i); }
    }
  }

  /** Among equally relevant candidates the one less similar to what is chosen comes first, unless
      diversity counts for nothing; and where only diversity counts, so among all. */
  lemma LessSimilarComesFirst(p: Problem, s: seq<nat>, t: nat, i: nat, mc: real, mi: real)
    requires p.Valid() && BestTrades(p, s) && 0 < t < |s| && i < p.Count() && i !in s[..t]
    requires Attains(p, s[t], s[..t], mc) && Attains(p, i, s[..t], mi)
    requires p.lambdaParam == 0.0 ||
             (p.lambdaParam < 1.0 && Dot(p.embeddings[s[t]], p.query) == Dot(p.embeddings[i], p.query))
    ensures mc < mi || (mc == mi && s[t] <= i)
  {
    assert TradesAt(p, s, t, i);
    var gain := Dot(p.embeddings[s[t]], p.query) - Dot(p.embeddings[i], p.query);
    SimilarityDecides(p.lambdaParam, gain, mc - mi, s[t] <= i);
  }

  /** Among equally similar candidates the more relevant one comes first, where relevance counts at all. */
  lemma MoreRelevantComesFirst(p: Problem, s: seq<nat>, t: nat, i: nat, m: real)
    requires p.Valid() && BestTrades(p, s) && t < |s| && i < p.Count() && i !in s[..t] && p.lambdaParam > 0.0
    requires t == 0 || (Attains(p, s[t], s[..t], m) && Attains(p, i, s[..t], m))
    ensures var gain := Dot(p.embeddings[s[t]], p.query) - Dot(p.embeddings[i], p.query);
            gain > 0.0 || (gain == 0.0 && s[t] <= i)
  {
    assert TradesAt(p, s, t, i);
    var gain := Dot(p.embeddings[s[t]], p.query) - Dot(p.embeddings[i], p.query);
    if t > 0 {
      RelevanceDecides(p.lambdaParam, gain, s[t] <= i);
    }
  }

  // ---------------------------------------------------------------- the loop

  /** The unchosen candidates in ascending order. */
  ghost predicate IsRemaining(p: Problem, remaining: seq<nat>, selected: seq<nat>) {
    && (forall i, j :: 0 <= i < j < |remaining| ==> remaining[i] < remaining[j])
    && (forall c: nat :: c in remaining <==> c < p.Count() && c !in selected)
  }

  /** numpy.argmax over the marginal scores of what remains: the first largest. */
  method ArgMax(p: Problem, remaining: seq<nat>, selected: seq<nat>) returns (best: nat)
    requires p.Valid() && remaining != [] && AreIndices(p, selected) && AreIndices(p, remaining)
    ensures best < |remaining|
    ensures forall j :: 0 <= j < |remaining| ==>
            Marginal(p, remaining[j], selected) <= Marginal(p, remaining[best], selected)
    ensures forall j :: 0 <= j < best ==> Marginal(p, remaining[j], selected) < Marginal(p, remaining[best], selected)
  {
    best := 0;
    var score := Marginal(p, remaining[0], selected);
    for j := 1 to |remaining|
      invariant best < j <= |remaining| && score == Marginal(p, remaining[best], selected)
      invariant forall i :: 0 <= i < j ==> Marginal(p, remaining[i], selected) <= score
      invariant forall i :: 0 <= i < best ==> Marginal(p, remaining[i], selected) < score
    {
      var marginal := Marginal(p, remaining[j], selected);
      if marginal > score {
        best, score := j, marginal;
      }
    }
  }

  function Range(n: nat): (s: seq<nat>)
    ensures |s| == n && forall i :: 0 <= i < n ==> s[i] == i
    ensures forall c: nat :: c in s <==> c < n
  {
    if n == 0 then [] else Range(n - 1) + [n - 1]
  }

  method Select(p: Problem, topK: nat) returns (selected: seq<nat>)
    requires p.Valid()
    ensures Greedy(p, selected) && BestTrades(p, selected)
    ensures |selected| == if topK < p.Count() then topK else p.Count()
    ensures forall i, j :: 0 <= i < j < |selected| ==> selected[i] != selected[j]
  {
    selected := [];
    var remaining: seq<nat> := Range(p.Count());
    while remaining != [] && |selected| < topK
      invariant Greedy(p, selected) && IsRemaining(p, remaining, selected)
      invariant |selected| + |remaining| == p.Count() && |selected| <= topK
      decreases |remaining|
    {
      assert AreIndices(p, remaining) by {
        forall i | 0 <= i < |remaining| ensures remaining[i] < p.Count() { assert remaining[i] in remaining; }
      }
      var best := ArgMax(p, remaining, selected);
      ChosenIsEarliestBest(p, remaining, selected, best);
      PopKeeps(p, remaining, selected, best);
      GreedyExtends(p, selected, remaining[best]);
      selected := selected + [remaining[best]];
      remaining := remaining[..best] + remaining[best + 1..];
    }
    GreedyIsDistinct(p, selected);
    GreedyTrades(p, selected);
  }

  lemma ChosenIsEarliestBest(p: Problem, remaining: seq<nat>, selected: seq<nat>, best: nat)
    requires p.Valid() && AreIndices(p, selected) && AreIndices(p, remaining) && best < |remaining|
    requires IsRemaining(p, remaining, selected)
    requires forall j :: 0 <= j < |remaining| ==>
            Marginal(p, remaining[j], selected) <= Marginal(p, remaining[best], selected)
    requires forall j :: 0 <= j < best ==> Marginal(p, remaining[j], selected) < Marginal(p, remaining[best], selected)
    ensures EarliestBest(p, selected, remaining[best])
  {
    var c := remaining[best];
    assert c in remaining;
    forall i | 0 <= i < p.Count() && i !in selected
      ensures Marginal(p, i, selected) <= Marginal(p, c, selected)
      ensures Marginal(p, i, selected) == Marginal(p, c, selected) ==> c <= i
    {
      assert i in remaining;
      var j :| 0 <= j < |remaining| && remaining[j] == i;
      assert j > best ==> c < i;
    }
  }

  lemma PopKeeps(p: Problem, remaining: seq<nat>, selected: seq<nat>, best: nat)
    requires best < |remaining| && IsRemaining(p, remaining, selected)
    ensures IsRemaining(p, remaining[..best] + remaining[best + 1..], selected + [remaining[best]])
  {
    var rest, chosen := remaining[..best] + remaining[best + 1..], selected + [remaining[best]];
    forall c: nat ensures c in rest <==> c < p.Count() && c !in chosen {
      assert c in remaining <==> c < p.Count() && c !in selected;
      assert c in chosen <==> c in selected || c == remaining[best];
      if c in remaining && c != remaining[best] {
        var j :| 0 <= j < |remaining| && remaining[j] == c;
        assert rest[if j < best then j else j - 1] == c;
      }
      if c in rest {
        var j :| 0 <= j < |rest| && rest[j] == c;
        assert remaining[if j < best then j else j + 1] == c;
      }
    }
  }

  lemma GreedyExtends(p: Problem, selected: seq<nat>, c: nat)
    requires p.Valid() && Greedy(p, selected) && EarliestBest(p, selected, c)
    ensures Greedy(p, selected + [c])
  {
    var s := selected + [c];
    forall t | 0 <= t < |s| ensures EarliestBest(p, s[..t], s[t]) {
      assert s[..t] == selected[..t];
      assert selected[..|selected|] == selected;
    }
  }

  lemma GreedyIsDistinct(p: Problem, s: seq<nat>)
    requires p.Valid() && Greedy(p, s)
    ensures forall i, j :: 0 <= i < j < |s| ==> s[i] != s[j]
  {
    forall i, j | 0 <= i < j < |s| ensures s[i] != s[j] {
      assert EarliestBest(p, s[..j], s[j]);
      assert s[..j][i] == s[i];
    }
  }

  /** Selection with the argument checks, in their order. */
  method MmrSelect(query: seq<real>, embeddings: seq<seq<real>>, topK: int, lambdaParam: real)
    returns (r: Result<seq<nat>, MmrError>)
    ensures topK < 0 ==> r == Err(NegativeTopK)
    ensures 0 <= topK && !(0.0 <= lambdaParam <= 1.0) ==> r == Err(LambdaOutOfRange)
    ensures 0 <= topK && 0.0 <= lambdaParam <= 1.0 && (embeddings == [] || topK == 0) ==> r == Ok([])
    ensures 0 < topK && 0.0 <= lambdaParam <= 1.0 && embeddings != [] ==>
              var p := Problem(query, embeddings, lambdaParam);
              if p.Valid() then
                && r.Ok? && Greedy(p, r.value) && BestTrades(p, r.value)
                && |r.value| == if topK < |embeddings| then topK else |embeddings|
              else r == Err(DimensionMismatch)
  {
    if topK < 0 {
      return Err(NegativeTopK);
    }
    if !(0.0 <= lambdaParam <= 1.0) {
      return Err(LambdaOutOfRange);
    }
    if embeddings == [] || topK == 0 {
      return Ok([]);
    }
    if i :| 0 <= i < |embeddings| && |embeddings[i]| != |query| {
      return Err(DimensionMismatch);
    }
    var selected := Select(Problem(query, embeddings, lambdaParam), topK);
    return Ok(selected);
  }

  // ---------------------------------------------------------------- what greedy selection means

  /** Two greedy selections agree as far as both go: asking for more never changes what came first. */
  lemma {:induction false} LargerTopKExtends(p: Problem, s: seq<nat>, s': seq<nat>)
    requires p.Valid() && Greedy(p, s) && Greedy(p, s') && |s| <= |s'|
    ensures s == s'[..|s|]
  {
    if s != [] {
      var n := |s| - 1;
      GreedyPrefix(p, s, n);
      LargerTopKExtends(p, s[..n], s');
      assert s'[..n] == s[..n];
      assert EarliestBest(p, s[..n], s[n]) && EarliestBest(p, s'[..n], s'[n]);
      assert Marginal(p, s'[n], s[..n]) <= Marginal(p, s[n], s[..n]);
      assert Marginal(p, s[n], s[..n]) <= Marginal(p, s'[n], s[..n]);
    }
  }

  lemma GreedyPrefix(p: Problem, s: seq<nat>, n: nat)
    requires p.Valid() && Greedy(p, s) && n <= |s|
    ensures Greedy(p, s[..n])
  {
    forall t | 0 <= t < n ensures EarliestBest(p, s[..n][..t], s[..n][t]) {
      assert s[..n][..t] == s[..t];
    }
  }

  /** Descending relevance, for a stable sort. */
  function MoreRelevant(p: Problem): (nat, nat) -> bool
    requires p.Valid()
  {
    (i: nat, j: nat) => i < p.Count() && j < p.Count() && p.Relevance(i) > p.Relevance(j)
  }

  /** The order a stable descending sort gives positions: more relevant first, equals in place. */
  function Ahead(p: Problem): (nat, nat) -> bool
    requires p.Valid()
  {
    (i: nat, j: nat) =>
      && i < p.Count() && j < p.Count()
      && (p.Relevance(i) > p.Relevance(j) || (p.Relevance(i) == p.Relevance(j) && i < j))
  }

  lemma AheadTransitive(p: Problem)
    requires p.Valid()
    ensures Transitive(Ahead(p))
  {
    var ahead := Ahead(p);
    forall x: nat, y: nat, z: nat | ahead(x, y) && ahead(y, z) ensures ahead(x, z) { }
  }

  lemma InsertLast(p: Problem, last: nat, sorted: seq<nat>)
    requires p.Valid() && last < p.Count() && SortedBy(sorted, Ahead(p))
    requires forall i :: 0 <= i < |sorted| ==> sorted[i] < last
    ensures SortedBy(Insert<nat>(last, sorted, MoreRelevant(p)), Ahead(p))
  {
    AheadTransitive(p);
    InsertSorted<nat>(last, sorted, MoreRelevant(p), Ahead(p));
  }

  lemma SortOneMore(n: nat, less: (nat, nat) -> bool)
    requires 0 < n
    ensures StableSort<nat>(Range(n), less) == Insert<nat>(n - 1, StableSort<nat>(Range(n - 1), less), less)
  {
    assert Range(n)[..n - 1] == Range(n - 1);
  }

  /** Sorting the positions gives each of them back once. */
  lemma SortOfRange(n: nat, less: (nat, nat) -> bool)
    ensures |StableSort<nat>(Range(n), less)| == n
    ensures forall c: nat :: c in StableSort<nat>(Range(n), less) <==> c < n
  {
    SortKeeps<nat>(Range(n), less);
    forall c: nat ensures c in StableSort<nat>(Range(n), less) <==> c < n {
      assert c in StableSort<nat>(Range(n), less) <==> c in multiset(StableSort<nat>(Range(n), less));
      assert c in Range(n) <==> c in multiset(Range(n));
    }
  }

  /** Sorting one position more keeps the order. */
  lemma SortedStep(p: Problem, n: nat, sorted: seq<nat>)
    requires p.Valid() && n < p.Count() && SortedBy(sorted, Ahead(p))
    requires sorted == StableSort<nat>(Range(n), MoreRelevant(p))
    ensures SortedBy(Insert<nat>(n, sorted, MoreRelevant(p)), Ahead(p))
  {
    SortOfRange(n, MoreRelevant(p));
    forall i | 0 <= i < |sorted| ensures sorted[i] < n { assert sorted[i] in sorted; }
    InsertLast(p, n, sorted);
  }

  lemma {:induction false} SortedByRelevance(p: Problem, n: nat)
    requires p.Valid() && n <= p.Count()
    ensures SortedBy(StableSort<nat>(Range(n), MoreRelevant(p)), Ahead(p))
  {
    if n > 0 {
      SortedByRelevance(p, n - 1);
      SortedStep(p, n - 1, StableSort<nat>(Range(n - 1), MoreRelevant(p)));
      SortOneMore(n, MoreRelevant(p));
    }
  }

  lemma RelevanceOnly(p: Problem, i: nat, selected: seq<nat>)
    requires p.Valid() && i < p.Count() && AreIndices(p, selected) && p.lambdaParam == 1.0
    ensures Marginal(p, i, selected) == p.Relevance(i)
  {
    if selected != [] { assert (1.0 - p.lambdaParam) * Penalty(p, i, selected) == 0.0; }
  }

  lemma StableSortIsGreedy(p: Problem)
    requires p.Valid() && p.lambdaParam == 1.0
    ensures Greedy(p, StableSort<nat>(Range(p.Count()), MoreRelevant(p)))
    ensures |StableSort<nat>(Range(p.Count()), MoreRelevant(p))| == p.Count()
  {
    var n := p.Count();
    var s := StableSort<nat>(Range(n), MoreRelevant(p));
    SortedByRelevance(p, n);
    SortOfRange(n, MoreRelevant(p));
    forall i | 0 <= i < |s| ensures s[i] < n { assert s[i] in s; }
    forall t | 0 <= t < |s| ensures EarliestBest(p, s[..t], s[t]) {
      SortedHeadIsBest(p, s, t);
    }
  }

  lemma SortedHeadIsBest(p: Problem, s: seq<nat>, t: nat)
    requires p.Valid() && p.lambdaParam == 1.0 && AreIndices(p, s) && t < |s|
    requires SortedBy(s, Ahead(p)) && forall c: nat :: c < p.Count() ==> c in s
    ensures EarliestBest(p, s[..t], s[t])
  {
    var before := s[..t];
    forall j | 0 <= j < t ensures s[j] != s[t] && s[j] in before {
      assert Ahead(p)(s[j], s[t]);
      assert before[j] == s[j];
    }
    RelevanceOnly(p, s[t], before);
    forall i | 0 <= i < p.Count() && i !in before
      ensures Marginal(p, i, before) <= Marginal(p, s[t], before)
      ensures Marginal(p, i, before) == Marginal(p, s[t], before) ==> s[t] <= i
    {
      RelevanceOnly(p, i, before);
      assert i in s;
      var j :| 0 <= j < |s| && s[j] == i;
      assert j > t ==> Ahead(p)(s[t], s[j]);
    }
  }

  /** With lambda 1 diversity counts for nothing: the selection is the front of a stable descending
      sort by relevance. */
  lemma LambdaOneIsStableSort(p: Problem, s: seq<nat>)
    requires p.Valid() && p.lambdaParam == 1.0 && Greedy(p, s) && |s| <= p.Count()
    ensures s <= StableSort<nat>(Range(p.Count()), MoreRelevant(p))
  {
    StableSortIsGreedy(p);
    LargerTopKExtends(p, s, StableSort<nat>(Range(p.Count()), MoreRelevant(p)));
  }
}
