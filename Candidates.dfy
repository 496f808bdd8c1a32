/** The candidate, aggregate and rank structure shared by the genre-based
    and the collaborative engine: per seed, a top-k selection over one row
    of similarities; a dictionary keeping each candidate's best similarity;
    a popularity tie-break; a stable descending sort and a truncation. */
module Candidates {
  import opened Tables
  import opened StableSort

  /** What `np.argpartition(-sims, kth=k)[:k]` returns: `k` distinct
      positions of `sims` whose values are at least every value left out.
      Which of several tied positions it picks is up to the library. */
  ghost predicate IsTopK(sims: seq<real>, top: seq<nat>, k: nat) {
    && |top| == k
    && (forall p :: 0 <= p < |top| ==> top[p] < |sims|)
    && (forall p, q :: 0 <= p < q < |top| ==> top[p] != top[q])
    && (forall p, j :: 0 <= p < |top| && 0 <= j < |sims| && j !in top ==> sims[j] <= sims[top[p]])
  }

  /** The selector stands for `argpartition`: on every row and every count it
      can honour, it returns a top-k selection. */
  ghost predicate ValidSelector(topK: (seq<real>, nat) -> seq<nat>) {
    forall sims: seq<real>, k: nat :: k <= |sims| ==> IsTopK(sims, topK(sims, k), k)
  }

  /** One selected position of one seed's row: the movie there and its similarity. */
  datatype Nomination = Nomination(movieId: int, sim: real)

  /** The `p`-th position `j` that the selector picks from `sims`:
      `mid = movie_ids[j]; s = sims[j]`. */
  function Pick(sims: seq<real>, p: nat, k: nat, topK: (seq<real>, nat) -> seq<nat>, movieIds: seq<int>): (nm: Nomination)
    requires ValidSelector(topK)
    requires |sims| == |movieIds| && p < k <= |sims|
    ensures nm.movieId in movieIds
  {
    assert IsTopK(sims, topK(sims, k), k);
    var j := topK(sims, k)[p];
    Nomination(movieIds[j], sims[j])
  }

  /** Each seed's selection: `k` distinct positions, and every position
      left out has a similarity no higher than any selected one. */
  lemma PickIsTop(sims: seq<real>, k: nat, topK: (seq<real>, nat) -> seq<nat>, movieIds: seq<int>)
    requires ValidSelector(topK)
    requires |sims| == |movieIds| && k <= |sims|
    ensures |topK(sims, k)| == k
    ensures forall p, q :: 0 <= p < q < k ==> topK(sims, k)[p] != topK(sims, k)[q]
    ensures forall p, j :: 0 <= p < k && 0 <= j < |sims| && j !in topK(sims, k) ==>
      sims[j] <= Pick(sims, p, k, topK, movieIds).sim
  {
    assert IsTopK(sims, topK(sims, k), k);
  }

  /** The inner loop's visits for one seed. */
  function SeedNominations(sims: seq<real>, k: nat, topK: (seq<real>, nat) -> seq<nat>, movieIds: seq<int>): (ns: seq<Nomination>)
    requires ValidSelector(topK)
    requires |sims| == |movieIds| && k <= |sims|
    ensures |ns| == k
    ensures forall p :: 0 <= p < k ==> ns[p] == Pick(sims, p, k, topK, movieIds)
  {
    seq(k, p requires 0 <= p < k => Pick(sims, p, k, topK, movieIds))
  }

  /** Every nomination of the seeds whose similarity rows are `simRows`, in
      the order the two nested loops visit them. */
  function AllNominations(simRows: seq<seq<real>>, k: nat, topK: (seq<real>, nat) -> seq<nat>, movieIds: seq<int>): (ns: seq<Nomination>)
    requires ValidSelector(topK)
    requires k <= |movieIds|
    requires forall i :: 0 <= i < |simRows| ==> |simRows[i]| == |movieIds|
    ensures |ns| == |simRows| * k
    decreases |simRows|
  {
    if simRows == [] then []
    else
      var init := simRows[..|simRows| - 1];
      AllNominations(init, k, topK, movieIds) + SeedNominations(simRows[|simRows| - 1], k, topK, movieIds)
  }

  /** Every selected position of every seed is nominated. */
  lemma {:induction false} AllNominationsCover(simRows: seq<seq<real>>, k: nat, topK: (seq<real>, nat) -> seq<nat>, movieIds: seq<int>)
    requires ValidSelector(topK)
    requires k <= |movieIds|
    requires forall i :: 0 <= i < |simRows| ==> |simRows[i]| == |movieIds|
    ensures forall i, p :: 0 <= i < |simRows| && 0 <= p < k ==>
      Pick(simRows[i], p, k, topK, movieIds) in AllNominations(simRows, k, topK, movieIds)
    decreases |simRows|
  {
    if simRows != [] {
      var init := simRows[..|simRows| - 1];
      AllNominationsCover(init, k, topK, movieIds);
      var prev := AllNominations(init, k, topK, movieIds);
      var tail := SeedNominations(simRows[|simRows| - 1], k, topK, movieIds);
      forall i, p | 0 <= i < |simRows| && 0 <= p < k
        ensures Pick(simRows[i], p, k, topK, movieIds) in prev + tail
      {
        if i < |init| {
          assert init[i] == simRows[i];
          assert Pick(init[i], p, k, topK, movieIds) in prev;
        } else {
          assert tail[p] == Pick(simRows[i], p, k, topK, movieIds);
        }
      }
    }
  }

  /** `nm` is position `p` of some seed `i`'s selection. */
  ghost predicate SelectedBySomeSeed(simRows: seq<seq<real>>, k: nat, topK: (seq<real>, nat) -> seq<nat>,
                                     movieIds: seq<int>, nm: Nomination)
    requires ValidSelector(topK)
    requires k <= |movieIds|
    requires forall i :: 0 <= i < |simRows| ==> |simRows[i]| == |movieIds|
  {
    exists i, p :: 0 <= i < |simRows| && 0 <= p < k && nm == Pick(simRows[i], p, k, topK, movieIds)
  }

  /** Nothing but selected positions is nominated. */
  lemma AllNominationsOnly(simRows: seq<seq<real>>, k: nat, topK: (seq<real>, nat) -> seq<nat>, movieIds: seq<int>)
    requires ValidSelector(topK)
    requires k <= |movieIds|
    requires forall i :: 0 <= i < |simRows| ==> |simRows[i]| == |movieIds|
    ensures forall q :: 0 <= q < |AllNominations(simRows, k, topK, movieIds)| ==>
      SelectedBySomeSeed(simRows, k, topK, movieIds, AllNominations(simRows, k, topK, movieIds)[q])
  {
    forall q | 0 <= q < |AllNominations(simRows, k, topK, movieIds)|
      ensures SelectedBySomeSeed(simRows, k, topK, movieIds, AllNominations(simRows, k, topK, movieIds)[q])
    {
      var i, p := NominationSource(simRows, k, topK, movieIds, q);
      assert AllNominations(simRows, k, topK, movieIds)[q] == Pick(simRows[i], p, k, topK, movieIds);
    }
  }

  /** The `q`-th nomination is position `p` of seed `i`'s selection. */
  lemma {:induction false} NominationSource(simRows: seq<seq<real>>, k: nat, topK: (seq<real>, nat) -> seq<nat>,
                                            movieIds: seq<int>, q: nat) returns (i: nat, p: nat)
    requires ValidSelector(topK)
    requires k <= |movieIds|
    requires forall i :: 0 <= i < |simRows| ==> |simRows[i]| == |movieIds|
    requires q < |AllNominations(simRows, k, topK, movieIds)|
    ensures i < |simRows| && p < k
    ensures AllNominations(simRows, k, topK, movieIds)[q] == Pick(simRows[i], p, k, topK, movieIds)
    decreases |simRows|
  {
    var init := simRows[..|simRows| - 1];
    var prev := AllNominations(init, k, topK, movieIds);
    var tail := SeedNominations(simRows[|simRows| - 1], k, topK, movieIds);
    assert AllNominations(simRows, k, topK, movieIds) == prev + tail;
    if q < |prev| {
      i, p := NominationSource(init, k, topK, movieIds, q);
      assert init[i] == simRows[i];
    } else {
      i, p := |simRows| - 1, q - |prev|;
      assert tail[p] == Pick(simRows[i], p, k, topK, movieIds);
    }
  }

  /** A Python dict from movie id to best similarity: its keys in insertion
      order, and the value of each key. */
  datatype BestSims = BestSims(keys: seq<int>, best: map<int, real>)

  ghost predicate WellFormed(d: BestSims) {
    && (forall p, q :: 0 <= p < q < |d.keys| ==> d.keys[p] != d.keys[q])
    && (forall x :: x in d.best <==> x in d.keys)
  }

  /** One step of the inner loop: an excluded id is skipped; a new id is
      inserted at the end; a known id is overwritten (keeping its place)
      only by a strictly larger similarity. */
  function Offer(d: BestSims, nm: Nomination, exclude: set<int>): (r: BestSims)
    ensures nm.movieId in exclude ==> r == d
    ensures nm.movieId !in exclude ==>
      && nm.movieId in r.best && r.best[nm.movieId] >= nm.sim
      && (nm.movieId in d.best ==> r.best[nm.movieId] >= d.best[nm.movieId])
      && (r.best[nm.movieId] == nm.sim || (nm.movieId in d.best && r.best[nm.movieId] == d.best[nm.movieId]))
    ensures forall x :: x != nm.movieId ==> (x in r.best <==> x in d.best)
    ensures forall x :: x != nm.movieId && x in d.best ==> r.best[x] == d.best[x]
    ensures |d.keys| <= |r.keys| <= |d.keys| + 1 && r.keys[..|d.keys|] == d.keys
    ensures WellFormed(d) ==> WellFormed(r)
  {
    if nm.movieId in exclude then d
    else if nm.movieId !in d.best then BestSims(d.keys + [nm.movieId], d.best[nm.movieId := nm.sim])
    else if nm.sim > d.best[nm.movieId] then BestSims(d.keys, d.best[nm.movieId := nm.sim])
    else d
  }

  function OfferAll(d: BestSims, ns: seq<Nomination>, exclude: set<int>): (r: BestSims)
    ensures |d.keys| <= |r.keys| && r.keys[..|d.keys|] == d.keys
    ensures WellFormed(d) ==> WellFormed(r)
    ensures forall x :: x in r.best && x !in d.best ==> x !in exclude
    decreases |ns|
  {
    if ns == [] then d
    else
      var prev := OfferAll(d, ns[..|ns| - 1], exclude);
      var r := Offer(prev, ns[|ns| - 1], exclude);
      assert r.keys[..|d.keys|] == prev.keys[..|prev.keys|][..|d.keys|];
      r
  }

  lemma {:induction false} OfferAllAppend(d: BestSims, a: seq<Nomination>, b: seq<Nomination>, exclude: set<int>)
    ensures OfferAll(d, a + b, exclude) == OfferAll(OfferAll(d, a, exclude), b, exclude)
    decreases |b|
  {
    if b == [] {
      assert a + b == a;
    } else {
      var b0 := b[..|b| - 1];
      assert (a + b)[..|a + b| - 1] == a + b0;
      assert (a + b)[|a + b| - 1] == b[|b| - 1];
      OfferAllAppend(d, a, b0, exclude);
    }
  }

  /** Offering keeps the dictionary well formed, only appends keys, adds
      exactly the non-excluded ids offered, and never lowers a value. */
  lemma {:induction false} OfferAllKeys(d: BestSims, ns: seq<Nomination>, exclude: set<int>)
    requires WellFormed(d)
    ensures var r := OfferAll(d, ns, exclude);
      && WellFormed(r)
      && d.keys <= r.keys
      && (forall x :: x in r.best <==> x in d.best || (x !in exclude && exists q :: 0 <= q < |ns| && ns[q].movieId == x))
    decreases |ns|
  {
    if ns != [] {
      var init := ns[..|ns| - 1];
      OfferAllKeys(d, init, exclude);
      var prev := OfferAll(d, init, exclude);
      var last := ns[|ns| - 1];
      var r := Offer(prev, last, exclude);
      forall x
        ensures x in r.best <==> x in d.best || (x !in exclude && exists q :: 0 <= q < |ns| && ns[q].movieId == x)
      {
        if x == last.movieId {
          assert ns[|ns| - 1].movieId == x;
        } else {
          if exists q :: 0 <= q < |ns| && ns[q].movieId == x {
            var q :| 0 <= q < |ns| && ns[q].movieId == x;
            assert init[q].movieId == x;
          }
          if exists q :: 0 <= q < |init| && init[q].movieId == x {
            var q :| 0 <= q < |init| && init[q].movieId == x;
            assert ns[q].movieId == x;
          }
        }
      }
    }
  }

  /** Starting from a dictionary without excluded ids: every non-excluded
      id offered gets a value, no excluded id ever does, each value is the
      largest similarity offered for its id (or kept from `d`), and it was
      offered (or kept). */
  lemma {:induction false} OfferAllMax(d: BestSims, ns: seq<Nomination>, exclude: set<int>)
    requires forall x :: x in d.best ==> x !in exclude
    ensures var r := OfferAll(d, ns, exclude);
      && (forall x :: x in r.best ==> x !in exclude)
      && (forall x :: x in d.best ==> x in r.best && d.best[x] <= r.best[x])
      && (forall q :: 0 <= q < |ns| && ns[q].movieId !in exclude ==>
            ns[q].movieId in r.best && ns[q].sim <= r.best[ns[q].movieId])
      && (forall x :: x in r.best ==>
            (x in d.best && r.best[x] == d.best[x]) || exists q :: 0 <= q < |ns| && ns[q] == Nomination(x, r.best[x]))
    decreases |ns|
  {
    if ns != [] {
      var init := ns[..|ns| - 1];
      OfferAllMax(d, init, exclude);
      var prev := OfferAll(d, init, exclude);
      var last := ns[|ns| - 1];
      var r := Offer(prev, last, exclude);
      assert forall x :: x in prev.best ==> x in r.best && prev.best[x] <= r.best[x];
      forall q | 0 <= q < |ns| && ns[q].movieId !in exclude
        ensures ns[q].movieId in r.best && ns[q].sim <= r.best[ns[q].movieId]
      {
        if q < |init| {
          assert init[q] == ns[q];
        }
      }
      forall x | x in r.best
        ensures (x in d.best && r.best[x] == d.best[x]) || exists q :: 0 <= q < |ns| && ns[q] == Nomination(x, r.best[x])
      {
        if x in prev.best && r.best[x] == prev.best[x] {
          if !(x in d.best && prev.best[x] == d.best[x]) {
            var q :| 0 <= q < |init| && init[q] == Nomination(x, prev.best[x]);
            assert ns[q] == init[q];
          }
        } else {
          assert ns[|ns| - 1] == Nomination(x, r.best[x]);
        }
      }
    }
  }

  /** The `items` list: `(sim + 0.05 * pop_scaled[idx_map[mid]], sim, mid)`
      for each key in dictionary order. */
  datatype Ranked = Ranked(final: real, sim: real, movieId: int)

  /** The weight of the popularity tie-break. */
  const TieBreakWeight: real := 0.05

  function ScoreItems(d: BestSims, pop: seq<real>, idx: map<int, nat>): (items: seq<Ranked>)
    requires forall x :: x in d.keys ==> x in d.best && x in idx && idx[x] < |pop|
    ensures |items| == |d.keys|
    ensures forall p :: 0 <= p < |items| ==> items[p].movieId == d.keys[p] && items[p].sim == d.best[d.keys[p]]
    ensures forall p :: 0 <= p < |items| ==> items[p].final == items[p].sim + TieBreakWeight * pop[idx[d.keys[p]]]
    ensures WellFormed(d) ==> DistinctIds(items)
  {
    seq(|d.keys|, p requires 0 <= p < |d.keys| =>
      var mid := d.keys[p];
      Ranked(d.best[mid] + TieBreakWeight * pop[idx[mid]], d.best[mid], mid))
  }

  predicate FinalAtLeast(a: Ranked, b: Ranked) {
    a.final >= b.final
  }

  ghost predicate DistinctIds(items: seq<Ranked>) {
    forall p, q :: 0 <= p < q < |items| ==> items[p].movieId != items[q].movieId
  }

  /** Any permutation of items with distinct ids has distinct ids. */
  lemma DistinctIdsPermutation(items: seq<Ranked>, perm: seq<Ranked>)
    requires DistinctIds(items)
    requires multiset(perm) == multiset(items)
    ensures DistinctIds(perm)
  {
    assert Distinct(items) by {
      forall p, q | 0 <= p < q < |items| ensures items[p] != items[q] {
        assert items[p].movieId != items[q].movieId;
      }
    }
    DistinctOnce(items);
    OnceDistinct(perm);
    forall p, q | 0 <= p < q < |perm|
      ensures perm[p].movieId != perm[q].movieId
    {
      assert perm[p] != perm[q];
      assert perm[p] in multiset(items) && perm[q] in multiset(items);
      var a :| 0 <= a < |items| && items[a] == perm[p];
      var b :| 0 <= b < |items| && items[b] == perm[q];
      assert a != b;
    }
  }

  /** `items.sort(reverse=True, key=lambda x: x[0])` then `items[:n]`. */
  function Rank(items: seq<Ranked>, n: nat): (top: seq<Ranked>)
    ensures |top| == Min(n, |items|)
    ensures forall p :: 0 <= p < |top| ==> top[p] in items
  {
    var sorted := SortBy(items, FinalAtLeast);
    assert forall p :: 0 <= p < |sorted| ==> sorted[p] in multiset(items);
    Take(sorted, n)
  }

  /** `pop.reindex(movie_ids, fill_value=0)`: the rating count of the movie at each position. */
  function PopCounts(movieIds: seq<int>, ratings: seq<Rating>): (pop: seq<nat>)
    ensures |pop| == |movieIds|
    ensures forall j :: 0 <= j < |movieIds| ==> pop[j] == RatingCount(ratings, movieIds[j])
  {
    seq(|movieIds|, j requires 0 <= j < |movieIds| => RatingCount(ratings, movieIds[j]))
  }

  /** `pop.max()` (0 for no positions). */
  function MaxOf(xs: seq<nat>): (m: nat)
    ensures forall j :: 0 <= j < |xs| ==> xs[j] <= m
    ensures xs == [] ==> m == 0
    ensures xs != [] ==> exists j :: 0 <= j < |xs| && xs[j] == m
    decreases |xs|
  {
    if xs == [] then 0
    else
      var m := MaxOf(xs[..|xs| - 1]);
      assert forall j :: 0 <= j < |xs| - 1 ==> xs[..|xs| - 1][j] == xs[j];
      if xs[|xs| - 1] > m then xs[|xs| - 1] else m
  }

  /** `pop / (pop.max() if pop.max() > 0 else 1.0)`. */
  function PopScaled(movieIds: seq<int>, ratings: seq<Rating>): (ps: seq<real>)
    ensures |ps| == |movieIds|
  {
    var pop := PopCounts(movieIds, ratings);
    var m := MaxOf(pop);
    var denom: real := if m > 0 then m as real else 1.0;
    seq(|pop|, j requires 0 <= j < |pop| => pop[j] as real / denom)
  }

  lemma FractionBounds(a: real, b: real)
    requires 0.0 <= a <= b && 0.0 < b
    ensures 0.0 <= a / b <= 1.0
    ensures a == b ==> a / b == 1.0
  {
  }

  /** Every scaled popularity lies in [0, 1]. */
  lemma PopScaledInUnit(movieIds: seq<int>, ratings: seq<Rating>)
    ensures |PopScaled(movieIds, ratings)| == |movieIds|
    ensures forall j :: 0 <= j < |movieIds| ==> 0.0 <= PopScaled(movieIds, ratings)[j] <= 1.0
  {
    var pop := PopCounts(movieIds, ratings);
    var m := MaxOf(pop);
    var denom: real := if m > 0 then m as real else 1.0;
    var ps := PopScaled(movieIds, ratings);
    assert forall j :: 0 <= j < |ps| ==> ps[j] == pop[j] as real / denom;
    forall j | 0 <= j < |ps|
      ensures 0.0 <= ps[j] <= 1.0
    {
      assert pop[j] <= m;
      FractionBounds(pop[j] as real, denom);
    }
  }

  /** Every scaled popularity is its count over the largest count and lies
      in [0, 1]; the most-rated movie scores exactly 1; with no ratings for
      any catalog movie every entry is 0. */
  lemma PopScaledBounds(movieIds: seq<int>, ratings: seq<Rating>)
    ensures |PopScaled(movieIds, ratings)| == |movieIds|
    ensures forall j :: 0 <= j < |movieIds| ==> 0.0 <= PopScaled(movieIds, ratings)[j] <= 1.0
    ensures MaxOf(PopCounts(movieIds, ratings)) > 0 ==>
      forall j :: 0 <= j < |movieIds| ==>
        PopScaled(movieIds, ratings)[j] == RatingCount(ratings, movieIds[j]) as real / MaxOf(PopCounts(movieIds, ratings)) as real
    ensures MaxOf(PopCounts(movieIds, ratings)) > 0 ==>
      exists j :: 0 <= j < |movieIds| && PopScaled(movieIds, ratings)[j] == 1.0
    ensures MaxOf(PopCounts(movieIds, ratings)) == 0 ==>
      forall j :: 0 <= j < |movieIds| ==> PopScaled(movieIds, ratings)[j] == 0.0
  {
    var pop := PopCounts(movieIds, ratings);
    var m := MaxOf(pop);
    var denom: real := if m > 0 then m as real else 1.0;
    var ps := PopScaled(movieIds, ratings);
    PopScaledInUnit(movieIds, ratings);
    assert forall j :: 0 <= j < |ps| ==> ps[j] == pop[j] as real / denom;
    if m > 0 {
      var j :| 0 <= j < |pop| && pop[j] == m;
      assert ps[j] == m as real / m as real;
      FractionBounds(m as real, m as real);
      assert ps[j] == 1.0;
    } else {
      forall j | 0 <= j < |ps|
        ensures ps[j] == 0.0
      {
        assert pop[j] == 0;
      }
    }
  }

  datatype Explanation =
    | SimilarGenres(sim: real)     // "Similar genres to your picks (genre cosine sim=...)"
    | SimilarRaters(sim: real)     // "Collaborative filtering: users who rated your picks similarly ..."

  /** One recommendation as both engines emit it. */
  datatype Rec = Rec(movieId: int, title: string, score: real, explanation: Explanation)

  /** Which engine's explanation to attach. */
  datatype Engine = GenreEngine | RaterEngine

  function Explain(engine: Engine, sim: real): (e: Explanation)
    ensures e.sim == sim
  {
    match engine
    case GenreEngine => SimilarGenres(sim)
    case RaterEngine => SimilarRaters(sim)
  }

  /** The output loop over `top`. */
  function Present(top: seq<Ranked>, titles: map<int, string>, engine: Engine): (recs: seq<Rec>)
    ensures |recs| == |top|
    ensures forall p :: 0 <= p < |top| ==>
      recs[p] == Rec(top[p].movieId, TitleOr(titles, top[p].movieId), top[p].final, Explain(engine, top[p].sim))
  {
    seq(|top|, p requires 0 <= p < |top| =>
      Rec(top[p].movieId, TitleOr(titles, top[p].movieId), top[p].final, Explain(engine, top[p].sim)))
  }

  /** The ranked output has `n` entries, or every candidate when there are
      fewer, in non-increasing order of final score. */
  lemma RankedOrder(d: BestSims, pop: seq<real>, idx: map<int, nat>, n: nat, titles: map<int, string>, engine: Engine)
    requires forall x :: x in d.keys ==> x in d.best && x in idx && idx[x] < |pop|
    ensures |Present(Rank(ScoreItems(d, pop, idx), n), titles, engine)| == if n <= |d.keys| then n else |d.keys|
    ensures forall p, q :: 0 <= p < q < |Present(Rank(ScoreItems(d, pop, idx), n), titles, engine)| ==> Present(Rank(ScoreItems(d, pop, idx), n), titles, engine)[p].score >= Present(Rank(ScoreItems(d, pop, idx), n), titles, engine)[q].score
  {
    TakeSortedBest(ScoreItems(d, pop, idx), n, FinalAtLeast);
  }

  /** No movie appears twice in the ranked output. */
  lemma RankedDistinct(d: BestSims, pop: seq<real>, idx: map<int, nat>, n: nat, titles: map<int, string>, engine: Engine)
    requires WellFormed(d)
    requires forall x :: x in d.keys ==> x in idx && idx[x] < |pop|
    ensures forall p, q :: 0 <= p < q < |Present(Rank(ScoreItems(d, pop, idx), n), titles, engine)| ==> Present(Rank(ScoreItems(d, pop, idx), n), titles, engine)[p].movieId != Present(Rank(ScoreItems(d, pop, idx), n), titles, engine)[q].movieId
  {
    var items := ScoreItems(d, pop, idx);
    var sorted := SortBy(items, FinalAtLeast);
    var top := Rank(items, n);
    DistinctIdsPermutation(items, sorted);
    forall p, q | 0 <= p < q < |top|
      ensures top[p].movieId != top[q].movieId
    {
      assert top[p] == sorted[p] && top[q] == sorted[q];
    }
  }

  /** Each output entry is a candidate shown with its recorded similarity,
      a final score at most `TieBreakWeight` above it, and its title. */
  lemma RankedEntries(d: BestSims, pop: seq<real>, idx: map<int, nat>, n: nat, titles: map<int, string>, engine: Engine)
    requires forall x :: x in d.keys ==> x in d.best && x in idx && idx[x] < |pop|
    requires forall j :: 0 <= j < |pop| ==> 0.0 <= pop[j] <= 1.0
    ensures forall r :: r in Present(Rank(ScoreItems(d, pop, idx), n), titles, engine) ==>
      && r.movieId in d.keys
      && r.explanation == Explain(engine, d.best[r.movieId])
      && r.score == d.best[r.movieId] + TieBreakWeight * pop[idx[r.movieId]]
      && d.best[r.movieId] <= r.score <= d.best[r.movieId] + TieBreakWeight
      && r.title == TitleOr(titles, r.movieId)
  {
    var top := Rank(ScoreItems(d, pop, idx), n);
    var out := Present(top, titles, engine);
    forall r | r in out
      ensures && r.movieId in d.keys
              && r.explanation == Explain(engine, d.best[r.movieId])
              && r.score == d.best[r.movieId] + TieBreakWeight * pop[idx[r.movieId]]
              && d.best[r.movieId] <= r.score <= d.best[r.movieId] + TieBreakWeight
              && r.title == TitleOr(titles, r.movieId)
    {
      var p :| 0 <= p < |out| && out[p] == r;
      RankedItem(d, pop, idx, n, top, p);
    }
  }

  /** One ranked item: a candidate, its recorded similarity, and a final
      score lifted by at most `TieBreakWeight`. */
  lemma RankedItem(d: BestSims, pop: seq<real>, idx: map<int, nat>, n: nat, top: seq<Ranked>, p: int)
    requires forall x :: x in d.keys ==> x in d.best && x in idx && idx[x] < |pop|
    requires forall j :: 0 <= j < |pop| ==> 0.0 <= pop[j] <= 1.0
    requires top == Rank(ScoreItems(d, pop, idx), n)
    requires 0 <= p < |top|
    ensures top[p].movieId in d.keys && top[p].sim == d.best[top[p].movieId]
    ensures top[p].final == top[p].sim + TieBreakWeight * pop[idx[top[p].movieId]]
    ensures top[p].sim <= top[p].final <= top[p].sim + TieBreakWeight
  {
    var items := ScoreItems(d, pop, idx);
    TakeSortedBest(items, n, FinalAtLeast);
    assert top[p] in multiset(top);
    var j :| 0 <= j < |items| && items[j] == top[p];
    var w := pop[idx[d.keys[j]]];
    assert 0.0 <= TieBreakWeight * w <= TieBreakWeight;
  }

  /** An item left out of `Rank` was crowded out by `n` items ranking at least as high. */
  lemma RankCrowdedOut(items: seq<Ranked>, n: nat, y: Ranked)
    requires y in items && y !in Rank(items, n)
    ensures |Rank(items, n)| == n
    ensures forall i :: 0 <= i < |Rank(items, n)| ==> Rank(items, n)[i].final >= y.final
  {
    var sorted := SortBy(items, FinalAtLeast);
    TakeSortedBest(items, n, FinalAtLeast);
    assert y in multiset(sorted);
  }

  /** A candidate left out of the ranked output was crowded out: the output
      is full and every entry's final score is at least the candidate's. */
  lemma RankedComplete(d: BestSims, pop: seq<real>, idx: map<int, nat>, n: nat, titles: map<int, string>, engine: Engine, x: int)
    requires forall x :: x in d.keys ==> x in d.best && x in idx && idx[x] < |pop|
    requires x in d.keys
    requires forall r :: r in Present(Rank(ScoreItems(d, pop, idx), n), titles, engine) ==> r.movieId != x
    ensures |Present(Rank(ScoreItems(d, pop, idx), n), titles, engine)| == n
    ensures forall r :: r in Present(Rank(ScoreItems(d, pop, idx), n), titles, engine) ==> r.score >= d.best[x] + TieBreakWeight * pop[idx[x]]
  {
    var items := ScoreItems(d, pop, idx);
    var top := Rank(items, n);
    var out := Present(top, titles, engine);
    var j :| 0 <= j < |d.keys| && d.keys[j] == x;
    assert items[j] !in top by {
      forall p | 0 <= p < |top| ensures top[p] != items[j] {
        assert out[p] in out;
      }
    }
    RankCrowdedOut(items, n, items[j]);
    forall r | r in out
      ensures r.score >= d.best[x] + TieBreakWeight * pop[idx[x]]
    {
      var p :| 0 <= p < |out| && out[p] == r;
    }
  }

  /** `best_sim` / `candidate_scores` after both loops. */
  function Gathered(simRows: seq<seq<real>>, k: nat, topK: (seq<real>, nat) -> seq<nat>,
                    movieIds: seq<int>, exclude: set<int>): (d: BestSims)
    requires ValidSelector(topK)
    requires k <= |movieIds|
    requires forall i :: 0 <= i < |simRows| ==> |simRows[i]| == |movieIds|
    ensures WellFormed(d)
    ensures forall x :: x in d.keys ==> x in movieIds && x !in exclude
  {
    var ns := AllNominations(simRows, k, topK, movieIds);
    var d := OfferAll(BestSims([], map[]), ns, exclude);
    OfferAllKeys(BestSims([], map[]), ns, exclude);
    AllNominationsOnly(simRows, k, topK, movieIds);
    assert forall x :: x in d.keys ==> x in movieIds by {
      forall x | x in d.keys ensures x in movieIds {
        var q :| 0 <= q < |ns| && ns[q].movieId == x;
        var i, p :| 0 <= i < |simRows| && 0 <= p < k && ns[q] == Pick(simRows[i], p, k, topK, movieIds);
      }
    }
    d
  }

  /** A movie is a candidate exactly when it is not excluded and some seed
      selected it. */
  lemma GatheredCandidates(simRows: seq<seq<real>>, k: nat, topK: (seq<real>, nat) -> seq<nat>,
                           movieIds: seq<int>, exclude: set<int>)
    requires ValidSelector(topK)
    requires k <= |movieIds|
    requires forall i :: 0 <= i < |simRows| ==> |simRows[i]| == |movieIds|
    ensures forall x :: x in Gathered(simRows, k, topK, movieIds, exclude).best <==>
      x !in exclude && exists i, p :: 0 <= i < |simRows| && 0 <= p < k && Pick(simRows[i], p, k, topK, movieIds).movieId == x
  {
    forall x
      ensures x in Gathered(simRows, k, topK, movieIds, exclude).best <==>
        x !in exclude && exists i, p :: 0 <= i < |simRows| && 0 <= p < k && Pick(simRows[i], p, k, topK, movieIds).movieId == x
    {
      GatheredCandidate(simRows, k, topK, movieIds, exclude, x);
    }
  }

  /** One id is a candidate exactly when it is not excluded and some seed
      selected it. */
  lemma GatheredCandidate(simRows: seq<seq<real>>, k: nat, topK: (seq<real>, nat) -> seq<nat>,
                          movieIds: seq<int>, exclude: set<int>, x: int)
    requires ValidSelector(topK)
    requires k <= |movieIds|
    requires forall i :: 0 <= i < |simRows| ==> |simRows[i]| == |movieIds|
    ensures x in Gathered(simRows, k, topK, movieIds, exclude).best <==>
      x !in exclude && exists i, p :: 0 <= i < |simRows| && 0 <= p < k && Pick(simRows[i], p, k, topK, movieIds).movieId == x
  {
    var ns := AllNominations(simRows, k, topK, movieIds);
    var empty := BestSims([], map[]);
    var d := OfferAll(empty, ns, exclude);
    assert d == Gathered(simRows, k, topK, movieIds, exclude);
    OfferAllKeys(empty, ns, exclude);
    if x in d.best {
      var q :| 0 <= q < |ns| && ns[q].movieId == x;
      var i, p := NominationSource(simRows, k, topK, movieIds, q);
      assert Pick(simRows[i], p, k, topK, movieIds).movieId == x;
    }
    if x !in exclude && exists i, p :: 0 <= i < |simRows| && 0 <= p < k && Pick(simRows[i], p, k, topK, movieIds).movieId == x {
      var i, p :| 0 <= i < |simRows| && 0 <= p < k && Pick(simRows[i], p, k, topK, movieIds).movieId == x;
      var nm := Pick(simRows[i], p, k, topK, movieIds);
      AllNominationsCover(simRows, k, topK, movieIds);
      assert nm in ns;
      var q :| 0 <= q < |ns| && ns[q] == nm;
      assert ns[q].movieId == x;
    }
  }

  /** A candidate's recorded similarity is at least what every seed that
      selected it gives it... */
  lemma GatheredAtLeastEachSeed(simRows: seq<seq<real>>, k: nat, topK: (seq<real>, nat) -> seq<nat>,
                                movieIds: seq<int>, exclude: set<int>, i: int, p: int)
    requires ValidSelector(topK)
    requires k <= |movieIds|
    requires forall i :: 0 <= i < |simRows| ==> |simRows[i]| == |movieIds|
    requires 0 <= i < |simRows| && 0 <= p < k
    requires Pick(simRows[i], p, k, topK, movieIds).movieId !in exclude
    ensures Pick(simRows[i], p, k, topK, movieIds).movieId in Gathered(simRows, k, topK, movieIds, exclude).best
    ensures Pick(simRows[i], p, k, topK, movieIds).sim
         <= Gathered(simRows, k, topK, movieIds, exclude).best[Pick(simRows[i], p, k, topK, movieIds).movieId]
  {
    var ns := AllNominations(simRows, k, topK, movieIds);
    var empty := BestSims([], map[]);
    assert OfferAll(empty, ns, exclude) == Gathered(simRows, k, topK, movieIds, exclude);
    OfferAllMax(empty, ns, exclude);
    AllNominationsCover(simRows, k, topK, movieIds);
    var q :| 0 <= q < |ns| && ns[q] == Pick(simRows[i], p, k, topK, movieIds);
  }

  /** ...and some selecting seed gives exactly that similarity. */
  lemma GatheredAttained(simRows: seq<seq<real>>, k: nat, topK: (seq<real>, nat) -> seq<nat>,
                         movieIds: seq<int>, exclude: set<int>, x: int)
    requires ValidSelector(topK)
    requires k <= |movieIds|
    requires forall i :: 0 <= i < |simRows| ==> |simRows[i]| == |movieIds|
    requires x in Gathered(simRows, k, topK, movieIds, exclude).best
    ensures exists i, p :: (0 <= i < |simRows| && 0 <= p < k &&
      Pick(simRows[i], p, k, topK, movieIds) == Nomination(x, Gathered(simRows, k, topK, movieIds, exclude).best[x]))
  {
    var ns := AllNominations(simRows, k, topK, movieIds);
    var empty := BestSims([], map[]);
    var d := OfferAll(empty, ns, exclude);
    assert d == Gathered(simRows, k, topK, movieIds, exclude);
    OfferAllMax(empty, ns, exclude);
    AllNominationsOnly(simRows, k, topK, movieIds);
    var q :| 0 <= q < |ns| && ns[q] == Nomination(x, d.best[x]);
    var i, p :| 0 <= i < |simRows| && 0 <= p < k && ns[q] == Pick(simRows[i], p, k, topK, movieIds);
  }

  /** `[idx_map[mid] for mid in seed_movie_ids if mid in idx_map]`. */
  function SeedIndices(seeds: seq<int>, idx: map<int, nat>): (r: seq<nat>)
    ensures forall p :: 0 <= p < |r| ==> exists s :: s in seeds && s in idx && r[p] == idx[s]
    ensures forall s :: s in seeds && s in idx ==> idx[s] in r
    ensures r == [] <==> forall s :: s in seeds ==> s !in idx
  {
    if seeds == [] then []
    else
      var rest := SeedIndices(seeds[1..], idx);
      assert forall s :: s in seeds <==> s == seeds[0] || s in seeds[1..];
      if seeds[0] in idx then [idx[seeds[0]]] + rest else rest
  }

  /** `set(exclude_movie_ids or set()) | set(seed_movie_ids)`. */
  function ExcludeWithSeeds(exclude: Option<set<int>>, seeds: seq<int>): (ex: set<int>)
    ensures forall x :: x in ex <==> x in ExcludeSet(exclude) || x in seeds
  {
    ExcludeSet(exclude) + set s | s in seeds
  }

  /** The whole candidate, aggregate and rank pipeline once the seeds'
      similarity rows are known. */
  function Recommendations(simRows: seq<seq<real>>, k: nat, topK: (seq<real>, nat) -> seq<nat>,
                           movieIds: seq<int>, idx: map<int, nat>, pop: seq<real>,
                           titles: map<int, string>, exclude: set<int>, n: nat, engine: Engine): (recs: seq<Rec>)
    requires ValidSelector(topK)
    requires k <= |movieIds|
    requires forall i :: 0 <= i < |simRows| ==> |simRows[i]| == |movieIds|
    requires forall x :: x in movieIds ==> x in idx && idx[x] < |pop|
    ensures |recs| <= n
  {
    var d := Gathered(simRows, k, topK, movieIds, exclude);
    Present(Rank(ScoreItems(d, pop, idx), n), titles, engine)
  }

  /** Every recommendation shows the best similarity the gathering loop
      recorded for its movie, which is outside the exclude set. */
  lemma RecommendedBest(simRows: seq<seq<real>>, k: nat, topK: (seq<real>, nat) -> seq<nat>,
                        movieIds: seq<int>, idx: map<int, nat>, pop: seq<real>,
                        titles: map<int, string>, exclude: set<int>, n: nat, engine: Engine, r: Rec)
    requires ValidSelector(topK)
    requires k <= |movieIds|
    requires forall i :: 0 <= i < |simRows| ==> |simRows[i]| == |movieIds|
    requires forall x :: x in movieIds ==> x in idx && idx[x] < |pop|
    requires forall j :: 0 <= j < |pop| ==> 0.0 <= pop[j] <= 1.0
    requires r in Recommendations(simRows, k, topK, movieIds, idx, pop, titles, exclude, n, engine)
    ensures var d := Gathered(simRows, k, topK, movieIds, exclude);
      r.movieId in d.best && r.movieId !in exclude && r.explanation.sim == d.best[r.movieId]
  {
    var d := Gathered(simRows, k, topK, movieIds, exclude);
    RankedEntries(d, pop, idx, n, titles, engine);
    RecommendationsExcluded(simRows, k, topK, movieIds, idx, pop, titles, exclude, n, engine);
  }

  /** Every recommended movie is a catalog movie outside the exclude set. */
  lemma RecommendationsExcluded(simRows: seq<seq<real>>, k: nat, topK: (seq<real>, nat) -> seq<nat>,
                                movieIds: seq<int>, idx: map<int, nat>, pop: seq<real>,
                                titles: map<int, string>, exclude: set<int>, n: nat, engine: Engine)
    requires ValidSelector(topK)
    requires k <= |movieIds|
    requires forall i :: 0 <= i < |simRows| ==> |simRows[i]| == |movieIds|
    requires forall x :: x in movieIds ==> x in idx && idx[x] < |pop|
    ensures forall r :: r in Recommendations(simRows, k, topK, movieIds, idx, pop, titles, exclude, n, engine) ==>
      r.movieId in movieIds && r.movieId !in exclude
  {
    var d := Gathered(simRows, k, topK, movieIds, exclude);
    var items := ScoreItems(d, pop, idx);
    var top := Rank(items, n);
    forall r | r in Present(top, titles, engine)
      ensures r.movieId in movieIds && r.movieId !in exclude
    {
      var p :| 0 <= p < |top| && Present(top, titles, engine)[p] == r;
      assert top[p] in multiset(SortBy(items, FinalAtLeast));
      var j :| 0 <= j < |items| && items[j] == top[p];
    }
  }

  /** The result is empty exactly when `n` is zero or every movie any seed
      selected is excluded (the `if not candidate_scores: return []` case). */
  lemma RecommendationsEmpty(simRows: seq<seq<real>>, k: nat, topK: (seq<real>, nat) -> seq<nat>,
                             movieIds: seq<int>, idx: map<int, nat>, pop: seq<real>,
                             titles: map<int, string>, exclude: set<int>, n: nat, engine: Engine)
    requires ValidSelector(topK)
    requires k <= |movieIds|
    requires forall i :: 0 <= i < |simRows| ==> |simRows[i]| == |movieIds|
    requires forall x :: x in movieIds ==> x in idx && idx[x] < |pop|
    ensures Recommendations(simRows, k, topK, movieIds, idx, pop, titles, exclude, n, engine) == [] <==>
      n == 0 || forall i, p :: 0 <= i < |simRows| && 0 <= p < k ==> Pick(simRows[i], p, k, topK, movieIds).movieId in exclude
  {
    var d := Gathered(simRows, k, topK, movieIds, exclude);
    RankedOrder(d, pop, idx, n, titles, engine);
    GatheredCandidates(simRows, k, topK, movieIds, exclude);
    if d.keys != [] {
      assert d.keys[0] in d.best;
    }
  }

  /** One more seed row extends the nominations by that seed's picks. */
  lemma GatherStep(simRows: seq<seq<real>>, i: nat, k: nat, topK: (seq<real>, nat) -> seq<nat>,
                   movieIds: seq<int>, exclude: set<int>)
    requires ValidSelector(topK)
    requires k <= |movieIds|
    requires forall i :: 0 <= i < |simRows| ==> |simRows[i]| == |movieIds|
    requires i < |simRows|
    ensures OfferAll(BestSims([], map[]), AllNominations(simRows[..i + 1], k, topK, movieIds), exclude)
         == OfferAll(OfferAll(BestSims([], map[]), AllNominations(simRows[..i], k, topK, movieIds), exclude),
                     SeedNominations(simRows[i], k, topK, movieIds), exclude)
  {
    assert simRows[..i + 1][..i] == simRows[..i];
    assert simRows[..i + 1][i] == simRows[i];
    OfferAllAppend(BestSims([], map[]), AllNominations(simRows[..i], k, topK, movieIds),
                   SeedNominations(simRows[i], k, topK, movieIds), exclude);
  }

  /** The inner loop for one seed: `top_idx = np.argpartition(...)[:k]`, then
      each selected position offered to the dictionary in turn. */
  method OfferSeed(d: BestSims, sims: seq<real>, k: nat, topK: (seq<real>, nat) -> seq<nat>,
                   movieIds: seq<int>, exclude: set<int>) returns (r: BestSims)
    requires ValidSelector(topK)
    requires |sims| == |movieIds| && k <= |sims|
    ensures r == OfferAll(d, SeedNominations(sims, k, topK, movieIds), exclude)
  {
    var top := topK(sims, k);
    assert IsTopK(sims, top, k);
    ghost var ns := SeedNominations(sims, k, topK, movieIds);
    r := d;
    var p := 0;
    while p < |top|
      invariant 0 <= p <= |top|
      invariant r == OfferAll(d, ns[..p], exclude)
    {
      var j := top[p];
      var mid := movieIds[j];
      if mid !in exclude {
        var s := sims[j];
        if mid !in r.best {
          r := BestSims(r.keys + [mid], r.best[mid := s]);
        } else if s > r.best[mid] {
          r := BestSims(r.keys, r.best[mid := s]);
        }
      }
      assert ns[..p + 1][..p] == ns[..p];
      p := p + 1;
    }
    assert ns[..p] == ns;
  }

  /** The `items` / `scored` loop over the dictionary in insertion order. */
  method ScoreAll(d: BestSims, pop: seq<real>, idx: map<int, nat>) returns (items: seq<Ranked>)
    requires forall x :: x in d.keys ==> x in d.best && x in idx && idx[x] < |pop|
    ensures items == ScoreItems(d, pop, idx)
  {
    items := [];
    var p := 0;
    while p < |d.keys|
      invariant 0 <= p <= |d.keys|
      invariant items == ScoreItems(d, pop, idx)[..p]
    {
      var mid := d.keys[p];
      var sim := d.best[mid];
      var j := idx[mid];
      var final := sim + TieBreakWeight * pop[j];
      items := items + [Ranked(final, sim, mid)];
      p := p + 1;
    }
  }

  /** The output loop over `top`. */
  method PresentAll(top: seq<Ranked>, titles: map<int, string>, engine: Engine) returns (recs: seq<Rec>)
    ensures recs == Present(top, titles, engine)
  {
    recs := [];
    var p := 0;
    while p < |top|
      invariant 0 <= p <= |top|
      invariant recs == Present(top, titles, engine)[..p]
    {
      var title := if top[p].movieId in titles then titles[top[p].movieId] else "Unknown";
      recs := recs + [Rec(top[p].movieId, title, top[p].final, Explain(engine, top[p].sim))];
      p := p + 1;
    }
  }

  /** The tail both engines share: an empty dictionary gives `[]`;
      otherwise the candidates are scored, sorted, truncated and presented. */
  method RankAndPresent(d: BestSims, pop: seq<real>, idx: map<int, nat>, n: nat,
                        titles: map<int, string>, engine: Engine) returns (recs: seq<Rec>)
    requires forall x :: x in d.keys ==> x in d.best && x in idx && idx[x] < |pop|
    ensures recs == Present(Rank(ScoreItems(d, pop, idx), n), titles, engine)
  {
    if d.keys == [] {
      return [];
    }
    var items := ScoreAll(d, pop, idx);
    var top := Take(SortBy(items, FinalAtLeast), n);
    recs := PresentAll(top, titles, engine);
  }
}
