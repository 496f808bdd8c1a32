/** Item-item collaborative filtering over explicit ratings: a user x item
    ratings matrix in compressed sparse row form, each user's stored
    ratings centred on that user's mean in place, item-item cosine
    similarity over the centred columns, and then the shared candidate,
    aggregate and rank pipeline with the collaborative explanation. */
module ItemCf {
  import opened Tables
  import opened Candidates

  /** The fitted model: item ids aligned with item indices, the id -> index
      dictionary, the I x I similarity matrix, the popularity tie-break and
      the titles. `fit` builds it once and `recommend` only reads it. */
  datatype ItemItemCF = ItemItemCF(
    movieIds: seq<int>,
    idxMap: map<int, nat>,
    sim: seq<seq<real>>,
    popScaled: seq<real>,
    titleMap: map<int, string>)

  // ---------------------------------------------------------------------
  // Users

  /** `ratings["user_id"].unique()` then `.sort()`. */
  function UserIds(ratings: seq<Rating>): (us: seq<int>)
    ensures StrictlyIncreasing(us)
    ensures forall u :: u in us <==> u in UserColumn(ratings)
  {
    SortedUnique(UserColumn(ratings))
  }

  /** `user_idx = {uid: i for i, uid in enumerate(user_ids)}`. */
  function UserIndex(ratings: seq<Rating>): (idx: map<int, nat>)
    ensures forall u :: u in idx <==> u in UserColumn(ratings)
    ensures forall u :: u in idx ==> idx[u] < |UserIds(ratings)| && UserIds(ratings)[idx[u]] == u
  {
    IndexMap(UserIds(ratings))
  }

  /** The user index is a bijection between the users who rated something
      and `0 .. U-1`, and it numbers users in ascending id order. */
  lemma UserIndexBijection(ratings: seq<Rating>)
    ensures forall u :: u in UserIndex(ratings) <==> exists i :: 0 <= i < |ratings| && ratings[i].userId == u
    ensures forall u :: u in UserIndex(ratings) ==>
      UserIndex(ratings)[u] < |UserIds(ratings)| && UserIds(ratings)[UserIndex(ratings)[u]] == u
    ensures forall i :: 0 <= i < |UserIds(ratings)| ==> UserIndex(ratings)[UserIds(ratings)[i]] == i
    ensures forall u, v :: u in UserIndex(ratings) && v in UserIndex(ratings) && u < v ==>
      UserIndex(ratings)[u] < UserIndex(ratings)[v]
  {
    var us := UserIds(ratings);
    var idx := UserIndex(ratings);
    assert forall u :: u in idx <==> exists i :: 0 <= i < |ratings| && ratings[i].userId == u by {
      forall u ensures u in idx <==> exists i :: 0 <= i < |ratings| && ratings[i].userId == u {
        if u in idx {
          assert u in UserColumn(ratings);
          var i :| 0 <= i < |ratings| && UserColumn(ratings)[i] == u;
        }
        if exists i :: 0 <= i < |ratings| && ratings[i].userId == u {
          var i :| 0 <= i < |ratings| && ratings[i].userId == u;
          assert UserColumn(ratings)[i] == u;
        }
      }
    }
    assert forall i :: 0 <= i < |us| ==> idx[us[i]] == i by {
      IndexMapLast(us);
    }
    assert forall u, v :: u in idx && v in idx && u < v ==> idx[u] < idx[v] by {
      forall u, v | u in idx && v in idx && u < v
        ensures idx[u] < idx[v]
      {
        IncreasingPositions(us, idx[u], idx[v]);
      }
    }
  }

  // ---------------------------------------------------------------------
  // The sparse ratings matrix

  /** The coordinate triplets handed to `csr_matrix((vals, (rows, cols)))`. */
  datatype Coo = Coo(rows: seq<nat>, cols: seq<nat>, vals: seq<real>)

  /** Every triplet lies inside an `nRows x nCols` matrix. */
  ghost predicate CooFits(coo: Coo, nRows: nat, nCols: nat) {
    && |coo.rows| == |coo.cols| == |coo.vals|
    && (forall i :: 0 <= i < |coo.rows| ==> coo.rows[i] < nRows && coo.cols[i] < nCols)
  }

  /** The sum of the triplet values that fall in row `u`. */
  function CooRowSum(rows: seq<nat>, vals: seq<real>, u: nat): real
    requires |rows| == |vals|
  {
    if rows == [] then 0.0
    else (if rows[0] == u then vals[0] else 0.0) + CooRowSum(rows[1..], vals[1..], u)
  }

  /** `rows = ratings["user_id"].map(user_idx)`, `cols = ratings["movie_id"].map(idx_map)`,
      `vals = ratings["rating"]`: rating `i` sits at its user's row and its
      movie's column. */
  function RatingCoo(ratings: seq<Rating>, movieIds: seq<int>): (coo: Coo)
    requires forall i :: 0 <= i < |ratings| ==> ratings[i].movieId in movieIds
    ensures CooFits(coo, |UserIds(ratings)|, |movieIds|)
    ensures |coo.rows| == |ratings|
    ensures forall i :: 0 <= i < |ratings| ==>
      && UserIds(ratings)[coo.rows[i]] == ratings[i].userId
      && movieIds[coo.cols[i]] == ratings[i].movieId
      && coo.vals[i] == ratings[i].rating
  {
    Coo(UserRows(ratings), MovieCols(ratings, movieIds),
        seq(|ratings|, i requires 0 <= i < |ratings| => ratings[i].rating))
  }

  /** `ratings["user_id"].map(user_idx)`. */
  function UserRows(ratings: seq<Rating>): (rows: seq<nat>)
    ensures |rows| == |ratings|
    ensures forall i :: 0 <= i < |ratings| ==> rows[i] < |UserIds(ratings)| && UserIds(ratings)[rows[i]] == ratings[i].userId
  {
    var us := UserIds(ratings);
    var uidx := IndexMap(us);
    assert forall i :: 0 <= i < |ratings| ==> ratings[i].userId in us by {
      forall i | 0 <= i < |ratings| ensures ratings[i].userId in us {
        assert UserColumn(ratings)[i] == ratings[i].userId;
      }
    }
    seq(|ratings|, i requires 0 <= i < |ratings| => uidx[ratings[i].userId])
  }

  /** `ratings["movie_id"].map(idx_map)`. */
  function MovieCols(ratings: seq<Rating>, movieIds: seq<int>): (cols: seq<nat>)
    requires forall i :: 0 <= i < |ratings| ==> ratings[i].movieId in movieIds
    ensures |cols| == |ratings|
    ensures forall i :: 0 <= i < |ratings| ==> cols[i] < |movieIds| && movieIds[cols[i]] == ratings[i].movieId
  {
    var midx := IndexMap(movieIds);
    seq(|ratings|, i requires 0 <= i < |ratings| => midx[ratings[i].movieId])
  }

  /** A matrix in compressed sparse row form: row `u` stores the values
      `data[indptr[u] .. indptr[u+1]]` at the columns `indices[...]`. */
  datatype Csr = Csr(nRows: nat, nCols: nat, indptr: seq<nat>, indices: seq<nat>, data: seq<real>)

  /** Row pointers that start at 0, never decrease and end at `len`. */
  ghost predicate RowPointers(indptr: seq<nat>, len: nat) {
    && |indptr| >= 1
    && indptr[0] == 0
    && indptr[|indptr| - 1] == len
    && forall u, v :: 0 <= u <= v < |indptr| ==> indptr[u] <= indptr[v]
  }

  ghost predicate ValidCsr(r: Csr) {
    && |r.indptr| == r.nRows + 1
    && RowPointers(r.indptr, |r.data|)
    && |r.indices| == |r.data|
    && forall p :: 0 <= p < |r.indices| ==> r.indices[p] < r.nCols
  }

  /** The values stored in row `u`. */
  function RowData(r: Csr, u: nat): (row: seq<real>)
    requires ValidCsr(r) && u < r.nRows
  {
    r.data[r.indptr[u]..r.indptr[u + 1]]
  }

  /** What the model relies on from `csr_matrix`: a well-formed matrix of the
      requested shape whose row `u` sums the triplets of row `u` (duplicates
      are summed into one entry) and stores something exactly when some
      triplet falls in row `u`. */
  ghost predicate CsrSpec(toCsr: (Coo, nat, nat) -> Csr) {
    forall coo: Coo, nRows: nat, nCols: nat :: CooFits(coo, nRows, nCols) ==>
      && ValidCsr(toCsr(coo, nRows, nCols))
      && toCsr(coo, nRows, nCols).nRows == nRows
      && toCsr(coo, nRows, nCols).nCols == nCols
      && forall u :: 0 <= u < nRows ==>
           && Sum(RowData(toCsr(coo, nRows, nCols), u)) == CooRowSum(coo.rows, coo.vals, u)
           && (RowData(toCsr(coo, nRows, nCols), u) == [] <==> u !in coo.rows)
  }

  /** What the model relies on from `cosine_similarity(Rc.T)`: one row of
      similarities per column of `Rc`, each as long as there are columns. */
  ghost predicate CosineSpec(cosine: Csr -> seq<seq<real>>) {
    forall r: Csr :: ValidCsr(r) ==>
      && |cosine(r)| == r.nCols
      && forall j :: 0 <= j < |cosine(r)| ==> |cosine(r)[j]| == r.nCols
  }

  /** `R = csr_matrix((vals, (rows, cols)), shape=(len(user_ids), len(movie_ids)))`. */
  function RatingMatrix(ratings: seq<Rating>, movieIds: seq<int>, toCsr: (Coo, nat, nat) -> Csr): (r: Csr)
    requires CsrSpec(toCsr)
    requires forall i :: 0 <= i < |ratings| ==> ratings[i].movieId in movieIds
    ensures ValidCsr(r) && r.nRows == |UserIds(ratings)| && r.nCols == |movieIds|
  {
    toCsr(RatingCoo(ratings, movieIds), |UserIds(ratings)|, |movieIds|)
  }

  // ---------------------------------------------------------------------
  // User-mean centring

  /** `np.divide(row_sums, row_counts, out=zeros, where=row_counts != 0)`:
      each row's stored sum over its stored count, 0 for an empty row. */
  function RowMeans(r: Csr): (means: seq<real>)
    requires ValidCsr(r)
    ensures |means| == r.nRows
  {
    seq(r.nRows, u requires 0 <= u < r.nRows =>
      if |RowData(r, u)| == 0 then 0.0 else Sum(RowData(r, u)) / |RowData(r, u)| as real)
  }

  /** `data[start:end] -= m`. */
  function ShiftRange(d: seq<real>, start: nat, end: nat, m: real): (r: seq<real>)
    requires start <= end <= |d|
    ensures |r| == |d|
  {
    seq(|d|, p requires 0 <= p < |d| => if start <= p < end then d[p] - m else d[p])
  }

  /** The stored values once the rows before `u` have been centred. */
  function CenterUpTo(d: seq<real>, indptr: seq<nat>, means: seq<real>, u: nat): (r: seq<real>)
    requires RowPointers(indptr, |d|) && u < |indptr| && u <= |means|
    ensures |r| == |d|
  {
    if u == 0 then d
    else ShiftRange(CenterUpTo(d, indptr, means, u - 1), indptr[u - 1], indptr[u], means[u - 1])
  }

  /** `Rc = R.copy()` with every row centred on its mean; only the stored
      values change. */
  function Centered(r: Csr): (rc: Csr)
    requires ValidCsr(r)
    ensures ValidCsr(rc)
    ensures rc.nRows == r.nRows && rc.nCols == r.nCols && rc.indptr == r.indptr && rc.indices == r.indices
  {
    r.(data := CenterUpTo(r.data, r.indptr, RowMeans(r), r.nRows))
  }

  /** After centring the first `u` rows, each stored value of those rows has
      dropped by its row's mean, and every later value is untouched. */
  lemma {:induction false} CenterUpToEntries(d: seq<real>, indptr: seq<nat>, means: seq<real>, u: nat)
    requires RowPointers(indptr, |d|) && u < |indptr| && u <= |means|
    ensures forall v, p :: 0 <= v < u && indptr[v] <= p < indptr[v + 1] ==>
      CenterUpTo(d, indptr, means, u)[p] == d[p] - means[v]
    ensures forall p :: indptr[u] <= p < |d| ==> CenterUpTo(d, indptr, means, u)[p] == d[p]
  {
    if u > 0 {
      CenterUpToEntries(d, indptr, means, u - 1);
      var prev := CenterUpTo(d, indptr, means, u - 1);
      var cur := CenterUpTo(d, indptr, means, u);
      assert cur == ShiftRange(prev, indptr[u - 1], indptr[u], means[u - 1]);
      forall v, p | 0 <= v < u && indptr[v] <= p < indptr[v + 1]
        ensures cur[p] == d[p] - means[v]
      {
        if v < u - 1 {
          assert indptr[v + 1] <= indptr[u - 1];
        }
      }
    }
  }

  /** Every stored value of row `u` of the centred matrix is the original
      value minus the row's mean. */
  lemma CenteredEntries(r: Csr, u: nat)
    requires ValidCsr(r) && u < r.nRows
    ensures |RowData(Centered(r), u)| == |RowData(r, u)|
    ensures forall i :: 0 <= i < |RowData(r, u)| ==> RowData(Centered(r), u)[i] == RowData(r, u)[i] - RowMeans(r)[u]
  {
    CenterUpToEntries(r.data, r.indptr, RowMeans(r), r.nRows);
    var c := Centered(r);
    forall i | 0 <= i < |RowData(r, u)|
      ensures RowData(c, u)[i] == RowData(r, u)[i] - RowMeans(r)[u]
    {
      assert r.indptr[u] <= r.indptr[u + 1];
      assert RowData(c, u)[i] == c.data[r.indptr[u] + i];
    }
  }

  /** Subtracting `m` from each of `n` values lowers their sum by `n * m`. */
  lemma {:induction false} SumShift(a: seq<real>, b: seq<real>, m: real)
    requires |a| == |b|
    requires forall i :: 0 <= i < |a| ==> b[i] == a[i] - m
    ensures Sum(b) == Sum(a) - (|a| as real) * m
  {
    if a != [] {
      SumShift(a[1..], b[1..], m);
      assert ((|a| - 1) as real) * m + m == (|a| as real) * m;
    }
  }

  /** Taking `n` copies of the mean of `n` values away from their sum
      leaves nothing. */
  lemma ShiftByMean(s: real, n: nat, m: real)
    requires n > 0 && m == s / (n as real)
    ensures s - (n as real) * m == 0.0
  {
  }

  /** Each non-empty row of the centred matrix sums to zero. */
  lemma CenteredRowSumZero(r: Csr, u: nat)
    requires ValidCsr(r) && u < r.nRows
    requires RowData(r, u) != []
    ensures Sum(RowData(Centered(r), u)) == 0.0
  {
    var row := RowData(r, u);
    var m := RowMeans(r)[u];
    CenteredEntries(r, u);
    SumShift(row, RowData(Centered(r), u), m);
    assert m == Sum(row) / |row| as real;
    ShiftByMean(Sum(row), |row|, m);
  }

  /** The triplet sum of a row is the sum of that user's ratings. */
  lemma {:induction false} CooSumMatches(rows: seq<nat>, vals: seq<real>, ratings: seq<Rating>, us: seq<int>, u: nat)
    requires |rows| == |vals| == |ratings|
    requires StrictlyIncreasing(us) && u < |us|
    requires forall i :: 0 <= i < |rows| ==> rows[i] < |us| && us[rows[i]] == ratings[i].userId && vals[i] == ratings[i].rating
    ensures CooRowSum(rows, vals, u) == UserRatingSum(ratings, us[u])
  {
    if rows != [] {
      CooSumMatches(rows[1..], vals[1..], ratings[1..], us, u);
    }
  }

  /** The sum of one user's rating values. */
  function UserRatingSum(ratings: seq<Rating>, uid: int): real
  {
    if ratings == [] then 0.0
    else (if ratings[0].userId == uid then ratings[0].rating else 0.0) + UserRatingSum(ratings[1..], uid)
  }

  /** Every user row stores something, and its mean is the sum of that
      user's ratings over the row's stored count, so no row of the ratings
      matrix is skipped by the centring loop. */
  lemma UserMeans(ratings: seq<Rating>, movieIds: seq<int>, toCsr: (Coo, nat, nat) -> Csr, u: nat)
    requires CsrSpec(toCsr)
    requires forall i :: 0 <= i < |ratings| ==> ratings[i].movieId in movieIds
    requires u < |UserIds(ratings)|
    ensures RowData(RatingMatrix(ratings, movieIds, toCsr), u) != []
    ensures RowMeans(RatingMatrix(ratings, movieIds, toCsr))[u]
         == UserRatingSum(ratings, UserIds(ratings)[u]) / |RowData(RatingMatrix(ratings, movieIds, toCsr), u)| as real
  {
    var us := UserIds(ratings);
    var coo := RatingCoo(ratings, movieIds);
    var r := RatingMatrix(ratings, movieIds, toCsr);
    assert r == toCsr(coo, |us|, |movieIds|);
    assert us[u] in UserColumn(ratings);
    var i :| 0 <= i < |ratings| && UserColumn(ratings)[i] == us[u];
    assert coo.rows[i] == u by {
      assert us[coo.rows[i]] == us[u];
    }
    assert u in coo.rows;
    CooSumMatches(coo.rows, coo.vals, ratings, us, u);
  }

  /** The centring loop: `for u in range(Rc.shape[0])`, skipping empty rows,
      `Rc.data[start:end] -= row_means[u]`. */
  method CenterRows(data: array<real>, indptr: seq<nat>, means: seq<real>)
    requires RowPointers(indptr, data.Length) && |means| == |indptr| - 1
    modifies data
    ensures data[..] == CenterUpTo(old(data[..]), indptr, means, |indptr| - 1)
  {
    ghost var d0 := data[..];
    var u := 0;
    while u < |indptr| - 1
      invariant 0 <= u <= |indptr| - 1
      invariant data[..] == CenterUpTo(d0, indptr, means, u)
    {
      var start, end := indptr[u], indptr[u + 1];
      if start == end {
        assert ShiftRange(data[..], start, end, means[u]) == data[..];
        u := u + 1;
        continue;
      }
      ghost var before := data[..];
      forall p | start <= p < end {
        data[p] := data[p] - means[u];
      }
      assert data[..] == ShiftRange(before, start, end, means[u]);
      u := u + 1;
    }
  }

  /** `row_means`, then `Rc = R.copy()` centred in place. */
  method CenteredCopy(r: Csr) returns (rc: Csr)
    requires ValidCsr(r)
    ensures rc == Centered(r)
  {
    var means := RowMeans(r);
    var buf := new real[|r.data|](p requires 0 <= p < |r.data| => r.data[p]);
    assert buf[..] == r.data;
    CenterRows(buf, r.indptr, means);
    rc := r.(data := buf[..]);
  }

  // ---------------------------------------------------------------------
  // fit

  /** What `fit` guarantees of the model `recommend` reads: a square
      similarity matrix and a popularity in [0, 1] per catalog position, and
      an index for exactly the catalog ids. */
  ghost predicate Fitted(m: ItemItemCF) {
    && |m.sim| == |m.movieIds|
    && (forall j :: 0 <= j < |m.sim| ==> |m.sim[j]| == |m.movieIds|)
    && |m.popScaled| == |m.movieIds|
    && (forall j :: 0 <= j < |m.popScaled| ==> 0.0 <= m.popScaled[j] <= 1.0)
    && (forall x :: x in m.idxMap <==> x in m.movieIds)
    && (forall x :: x in m.idxMap ==> m.idxMap[x] < |m.movieIds|)
  }

  /** `ItemItemCF.fit`. Every rated movie must be in the catalog: a missing
      one maps to NaN, the unchecked cast to `int32` makes that a
      platform-dependent column, and `csr_matrix` then rejects it when it is
      negative or silently files the rating under column 0 when it is 0.
      There must be a rating: with no users the centred matrix has no rows
      and the cosine step raises. */
  method Fit(ratings: seq<Rating>, movies: Movies, toCsr: (Coo, nat, nat) -> Csr, cosine: Csr -> seq<seq<real>>)
    returns (m: ItemItemCF)
    requires CsrSpec(toCsr) && CosineSpec(cosine)
    requires ratings != []
    requires forall i :: 0 <= i < |ratings| ==> ratings[i].movieId in MovieIds(movies.rows)
    ensures Fitted(m)
    ensures m.movieIds == MovieIds(movies.rows)
    ensures m.idxMap == IndexMap(m.movieIds)
    ensures m.sim == cosine(Centered(RatingMatrix(ratings, m.movieIds, toCsr)))
    ensures m.popScaled == PopScaled(m.movieIds, ratings)
    ensures m.titleMap == TitleMap(movies.rows)
  {
    var movieIds := MovieIds(movies.rows);
    var idxMap := IndexMap(movieIds);
    var r := RatingMatrix(ratings, movieIds, toCsr);
    var rc := CenteredCopy(r);
    var sim := cosine(rc);
    assert |sim| == |movieIds| && forall j :: 0 <= j < |sim| ==> |sim[j]| == |movieIds| by {
      assert ValidCsr(rc) && rc.nCols == |movieIds|;
    }
    m := ItemItemCF(movieIds, idxMap, sim, PopScaled(movieIds, ratings), TitleMap(movies.rows));
    FittedFrom(m, ratings);
  }

  /** The parts `fit` assembles make a fitted model. */
  lemma FittedFrom(m: ItemItemCF, ratings: seq<Rating>)
    requires m.idxMap == IndexMap(m.movieIds)
    requires |m.sim| == |m.movieIds| && forall j :: 0 <= j < |m.sim| ==> |m.sim[j]| == |m.movieIds|
    requires m.popScaled == PopScaled(m.movieIds, ratings)
    ensures Fitted(m)
  {
    PopScaledInUnit(m.movieIds, ratings);
  }

  // ---------------------------------------------------------------------
  // recommend

  /** `k = min(per_seed_k + 1, sims.shape[0] - 1)` for `I` catalog items
      (never evaluated with an empty catalog, where no seed is known). */
  function CfK(perSeedK: nat, items: nat): (k: nat)
    ensures k <= perSeedK + 1
    ensures items > 0 ==> k <= items - 1 && (k == perSeedK + 1 || k == items - 1)
  {
    if items == 0 then 0 else Min(perSeedK + 1, items - 1)
  }

  /** `self.sim[si]` for each seed index. */
  function CfRows(m: ItemItemCF, seedIdxs: seq<nat>): (rows: seq<seq<real>>)
    requires Fitted(m)
    requires forall p :: 0 <= p < |seedIdxs| ==> seedIdxs[p] < |m.sim|
    ensures |rows| == |seedIdxs|
    ensures forall i :: 0 <= i < |rows| ==> rows[i] == m.sim[seedIdxs[i]] && |rows[i]| == |m.movieIds|
  {
    seq(|seedIdxs|, i requires 0 <= i < |seedIdxs| => m.sim[seedIdxs[i]])
  }

  /** Seed indices drawn from the model's index fall inside the matrix. */
  lemma SeedIndicesInRange(m: ItemItemCF, seeds: seq<int>)
    requires Fitted(m)
    ensures forall p :: 0 <= p < |SeedIndices(seeds, m.idxMap)| ==> SeedIndices(seeds, m.idxMap)[p] < |m.sim|
  {
    var si := SeedIndices(seeds, m.idxMap);
    forall p | 0 <= p < |si| ensures si[p] < |m.sim| {
      var s :| s in seeds && s in m.idxMap && si[p] == m.idxMap[s];
    }
  }

  /** `ItemItemCF.recommend`, as a value. */
  function CfRecommendations(m: ItemItemCF, seeds: seq<int>, n: nat, perSeedK: nat,
                             exclude: Option<set<int>>, topK: (seq<real>, nat) -> seq<nat>): (recs: seq<Rec>)
    requires Fitted(m)
    requires ValidSelector(topK)
    ensures |recs| <= n
    ensures (forall s :: s in seeds ==> s !in m.movieIds) ==> recs == []
  {
    var seedIdxs := SeedIndices(seeds, m.idxMap);
    if seedIdxs == [] then []
    else
      SeedIndicesInRange(m, seeds);
      Recommendations(CfRows(m, seedIdxs), CfK(perSeedK, |m.movieIds|), topK, m.movieIds, m.idxMap,
                      m.popScaled, m.titleMap, ExcludeWithSeeds(exclude, seeds), n, RaterEngine)
  }

  /** The outer loop over the seeds: each seed's similarity row and its
      `k`, then its selected positions offered to `best_sim`. */
  method GatherCfSeeds(m: ItemItemCF, seedIdxs: seq<nat>, perSeedK: nat, topK: (seq<real>, nat) -> seq<nat>,
                       ex: set<int>) returns (d: BestSims)
    requires Fitted(m)
    requires ValidSelector(topK)
    requires forall p :: 0 <= p < |seedIdxs| ==> seedIdxs[p] < |m.sim|
    ensures d == Gathered(CfRows(m, seedIdxs), CfK(perSeedK, |m.movieIds|), topK, m.movieIds, ex)
  {
    ghost var simRows := CfRows(m, seedIdxs);
    ghost var k0 := CfK(perSeedK, |m.movieIds|);
    d := BestSims([], map[]);
    var i := 0;
    while i < |seedIdxs|
      invariant 0 <= i <= |seedIdxs|
      invariant d == OfferAll(BestSims([], map[]), AllNominations(simRows[..i], k0, topK, m.movieIds), ex)
    {
      var sims := m.sim[seedIdxs[i]];
      var k: nat := Min(perSeedK + 1, |sims| - 1);
      assert k == k0;
      GatherStep(simRows, i, k, topK, m.movieIds, ex);
      d := OfferSeed(d, sims, k, topK, m.movieIds, ex);
      i := i + 1;
    }
    assert simRows[..i] == simRows;
  }

  /** `ItemItemCF.recommend`. */
  method Recommend(m: ItemItemCF, seeds: seq<int>, n: nat, perSeedK: nat,
                   exclude: Option<set<int>>, topK: (seq<real>, nat) -> seq<nat>) returns (recs: seq<Rec>)
    requires Fitted(m)
    requires ValidSelector(topK)
    ensures recs == CfRecommendations(m, seeds, n, perSeedK, exclude, topK)
  {
    var ex := ExcludeWithSeeds(exclude, seeds);
    var seedIdxs := SeedIndices(seeds, m.idxMap);
    if seedIdxs == [] {
      return [];
    }
    SeedIndicesInRange(m, seeds);
    var d := GatherCfSeeds(m, seedIdxs, perSeedK, topK, ex);
    recs := RankAndPresent(d, m.popScaled, m.idxMap, n, m.titleMap, RaterEngine);
  }

  // ---------------------------------------------------------------------
  // Properties of recommend

  /** No seed and no excluded id is ever recommended; every recommendation
      is a catalog movie. */
  lemma CfExcludesSeeds(m: ItemItemCF, seeds: seq<int>, n: nat, perSeedK: nat,
                        exclude: Option<set<int>>, topK: (seq<real>, nat) -> seq<nat>, out: seq<Rec>)
    requires Fitted(m)
    requires ValidSelector(topK)
    requires CfRecommendations(m, seeds, n, perSeedK, exclude, topK) == out
    ensures forall r :: r in out ==> r.movieId in m.movieIds && r.movieId !in seeds && r.movieId !in ExcludeSet(exclude)
  {
    var seedIdxs := SeedIndices(seeds, m.idxMap);
    if seedIdxs != [] {
      SeedIndicesInRange(m, seeds);
      RecommendationsExcluded(CfRows(m, seedIdxs), CfK(perSeedK, |m.movieIds|), topK, m.movieIds, m.idxMap,
                              m.popScaled, m.titleMap, ExcludeWithSeeds(exclude, seeds), n, RaterEngine);
    }
  }

  /** The result is empty when no seed is in the catalog, when every
      catalog movie is a seed or excluded, and when `n` is zero. */
  lemma CfEmpty(m: ItemItemCF, seeds: seq<int>, n: nat, perSeedK: nat,
                exclude: Option<set<int>>, topK: (seq<real>, nat) -> seq<nat>, out: seq<Rec>)
    requires Fitted(m)
    requires ValidSelector(topK)
    requires CfRecommendations(m, seeds, n, perSeedK, exclude, topK) == out
    ensures (forall s :: s in seeds ==> s !in m.movieIds) ==> out == []
    ensures (forall x :: x in m.movieIds ==> x in seeds || x in ExcludeSet(exclude)) ==> out == []
    ensures n == 0 ==> out == []
  {
    CfExcludesSeeds(m, seeds, n, perSeedK, exclude, topK, out);
    assert |out| > 0 ==> out[0] in out;
    var seedIdxs := SeedIndices(seeds, m.idxMap);
    if seedIdxs != [] && n == 0 {
      SeedIndicesInRange(m, seeds);
      RecommendationsEmpty(CfRows(m, seedIdxs), CfK(perSeedK, |m.movieIds|), topK, m.movieIds, m.idxMap,
                           m.popScaled, m.titleMap, ExcludeWithSeeds(exclude, seeds), n, RaterEngine);
    }
  }

  /** The result is empty exactly when no seed is in the catalog, `n` is 0,
      or every movie a seed selects is a seed or excluded. */
  lemma CfEmptyExactly(m: ItemItemCF, seeds: seq<int>, n: nat, perSeedK: nat,
                       exclude: Option<set<int>>, topK: (seq<real>, nat) -> seq<nat>, out: seq<Rec>)
    requires Fitted(m)
    requires ValidSelector(topK)
    requires CfRecommendations(m, seeds, n, perSeedK, exclude, topK) == out
    ensures var k := CfK(perSeedK, |m.movieIds|);
      out == [] <==>
        || (forall s :: s in seeds ==> s !in m.movieIds)
        || n == 0
        || (forall s, p :: s in seeds && s in m.idxMap && 0 <= p < k ==>
              Pick(m.sim[m.idxMap[s]], p, k, topK, m.movieIds).movieId in ExcludeWithSeeds(exclude, seeds))
  {
    var k := CfK(perSeedK, |m.movieIds|);
    var ex := ExcludeWithSeeds(exclude, seeds);
    var seedIdxs := SeedIndices(seeds, m.idxMap);
    if seedIdxs != [] {
      SeedIndicesInRange(m, seeds);
      var rows := CfRows(m, seedIdxs);
      assert out == Recommendations(rows, k, topK, m.movieIds, m.idxMap, m.popScaled, m.titleMap, ex, n, RaterEngine);
      RecommendationsEmpty(rows, k, topK, m.movieIds, m.idxMap, m.popScaled, m.titleMap, ex, n, RaterEngine);
      var s0 :| s0 in seeds && s0 in m.idxMap && seedIdxs[0] == m.idxMap[s0];
      CfSeedPicks(m, seeds, k, topK, ex);
    }
  }

  /** A property holds of every position any seed selects, whether the seeds
      are taken by id or by their rows of the similarity matrix. */
  lemma CfSeedPicks(m: ItemItemCF, seeds: seq<int>, k: nat, topK: (seq<real>, nat) -> seq<nat>, ex: set<int>)
    requires Fitted(m)
    requires ValidSelector(topK)
    requires k <= |m.movieIds|
    requires forall p :: 0 <= p < |SeedIndices(seeds, m.idxMap)| ==> SeedIndices(seeds, m.idxMap)[p] < |m.sim|
    ensures var rows := CfRows(m, SeedIndices(seeds, m.idxMap));
      (forall s, p :: s in seeds && s in m.idxMap && 0 <= p < k ==>
         Pick(m.sim[m.idxMap[s]], p, k, topK, m.movieIds).movieId in ex) <==>
      (forall i, p :: 0 <= i < |rows| && 0 <= p < k ==> Pick(rows[i], p, k, topK, m.movieIds).movieId in ex)
  {
    var seedIdxs := SeedIndices(seeds, m.idxMap);
    var rows := CfRows(m, seedIdxs);
    if forall s, p :: s in seeds && s in m.idxMap && 0 <= p < k ==> Pick(m.sim[m.idxMap[s]], p, k, topK, m.movieIds).movieId in ex {
      forall i, p | 0 <= i < |rows| && 0 <= p < k
        ensures Pick(rows[i], p, k, topK, m.movieIds).movieId in ex
      {
        var s :| s in seeds && s in m.idxMap && seedIdxs[i] == m.idxMap[s];
      }
    }
    if forall i, p :: 0 <= i < |rows| && 0 <= p < k ==> Pick(rows[i], p, k, topK, m.movieIds).movieId in ex {
      forall s, p | s in seeds && s in m.idxMap && 0 <= p < k
        ensures Pick(m.sim[m.idxMap[s]], p, k, topK, m.movieIds).movieId in ex
      {
        var i :| 0 <= i < |seedIdxs| && seedIdxs[i] == m.idxMap[s];
        assert rows[i] == m.sim[m.idxMap[s]];
      }
    }
  }

  /** At most `n` recommendations, no movie twice, in non-increasing score
      order; each shows its best similarity over the seeds, lifted by a
      popularity tie-break of at most 0.05, and its title. */
  lemma CfRanked(m: ItemItemCF, seeds: seq<int>, n: nat, perSeedK: nat,
                 exclude: Option<set<int>>, topK: (seq<real>, nat) -> seq<nat>, out: seq<Rec>)
    requires Fitted(m)
    requires ValidSelector(topK)
    requires CfRecommendations(m, seeds, n, perSeedK, exclude, topK) == out
    ensures |out| <= n
    ensures forall p, q :: 0 <= p < q < |out| ==> out[p].score >= out[q].score
    ensures forall p, q :: 0 <= p < q < |out| ==> out[p].movieId != out[q].movieId
    ensures forall r :: r in out ==>
      && r.explanation == SimilarRaters(r.explanation.sim)
      && r.explanation.sim <= r.score <= r.explanation.sim + TieBreakWeight
      && r.title == TitleOr(m.titleMap, r.movieId)
  {
    var seedIdxs := SeedIndices(seeds, m.idxMap);
    if seedIdxs != [] {
      SeedIndicesInRange(m, seeds);
      var ex := ExcludeWithSeeds(exclude, seeds);
      var d := Gathered(CfRows(m, seedIdxs), CfK(perSeedK, |m.movieIds|), topK, m.movieIds, ex);
      assert out == Present(Rank(ScoreItems(d, m.popScaled, m.idxMap), n), m.titleMap, RaterEngine);
      RankedOrder(d, m.popScaled, m.idxMap, n, m.titleMap, RaterEngine);
      RankedDistinct(d, m.popScaled, m.idxMap, n, m.titleMap, RaterEngine);
      RankedEntries(d, m.popScaled, m.idxMap, n, m.titleMap, RaterEngine);
    }
  }

  /** Each recommendation's similarity is the best any seed in the catalog
      gives it among that seed's `k = min(per_seed_k + 1, I - 1)` selected
      items: some seed selected it with exactly that similarity, and no
      seed selected it with more. */
  lemma CfBestOverSeeds(m: ItemItemCF, seeds: seq<int>, n: nat, perSeedK: nat,
                        exclude: Option<set<int>>, topK: (seq<real>, nat) -> seq<nat>, out: seq<Rec>, r: Rec)
    requires Fitted(m)
    requires ValidSelector(topK)
    requires CfRecommendations(m, seeds, n, perSeedK, exclude, topK) == out
    requires r in out
    ensures exists s, p ::
      && s in seeds && s in m.idxMap && 0 <= p < CfK(perSeedK, |m.movieIds|)
      && Pick(m.sim[m.idxMap[s]], p, CfK(perSeedK, |m.movieIds|), topK, m.movieIds) == Nomination(r.movieId, r.explanation.sim)
    ensures forall s, p ::
      (&& s in seeds && s in m.idxMap && 0 <= p < CfK(perSeedK, |m.movieIds|)
       && Pick(m.sim[m.idxMap[s]], p, CfK(perSeedK, |m.movieIds|), topK, m.movieIds).movieId == r.movieId) ==>
        Pick(m.sim[m.idxMap[s]], p, CfK(perSeedK, |m.movieIds|), topK, m.movieIds).sim <= r.explanation.sim
  {
    var seedIdxs := SeedIndices(seeds, m.idxMap);
    if seedIdxs == [] {
      assert false;
    } else {
      SeedIndicesInRange(m, seeds);
      var ex := ExcludeWithSeeds(exclude, seeds);
      var k := CfK(perSeedK, |m.movieIds|);
      var rows := CfRows(m, seedIdxs);
      var d := Gathered(rows, k, topK, m.movieIds, ex);
      assert out == Present(Rank(ScoreItems(d, m.popScaled, m.idxMap), n), m.titleMap, RaterEngine);
      RankedEntries(d, m.popScaled, m.idxMap, n, m.titleMap, RaterEngine);
      assert r.movieId in d.best && r.explanation.sim == d.best[r.movieId];
      GatheredAttained(rows, k, topK, m.movieIds, ex, r.movieId);
      var i, p :| 0 <= i < |rows| && 0 <= p < k && Pick(rows[i], p, k, topK, m.movieIds) == Nomination(r.movieId, d.best[r.movieId]);
      var s :| s in seeds && s in m.idxMap && seedIdxs[i] == m.idxMap[s];
      forall s', p' | s' in seeds && s' in m.idxMap && 0 <= p' < k &&
          Pick(m.sim[m.idxMap[s']], p', k, topK, m.movieIds).movieId == r.movieId
        ensures Pick(m.sim[m.idxMap[s']], p', k, topK, m.movieIds).sim <= r.explanation.sim
      {
        var i' :| 0 <= i' < |seedIdxs| && seedIdxs[i'] == m.idxMap[s'];
        GatheredAtLeastEachSeed(rows, k, topK, m.movieIds, ex, i', p');
      }
    }
  }
}
