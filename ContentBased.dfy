/** The genre-based engine: each catalog movie's genre flags as a row
    divided by the row's norm (zero rows left as they are), per-seed
    similarity rows as dot products against the seed's row, and then the
    shared candidate, aggregate and rank pipeline with the genre
    explanation. */
module ContentBased {
  import opened Tables
  import opened StableSort
  import opened Candidates

  /** The 19 genre flag columns, in matrix column order. */
  const GenreCols: seq<string> := [
    "unknown", "Action", "Adventure", "Animation", "Children", "Comedy", "Crime",
    "Documentary", "Drama", "Fantasy", "Film-Noir", "Horror", "Musical", "Mystery",
    "Romance", "Sci-Fi", "Thriller", "War", "Western"
  ]

  /** The `ValueError` raised when the catalog lacks genre columns, with the
      missing names in `GenreCols` order. */
  datatype GenreError = MissingGenreColumns(missing: seq<string>)

  /** The catalog ids and the row-normalised genre matrix. */
  datatype GenreMatrix = GenreMatrix(movieIds: seq<int>, xn: seq<seq<real>>)

  /** A frame holds a value in every one of its columns on every row. */
  ghost predicate Shaped(movies: Movies) {
    forall i, c :: 0 <= i < |movies.rows| && c in movies.columns ==> c in movies.rows[i].flags
  }

  /** `[c for c in cols if c not in columns]`. */
  function Missing(cols: seq<string>, columns: set<string>): (missing: seq<string>)
    ensures |missing| <= |cols|
    ensures forall c :: c in missing <==> c in cols && c !in columns
  {
    if cols == [] then []
    else (if cols[0] in columns then [] else [cols[0]]) + Missing(cols[1..], columns)
  }

  /** The genre values of one row, in `GenreCols` order. */
  function GenreRow(row: MovieRow): (x: seq<real>)
    requires forall c :: c in GenreCols ==> c in row.flags
    ensures |x| == |GenreCols|
    ensures forall g :: 0 <= g < |GenreCols| ==> x[g] == row.flags[GenreCols[g]]
  {
    seq(|GenreCols|, g requires 0 <= g < |GenreCols| => row.flags[GenreCols[g]])
  }

  /** The dot product: zero against a row without any genre flag, and never
      negative for a row against itself. */
  function Dot(x: seq<real>, y: seq<real>): (r: real)
    requires |x| == |y|
    ensures (forall g :: 0 <= g < |x| ==> x[g] == 0.0) ==> r == 0.0
    ensures x == y ==> r >= 0.0
  {
    if x == [] then 0.0
    else
      assert forall g :: 0 <= g < |x| - 1 ==> x[1..][g] == x[g + 1];
      x[0] * y[0] + Dot(x[1..], y[1..])
  }

  /** Every element divided by `d`. */
  function Scale(x: seq<real>, d: real): (r: seq<real>)
    requires d != 0.0
    ensures |r| == |x|
    ensures forall g :: 0 <= g < |x| ==> r[g] == x[g] / d
  {
    seq(|x|, g requires 0 <= g < |x| => x[g] / d)
  }

  /** What `np.linalg.norm` of a row stands for: non-negative, and zero
      exactly on an all-zero row. */
  ghost predicate NormSpec(norm: seq<real> -> real) {
    forall x: seq<real> :: norm(x) >= 0.0 && (norm(x) == 0.0 <==> forall g :: 0 <= g < |x| ==> x[g] == 0.0)
  }

  /** One row of `X / norms` after `norms[norms == 0] = 1.0`. */
  function NormalizeRow(x: seq<real>, norm: seq<real> -> real): (r: seq<real>)
    ensures |r| == |x|
  {
    Scale(x, if norm(x) == 0.0 then 1.0 else norm(x))
  }

  /** `_build_genre_matrix`. */
  function BuildGenreMatrix(movies: Movies, norm: seq<real> -> real): (r: Result<GenreMatrix, GenreError>)
    requires Shaped(movies)
    ensures r.Err? <==> exists c :: c in GenreCols && c !in movies.columns
    ensures r.Err? ==> forall c :: c in r.error.missing <==> c in GenreCols && c !in movies.columns
    ensures r.Ok? ==> |r.value.movieIds| == |r.value.xn| == |movies.rows|
    ensures r.Ok? ==> forall i :: 0 <= i < |movies.rows| ==> r.value.movieIds[i] == movies.rows[i].movieId
    ensures r.Ok? ==> forall i :: 0 <= i < |movies.rows| ==> |r.value.xn[i]| == |GenreCols|
  {
    var missing := Missing(GenreCols, movies.columns);
    if missing != [] then
      assert missing[0] in missing;
      Err(MissingGenreColumns(missing))
    else
      assert forall c :: c in GenreCols ==> c in movies.columns;
      var rows := movies.rows;
      Ok(GenreMatrix(MovieIds(rows),
                     seq(|rows|, i requires 0 <= i < |rows| => NormalizeRow(GenreRow(rows[i]), norm))))
  }

  /** A row whose norm is zero is all zeros and is returned unchanged. */
  lemma ZeroNormRow(x: seq<real>, norm: seq<real> -> real)
    requires NormSpec(norm)
    requires norm(x) == 0.0
    ensures forall g :: 0 <= g < |x| ==> x[g] == 0.0
    ensures NormalizeRow(x, norm) == x
  {
    assert Scale(x, 1.0) == x;
  }

  /** Any other row is divided by its own, positive, norm. */
  lemma NonzeroNormRow(x: seq<real>, norm: seq<real> -> real)
    requires NormSpec(norm)
    requires norm(x) != 0.0
    ensures norm(x) > 0.0
    ensures exists g :: 0 <= g < |x| && x[g] != 0.0
    ensures forall g :: 0 <= g < |x| ==> NormalizeRow(x, norm)[g] == x[g] / norm(x)
  {
  }

  /** `Xn @ Xn[si]`: every movie's similarity to the seed at row `si`. */
  function Similarities(xn: seq<seq<real>>, si: nat): (sims: seq<real>)
    requires si < |xn|
    requires forall j :: 0 <= j < |xn| ==> |xn[j]| == |xn[si]|
    ensures |sims| == |xn|
    ensures forall j :: 0 <= j < |xn| ==> sims[j] == Dot(xn[j], xn[si])
  {
    seq(|xn|, j requires 0 <= j < |xn| => Dot(xn[j], xn[si]))
  }

  /** A matrix was built, so every row holds every genre column. */
  lemma GenreColsPresent(movies: Movies, norm: seq<real> -> real, gm: GenreMatrix, i: int)
    requires Shaped(movies)
    requires BuildGenreMatrix(movies, norm) == Ok(gm)
    requires 0 <= i < |movies.rows|
    ensures forall c :: c in GenreCols ==> c in movies.rows[i].flags
  {
    assert forall c :: c in GenreCols ==> c in movies.columns;
  }

  /** Each genre row of the matrix is all zeros, as in the catalog, when
      its norm is zero, and the catalog row divided by its norm otherwise. */
  lemma GenreMatrixRows(movies: Movies, norm: seq<real> -> real, gm: GenreMatrix, i: int)
    requires Shaped(movies)
    requires NormSpec(norm)
    requires BuildGenreMatrix(movies, norm) == Ok(gm)
    requires 0 <= i < |movies.rows|
    requires forall c :: c in GenreCols ==> c in movies.rows[i].flags
    ensures norm(GenreRow(movies.rows[i])) == 0.0 ==>
      forall g :: 0 <= g < |GenreCols| ==> gm.xn[i][g] == movies.rows[i].flags[GenreCols[g]] == 0.0
    ensures norm(GenreRow(movies.rows[i])) != 0.0 ==>
      forall g :: 0 <= g < |GenreCols| ==>
        gm.xn[i][g] == movies.rows[i].flags[GenreCols[g]] / norm(GenreRow(movies.rows[i]))
  {
    var x := GenreRow(movies.rows[i]);
    assert gm.xn[i] == NormalizeRow(x, norm);
    if norm(x) == 0.0 {
      ZeroNormRow(x, norm);
    } else {
      NonzeroNormRow(x, norm);
    }
  }

  /** The similarity row of every seed in the catalog. */
  function SimRows(xn: seq<seq<real>>, seedIdxs: seq<nat>): (rows: seq<seq<real>>)
    requires forall p :: 0 <= p < |seedIdxs| ==> seedIdxs[p] < |xn|
    requires forall j :: 0 <= j < |xn| ==> |xn[j]| == |GenreCols|
    ensures |rows| == |seedIdxs|
    ensures forall i :: 0 <= i < |rows| ==> rows[i] == Similarities(xn, seedIdxs[i]) && |rows[i]| == |xn|
  {
    seq(|seedIdxs|, i requires 0 <= i < |seedIdxs| => Similarities(xn, seedIdxs[i]))
  }

  /** The genre matrix is well formed: one id and one row of 19 values per
      catalog movie. */
  ghost predicate WellFormed(gm: GenreMatrix) {
    |gm.movieIds| == |gm.xn| && forall j :: 0 <= j < |gm.xn| ==> |gm.xn[j]| == |GenreCols|
  }

  /** `Xn @ Xn[idx_map[s]]`: the similarities of catalog movie `s` to every
      catalog movie. */
  function SeedSims(gm: GenreMatrix, s: int): (sims: seq<real>)
    requires WellFormed(gm)
    requires s in gm.movieIds
    ensures |sims| == |gm.movieIds|
  {
    Similarities(gm.xn, IndexMap(gm.movieIds)[s])
  }

  /** Everything `recommend_by_genre_similarity` does once the matrix is
      built: the seeds' rows, or the empty answer when no seed is known. */
  function FromMatrix(gm: GenreMatrix, ratings: seq<Rating>, titles: map<int, string>, seeds: seq<int>,
                      n: nat, perSeedK: nat, ex: set<int>, topK: (seq<real>, nat) -> seq<nat>): (recs: seq<Rec>)
    requires WellFormed(gm)
    requires ValidSelector(topK)
    ensures |recs| <= n
    ensures (forall s :: s in seeds ==> s !in gm.movieIds) ==> recs == []
  {
    var idx := IndexMap(gm.movieIds);
    var seedIdxs := SeedIndices(seeds, idx);
    if seedIdxs == [] then []
    else
      Recommendations(SimRows(gm.xn, seedIdxs), Min(perSeedK, |gm.movieIds|), topK, gm.movieIds, idx,
                      PopScaled(gm.movieIds, ratings), titles, ex, n, GenreEngine)
  }

  /** `recommend_by_genre_similarity`, as a value. */
  function GenreRecommendations(movies: Movies, ratings: seq<Rating>, seeds: seq<int>, n: nat, perSeedK: nat,
                                exclude: Option<set<int>>, norm: seq<real> -> real,
                                topK: (seq<real>, nat) -> seq<nat>): (r: Result<seq<Rec>, GenreError>)
    requires Shaped(movies)
    requires ValidSelector(topK)
    ensures r.Ok? ==> |r.value| <= n
  {
    match BuildGenreMatrix(movies, norm)
    case Err(e) => Err(e)
    case Ok(gm) =>
      Ok(FromMatrix(gm, ratings, TitleMap(movies.rows), seeds, n, perSeedK, ExcludeWithSeeds(exclude, seeds), topK))
  }

  /** The outer loop over the seeds: each seed's similarity row, then its
      selected positions offered to the best-similarity dictionary. */
  method GatherGenreSeeds(xn: seq<seq<real>>, seedIdxs: seq<nat>, k: nat, topK: (seq<real>, nat) -> seq<nat>,
                          movieIds: seq<int>, ex: set<int>) returns (d: BestSims)
    requires ValidSelector(topK)
    requires |xn| == |movieIds| && k <= |movieIds|
    requires forall p :: 0 <= p < |seedIdxs| ==> seedIdxs[p] < |xn|
    requires forall j :: 0 <= j < |xn| ==> |xn[j]| == |GenreCols|
    ensures d == Gathered(SimRows(xn, seedIdxs), k, topK, movieIds, ex)
  {
    ghost var simRows := SimRows(xn, seedIdxs);
    d := BestSims([], map[]);
    var i := 0;
    while i < |seedIdxs|
      invariant 0 <= i <= |seedIdxs|
      invariant d == OfferAll(BestSims([], map[]), AllNominations(simRows[..i], k, topK, movieIds), ex)
    {
      var sims := Similarities(xn, seedIdxs[i]);
      GatherStep(simRows, i, k, topK, movieIds, ex);
      d := OfferSeed(d, sims, k, topK, movieIds, ex);
      i := i + 1;
    }
    assert simRows[..i] == simRows;
  }

  /** `recommend_by_genre_similarity`. */
  method RecommendByGenreSimilarity(movies: Movies, ratings: seq<Rating>, seeds: seq<int>, n: nat, perSeedK: nat,
                                    exclude: Option<set<int>>, norm: seq<real> -> real,
                                    topK: (seq<real>, nat) -> seq<nat>) returns (r: Result<seq<Rec>, GenreError>)
    requires Shaped(movies)
    requires ValidSelector(topK)
    ensures r == GenreRecommendations(movies, ratings, seeds, n, perSeedK, exclude, norm, topK)
  {
    var built := BuildGenreMatrix(movies, norm);
    if built.Err? {
      return Err(built.error);
    }
    var recs := RecommendFromMatrix(built.value, ratings, TitleMap(movies.rows), seeds, n, perSeedK,
                                    ExcludeWithSeeds(exclude, seeds), topK);
    return Ok(recs);
  }

  /** The part of `recommend_by_genre_similarity` after the matrix is built. */
  method RecommendFromMatrix(gm: GenreMatrix, ratings: seq<Rating>, titles: map<int, string>, seeds: seq<int>,
                             n: nat, perSeedK: nat, ex: set<int>, topK: (seq<real>, nat) -> seq<nat>)
    returns (recs: seq<Rec>)
    requires WellFormed(gm)
    requires ValidSelector(topK)
    ensures recs == FromMatrix(gm, ratings, titles, seeds, n, perSeedK, ex, topK)
  {
    var idx := IndexMap(gm.movieIds);
    var seedIdxs := SeedIndices(seeds, idx);
    if seedIdxs == [] {
      return [];
    }
    var pop := PopScaled(gm.movieIds, ratings);
    var k := Min(perSeedK, |gm.movieIds|);
    var d := GatherGenreSeeds(gm.xn, seedIdxs, k, topK, gm.movieIds, ex);
    recs := RankAndPresent(d, pop, idx, n, titles, GenreEngine);
  }

  /** The `ValueError` is raised exactly when a genre column is missing, and
      names the missing ones. */
  lemma GenreMissingColumns(movies: Movies, ratings: seq<Rating>, seeds: seq<int>, n: nat, perSeedK: nat,
                            exclude: Option<set<int>>, norm: seq<real> -> real, topK: (seq<real>, nat) -> seq<nat>)
    requires Shaped(movies)
    requires ValidSelector(topK)
    ensures GenreRecommendations(movies, ratings, seeds, n, perSeedK, exclude, norm, topK).Err? <==>
      exists c :: c in GenreCols && c !in movies.columns
    ensures GenreRecommendations(movies, ratings, seeds, n, perSeedK, exclude, norm, topK).Err? ==>
      forall c :: c in GenreRecommendations(movies, ratings, seeds, n, perSeedK, exclude, norm, topK).error.missing <==>
        c in GenreCols && c !in movies.columns
  {
  }

  /** No seed and no excluded id is ever recommended; every recommendation
      is a catalog movie. */
  lemma GenreExcludesSeeds(movies: Movies, ratings: seq<Rating>, seeds: seq<int>, n: nat, perSeedK: nat,
                           exclude: Option<set<int>>, norm: seq<real> -> real, topK: (seq<real>, nat) -> seq<nat>,
                           out: seq<Rec>)
    requires Shaped(movies)
    requires ValidSelector(topK)
    requires GenreRecommendations(movies, ratings, seeds, n, perSeedK, exclude, norm, topK) == Ok(out)
    ensures forall r :: r in out ==>
      r.movieId !in seeds && r.movieId !in ExcludeSet(exclude) && r.movieId in MovieIds(movies.rows)
  {
    var gm := BuildGenreMatrix(movies, norm).value;
    assert gm.movieIds == MovieIds(movies.rows);
    FromMatrixExcluded(gm, ratings, TitleMap(movies.rows), seeds, n, perSeedK, ExcludeWithSeeds(exclude, seeds), topK);
  }

  /** Past the matrix, every recommendation is a catalog movie outside the
      exclude set. */
  lemma FromMatrixExcluded(gm: GenreMatrix, ratings: seq<Rating>, titles: map<int, string>, seeds: seq<int>,
                           n: nat, perSeedK: nat, ex: set<int>, topK: (seq<real>, nat) -> seq<nat>)
    requires WellFormed(gm)
    requires ValidSelector(topK)
    ensures forall r :: r in FromMatrix(gm, ratings, titles, seeds, n, perSeedK, ex, topK) ==>
      r.movieId in gm.movieIds && r.movieId !in ex
  {
    var idx := IndexMap(gm.movieIds);
    var seedIdxs := SeedIndices(seeds, idx);
    if seedIdxs != [] {
      RecommendationsExcluded(SimRows(gm.xn, seedIdxs), Min(perSeedK, |gm.movieIds|), topK, gm.movieIds, idx,
                              PopScaled(gm.movieIds, ratings), titles, ex, n, GenreEngine);
    }
  }

  /** The result is empty when no seed is in the catalog, and when every
      catalog movie is a seed or excluded. */
  lemma GenreEmpty(movies: Movies, ratings: seq<Rating>, seeds: seq<int>, n: nat, perSeedK: nat,
                   exclude: Option<set<int>>, norm: seq<real> -> real, topK: (seq<real>, nat) -> seq<nat>,
                   out: seq<Rec>)
    requires Shaped(movies)
    requires ValidSelector(topK)
    requires GenreRecommendations(movies, ratings, seeds, n, perSeedK, exclude, norm, topK) == Ok(out)
    ensures (forall s :: s in seeds ==> s !in MovieIds(movies.rows)) ==> out == []
    ensures (forall x :: x in MovieIds(movies.rows) ==> x in seeds || x in ExcludeSet(exclude)) ==> out == []
  {
    GenreExcludesSeeds(movies, ratings, seeds, n, perSeedK, exclude, norm, topK, out);
    assert |out| > 0 ==> out[0] in out;
  }

  /** The result, computed over the genre matrix `gm`, is empty exactly when
      no seed is in the catalog, `n` is 0, or every movie a seed selects is
      a seed or excluded. */
  lemma GenreEmptyExactly(movies: Movies, ratings: seq<Rating>, seeds: seq<int>, n: nat, perSeedK: nat,
                          exclude: Option<set<int>>, norm: seq<real> -> real, topK: (seq<real>, nat) -> seq<nat>,
                          gm: GenreMatrix, out: seq<Rec>)
    requires Shaped(movies)
    requires ValidSelector(topK)
    requires BuildGenreMatrix(movies, norm) == Ok(gm)
    requires GenreRecommendations(movies, ratings, seeds, n, perSeedK, exclude, norm, topK) == Ok(out)
    ensures WellFormed(gm)
    ensures var k := Min(perSeedK, |gm.movieIds|);
      out == [] <==>
        || (forall s :: s in seeds ==> s !in MovieIds(movies.rows))
        || n == 0
        || (forall s, p :: s in seeds && s in gm.movieIds && 0 <= p < k ==>
              Pick(SeedSims(gm, s), p, k, topK, gm.movieIds).movieId in ExcludeWithSeeds(exclude, seeds))
  {
    assert gm.movieIds == MovieIds(movies.rows);
    assert out == FromMatrix(gm, ratings, TitleMap(movies.rows), seeds, n, perSeedK, ExcludeWithSeeds(exclude, seeds), topK);
    FromMatrixEmpty(gm, ratings, TitleMap(movies.rows), seeds, n, perSeedK, ExcludeWithSeeds(exclude, seeds), topK);
  }

  /** Past the matrix, the answer is empty exactly when no seed is in the
      catalog, when `n` is 0, or when every movie a seed selects is in `ex`. */
  lemma FromMatrixEmpty(gm: GenreMatrix, ratings: seq<Rating>, titles: map<int, string>, seeds: seq<int>,
                        n: nat, perSeedK: nat, ex: set<int>, topK: (seq<real>, nat) -> seq<nat>)
    requires WellFormed(gm)
    requires ValidSelector(topK)
    ensures var k := Min(perSeedK, |gm.movieIds|);
      FromMatrix(gm, ratings, titles, seeds, n, perSeedK, ex, topK) == [] <==>
        || (forall s :: s in seeds ==> s !in gm.movieIds)
        || n == 0
        || (forall s, p :: s in seeds && s in gm.movieIds && 0 <= p < k ==>
              Pick(SeedSims(gm, s), p, k, topK, gm.movieIds).movieId in ex)
  {
    var idx := IndexMap(gm.movieIds);
    var k := Min(perSeedK, |gm.movieIds|);
    var seedIdxs := SeedIndices(seeds, idx);
    GenreSeedIndicesInRange(gm, seeds);
    if seedIdxs != [] {
      var rows := SimRows(gm.xn, seedIdxs);
      var pop := PopScaled(gm.movieIds, ratings);
      assert FromMatrix(gm, ratings, titles, seeds, n, perSeedK, ex, topK) ==
        Recommendations(rows, k, topK, gm.movieIds, idx, pop, titles, ex, n, GenreEngine);
      RecommendationsEmpty(rows, k, topK, gm.movieIds, idx, pop, titles, ex, n, GenreEngine);
      GenreSeedPicks(gm, seeds, k, topK, ex, rows);
    }
  }

  /** Every pick of every seed's row is excluded exactly when every pick of
      every known seed is. */
  lemma GenreSeedPicks(gm: GenreMatrix, seeds: seq<int>, k: nat, topK: (seq<real>, nat) -> seq<nat>, ex: set<int>,
                        rows: seq<seq<real>>)
    requires WellFormed(gm)
    requires ValidSelector(topK)
    requires k <= |gm.movieIds|
    requires forall p :: 0 <= p < |SeedIndices(seeds, IndexMap(gm.movieIds))| ==>
      SeedIndices(seeds, IndexMap(gm.movieIds))[p] < |gm.xn|
    requires rows == SimRows(gm.xn, SeedIndices(seeds, IndexMap(gm.movieIds)))
    ensures (forall s, p :: s in seeds && s in gm.movieIds && 0 <= p < k ==>
               Pick(SeedSims(gm, s), p, k, topK, gm.movieIds).movieId in ex) <==>
            (forall i, p :: 0 <= i < |rows| && 0 <= p < k ==> Pick(rows[i], p, k, topK, gm.movieIds).movieId in ex)
  {
    var idx := IndexMap(gm.movieIds);
    var seedIdxs := SeedIndices(seeds, idx);
    var bySeed := forall s, p :: s in seeds && s in gm.movieIds && 0 <= p < k ==>
      Pick(SeedSims(gm, s), p, k, topK, gm.movieIds).movieId in ex;
    var byRow := forall i, p :: 0 <= i < |rows| && 0 <= p < k ==> Pick(rows[i], p, k, topK, gm.movieIds).movieId in ex;
    if bySeed {
      forall i, p | 0 <= i < |rows| && 0 <= p < k
        ensures Pick(rows[i], p, k, topK, gm.movieIds).movieId in ex
      {
        var s :| s in seeds && s in idx && seedIdxs[i] == idx[s];
        assert rows[i] == SeedSims(gm, s);
      }
      assert byRow;
    }
    if byRow {
      forall s, p | s in seeds && s in gm.movieIds && 0 <= p < k
        ensures Pick(SeedSims(gm, s), p, k, topK, gm.movieIds).movieId in ex
      {
        var i :| 0 <= i < |seedIdxs| && seedIdxs[i] == idx[s];
        assert rows[i] == SeedSims(gm, s);
      }
      assert bySeed;
    }
    assert bySeed <==> byRow;
  }

  /** Over the genre matrix `gm`, a recommendation shows the similarity
      that some seed selecting it gave it, and no seed selecting it gave
      more: `best_sim` keeps the maximum over the seeds. */
  lemma GenreBestOverSeeds(movies: Movies, ratings: seq<Rating>, seeds: seq<int>, n: nat, perSeedK: nat,
                           exclude: Option<set<int>>, norm: seq<real> -> real, topK: (seq<real>, nat) -> seq<nat>,
                           gm: GenreMatrix, out: seq<Rec>, r: Rec)
    requires Shaped(movies)
    requires ValidSelector(topK)
    requires BuildGenreMatrix(movies, norm) == Ok(gm)
    requires GenreRecommendations(movies, ratings, seeds, n, perSeedK, exclude, norm, topK) == Ok(out)
    requires r in out
    ensures WellFormed(gm)
    ensures var k := Min(perSeedK, |gm.movieIds|);
      exists s, p ::
        && s in seeds && s in gm.movieIds && 0 <= p < k
        && Pick(SeedSims(gm, s), p, k, topK, gm.movieIds) == Nomination(r.movieId, r.explanation.sim)
    ensures var k := Min(perSeedK, |gm.movieIds|);
      forall s, p ::
        (&& s in seeds && s in gm.movieIds && 0 <= p < k
         && Pick(SeedSims(gm, s), p, k, topK, gm.movieIds).movieId == r.movieId) ==>
          Pick(SeedSims(gm, s), p, k, topK, gm.movieIds).sim <= r.explanation.sim
  {
    assert out == FromMatrix(gm, ratings, TitleMap(movies.rows), seeds, n, perSeedK, ExcludeWithSeeds(exclude, seeds), topK);
    FromMatrixBestOverSeeds(gm, ratings, TitleMap(movies.rows), seeds, n, perSeedK, ExcludeWithSeeds(exclude, seeds), topK, r);
  }

  /** The ranked output: at most `n` rows, best final score first, no movie
      twice, each row explaining its similarity, a score within the
      tie-break band above it, and the catalog title. */
  lemma GenreRanked(movies: Movies, ratings: seq<Rating>, seeds: seq<int>, n: nat, perSeedK: nat,
                    exclude: Option<set<int>>, norm: seq<real> -> real, topK: (seq<real>, nat) -> seq<nat>,
                    out: seq<Rec>)
    requires Shaped(movies)
    requires ValidSelector(topK)
    requires GenreRecommendations(movies, ratings, seeds, n, perSeedK, exclude, norm, topK) == Ok(out)
    ensures |out| <= n
    ensures forall p, q :: 0 <= p < q < |out| ==> out[p].score >= out[q].score
    ensures forall p, q :: 0 <= p < q < |out| ==> out[p].movieId != out[q].movieId
    ensures forall r :: r in out ==>
      && r.explanation == SimilarGenres(r.explanation.sim)
      && r.explanation.sim <= r.score <= r.explanation.sim + TieBreakWeight
      && r.title == TitleOr(TitleMap(movies.rows), r.movieId)
  {
    var gm := BuildGenreMatrix(movies, norm).value;
    assert out == FromMatrix(gm, ratings, TitleMap(movies.rows), seeds, n, perSeedK, ExcludeWithSeeds(exclude, seeds), topK);
    FromMatrixRanked(gm, ratings, TitleMap(movies.rows), seeds, n, perSeedK, ExcludeWithSeeds(exclude, seeds), topK);
  }

  lemma FromMatrixRanked(gm: GenreMatrix, ratings: seq<Rating>, titles: map<int, string>, seeds: seq<int>,
                         n: nat, perSeedK: nat, ex: set<int>, topK: (seq<real>, nat) -> seq<nat>)
    requires WellFormed(gm)
    requires ValidSelector(topK)
    ensures var out := FromMatrix(gm, ratings, titles, seeds, n, perSeedK, ex, topK);
      && (forall p, q :: 0 <= p < q < |out| ==> out[p].score >= out[q].score)
      && (forall p, q :: 0 <= p < q < |out| ==> out[p].movieId != out[q].movieId)
      && (forall r :: r in out ==>
            && r.explanation == SimilarGenres(r.explanation.sim)
            && r.explanation.sim <= r.score <= r.explanation.sim + TieBreakWeight
            && r.title == TitleOr(titles, r.movieId))
  {
    var idx := IndexMap(gm.movieIds);
    var seedIdxs := SeedIndices(seeds, idx);
    if seedIdxs != [] {
      GenreSeedIndicesInRange(gm, seeds);
      PopScaledInUnit(gm.movieIds, ratings);
      var pop := PopScaled(gm.movieIds, ratings);
      var d := Gathered(SimRows(gm.xn, seedIdxs), Min(perSeedK, |gm.movieIds|), topK, gm.movieIds, ex);
      assert FromMatrix(gm, ratings, titles, seeds, n, perSeedK, ex, topK)
          == Present(Rank(ScoreItems(d, pop, idx), n), titles, GenreEngine);
      RankedOrder(d, pop, idx, n, titles, GenreEngine);
      RankedDistinct(d, pop, idx, n, titles, GenreEngine);
      RankedEntries(d, pop, idx, n, titles, GenreEngine);
    }
  }

  /** Past the matrix, a recommendation's similarity is the best that the
      seeds selecting it gave it. */
  lemma FromMatrixBestOverSeeds(gm: GenreMatrix, ratings: seq<Rating>, titles: map<int, string>, seeds: seq<int>,
                                n: nat, perSeedK: nat, ex: set<int>, topK: (seq<real>, nat) -> seq<nat>, r: Rec)
    requires WellFormed(gm)
    requires ValidSelector(topK)
    requires r in FromMatrix(gm, ratings, titles, seeds, n, perSeedK, ex, topK)
    ensures var k := Min(perSeedK, |gm.movieIds|);
      exists s, p ::
        && s in seeds && s in gm.movieIds && 0 <= p < k
        && Pick(SeedSims(gm, s), p, k, topK, gm.movieIds) == Nomination(r.movieId, r.explanation.sim)
    ensures var k := Min(perSeedK, |gm.movieIds|);
      forall s, p ::
        (&& s in seeds && s in gm.movieIds && 0 <= p < k
         && Pick(SeedSims(gm, s), p, k, topK, gm.movieIds).movieId == r.movieId) ==>
          Pick(SeedSims(gm, s), p, k, topK, gm.movieIds).sim <= r.explanation.sim
  {
    var idx := IndexMap(gm.movieIds);
    var seedIdxs := SeedIndices(seeds, idx);
    var k := Min(perSeedK, |gm.movieIds|);
    var rows := FromMatrixGathered(gm, ratings, titles, seeds, n, perSeedK, ex, topK, r);
    GatheredAttained(rows, k, topK, gm.movieIds, ex, r.movieId);
    var i, p :| 0 <= i < |rows| && 0 <= p < k && Pick(rows[i], p, k, topK, gm.movieIds) == Nomination(r.movieId, r.explanation.sim);
    var s :| s in seeds && s in idx && seedIdxs[i] == idx[s];
    assert rows[i] == SeedSims(gm, s);
    forall s', p' | s' in seeds && s' in gm.movieIds && 0 <= p' < k &&
        Pick(SeedSims(gm, s'), p', k, topK, gm.movieIds).movieId == r.movieId
      ensures Pick(SeedSims(gm, s'), p', k, topK, gm.movieIds).sim <= r.explanation.sim
    {
      var i' :| 0 <= i' < |seedIdxs| && seedIdxs[i'] == idx[s'];
      assert rows[i'] == SeedSims(gm, s');
      GatheredAtLeastEachSeed(rows, k, topK, gm.movieIds, ex, i', p');
    }
  }

  /** Seed indices drawn from the matrix's index fall inside the matrix. */
  lemma GenreSeedIndicesInRange(gm: GenreMatrix, seeds: seq<int>)
    requires WellFormed(gm)
    ensures var seedIdxs := SeedIndices(seeds, IndexMap(gm.movieIds));
      forall p :: 0 <= p < |seedIdxs| ==> seedIdxs[p] < |gm.xn|
  {
    var idx := IndexMap(gm.movieIds);
    var seedIdxs := SeedIndices(seeds, idx);
    forall p | 0 <= p < |seedIdxs| ensures seedIdxs[p] < |gm.xn| {
      var s :| s in seeds && s in idx && seedIdxs[p] == idx[s];
    }
  }

  /** Past the matrix, a recommendation comes out of the candidate pipeline
      run over the seeds' similarity rows. */
  lemma FromMatrixRows(gm: GenreMatrix, ratings: seq<Rating>, titles: map<int, string>, seeds: seq<int>,
                       n: nat, perSeedK: nat, ex: set<int>, topK: (seq<real>, nat) -> seq<nat>, r: Rec)
    returns (rows: seq<seq<real>>)
    requires WellFormed(gm)
    requires ValidSelector(topK)
    requires r in FromMatrix(gm, ratings, titles, seeds, n, perSeedK, ex, topK)
    ensures var seedIdxs := SeedIndices(seeds, IndexMap(gm.movieIds));
      && (forall p :: 0 <= p < |seedIdxs| ==> seedIdxs[p] < |gm.xn|)
      && rows == SimRows(gm.xn, seedIdxs)
    ensures r in Recommendations(rows, Min(perSeedK, |gm.movieIds|), topK, gm.movieIds, IndexMap(gm.movieIds),
                                 PopScaled(gm.movieIds, ratings), titles, ex, n, GenreEngine)
  {
    var seedIdxs := SeedIndices(seeds, IndexMap(gm.movieIds));
    GenreSeedIndicesInRange(gm, seeds);
    if seedIdxs == [] {
      assert false;
    } else {
      rows := SimRows(gm.xn, seedIdxs);
    }
  }

  /** A recommendation past the matrix carries the best similarity the
      gathering loop recorded for its movie, over the seeds' rows. */
  lemma FromMatrixGathered(gm: GenreMatrix, ratings: seq<Rating>, titles: map<int, string>, seeds: seq<int>,
                           n: nat, perSeedK: nat, ex: set<int>, topK: (seq<real>, nat) -> seq<nat>, r: Rec)
    returns (rows: seq<seq<real>>)
    requires WellFormed(gm)
    requires ValidSelector(topK)
    requires r in FromMatrix(gm, ratings, titles, seeds, n, perSeedK, ex, topK)
    ensures var seedIdxs := SeedIndices(seeds, IndexMap(gm.movieIds));
      && (forall p :: 0 <= p < |seedIdxs| ==> seedIdxs[p] < |gm.xn|)
      && rows == SimRows(gm.xn, seedIdxs)
    ensures var d := Gathered(rows, Min(perSeedK, |gm.movieIds|), topK, gm.movieIds, ex);
      r.movieId in d.best && r.movieId !in ex && r.explanation.sim == d.best[r.movieId]
  {
    rows := FromMatrixRows(gm, ratings, titles, seeds, n, perSeedK, ex, topK, r);
    PopScaledInUnit(gm.movieIds, ratings);
    RecommendedBest(rows, Min(perSeedK, |gm.movieIds|), topK, gm.movieIds, IndexMap(gm.movieIds),
                    PopScaled(gm.movieIds, ratings), titles, ex, n, GenreEngine, r);
  }
}
