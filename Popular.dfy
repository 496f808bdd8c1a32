/** The popularity baseline: every rated movie's rating count and mean,
    filtered by a minimum count and an exclude set, ranked by mean and then
    count (both descending), truncated, and joined with catalog titles. */
module Popular {
  import opened Tables
  import opened StableSort

  /** One row of `groupby("movie_id")["rating"].agg(["count", "mean"])`. */
  datatype AggRow = AggRow(movieId: int, count: nat, mean: real)

  /** One output row: `movie_id, title, score, rating_count, explanation`.
      The title is `None` where the left merge finds no catalog row (NaN). */
  datatype PopularRow = PopularRow(movieId: int, title: Option<string>, score: real, ratingCount: nat, explanation: string)

  const PopularExplanation: string := "Popular baseline: high average ratings with enough rating."

  /** The aggregate row of movie `m`: its number of rating rows and, when
      there are any, their mean. */
  function AggOf(ratings: seq<Rating>, m: int): (a: AggRow)
    ensures a.movieId == m && a.count == RatingCount(ratings, m)
    ensures a.count == 0 <==> forall i :: 0 <= i < |ratings| ==> ratings[i].movieId != m
    ensures a.count > 0 ==> a.mean * a.count as real == RatingSum(ratings, m)
  {
    var c := RatingCount(ratings, m);
    AggRow(m, c, if c == 0 then 0.0 else RatingSum(ratings, m) / c as real)
  }

  /** The aggregate frame: one row per rated movie, in ascending id order. */
  function Aggregate(ratings: seq<Rating>): (agg: seq<AggRow>)
    ensures |agg| == |SortedUnique(RatedMovieColumn(ratings))|
    ensures forall i :: 0 <= i < |agg| ==> agg[i] == AggOf(ratings, SortedUnique(RatedMovieColumn(ratings))[i])
  {
    var ids := SortedUnique(RatedMovieColumn(ratings));
    seq(|ids|, i requires 0 <= i < |ids| => AggOf(ratings, ids[i]))
  }

  /** `agg[agg["rating_count"] >= min_ratings]` then `agg[~agg["movie_id"].isin(exclude)]`. */
  function Eligible(agg: seq<AggRow>, minRatings: int, exclude: set<int>): (r: seq<AggRow>)
    ensures forall a :: a in r <==> a in agg && a.count >= minRatings && a.movieId !in exclude
    decreases |agg|
  {
    if agg == [] then []
    else
      var rest := Eligible(agg[1..], minRatings, exclude);
      assert forall a :: a in agg <==> a == agg[0] || a in agg[1..];
      if agg[0].count >= minRatings && agg[0].movieId !in exclude then [agg[0]] + rest else rest
  }

  /** `a` may precede `b` under `sort_values(["rating_mean", "rating_count"], ascending=[False, False])`. */
  predicate MeanThenCount(a: AggRow, b: AggRow) {
    a.mean > b.mean || (a.mean == b.mean && a.count >= b.count)
  }

  predicate IdBefore(a: AggRow, b: AggRow) {
    a.movieId < b.movieId
  }

  /** `.merge(movies[["movie_id", "title"]], on="movie_id", how="left")` and
      the two added columns, on the kept rows. */
  function Join(top: seq<AggRow>, titles: map<int, string>): (out: seq<PopularRow>)
    ensures |out| == |top|
  {
    seq(|top|, i requires 0 <= i < |top| =>
      var a := top[i];
      PopularRow(a.movieId, if a.movieId in titles then Some(titles[a.movieId]) else None,
                 a.mean, a.count, PopularExplanation))
  }

  /** `recommend_popular`: `head(n)` of the qualifying movies, so `n` rows
      when that many qualify, and for a negative `n` all but the last `-n`. */
  function RecommendPopular(ratings: seq<Rating>, movies: Movies, n: int, exclude: Option<set<int>>, minRatings: int)
    : (out: seq<PopularRow>)
    requires DistinctMovieIds(movies)
    ensures var qualifying := |Eligible(Aggregate(ratings), minRatings, ExcludeSet(exclude))|;
      && (0 <= n ==> |out| == Min(n, qualifying))
      && (n < 0 ==> |out| == if -n <= qualifying then qualifying + n else 0)
  {
    var agg := Eligible(Aggregate(ratings), minRatings, ExcludeSet(exclude));
    Join(Take(SortBy(agg, MeanThenCount), n), TitleMap(movies.rows))
  }

  ghost predicate IdsIncreasing(agg: seq<AggRow>) {
    forall i, j :: 0 <= i < j < |agg| ==> agg[i].movieId < agg[j].movieId
  }

  /** The aggregate rows come in strictly ascending movie id order. */
  lemma AggregateIncreasing(ratings: seq<Rating>)
    ensures IdsIncreasing(Aggregate(ratings))
  {
    var ids := SortedUnique(RatedMovieColumn(ratings));
    var agg := Aggregate(ratings);
    forall i, j | 0 <= i < j < |agg| ensures agg[i].movieId < agg[j].movieId {
      assert agg[i].movieId == ids[i] && agg[j].movieId == ids[j];
    }
  }

  /** Every rated movie has its aggregate row. */
  lemma AggregateCovers(ratings: seq<Rating>, q: int)
    requires 0 <= q < |ratings|
    ensures AggOf(ratings, ratings[q].movieId) in Aggregate(ratings)
  {
    var col := RatedMovieColumn(ratings);
    var ids := SortedUnique(col);
    assert col[q] == ratings[q].movieId;
    assert ratings[q].movieId in ids;
    var i :| 0 <= i < |ids| && ids[i] == ratings[q].movieId;
    assert Aggregate(ratings)[i] == AggOf(ratings, ratings[q].movieId);
  }

  /** Every aggregate row belongs to a rated movie, so its count is at least
      one and its mean is the sum of that movie's ratings over the count. */
  lemma AggregateStats(ratings: seq<Rating>, a: AggRow)
    requires a in Aggregate(ratings)
    ensures a == AggOf(ratings, a.movieId)
    ensures a.count == RatingCount(ratings, a.movieId) >= 1
    ensures a.mean == RatingSum(ratings, a.movieId) / a.count as real
  {
    var col := RatedMovieColumn(ratings);
    var ids := SortedUnique(col);
    var agg := Aggregate(ratings);
    var i :| 0 <= i < |agg| && agg[i] == a;
    assert ids[i] in col;
    var q :| 0 <= q < |col| && col[q] == ids[i];
    assert ratings[q].movieId == a.movieId;
  }

  /** Rows with the same id in an id-increasing frame are the same row. */
  lemma SameIdSameRow(agg: seq<AggRow>)
    requires IdsIncreasing(agg)
    ensures forall a, b :: a in agg && b in agg && a.movieId == b.movieId ==> a == b
  {
    forall a, b | a in agg && b in agg && a.movieId == b.movieId ensures a == b {
      var i :| 0 <= i < |agg| && agg[i] == a;
      var j :| 0 <= j < |agg| && agg[j] == b;
    }
  }

  lemma {:induction false} EligibleIncreasing(agg: seq<AggRow>, minRatings: int, exclude: set<int>)
    requires IdsIncreasing(agg)
    ensures IdsIncreasing(Eligible(agg, minRatings, exclude))
    decreases |agg|
  {
    if agg != [] {
      assert IdsIncreasing(agg[1..]) by {
        forall i, j | 0 <= i < j < |agg[1..]| ensures agg[1..][i].movieId < agg[1..][j].movieId {
          assert agg[1..][i] == agg[i + 1] && agg[1..][j] == agg[j + 1];
        }
      }
      EligibleIncreasing(agg[1..], minRatings, exclude);
      var rest := Eligible(agg[1..], minRatings, exclude);
      forall b | b in rest
        ensures agg[0].movieId < b.movieId
      {
        var j :| 0 <= j < |agg[1..]| && agg[1..][j] == b;
        assert b == agg[j + 1];
      }
    }
  }

  /** Every returned movie has at least `min_ratings` ratings, is not
      excluded (a missing exclude set excludes nothing), and carries its
      rating count, its mean rating as the score and the constant
      explanation. */
  lemma PopularRowsFiltered(ratings: seq<Rating>, movies: Movies, n: int, exclude: Option<set<int>>, minRatings: int,
                            out: seq<PopularRow>, p: int)
    requires DistinctMovieIds(movies)
    requires out == RecommendPopular(ratings, movies, n, exclude, minRatings)
    requires 0 <= p < |out|
    ensures out[p].ratingCount >= minRatings
    ensures out[p].movieId !in ExcludeSet(exclude)
    ensures out[p].ratingCount == RatingCount(ratings, out[p].movieId) >= 1
    ensures out[p].score == RatingSum(ratings, out[p].movieId) / out[p].ratingCount as real
    ensures out[p].explanation == PopularExplanation
  {
    var top := Take(SortBy(Eligible(Aggregate(ratings), minRatings, ExcludeSet(exclude)), MeanThenCount), n);
    KeptRow(ratings, minRatings, ExcludeSet(exclude), n, top, p);
    AggregateStats(ratings, top[p]);
    assert out[p] == Join(top, TitleMap(movies.rows))[p];
  }

  /** Every returned movie carries its catalog title, and none when the
      catalog lacks it. */
  lemma PopularTitles(ratings: seq<Rating>, movies: Movies, n: int, exclude: Option<set<int>>, minRatings: int,
                      out: seq<PopularRow>, p: int)
    requires DistinctMovieIds(movies)
    requires out == RecommendPopular(ratings, movies, n, exclude, minRatings)
    requires 0 <= p < |out|
    ensures forall i :: 0 <= i < |movies.rows| && movies.rows[i].movieId == out[p].movieId ==>
      out[p].title == Some(movies.rows[i].title)
    ensures (forall i :: 0 <= i < |movies.rows| ==> movies.rows[i].movieId != out[p].movieId) ==> out[p].title == None
  {
    var titles := TitleMap(movies.rows);
    var top := Take(SortBy(Eligible(Aggregate(ratings), minRatings, ExcludeSet(exclude)), MeanThenCount), n);
    var x := top[p].movieId;
    assert out[p] == Join(top, titles)[p];
    assert out[p].movieId == x && out[p].title == if x in titles then Some(titles[x]) else None;
    forall i | 0 <= i < |movies.rows| && movies.rows[i].movieId == x
      ensures out[p].title == Some(movies.rows[i].title)
    {
      assert titles[movies.rows[i].movieId] == movies.rows[i].title;
    }
    if forall i :: 0 <= i < |movies.rows| ==> movies.rows[i].movieId != x {
      assert x !in MovieIds(movies.rows);
    }
  }

  /** A kept row is an aggregate row that passed both filters. */
  lemma KeptRow(ratings: seq<Rating>, minRatings: int, exclude: set<int>, n: int, top: seq<AggRow>, p: int)
    requires top == Take(SortBy(Eligible(Aggregate(ratings), minRatings, exclude), MeanThenCount), n)
    requires 0 <= p < |top|
    ensures top[p] in Aggregate(ratings) && top[p].count >= minRatings && top[p].movieId !in exclude
  {
    var sorted := SortBy(Eligible(Aggregate(ratings), minRatings, exclude), MeanThenCount);
    assert top[p] == sorted[p];
    assert top[p] in multiset(sorted);
  }

  /** Rows come by mean rating descending, then rating count descending,
      and rows tied on both come in ascending id order (the stable sort
      keeps the group order). */
  lemma PopularOrdered(ratings: seq<Rating>, movies: Movies, n: int, exclude: Option<set<int>>, minRatings: int,
                       out: seq<PopularRow>)
    requires DistinctMovieIds(movies)
    requires out == RecommendPopular(ratings, movies, n, exclude, minRatings)
    ensures forall i, j :: 0 <= i < j < |out| ==>
      out[i].score > out[j].score || (out[i].score == out[j].score && out[i].ratingCount >= out[j].ratingCount)
    ensures forall i, j :: 0 <= i < j < |out| && out[i].score == out[j].score && out[i].ratingCount == out[j].ratingCount ==>
      out[i].movieId < out[j].movieId
  {
    var agg := Eligible(Aggregate(ratings), minRatings, ExcludeSet(exclude));
    var sorted := SortBy(agg, MeanThenCount);
    var top := Take(sorted, n);
    AggregateIncreasing(ratings);
    EligibleIncreasing(Aggregate(ratings), minRatings, ExcludeSet(exclude));
    SortByThenBy(agg, MeanThenCount, IdBefore);
    forall i, j | 0 <= i < j < |out|
      ensures out[i].score > out[j].score || (out[i].score == out[j].score && out[i].ratingCount >= out[j].ratingCount)
      ensures out[i].score == out[j].score && out[i].ratingCount == out[j].ratingCount ==> out[i].movieId < out[j].movieId
    {
      assert top[i] == sorted[i] && top[j] == sorted[j];
    }
  }

  /** A qualifying movie is left out only when `n` rows (or, for a negative
      `n`, all but the last `-n`) are returned already, and every returned
      row beats it. */
  lemma PopularTopN(ratings: seq<Rating>, movies: Movies, n: int, exclude: Option<set<int>>, minRatings: int,
                    out: seq<PopularRow>, m: int)
    requires DistinctMovieIds(movies)
    requires out == RecommendPopular(ratings, movies, n, exclude, minRatings)
    requires RatingCount(ratings, m) >= 1 && RatingCount(ratings, m) >= minRatings && m !in ExcludeSet(exclude)
    requires forall r :: r in out ==> r.movieId != m
    ensures 0 <= n ==> |out| == n
    ensures forall p :: 0 <= p < |out| ==>
      out[p].score > AggOf(ratings, m).mean || (out[p].score == AggOf(ratings, m).mean && out[p].ratingCount >= RatingCount(ratings, m))
  {
    var all := Aggregate(ratings);
    var agg := Eligible(all, minRatings, ExcludeSet(exclude));
    var sorted := SortBy(agg, MeanThenCount);
    var top := Take(sorted, n);
    var q :| 0 <= q < |ratings| && ratings[q].movieId == m;
    AggregateCovers(ratings, q);
    var a := AggOf(ratings, m);
    assert a in agg;
    assert a !in top by {
      forall p | 0 <= p < |top| ensures top[p] != a {
        assert out[p] in out;
      }
    }
    assert a in multiset(sorted);
    var k :| 0 <= k < |sorted| && sorted[k] == a;
    assert |top| <= k;
    SortBySorted(agg, MeanThenCount);
    forall p | 0 <= p < |out|
      ensures out[p].score > a.mean || (out[p].score == a.mean && out[p].ratingCount >= a.count)
    {
      assert top[p] == sorted[p];
      assert MeanThenCount(sorted[p], sorted[k]);
    }
  }

  /** No movie is returned twice. */
  lemma PopularDistinct(ratings: seq<Rating>, movies: Movies, n: int, exclude: Option<set<int>>, minRatings: int,
                        out: seq<PopularRow>)
    requires DistinctMovieIds(movies)
    requires out == RecommendPopular(ratings, movies, n, exclude, minRatings)
    ensures forall i, j :: 0 <= i < j < |out| ==> out[i].movieId != out[j].movieId
  {
    var agg := Eligible(Aggregate(ratings), minRatings, ExcludeSet(exclude));
    var sorted := SortBy(agg, MeanThenCount);
    var top := Take(sorted, n);
    AggregateIncreasing(ratings);
    EligibleIncreasing(Aggregate(ratings), minRatings, ExcludeSet(exclude));
    SameIdSameRow(agg);
    SortByThenBy(agg, MeanThenCount, IdBefore);
    forall i, j | 0 <= i < j < |out|
      ensures out[i].movieId != out[j].movieId
    {
      assert top[i] == sorted[i] && top[j] == sorted[j];
      assert sorted[i] in multiset(agg) && sorted[j] in multiset(agg);
    }
  }
}
