/** The two tabular inputs every engine reads (the catalog and the rating
    history) and the dictionary-building idioms the engines share. */
module Tables {

  datatype Option<T> = None | Some(value: T)

  datatype Result<T, E> = Ok(value: T) | Err(error: E)

  /** One catalog row: `movie_id`, `title` and the numeric flag columns by name. */
  datatype MovieRow = MovieRow(movieId: int, title: string, flags: map<string, real>)

  /** The catalog frame: the names of the numeric columns present, and the rows. */
  datatype Movies = Movies(columns: set<string>, rows: seq<MovieRow>)

  /** One rating row; the timestamp column is never read by the engine. */
  datatype Rating = Rating(userId: int, movieId: int, rating: real)

  ghost predicate Distinct<T>(s: seq<T>) {
    forall i, j :: 0 <= i < j < |s| ==> s[i] != s[j]
  }

  /** Distinct elements occur once each. */
  lemma {:induction false} DistinctOnce<T>(s: seq<T>)
    requires Distinct(s)
    ensures forall x :: multiset(s)[x] <= 1
  {
    if s != [] {
      var rest := s[1..];
      assert s == [s[0]] + rest;
      assert Distinct(rest) by {
        forall i, j | 0 <= i < j < |rest| ensures rest[i] != rest[j] {
          assert rest[i] == s[i + 1] && rest[j] == s[j + 1];
        }
      }
      DistinctOnce(rest);
      assert s[0] !in rest by {
        forall i | 0 <= i < |rest| ensures rest[i] != s[0] {
          assert rest[i] == s[i + 1];
        }
      }
    }
  }

  /** Elements occurring at most once each are distinct. */
  lemma OnceDistinct<T>(s: seq<T>)
    requires forall x :: multiset(s)[x] <= 1
    ensures Distinct(s)
  {
    forall i, j | 0 <= i < j < |s|
      ensures s[i] != s[j]
    {
      assert s == s[..j] + s[j..];
      assert s[i] in s[..j];
      assert s[j..][0] == s[j];
      assert multiset(s)[s[j]] == multiset(s[..j])[s[j]] + multiset(s[j..])[s[j]];
    }
  }

  ghost predicate StrictlyIncreasing(s: seq<int>) {
    forall i, j :: 0 <= i < j < |s| ==> s[i] < s[j]
  }

  /** Dropping the head of a concatenation drops the head of its first part. */
  lemma DropFirstAppend<T>(x: seq<T>, y: seq<T>)
    requires x != []
    ensures (x + y)[0] == x[0] && (x + y)[1..] == x[1..] + y
  {
  }

  /** A suffix of a concatenation that starts inside its first part. */
  lemma SliceAppend<T>(x: seq<T>, y: seq<T>, n: nat)
    requires n <= |x|
    ensures (x + y)[n..] == x[n..] + y
  {
    var l, r := (x + y)[n..], x[n..] + y;
    forall i | 0 <= i < |l| ensures l[i] == r[i] {
      if i < |x| - n {
        assert l[i] == x[n + i];
      } else {
        assert l[i] == y[i - (|x| - n)];
      }
    }
  }

  /** Concatenation regroups freely. */
  lemma AppendAssoc<T>(x: seq<T>, y: seq<T>, z: seq<T>)
    ensures x + (y + z) == x + y + z
  {
  }

  /** In a strictly increasing sequence, the smaller value sits earlier. */
  lemma IncreasingPositions(s: seq<int>, a: int, b: int)
    requires StrictlyIncreasing(s)
    requires 0 <= a < |s| && 0 <= b < |s| && s[a] < s[b]
    ensures a < b
  {
  }

  /** The `movie_id` column, in catalog order. */
  function MovieIds(rows: seq<MovieRow>): (ids: seq<int>)
    ensures |ids| == |rows|
    ensures forall i :: 0 <= i < |rows| ==> ids[i] == rows[i].movieId
  {
    seq(|rows|, i requires 0 <= i < |rows| => rows[i].movieId)
  }

  ghost predicate DistinctMovieIds(movies: Movies) {
    Distinct(MovieIds(movies.rows))
  }

  /** `exclude_movie_ids or set()`: a missing set is the empty set. */
  function ExcludeSet(exclude: Option<set<int>>): (s: set<int>)
    ensures exclude.None? ==> s == {}
    ensures exclude.Some? ==> s == exclude.value
  {
    match exclude
    case None => {}
    case Some(e) => e
  }

  /** `{x: i for i, x in enumerate(s)}`: the keys are the elements, and each
      maps to a position holding it. */
  function IndexMap(s: seq<int>): (m: map<int, nat>)
    ensures forall x :: x in m <==> x in s
    ensures forall x :: x in m ==> m[x] < |s| && s[m[x]] == x
    decreases |s|
  {
    if s == [] then map[]
    else
      var init := s[..|s| - 1];
      assert forall i :: 0 <= i < |init| ==> init[i] == s[i];
      IndexMap(init)[s[|s| - 1] := |s| - 1]
  }

  /** A later position overwrites an earlier one, so each key maps to the
      last position holding it; on distinct elements that is its only one. */
  lemma {:induction false} IndexMapLast(s: seq<int>)
    ensures forall i :: 0 <= i < |s| ==> i <= IndexMap(s)[s[i]]
    ensures Distinct(s) ==> forall i :: 0 <= i < |s| ==> IndexMap(s)[s[i]] == i
    decreases |s|
  {
    if s != [] {
      var init := s[..|s| - 1];
      IndexMapLast(init);
      forall i | 0 <= i < |s|
        ensures i <= IndexMap(s)[s[i]]
      {
        if s[i] != s[|s| - 1] {
          assert init[i] == s[i];
        }
      }
    }
  }

  /** `dict(movies[["movie_id", "title"]].itertuples())`: the title of the
      last catalog row carrying each id. */
  function TitleMap(rows: seq<MovieRow>): (m: map<int, string>)
    ensures forall x :: x in m <==> x in MovieIds(rows)
    ensures forall x :: x in m ==> exists i :: 0 <= i < |rows| && rows[i].movieId == x && rows[i].title == m[x]
    ensures Distinct(MovieIds(rows)) ==> forall i :: 0 <= i < |rows| ==> m[rows[i].movieId] == rows[i].title
  {
    var idx := IndexMap(MovieIds(rows));
    IndexMapLast(MovieIds(rows));
    map x | x in idx :: rows[idx[x]].title
  }

  /** `title_map.get(mid, "Unknown")`. */
  function TitleOr(titles: map<int, string>, mid: int): (t: string)
    ensures mid in titles ==> t == titles[mid]
    ensures mid !in titles ==> t == "Unknown"
  {
    if mid in titles then titles[mid] else "Unknown"
  }

  /** Inserts `x` into a strictly increasing sequence, dropping it if present. */
  function InsertSorted(x: int, s: seq<int>): (r: seq<int>)
    requires StrictlyIncreasing(s)
    ensures StrictlyIncreasing(r)
    ensures forall y :: y in r <==> y == x || y in s
  {
    if s == [] then [x]
    else if x < s[0] then [x] + s
    else if x == s[0] then s
    else
      var tail := InsertSorted(x, s[1..]);
      assert forall y :: y in tail ==> s[0] < y;
      var r := [s[0]] + tail;
      assert forall i :: 0 < i < |r| ==> r[i] == tail[i - 1] && r[i] in tail;
      r
  }

  /** `np.unique` followed by an ascending sort (also the key order of a
      default `groupby`): the distinct values, strictly increasing. */
  function SortedUnique(xs: seq<int>): (r: seq<int>)
    ensures StrictlyIncreasing(r)
    ensures forall y :: y in r <==> y in xs
  {
    if xs == [] then []
    else
      var init := xs[..|xs| - 1];
      assert forall y :: y in xs <==> y in init || y == xs[|xs| - 1];
      InsertSorted(xs[|xs| - 1], SortedUnique(init))
  }

  /** The `user_id` column, in rating order. */
  function UserColumn(ratings: seq<Rating>): (us: seq<int>)
    ensures |us| == |ratings|
    ensures forall i :: 0 <= i < |ratings| ==> us[i] == ratings[i].userId
  {
    seq(|ratings|, i requires 0 <= i < |ratings| => ratings[i].userId)
  }

  /** The `movie_id` column of the ratings, in rating order. */
  function RatedMovieColumn(ratings: seq<Rating>): (ms: seq<int>)
    ensures |ms| == |ratings|
    ensures forall i :: 0 <= i < |ratings| ==> ms[i] == ratings[i].movieId
  {
    seq(|ratings|, i requires 0 <= i < |ratings| => ratings[i].movieId)
  }

  /** `groupby("movie_id")["rating"].count()` for one movie: its number of rating rows. */
  function RatingCount(ratings: seq<Rating>, mid: int): (c: nat)
    ensures c <= |ratings|
    ensures c == 0 <==> forall i :: 0 <= i < |ratings| ==> ratings[i].movieId != mid
  {
    if ratings == [] then 0
    else (if ratings[0].movieId == mid then 1 else 0) + RatingCount(ratings[1..], mid)
  }

  /** The sum of one movie's rating values. */
  function RatingSum(ratings: seq<Rating>, mid: int): real
  {
    if ratings == [] then 0.0
    else (if ratings[0].movieId == mid then ratings[0].rating else 0.0) + RatingSum(ratings[1..], mid)
  }

  function Sum(xs: seq<real>): real
  {
    if xs == [] then 0.0 else xs[0] + Sum(xs[1..])
  }

  function Min(a: int, b: int): int
  {
    if a <= b then a else b
  }
}
