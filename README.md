# Movie recommender engine in Dafny

This project is a Dafny model of the recommendation engine of a small
MovieLens recommender. It proves properties of that model. It covers four
parts:

- **Title matching** (`TitleMatch.dfy`).
  - `_normalize_title`: lower-casing, stripping, deletion of `(dddd)` year groups, punctuation to spaces, and whitespace runs collapsed.
  - `find_best_title_matches`: a scan that keeps the catalog rows scoring at least `min_score`, then a stable sort by score and the first `k`.
- **Popularity baseline** (`Popular.dfy`): `recommend_popular`.
  - Per-movie count and mean, from a `groupby` in ascending id order.
  - The minimum-count filter and the exclude filter.
  - A stable sort by mean and then by count, both descending.
  - The first `n` rows, a left join of titles and a constant explanation.
- **Genre similarity** (`ContentBased.dfy`).
  - `_build_genre_matrix`: a missing-column error, and the 19 genre flags divided by the row's norm (meant to give unit-length rows for cosine similarity), with zero rows kept as they are.
  - `recommend_by_genre_similarity`.
- **Item-item collaborative filtering** (`ItemCf.dfy`): `ItemItemCF.fit` and `ItemItemCF.recommend`.
  - Users are numbered in ascending id order.
  - Ratings are laid out as coordinate triplets and then as a compressed sparse row matrix.
  - Each user's mean is computed, and each user's stored ratings are centred on it in place, in an `array`.
  - Item cosine similarity is taken over the centred matrix.
  - The popularity tie-break is computed, and the model is queried.

Both similarity engines share a tail (`Candidates.dfy`):

- Per seed, a top-k selection over the seed's similarity row.
- An insertion-ordered dictionary keeping each candidate's best similarity over the seeds.
- The final score, similarity + 0.05 × scaled popularity.
- A stable descending sort, truncation to `n`, and titles with the `"Unknown"` fallback.

Two modules are shared:

- `Tables.dfy` holds the frames and dictionaries the engines build.
- `StableSort.dfy` holds a stable insertion sort standing for Python's `list.sort` and pandas' `sort_values`. It comes with proofs of order, permutation, stability and best-k truncation.

Library calls the engine relies on, but whose internals are not modelled, are parameters. Each comes with the property the model assumes of it:

| library call | parameter | assumption |
|---|---|---|
| `np.argpartition` | `topK` | every call returns a valid top-k selection (`ValidSelector`) |
| `SequenceMatcher(...).ratio()` | `ratio` | none |
| `np.linalg.norm` | `norm` | non-negative, and zero only on an all-zero row (`NormSpec`) |
| `csr_matrix` | `toCsr` | a well-formed matrix of the requested shape, whose row sums are the triplet sums (`CsrSpec`) |
| `cosine_similarity` | `cosine` | a square result (`CosineSpec`) |

The collaborative engine selects `min(per_seed_k + 1, I - 1)` items per seed: one more than requested, to leave room for the seed itself, but never the whole catalog. The model keeps this exactly (`ItemCf.CfK`). With a catalog of at most `per_seed_k + 1` items, each seed therefore passes over its least similar item.

## Model

| member | source | states |
|---|---|---|
| Tables.MovieIds | backend/src/models/item_cf.py:34 | one id per catalog row, in catalog order |
| Tables.ExcludeSet | backend/src/models/popular.py:21 | a missing exclude set is the empty set, a given one is itself |
| Tables.IndexMap | backend/src/models/item_cf.py:35 | `idx_map` has exactly the catalog ids as keys, and each maps to a position holding that id |
| Tables.IndexMapLast | backend/src/models/item_cf.py:34-35 | each id maps to its last position; for distinct ids `idx_map[movie_ids[i]] == i` |
| Tables.TitleMap | backend/src/models/item_cf.py:74 | the title dictionary has exactly the catalog ids as keys, each title comes from a row with that id, and with distinct ids every row's own title is kept |
| Tables.TitleOr | backend/src/models/item_cf.py:133 | the title of a known id, `"Unknown"` otherwise |
| Tables.SortedUnique | backend/src/models/item_cf.py:38-39 | `unique()` then `sort()`: strictly increasing, and holds exactly the values of the column |
| Tables.UserColumn | backend/src/models/item_cf.py:38 | the user id of each rating, in rating order |
| Tables.RatedMovieColumn | backend/src/models/popular.py:24 | the movie id of each rating, in rating order |
| Tables.RatingCount | backend/src/models/popular.py:25 | a movie's count is at most the number of ratings, and zero exactly when no rating names it |
| StableSort.Insert | backend/src/models/title_match.py:45 | one insertion step adds exactly the one element |
| StableSort.SortBy | backend/src/models/title_match.py:45 | the sort is a permutation of its input |
| StableSort.Take | backend/src/models/title_match.py:46 | Python's `s[:n]` is a prefix of `n` elements, or all of them, or for negative `n` all but the last `-n` |
| StableSort.SortBySorted | backend/src/models/title_match.py:45 | the sorted list is in non-increasing key order |
| StableSort.SortByStable | backend/src/models/title_match.py:45 | elements with equal keys keep their input order |
| StableSort.SortByThenBy | backend/src/models/popular.py:34 | an input already ordered by a second key keeps that order among ties |
| StableSort.TakeSortedBest | backend/src/models/item_cf.py:125-126 | the first `n` after sorting are a sub-multiset of the input, in order, and every element left out ranks no higher than every kept one |
| StableSort.TakeSortedStable | backend/src/models/title_match.py:45-46 | within each tie group the kept elements are the first ones of the input |
| TitleMatch.Lower | backend/src/models/title_match.py:10 | `lower()` folds ASCII capitals and leaves every other character |
| TitleMatch.Strip | backend/src/models/title_match.py:10 | `strip()` leaves no whitespace at either end |
| TitleMatch.RemoveYears | backend/src/models/title_match.py:11 | deleting year groups never lengthens the string |
| TitleMatch.RemoveYearsNoParen | backend/src/models/title_match.py:11 | a string without `(` is left unchanged |
| TitleMatch.YearGroupRemovedAt | backend/src/models/title_match.py:11 | a `(dddd)` group is deleted wherever it stands, not only at the end: the result is the prefix's result followed by the suffix's result |
| TitleMatch.GroupFirst | backend/src/models/title_match.py:11 | a year group at the very start is deleted |
| TitleMatch.GroupAtStart | backend/src/models/title_match.py:11 | a group at the start is deleted by both the whole scan and the prefix scan |
| TitleMatch.NoGroupAtStart | backend/src/models/title_match.py:11 | without a group at the start, the first character is kept by both scans |
| TitleMatch.Punctuation | backend/src/models/title_match.py:12 | every character outside `[a-z0-9\s]` becomes a space, and the others are kept |
| TitleMatch.Collapse | backend/src/models/title_match.py:13 | every non-whitespace character is kept in order (`NonSpace(r) == NonSpace(s)`), every whitespace character left is a plain space, never two in a row, and the result is empty exactly when the input is |
| TitleMatch.CollapseAppend | backend/src/models/title_match.py:13 | two pieces that do not meet inside a whitespace run collapse independently: `Collapse(a + b) == Collapse(a) + Collapse(b)` |
| TitleMatch.CollapseRun | backend/src/models/title_match.py:13 | a non-empty whitespace run between two non-whitespace characters (or an end) becomes exactly one `' '`: `Collapse(a + w + b) == Collapse(a) + [' '] + Collapse(b)` |
| TitleMatch.NonSpaceStrip | backend/src/models/title_match.py:10 | `strip()` removes only whitespace: the non-whitespace characters are unchanged |
| TitleMatch.StripCollapsed | backend/src/models/title_match.py:13 | the final strip of a collapsed word-or-space string is normalised |
| TitleMatch.Normalize | backend/src/models/title_match.py:9-14 | `_normalize_title`, the five passes in order; its output holds only `[a-z0-9 ]`, has no leading or trailing space and never two spaces in a row |
| TitleMatch.LowerFixes | backend/src/models/title_match.py:10 | lower-casing leaves a normalised title alone |
| TitleMatch.PunctuationFixes | backend/src/models/title_match.py:12 | the punctuation pass leaves a normalised title alone |
| TitleMatch.CollapseFixes | backend/src/models/title_match.py:13 | collapsing leaves a normalised title alone |
| TitleMatch.NormalizeKeepsText | backend/src/models/title_match.py:13 | the final collapse and strip drop no other character: the normalised title keeps, in order, every non-whitespace character the punctuation pass produced |
| TitleMatch.NormalizeFixesNormalized | backend/src/models/title_match.py:9-14 | a normalised title is a fixed point of `_normalize_title` |
| TitleMatch.NormalizeIdempotent | backend/src/models/title_match.py:9-14 | `_normalize_title(_normalize_title(s)) == _normalize_title(s)` |
| TitleMatch.HeatLowered | backend/src/models/title_match.py:10 | `"Heat (1995)"` lowers to `"heat (1995)"` |
| TitleMatch.HeatYearRemoved | backend/src/models/title_match.py:11 | `"heat (1995)"` loses its year group |
| TitleMatch.HeatTrimmed | backend/src/models/title_match.py:13 | the trailing space is stripped |
| TitleMatch.HeatStripped | backend/src/models/title_match.py:12-13 | the last two passes give `"heat"` |
| TitleMatch.NormalizeExample | backend/src/models/title_match.py:9-14 | `"Heat (1995)"` normalises to `"heat"` |
| TitleMatch.TitleScore | backend/src/models/title_match.py:40-41 | a title scores the ratio of the normalised query and the normalised title |
| TitleMatch.Candidate | backend/src/models/title_match.py:43 | a match carries its row's id and title and the title's score |
| TitleMatch.Scored | backend/src/models/title_match.py:38-43 | a match is kept exactly when it comes from a catalog row and scores at least `min_score` |
| TitleMatch.ScoredStep | backend/src/models/title_match.py:39-43 | one scan step appends the row's match exactly when it scores high enough |
| TitleMatch.ScanTitles | backend/src/models/title_match.py:38-43 | the scanning loop builds exactly the kept matches, in catalog order |
| TitleMatch.TopMatches | backend/src/models/title_match.py:45-46 | the score-only stable sort and `[:k]`: at most `k` matches, each one of the scanned matches |
| TitleMatch.TopMatchesBest | backend/src/models/title_match.py:45-46 | at most `k` matches, all scanned, in non-increasing score order; a dropped match scores no higher than any kept one; equal scores keep catalog order |
| TitleMatch.FindBestTitleMatches | backend/src/models/title_match.py:22-46 | an empty normalised query gives `[]`; otherwise the best `k` kept matches in stable score order |
| Popular.Aggregate | backend/src/models/popular.py:23-28 | one aggregate row per distinct rated movie, in ascending id order |
| Popular.AggOf | backend/src/models/popular.py:24-26 | one movie's aggregate row: its id, its number of ratings (zero exactly when none names it) and a mean that times the count gives the rating sum |
| Popular.AggregateIncreasing | backend/src/models/popular.py:23-28 | the aggregate ids are strictly ascending |
| Popular.AggregateCovers | backend/src/models/popular.py:23-28 | every rated movie has its aggregate row |
| Popular.AggregateStats | backend/src/models/popular.py:23-27 | every aggregate row has count equal to its number of rating rows (at least one), and mean equal to their sum over the count |
| Popular.Eligible | backend/src/models/popular.py:32-33 | a row survives exactly when its count reaches `min_ratings` and it is not excluded |
| Popular.EligibleIncreasing | backend/src/models/popular.py:32-33 | filtering keeps the ascending id order |
| Popular.Join | backend/src/models/popular.py:36-38 | one output row per kept aggregate row |
| Popular.RecommendPopular | backend/src/models/popular.py:10-39 | `recommend_popular`: aggregate, filter, sort, `head(n)`, merge; `min(n, #qualifying)` rows for `n ≥ 0`, all but the last `-n` for a negative `n` |
| Popular.PopularRowsFiltered | backend/src/models/popular.py:21-38 | every returned movie has count ≥ `min_ratings` and is not excluded; its count is its number of ratings; its score is its mean rating; it carries the constant explanation |
| Popular.PopularTitles | backend/src/models/popular.py:36 | every returned row has its catalog title, and none when the catalog lacks the id |
| Popular.KeptRow | backend/src/models/popular.py:32-36 | a kept row is an aggregate row that passed both filters |
| Popular.PopularOrdered | backend/src/models/popular.py:34 | rows are ordered by mean descending and then count descending, with full ties in ascending id order |
| Popular.PopularTopN | backend/src/models/popular.py:34-36 | a qualifying movie is left out only when `n` rows are returned that each rank at least as high |
| Popular.PopularDistinct | backend/src/models/popular.py:23-36 | no movie is returned twice |
| Candidates.Pick | backend/src/models/content_based.py:79-83 | a selected position names a catalog movie |
| Candidates.PickIsTop | backend/src/models/content_based.py:78 | a seed's selection is `k` distinct positions, and every position left out has a similarity no higher than any selected one (also `item_cf.py` line 107) |
| Candidates.SeedNominations | backend/src/models/content_based.py:78-83 | a seed nominates exactly its `k` selected positions, in selector order |
| Candidates.AllNominations | backend/src/models/content_based.py:75-83 | the nested loops make `k` nominations per seed |
| Candidates.AllNominationsCover | backend/src/models/content_based.py:75-83 | every selected position of every seed is nominated |
| Candidates.AllNominationsOnly | backend/src/models/content_based.py:75-83 | nothing but selected positions is nominated |
| Candidates.NominationSource | backend/src/models/content_based.py:75-83 | the `q`-th visit of the nested loops is position `p < k` of seed `i`'s selection, for witnesses it returns |
| Candidates.Offer | backend/src/models/content_based.py:80-85 | one visit of the inner loop: an excluded id leaves the dictionary as it is; otherwise the id ends with the larger of its old value and the offered one, a new id is appended to the keys, and no other entry changes |
| Candidates.OfferAll | backend/src/models/content_based.py:79-85 | the inner loop over a run of visits: keys are only appended, the dictionary stays duplicate-free, and no excluded id is added |
| Candidates.OfferAllAppend | backend/src/models/content_based.py:75-85 | offering two runs of nominations is offering the first run and then the second |
| Candidates.OfferAllKeys | backend/src/models/content_based.py:81-85 | the dictionary stays duplicate-free with keys in insertion order, and its keys are exactly the non-excluded ids offered |
| Candidates.OfferAllMax | backend/src/models/content_based.py:81-85 | no excluded id gets a value, and each value is the largest similarity offered for its id and was itself offered |
| Candidates.ScoreItems | backend/src/models/content_based.py:91-95 | one scored item per candidate in dictionary order, with final = best similarity + 0.05 × scaled popularity, and no id twice |
| Candidates.PopCounts | backend/src/models/item_cf.py:70-71 | the popularity at each catalog position is that movie's rating count, or 0 |
| Candidates.MaxOf | backend/src/models/item_cf.py:72 | `pop.max()` bounds every count and is attained; it is 0 for an empty sequence, where numpy would raise instead, but neither engine reaches that case (content_based.py:64-66 returns before it when no seed is in the catalog, and `ItemCf.Fit` requires a rating of a catalog movie) |
| Candidates.PopScaled | backend/src/models/item_cf.py:70-72 | one scaled popularity per catalog position |
| Candidates.PopScaledBounds | backend/src/models/item_cf.py:70-72 | each scaled popularity lies in [0, 1] and is count/max; the most-rated movie scores 1; with no ratings all are 0 |
| Candidates.Explain | backend/src/models/item_cf.py:135 | the explanation carries the candidate's similarity |
| Candidates.Present | backend/src/models/item_cf.py:128-137 | one output record per ranked item, with its id, title or `"Unknown"`, final score and explanation |
| Candidates.RankedOrder | backend/src/models/item_cf.py:125-126 | `min(n, #candidates)` outputs, in non-increasing score order |
| Candidates.RankedDistinct | backend/src/models/item_cf.py:119-126 | no movie is output twice |
| Candidates.RankedEntries | backend/src/models/content_based.py:91-104 | each output is a candidate shown with its best similarity, a score at most 0.05 above it, and its title |
| Candidates.RankedItem | backend/src/models/content_based.py:94 | each ranked item's final score is its similarity plus the tie-break, between the similarity and the similarity + 0.05 |
| Candidates.Rank | backend/src/models/content_based.py:97-98 | `items.sort(reverse=True, key=final)` then `items[:n]`: `min(n, #items)` items, each one of the scored items |
| Candidates.RankCrowdedOut | backend/src/models/content_based.py:97-98 | an item left out by the truncation was crowded out by `n` items ranking at least as high |
| Candidates.RankedComplete | backend/src/models/content_based.py:97-98 | a candidate is missing from the output only when the output is full of items scoring at least as high |
| Candidates.Gathered | backend/src/models/content_based.py:74-85 | the dictionary after both loops is duplicate-free and holds only non-excluded catalog movies |
| Candidates.RecommendedBest | backend/src/models/content_based.py:91-111 | each recommendation carries the best similarity gathered for its movie, which is not excluded |
| Candidates.GatheredCandidates | backend/src/models/content_based.py:79-85 | a movie is a candidate exactly when some seed selected it and it is not excluded |
| Candidates.GatheredAtLeastEachSeed | backend/src/models/content_based.py:84-85 | a candidate's similarity is at least what each selecting seed gives it |
| Candidates.GatheredAttained | backend/src/models/content_based.py:84-85 | a candidate's similarity is the one some selecting seed gives it |
| Candidates.SeedIndices | backend/src/models/content_based.py:64 | the seed rows are exactly the indices of the seeds in the catalog; they are empty exactly when no seed is in the catalog |
| Candidates.ExcludeWithSeeds | backend/src/models/content_based.py:57 | the exclude set is the given ids (none when missing) together with every seed |
| Candidates.Recommendations | backend/src/models/content_based.py:73-113 | the shared tail once the seeds' similarity rows are known (gather, score, rank, present): at most `n` records |
| Candidates.RecommendationsExcluded | backend/src/models/content_based.py:79-82 | every recommendation is a catalog movie outside the exclude set |
| Candidates.RecommendationsEmpty | backend/src/models/content_based.py:87-88 | the result is empty exactly when `n` is 0 or every selected movie is excluded |
| Candidates.GatherStep | backend/src/models/content_based.py:75 | one more seed extends the dictionary by that seed's nominations |
| Candidates.OfferSeed | backend/src/models/content_based.py:78-85 | the inner loop leaves the dictionary as offering the seed's selection, one position at a time |
| Candidates.ScoreAll | backend/src/models/content_based.py:91-95 | the scoring loop builds the scored items in dictionary order |
| Candidates.PresentAll | backend/src/models/content_based.py:102-113 | the output loop builds the presented records |
| Candidates.RankAndPresent | backend/src/models/content_based.py:87-113 | an empty dictionary gives `[]`; otherwise sort, truncate and present |
| ContentBased.Missing | backend/src/models/content_based.py:30 | the missing names are exactly the genre columns absent from the frame |
| ContentBased.GenreRow | backend/src/models/content_based.py:35 | a movie's row holds its 19 genre flags in column order |
| ContentBased.Scale | backend/src/models/content_based.py:40 | every element is divided by the norm |
| ContentBased.Dot | backend/src/models/content_based.py:76 | one entry of `Xn @ Xn[si]`: zero against a row with no genre flag, and never negative for a row against itself |
| ContentBased.NormalizeRow | backend/src/models/content_based.py:38-40 | a normalised row has the row's length |
| ContentBased.BuildGenreMatrix | backend/src/models/content_based.py:24-41 | the `ValueError` is raised exactly when a genre column is missing and names exactly the missing ones; otherwise one id and one 19-wide row per catalog movie |
| ContentBased.ZeroNormRow | backend/src/models/content_based.py:38-40 | a row of norm zero is all zeros and is returned unchanged |
| ContentBased.NonzeroNormRow | backend/src/models/content_based.py:38-40 | any other row has a positive norm, holds a non-zero flag, and is divided by its norm |
| ContentBased.Similarities | backend/src/models/content_based.py:76 | each movie's similarity to the seed is the dot product of their rows |
| ContentBased.GenreColsPresent | backend/src/models/content_based.py:30-35 | a built matrix means every row holds every genre column |
| ContentBased.GenreMatrixRows | backend/src/models/content_based.py:34-41 | a zero-norm row of the matrix is the catalog's all-zero row, and any other is the catalog row over its norm |
| ContentBased.SimRows | backend/src/models/content_based.py:75-76 | one similarity row per seed in the catalog |
| ContentBased.SeedSims | backend/src/models/content_based.py:62-76 | the similarity row `Xn @ Xn[idx_map[s]]` of catalog movie `s`, one entry per catalog movie |
| ContentBased.FromMatrix | backend/src/models/content_based.py:59-113 | everything after the matrix is built, with `k = min(per_seed_k, M)`: at most `n` records, and `[]` when no seed is in the catalog |
| ContentBased.GenreRecommendations | backend/src/models/content_based.py:44-113 | `recommend_by_genre_similarity` as a value: the missing-column error, or at most `n` records |
| ContentBased.GatherGenreSeeds | backend/src/models/content_based.py:73-85 | the seed loop builds the best-similarity dictionary |
| ContentBased.RecommendFromMatrix | backend/src/models/content_based.py:59-113 | the part after the matrix is built: `[]` when no seed is known, otherwise the shared pipeline |
| ContentBased.RecommendByGenreSimilarity | backend/src/models/content_based.py:44-113 | the whole function, with the missing-column error |
| ContentBased.GenreMissingColumns | backend/src/models/content_based.py:30-32 | the function fails exactly when a genre column is missing, naming the missing ones |
| ContentBased.GenreExcludesSeeds | backend/src/models/content_based.py:57 | no seed and no excluded id is recommended, and every recommendation is a catalog movie |
| ContentBased.FromMatrixExcluded | backend/src/models/content_based.py:79-82 | past the matrix, every recommendation is a catalog movie outside the exclude set |
| ContentBased.GenreEmpty | backend/src/models/content_based.py:64-66 | the result is empty when no seed is in the catalog, and when every catalog movie is a seed or excluded |
| ContentBased.FromMatrixEmpty | backend/src/models/content_based.py:64-88 | past the matrix, the result is empty exactly when no seed is in the catalog, `n` is 0, or every movie a seed selects is excluded |
| ContentBased.GenreEmptyExactly | backend/src/models/content_based.py:57-88 | the result is empty exactly when no seed is in the catalog, `n` is 0, or every movie a seed selects is a seed or excluded |
| ContentBased.GenreRanked | backend/src/models/content_based.py:91-112 | at most `n` results, no movie twice, non-increasing score, the genre explanation, each score between the shown similarity and that + 0.05, and the title or `"Unknown"` |
| ContentBased.FromMatrixRanked | backend/src/models/content_based.py:91-112 | the same order, distinctness, score band, explanation and title facts past a built genre matrix |
| ContentBased.GenreBestOverSeeds | backend/src/models/content_based.py:75-85 | a recommendation's similarity was given by some seed that selected it, and no selecting seed gives more |
| ContentBased.GenreSeedPicks | backend/src/models/content_based.py:64-76 | ranging over the known seeds by id or over their similarity rows visits the same selections |
| ContentBased.FromMatrixBestOverSeeds | backend/src/models/content_based.py:75-104 | past the matrix, the shown similarity is the best over the seeds that selected the movie |
| ItemCf.UserIds | backend/src/models/item_cf.py:38-39 | the user ids are strictly increasing and are exactly the users who rated |
| ItemCf.UserIndex | backend/src/models/item_cf.py:40 | `user_idx` has exactly the rating users as keys, each mapped to its position in the sorted user ids |
| ItemCf.UserIndexBijection | backend/src/models/item_cf.py:38-40 | `user_idx` maps exactly the rating users onto `0..U-1`, one to one, in ascending id order |
| ItemCf.UserRows | backend/src/models/item_cf.py:43 | each rating's row is its user's index |
| ItemCf.MovieCols | backend/src/models/item_cf.py:44 | each rating's column is its movie's index |
| ItemCf.RatingCoo | backend/src/models/item_cf.py:43-45 | rating `i` sits at its user's row and its movie's column, with its value, inside a `U x I` shape |
| ItemCf.RatingMatrix | backend/src/models/item_cf.py:47 | `R` is a well-formed `U x I` sparse matrix |
| ItemCf.RowMeans | backend/src/models/item_cf.py:51-53 | one mean per user row |
| ItemCf.UserMeans | backend/src/models/item_cf.py:51-53 | every user row stores ratings, and its mean is the user's rating sum over the row's stored count |
| ItemCf.CooSumMatches | backend/src/models/item_cf.py:43-47 | the triplet sum of a user's row is the sum of that user's ratings |
| ItemCf.ShiftRange | backend/src/models/item_cf.py:62 | the slice update keeps the length |
| ItemCf.CenterUpTo | backend/src/models/item_cf.py:58-62 | centring the first rows keeps the length |
| ItemCf.Centered | backend/src/models/item_cf.py:56-62 | centring changes only the stored values: shape, `indptr` and column indices stay |
| ItemCf.CenterUpToEntries | backend/src/models/item_cf.py:58-62 | after `u` rows, each stored value of those rows has dropped by its row's mean, and every later value is unchanged |
| ItemCf.CenteredEntries | backend/src/models/item_cf.py:62 | every stored value of a row drops by that row's mean, and the row keeps its length |
| ItemCf.SumShift | backend/src/models/item_cf.py:62 | subtracting `m` from `n` values lowers their sum by `n·m` |
| ItemCf.CenteredRowSumZero | backend/src/models/item_cf.py:51-62 | every non-empty centred row sums to 0 |
| ItemCf.CenterRows | backend/src/models/item_cf.py:58-62 | the in-place loop, skipping empty rows, leaves the buffer holding the centred values |
| ItemCf.CenteredCopy | backend/src/models/item_cf.py:56-62 | a copy of `R` centred in place is the centred matrix |
| ItemCf.Fit | backend/src/models/item_cf.py:32-82 | the fitted ids, index, similarity of the centred matrix, popularity and titles, with a square similarity matrix, popularity in [0, 1] and an index over exactly the catalog |
| ItemCf.CfK | backend/src/models/item_cf.py:106 | `k` is `min(per_seed_k + 1, I - 1)`, so it never exceeds `per_seed_k + 1` and leaves at least one item out |
| ItemCf.CfRows | backend/src/models/item_cf.py:104 | the seeds' similarity rows, each `I` long |
| ItemCf.SeedIndicesInRange | backend/src/models/item_cf.py:93 | every seed index is a row of the similarity matrix |
| ItemCf.GatherCfSeeds | backend/src/models/item_cf.py:101-114 | the seed loop builds the best-similarity dictionary |
| ItemCf.CfRecommendations | backend/src/models/item_cf.py:84-138 | `recommend` as a value, with `k = min(per_seed_k + 1, I - 1)`: at most `n` records, and `[]` when no seed is in the catalog |
| ItemCf.Recommend | backend/src/models/item_cf.py:84-138 | the method computes the recommendation value |
| ItemCf.CfExcludesSeeds | backend/src/models/item_cf.py:91 | no seed and no excluded id is recommended, and every recommendation is a catalog movie |
| ItemCf.CfEmpty | backend/src/models/item_cf.py:93-95 | the result is empty when no seed is in the catalog, when every catalog movie is a seed or excluded, and when `n` is 0 |
| ItemCf.CfEmptyExactly | backend/src/models/item_cf.py:91-117 | the result is empty exactly when no seed is in the catalog, `n` is 0, or every movie a seed selects is a seed or excluded |
| ItemCf.CfSeedPicks | backend/src/models/item_cf.py:93-108 | ranging over the seeds by id or over their similarity rows visits the same selections |
| ItemCf.CfRanked | backend/src/models/item_cf.py:119-137 | at most `n` results, no movie twice, non-increasing score, each score between the shown similarity and that + 0.05, and the title or `"Unknown"` |
| ItemCf.CfBestOverSeeds | backend/src/models/item_cf.py:103-114 | a recommendation's similarity was given by some seed that selected it, and no selecting seed gives more |

## Left out

- Unicode: `_normalize_title` is modelled on ASCII. Case folding and whitespace are Python's ASCII rules.
- `SequenceMatcher.ratio` is a parameter. Its internals, including the autojunk heuristic, are not modelled.
- Floating point: ratings, similarities and scores are exact reals. The `float32` casts and rounding are not modelled. `Xn @ Xn[si]` is an exact dot product (`ContentBased.Dot`).
- ContentBased.NormalizeRow: `np.linalg.norm` is a parameter assumed non-negative and zero only on all-zero rows. That normalised rows have unit length is not proved.
- ItemCf.RatingMatrix: `csr_matrix` is a parameter. Its construction is not modelled, including how it sorts and merges duplicate (user, movie) pairs. Only its shape, its row sums and which rows are non-empty are assumed.
- ItemCf.Fit: `cosine_similarity` is a parameter assumed to return an `I x I` matrix. Its values, symmetry and range are not modelled.
- Candidates.PickIsTop: `np.argpartition` is a parameter. Which of several tied positions it picks is left to it.
- Candidates.Explain: the explanation keeps the raw similarity. The two-decimal formatting of the message is not modelled.
- The unused `PopularRecommender` dataclass is not modelled.
- `ItemCf.Recommend`, `ContentBased.RecommendByGenreSimilarity` and `TitleMatch.FindBestTitleMatches` take `n`, `per_seed_k` and `k` as natural numbers. Python's negative-slice behaviour for them is not reached. `StableSort.Take` itself models negative `n`, and `Popular.RecommendPopular` takes `n` as an integer, so `head(n)` with a negative `n` is modelled there.
- Movie ids are unbounded integers. `movies["movie_id"].to_numpy(dtype=np.int32)` (`item_cf.py:34`, `content_based.py:34`) wraps an id of 2^31 or more. The wrapped id would become the `idx_map` key and the recommended `movie_id`, so a seed given by its real id would be ignored and the title lookup would miss. The model does not capture this wrap-around.
- ItemCf.Fit requires every rated movie to be in the catalog and at least one rating. For a rating of an unknown movie, `map(idx_map)` gives NaN, and the unchecked float-to-`int32` cast at `item_cf.py:44` turns it into a platform-dependent value. Where that value is negative (`INT_MIN` on x86), `csr_matrix` rejects the column index at `item_cf.py:47`. Where it is 0, nothing is raised and the rating is counted against catalog column 0. An empty ratings frame fails at the cosine step. These cases are preconditions, not modelled error values or wrong columns.
- A missing `movie_id`, `title` or `rating` column (a pandas `KeyError`) is not modelled: frames are records with those fields. The popular baseline's left-join miss (a NaN title) is modelled as `None`.
- Popular: the merge is modelled on distinct catalog ids (`DistinctMovieIds`). A duplicated catalog id would duplicate output rows in the merge.
- The `timestamp` column of the ratings is not modelled; no engine reads it.
- Dataset loading, the HTTP endpoint, the command-line script and the web front end are I/O. They are not part of this model.
- The list `sort` calls are modelled on values (`StableSort.SortBy`) rather than in place. Nothing else holds the lists, so no aliasing is lost.
