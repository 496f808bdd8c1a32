/** Fuzzy resolution of a free-text query to catalog rows: both sides are
    normalised (lower-cased, `(dddd)` year groups deleted, punctuation turned
    into spaces, whitespace collapsed and stripped) and every catalog title
    is scored against the query by a similarity ratio. */
module TitleMatch {
  import opened Tables
  import opened StableSort

  /** Python's `str.isspace` / regex `\s` restricted to ASCII:
      tab, newline, vertical tab, form feed, carriage return,
      the four separators 0x1C-0x1F, and space. */
  predicate IsSpace(c: char) {
    c == ' ' || (9 <= c as int <= 13) || (28 <= c as int <= 31)
  }

  predicate IsDigit(c: char) {
    '0' <= c <= '9'
  }

  /** `[a-z0-9]`, the characters the punctuation pass keeps besides whitespace. */
  predicate IsWordChar(c: char) {
    ('a' <= c <= 'z') || IsDigit(c)
  }

  function LowerChar(c: char): (d: char)
    ensures !('A' <= d <= 'Z')
    ensures 'A' <= c <= 'Z' ==> d as int == c as int + 32
    ensures !('A' <= c <= 'Z') ==> d == c
  {
    if 'A' <= c <= 'Z' then (c as int + 32) as char else c
  }

  /** `str.lower()` on ASCII letters. */
  function Lower(s: string): (r: string)
    ensures |r| == |s|
    ensures forall i :: 0 <= i < |s| ==> r[i] == LowerChar(s[i])
  {
    seq(|s|, i requires 0 <= i < |s| => LowerChar(s[i]))
  }

  /** The length of the leading whitespace run of `s`. */
  function LeadingSpaces(s: string): (n: nat)
    ensures n <= |s|
    ensures forall i :: 0 <= i < n ==> IsSpace(s[i])
    ensures n < |s| ==> !IsSpace(s[n])
  {
    if s != [] && IsSpace(s[0]) then 1 + LeadingSpaces(s[1..]) else 0
  }

  /** The length of the trailing whitespace run of `s`. */
  function TrailingSpaces(s: string): (n: nat)
    ensures n <= |s|
    ensures forall i :: |s| - n <= i < |s| ==> IsSpace(s[i])
    ensures n < |s| ==> !IsSpace(s[|s| - n - 1])
  {
    if s != [] && IsSpace(s[|s| - 1]) then 1 + TrailingSpaces(s[..|s| - 1]) else 0
  }

  /** `str.lstrip()`: drops leading whitespace. */
  function StripLeft(s: string): string
  {
    s[LeadingSpaces(s)..]
  }

  /** `str.rstrip()`: drops trailing whitespace. */
  function StripRight(s: string): string
  {
    s[..|s| - TrailingSpaces(s)]
  }

  /** `str.strip()` and the final `.strip()`. */
  function Strip(s: string): (r: string)
    ensures r == [] || (!IsSpace(r[0]) && !IsSpace(r[|r| - 1]))
  {
    StripRight(StripLeft(s))
  }

  /** The regex `\(\d{4}\)` matched against a six-character window. */
  predicate IsYearGroup(g: string) {
    |g| == 6 && g[0] == '(' && IsDigit(g[1]) && IsDigit(g[2]) && IsDigit(g[3]) && IsDigit(g[4]) && g[5] == ')'
  }

  /** `re.sub(r"\(\d{4}\)", "", s)`: a left-to-right scan that deletes each
      non-overlapping year group it meets. */
  function RemoveYears(s: string): (r: string)
    ensures |r| <= |s|
    decreases |s|
  {
    if |s| >= 6 && IsYearGroup(s[..6]) then RemoveYears(s[6..])
    else if s == [] then []
    else [s[0]] + RemoveYears(s[1..])
  }

  /** A string without `(` holds no year group and is kept as it is. */
  lemma {:induction false} RemoveYearsNoParen(s: string)
    requires forall i :: 0 <= i < |s| ==> s[i] != '('
    ensures RemoveYears(s) == s
    decreases |s|
  {
    if s != [] {
      assert s[0] != '(';
      var rest := s[1..];
      assert forall i :: 0 <= i < |rest| ==> rest[i] == s[i + 1];
      RemoveYearsNoParen(rest);
      assert s == [s[0]] + rest;
    }
  }

  /** `re.sub(r"[^a-z0-9\s]", " ", s)`. */
  function Punctuation(s: string): (r: string)
    ensures |r| == |s|
    ensures forall i :: 0 <= i < |r| ==> IsWordChar(r[i]) || IsSpace(r[i])
    ensures forall i :: 0 <= i < |s| ==> (IsWordChar(s[i]) || IsSpace(s[i]) ==> r[i] == s[i])
  {
    seq(|s|, i requires 0 <= i < |s| => if IsWordChar(s[i]) || IsSpace(s[i]) then s[i] else ' ')
  }

  ghost predicate NoDoubleSpace(s: string) {
    forall i, j :: 0 <= i && j == i + 1 && j < |s| ==> !(IsSpace(s[i]) && IsSpace(s[j]))
  }

  ghost predicate WordOrSpace(s: string) {
    forall i :: 0 <= i < |s| ==> IsWordChar(s[i]) || IsSpace(s[i])
  }

  ghost predicate WordOrBlank(s: string) {
    forall i :: 0 <= i < |s| ==> IsWordChar(s[i]) || s[i] == ' '
  }

  /** The non-whitespace characters of `s`, in order. */
  function NonSpace(s: string): (r: string)
    ensures |r| <= |s|
    ensures forall i :: 0 <= i < |r| ==> !IsSpace(r[i])
  {
    if s == [] then [] else (if IsSpace(s[0]) then [] else [s[0]]) + NonSpace(s[1..])
  }

  lemma {:induction false} NonSpaceAppend(a: string, b: string)
    ensures NonSpace(a + b) == NonSpace(a) + NonSpace(b)
    decreases |a|
  {
    if a == [] {
      assert a + b == b;
    } else {
      var head := if IsSpace(a[0]) then [] else [a[0]];
      assert (a + b)[0] == a[0] && (a + b)[1..] == a[1..] + b;
      NonSpaceAppend(a[1..], b);
      calc {
        NonSpace(a + b);
        head + NonSpace(a[1..] + b);
        head + (NonSpace(a[1..]) + NonSpace(b));
        (head + NonSpace(a[1..])) + NonSpace(b);
      }
    }
  }

  lemma {:induction false} NonSpaceBlank(w: string)
    requires forall i :: 0 <= i < |w| ==> IsSpace(w[i])
    ensures NonSpace(w) == []
    decreases |w|
  {
    if w != [] {
      assert forall i :: 0 <= i < |w| - 1 ==> w[1..][i] == w[i + 1];
      NonSpaceBlank(w[1..]);
    }
  }

  /** Stripping drops only whitespace. */
  lemma NonSpaceStrip(s: string)
    ensures NonSpace(StripLeft(s)) == NonSpace(s)
    ensures NonSpace(Strip(s)) == NonSpace(s)
  {
    NonSpaceStripLeft(s);
    NonSpaceStripRight(StripLeft(s));
  }

  lemma NonSpaceStripLeft(s: string)
    ensures NonSpace(StripLeft(s)) == NonSpace(s)
  {
    var n := LeadingSpaces(s);
    assert s == s[..n] + StripLeft(s);
    NonSpaceAppend(s[..n], StripLeft(s));
    NonSpaceBlank(s[..n]);
  }

  lemma NonSpaceStripRight(s: string)
    ensures NonSpace(StripRight(s)) == NonSpace(s)
  {
    var m := |s| - TrailingSpaces(s);
    var tail := s[m..];
    assert s == StripRight(s) + tail;
    NonSpaceAppend(StripRight(s), tail);
    assert forall i :: 0 <= i < |tail| ==> tail[i] == s[m + i];
    NonSpaceBlank(tail);
  }

  /** `re.sub(r"\s+", " ", s)`: every maximal run of whitespace becomes one
      space and every other character is kept, in order. */
  function Collapse(s: string): (r: string)
    ensures s == [] <==> r == []
    ensures s != [] && IsSpace(s[0]) ==> r[0] == ' '
    ensures s != [] && !IsSpace(s[0]) ==> r[0] == s[0]
    ensures forall i :: 0 <= i < |r| ==> (IsSpace(r[i]) ==> r[i] == ' ')
    ensures NoDoubleSpace(r)
    ensures NonSpace(r) == NonSpace(s)
    ensures WordOrSpace(s) ==> WordOrBlank(r)
    decreases |s|
  {
    if s == [] then []
    else if IsSpace(s[0]) then
      var rest := StripLeft(s);
      assert WordOrSpace(s) ==> WordOrSpace(rest) by {
        forall i | 0 <= i < |rest| ensures rest[i] == s[|s| - |rest| + i] { }
      }
      NonSpaceStrip(s);
      var r := [' '] + Collapse(rest);
      assert r[1..] == Collapse(rest);
      r
    else
      assert WordOrSpace(s) ==> WordOrSpace(s[1..]) by {
        forall i | 0 <= i < |s[1..]| ensures s[1..][i] == s[i + 1] { }
      }
      var r := [s[0]] + Collapse(s[1..]);
      assert r[1..] == Collapse(s[1..]);
      r
  }

  lemma {:induction false} LeadingSpacesAppend(a: string, b: string)
    ensures LeadingSpaces(a) < |a| ==> LeadingSpaces(a + b) == LeadingSpaces(a)
    ensures LeadingSpaces(a) == |a| && (b == [] || !IsSpace(b[0])) ==> LeadingSpaces(a + b) == |a|
    decreases |a|
  {
    if a == [] {
      assert a + b == b;
    } else {
      assert (a + b)[0] == a[0] && (a + b)[1..] == a[1..] + b;
      LeadingSpacesAppend(a[1..], b);
    }
  }

  lemma StripLeftAppend(a: string, b: string)
    requires LeadingSpaces(a) < |a|
    ensures StripLeft(a) != [] && StripLeft(a)[|StripLeft(a)| - 1] == a[|a| - 1]
    ensures StripLeft(a + b) == StripLeft(a) + b
  {
    LeadingSpacesAppend(a, b);
    SliceAppend(a, b, LeadingSpaces(a));
  }

  lemma StripLeftBlank(w: string, b: string)
    requires LeadingSpaces(w) == |w|
    requires b == [] || !IsSpace(b[0])
    ensures StripLeft(w + b) == b
  {
    LeadingSpacesAppend(w, b);
    SliceAppend(w, b, |w|);
    assert w[|w|..] == [];
  }

  /** Two pieces that do not meet inside a whitespace run collapse apart. */
  lemma {:induction false} CollapseAppend(a: string, b: string)
    requires a == [] || b == [] || !IsSpace(a[|a| - 1]) || !IsSpace(b[0])
    ensures Collapse(a + b) == Collapse(a) + Collapse(b)
    decreases |a|
  {
    if a == [] {
      assert a + b == b;
    } else if b == [] {
      assert a + b == a;
    } else if !IsSpace(a[0]) {
      CollapseAppend(a[1..], b);
      CollapseWordStep(a, b);
    } else if LeadingSpaces(a) == |a| {
      CollapseBlankStep(a, b);
    } else {
      StripLeftAppend(a, b);
      CollapseAppend(StripLeft(a), b);
      CollapseSpaceStep(a, b);
    }
  }

  lemma CollapseBlankStep(w: string, b: string)
    requires w != [] && LeadingSpaces(w) == |w|
    requires b == [] || !IsSpace(b[0])
    ensures Collapse(w + b) == Collapse(w) + Collapse(b)
  {
    CollapseBlankPrefix(w, b);
    CollapseBlankPrefix(w, []);
    assert w + [] == w;
  }

  lemma CollapseWordStep(a: string, b: string)
    requires a != [] && !IsSpace(a[0])
    requires Collapse(a[1..] + b) == Collapse(a[1..]) + Collapse(b)
    ensures Collapse(a + b) == Collapse(a) + Collapse(b)
  {
    DropFirstAppend(a, b);
    AppendAssoc([a[0]], Collapse(a[1..]), Collapse(b));
  }

  lemma CollapseSpaceStep(a: string, b: string)
    requires a != [] && IsSpace(a[0]) && LeadingSpaces(a) < |a|
    requires Collapse(StripLeft(a) + b) == Collapse(StripLeft(a)) + Collapse(b)
    ensures Collapse(a + b) == Collapse(a) + Collapse(b)
  {
    StripLeftAppend(a, b);
    DropFirstAppend(a, b);
    AppendAssoc([' '], Collapse(StripLeft(a)), Collapse(b));
  }

  /** A whitespace run between two other characters (or an end) becomes
      exactly one space, and the text on either side is collapsed on its own. */
  lemma CollapseRun(a: string, w: string, b: string)
    requires a == [] || !IsSpace(a[|a| - 1])
    requires w != [] && forall i :: 0 <= i < |w| ==> IsSpace(w[i])
    requires b == [] || !IsSpace(b[0])
    ensures Collapse(a + w + b) == Collapse(a) + [' '] + Collapse(b)
  {
    assert Collapse(a + w) == Collapse(a) + [' '] by {
      CollapseAppend(a, w);
      assert w + [] == w;
      CollapseBlankPrefix(w, []);
    }
    CollapseAppend(a + w, b);
  }

  lemma CollapseBlankPrefix(w: string, b: string)
    requires w != [] && forall i :: 0 <= i < |w| ==> IsSpace(w[i])
    requires b == [] || !IsSpace(b[0])
    ensures Collapse(w + b) == [' '] + Collapse(b)
  {
    assert LeadingSpaces(w) == |w|;
    StripLeftBlank(w, b);
    DropFirstAppend(w, b);
  }

  /** What `_normalize_title` returns: only `[a-z0-9 ]`, no leading or
      trailing space, never two spaces in a row. */
  ghost predicate Normalized(t: string) {
    && WordOrBlank(t)
    && (t == [] || (t[0] != ' ' && t[|t| - 1] != ' '))
    && (forall i, j :: 0 <= i && j == i + 1 && j < |t| ==> !(t[i] == ' ' && t[j] == ' '))
  }

  /** Stripping a collapsed string leaves a normalised one. */
  lemma StripCollapsed(c: string)
    requires WordOrBlank(c)
    requires NoDoubleSpace(c)
    ensures Normalized(Strip(c))
  {
    var l := StripLeft(c);
    var r := StripRight(l);
    var a := |c| - |l|;
    assert l == c[a..] && r == l[..|r|];
    forall i | 0 <= i < |r|
      ensures IsWordChar(r[i]) || r[i] == ' '
    {
      assert r[i] == l[i] == c[a + i];
    }
    forall i, j | 0 <= i && j == i + 1 && j < |r|
      ensures !(r[i] == ' ' && r[j] == ' ')
    {
      assert r[i] == l[i] == c[a + i];
      assert r[j] == l[j] == c[a + j];
      assert !(IsSpace(c[a + i]) && IsSpace(c[a + j]));
    }
  }

  /** `_normalize_title`: its output holds only `[a-z0-9 ]`, has no leading
      or trailing space and never two spaces in a row. */
  function Normalize(s: string): (r: string)
    ensures Normalized(r)
  {
    var collapsed := Collapse(Punctuation(RemoveYears(Strip(Lower(s)))));
    StripCollapsed(collapsed);
    Strip(collapsed)
  }

  lemma {:induction false} CollapseFixes(t: string)
    requires forall i :: 0 <= i < |t| ==> (IsSpace(t[i]) ==> t[i] == ' ')
    requires NoDoubleSpace(t)
    ensures Collapse(t) == t
    decreases |t|
  {
    if t != [] {
      assert NoDoubleSpace(t[1..]) by {
        var u := t[1..];
        forall i, j | 0 <= i && j == i + 1 && j < |u| ensures !(IsSpace(u[i]) && IsSpace(u[j])) {
          assert u[i] == t[i + 1] && u[j] == t[j + 1];
        }
      }
      CollapseFixes(t[1..]);
      if IsSpace(t[0]) {
        assert |t| > 1 ==> !IsSpace(t[1]);
        assert StripLeft(t) == StripLeft(t[1..]) == t[1..];
      }
    }
  }

  lemma {:induction false} LowerFixes(t: string)
    requires WordOrBlank(t)
    ensures Lower(t) == t
  {
    assert forall i :: 0 <= i < |t| ==> Lower(t)[i] == t[i];
  }

  lemma {:induction false} PunctuationFixes(t: string)
    requires WordOrBlank(t)
    ensures Punctuation(t) == t
  {
    assert forall i :: 0 <= i < |t| ==> Punctuation(t)[i] == t[i];
  }

  /** A normalised title is a fixed point of every pass. */
  lemma NormalizeFixesNormalized(t: string)
    requires Normalized(t)
    ensures Normalize(t) == t
  {
    LowerFixes(t);
    assert Strip(t) == t;
    assert forall i :: 0 <= i < |t| ==> t[i] != '(';
    RemoveYearsNoParen(t);
    PunctuationFixes(t);
    assert NoDoubleSpace(t) by {
      forall i | 0 <= i < |t| - 1 ensures !(IsSpace(t[i]) && IsSpace(t[i + 1])) {
        assert IsSpace(t[i]) ==> t[i] == ' ';
        assert IsSpace(t[i + 1]) ==> t[i + 1] == ' ';
      }
    }
    CollapseFixes(t);
  }

  /** Collapsing and the final strip only touch whitespace: the normalised
      title keeps every other character the punctuation pass produced, in
      order. */
  lemma NormalizeKeepsText(s: string)
    ensures NonSpace(Normalize(s)) == NonSpace(Punctuation(RemoveYears(Strip(Lower(s)))))
  {
    NonSpaceStrip(Collapse(Punctuation(RemoveYears(Strip(Lower(s))))));
  }

  /** `_normalize_title` is idempotent. */
  lemma NormalizeIdempotent(s: string)
    ensures Normalize(Normalize(s)) == Normalize(s)
  {
    NormalizeFixesNormalized(Normalize(s));
  }

  /** A year group at the very start is dropped. */
  lemma GroupFirst(s: string)
    requires 6 <= |s| && IsYearGroup(s[0..6])
    ensures RemoveYears(s) == RemoveYears(s[..0]) + RemoveYears(s[6..])
  {
    assert s[..6] == s[0..6];
    assert s[..0] == [];
    assert RemoveYears(s[..0]) == [];
  }

  /** A year group met at the start of `s` while another one stands at
      `k > 0` ends before `k`: the `(` at `k` is neither a digit nor `)`. */
  lemma GroupBeforeGroup(s: string, k: int)
    requires 0 < k && k + 6 <= |s| && IsYearGroup(s[k..k + 6])
    requires IsYearGroup(s[..6])
    ensures 6 <= k
  {
  }

  /** With a year group at the start of `s` and before `k`, both scans
      drop it and go on past it. */
  lemma GroupAtStart(s: string, k: int)
    requires 6 <= k && k + 6 <= |s|
    requires IsYearGroup(s[..6])
    requires RemoveYears(s[6..]) == RemoveYears(s[6..][..k - 6]) + RemoveYears(s[6..][k..])
    ensures RemoveYears(s) == RemoveYears(s[..k]) + RemoveYears(s[k + 6..])
  {
    var t := s[6..];
    assert t[..k - 6] == s[..k][6..];
    assert s[..k][..6] == s[..6];
    assert t[k..] == s[k + 6..];
  }

  /** Without a year group at the start of `s`, the scan over a prefix of
      `s` keeps `s[0]` and goes on from `s[1]`. */
  lemma PrefixKeepsFirst(s: string, k: int)
    requires 0 < k <= |s| && |s| >= 6
    requires !IsYearGroup(s[..6])
    ensures RemoveYears(s[..k]) == [s[0]] + RemoveYears(s[1..][..k - 1])
  {
    var p := s[..k];
    assert p[1..] == s[1..][..k - 1];
    if k >= 6 {
      assert p[..6] == s[..6];
    }
  }

  /** Without a year group at the start of `s`, both scans keep `s[0]` and
      go on from `s[1]`. */
  lemma NoGroupAtStart(s: string, k: int)
    requires 0 < k && k + 6 <= |s|
    requires !IsYearGroup(s[..6])
    requires RemoveYears(s[1..]) == RemoveYears(s[1..][..k - 1]) + RemoveYears(s[1..][k + 5..])
    ensures RemoveYears(s) == RemoveYears(s[..k]) + RemoveYears(s[k + 6..])
  {
    var t := s[1..];
    var a, b := RemoveYears(t[..k - 1]), RemoveYears(s[k + 6..]);
    PrefixKeepsFirst(s, k);
    assert t[k + 5..] == s[k + 6..];
    assert RemoveYears(s) == [s[0]] + RemoveYears(t);
    ConsAppend(s[0], a, b);
  }

  lemma ConsAppend(x: char, a: string, b: string)
    ensures [x] + (a + b) == ([x] + a) + b
  {
  }

  /** A year group is deleted wherever it stands: no match of the scan
      before position `k` can run into the group at `k`. */
  lemma {:induction false} YearGroupRemovedAt(s: string, k: int)
    requires 0 <= k && k + 6 <= |s| && IsYearGroup(s[k..k + 6])
    ensures RemoveYears(s) == RemoveYears(s[..k]) + RemoveYears(s[k + 6..])
    decreases k
  {
    if k == 0 {
      GroupFirst(s);
    } else if IsYearGroup(s[..6]) {
      GroupBeforeGroup(s, k);
      assert IsYearGroup(s[6..][k - 6..k]) by {
        assert s[6..][k - 6..k] == s[k..k + 6];
      }
      YearGroupRemovedAt(s[6..], k - 6);
      GroupAtStart(s, k);
    } else {
      assert IsYearGroup(s[1..][k - 1..k + 5]) by {
        assert s[1..][k - 1..k + 5] == s[k..k + 6];
      }
      YearGroupRemovedAt(s[1..], k - 1);
      NoGroupAtStart(s, k);
    }
  }

  /** One scored catalog row, `(score, movie_id, title)` in the source. */
  datatype TitleMatch = TitleMatch(movieId: int, title: string, score: real)

  /** How the scan scores a catalog title against the normalised query `qn`:
      the similarity ratio between `qn` and the normalised title. */
  function TitleScore(qn: string, ratio: (string, string) -> real): (score: string -> real)
    ensures forall t :: score(t) == ratio(qn, Normalize(t))
  {
    t => ratio(qn, Normalize(t))
  }

  function Candidate(row: MovieRow, score: string -> real): (m: TitleMatch)
    ensures m.movieId == row.movieId && m.title == row.title && m.score == score(row.title)
  {
    TitleMatch(row.movieId, row.title, score(row.title))
  }

  predicate ScoreAtLeast(a: TitleMatch, b: TitleMatch) {
    a.score >= b.score
  }

  /** The `scored` list after the scan: rows scoring at least `minScore`, in catalog order. */
  function Scored(rows: seq<MovieRow>, minScore: real, score: string -> real): (r: seq<TitleMatch>)
    ensures |r| <= |rows|
    ensures forall x :: x in r <==>
      x.score >= minScore && exists j :: 0 <= j < |rows| && x == Candidate(rows[j], score)
  {
    if rows == [] then []
    else
      var init := rows[..|rows| - 1];
      var c := Candidate(rows[|rows| - 1], score);
      var prev := Scored(init, minScore, score);
      var r := prev + (if c.score >= minScore then [c] else []);
      forall x | x in r
        ensures x.score >= minScore && exists j :: 0 <= j < |rows| && x == Candidate(rows[j], score)
      {
        if x in prev {
          var j :| 0 <= j < |init| && x == Candidate(init[j], score);
          assert init[j] == rows[j];
        } else {
          assert x == Candidate(rows[|rows| - 1], score);
        }
      }
      forall x: TitleMatch | x.score >= minScore && exists j :: 0 <= j < |rows| && x == Candidate(rows[j], score)
        ensures x in r
      {
        var j :| 0 <= j < |rows| && x == Candidate(rows[j], score);
        if j < |init| {
          assert init[j] == rows[j];
          assert x in prev;
        }
      }
      r
  }

  /** One more step of the scan appends the next row when it scores high enough. */
  lemma ScoredStep(rows: seq<MovieRow>, i: nat, minScore: real, score: string -> real)
    requires i < |rows|
    ensures var c := Candidate(rows[i], score);
      Scored(rows[..i + 1], minScore, score) == Scored(rows[..i], minScore, score) + (if c.score >= minScore then [c] else [])
  {
    assert rows[..i + 1][..i] == rows[..i];
  }

  /** The best `k` of the scanned rows: `scored.sort(reverse=True)` on the
      score alone (a stable sort), then `scored[:k]`. */
  function TopMatches(all: seq<TitleMatch>, k: nat): (r: seq<TitleMatch>)
    ensures |r| <= k
    ensures forall i :: 0 <= i < |r| ==> r[i] in all
  {
    var sorted := SortBy(all, ScoreAtLeast);
    assert forall i :: 0 <= i < |sorted| ==> sorted[i] in multiset(all);
    Take(sorted, k)
  }

  /** The kept matches are the highest-scoring ones, in non-increasing score
      order; every dropped match scores no higher than any kept one; and
      matches with equal scores keep their catalog order. */
  lemma TopMatchesBest(all: seq<TitleMatch>, k: nat)
    ensures var r := TopMatches(all, k);
      && |r| == (if k <= |all| then k else |all|)
      && (forall i :: 0 <= i < |r| ==> r[i] in all)
      && (forall i, j :: 0 <= i < j < |r| ==> r[i].score >= r[j].score)
      && (forall x :: x in all && x !in r ==> forall i :: 0 <= i < |r| ==> r[i].score >= x.score)
      && (forall x :: var t, full := TiedWith(r, x, ScoreAtLeast), TiedWith(all, x, ScoreAtLeast);
                      |t| <= |full| && t == full[..|t|])
  {
    var r := TopMatches(all, k);
    TakeSortedBest(all, k, ScoreAtLeast);
    forall x
      ensures var t, full := TiedWith(r, x, ScoreAtLeast), TiedWith(all, x, ScoreAtLeast);
              |t| <= |full| && t == full[..|t|]
    {
      TakeSortedStable(all, k, ScoreAtLeast, x);
    }
    forall i | 0 <= i < |r|
      ensures r[i] in all
    {
      assert r[i] in multiset(r);
    }
  }

  /** `find_best_title_matches`: an empty normalised query matches nothing;
      otherwise the rows scoring at least `minScore`, best first, at most `k`. */
  method FindBestTitleMatches(movies: Movies, query: string, k: nat, minScore: real, ratio: (string, string) -> real)
    returns (r: seq<TitleMatch>)
    ensures Normalize(query) == [] ==> r == []
    ensures Normalize(query) != [] ==>
      r == TopMatches(Scored(movies.rows, minScore, TitleScore(Normalize(query), ratio)), k)
  {
    var qn := Normalize(query);
    if qn == [] {
      return [];
    }
    var scored := ScanTitles(movies.rows, minScore, TitleScore(qn, ratio));
    scored := SortBy(scored, ScoreAtLeast);
    r := Take(scored, k);
  }

  /** The scan over the catalog: each row's score, kept when at least
      `minScore`, in catalog order. */
  method ScanTitles(rows: seq<MovieRow>, minScore: real, scoreOf: string -> real) returns (scored: seq<TitleMatch>)
    ensures scored == Scored(rows, minScore, scoreOf)
  {
    scored := [];
    var i := 0;
    while i < |rows|
      invariant 0 <= i <= |rows|
      invariant scored == Scored(rows[..i], minScore, scoreOf)
    {
      var row := rows[i];
      var score := scoreOf(row.title);
      if score >= minScore {
        scored := scored + [TitleMatch(row.movieId, row.title, score)];
      }
      ScoredStep(rows, i, minScore, scoreOf);
      i := i + 1;
    }
    assert rows[..i] == rows;
  }

  lemma HeatLowered()
    ensures Strip(Lower("Heat (1995)")) == "heat (1995)"
  {
    assert Lower("Heat (1995)") == "heat (1995)";
    assert LeadingSpaces("heat (1995)") == 0;
    assert TrailingSpaces("heat (1995)") == 0;
  }

  lemma HeatYearRemoved()
    ensures RemoveYears("heat (1995)") == "heat "
  {
    assert "heat (1995)"[5..11] == "(1995)";
    YearGroupRemovedAt("heat (1995)", 5);
    assert "heat (1995)"[..5] == "heat ";
    assert "heat (1995)"[11..] == "";
    assert RemoveYears("heat ") == "heat ";
    assert RemoveYears("") == "";
  }

  lemma HeatTrimmed()
    ensures Strip("heat ") == "heat"
  {
    assert LeadingSpaces("heat ") == 0;
    assert "heat "[..4] == "heat";
    assert TrailingSpaces("heat") == 0;
    assert TrailingSpaces("heat ") == 1;
  }

  lemma HeatStripped()
    ensures Strip(Collapse(Punctuation("heat "))) == "heat"
  {
    assert Punctuation("heat ") == "heat ";
    CollapseFixes("heat ");
    HeatTrimmed();
  }

  /** The catalog's year suffix disappears and the case is folded. */
  lemma NormalizeExample()
    ensures Normalize("Heat (1995)") == "heat"
  {
    HeatLowered();
    HeatYearRemoved();
    HeatStripped();
  }
}
