/**
 The "best games of a year" page (app/best-of-year/page.js): the list of
 selectable years, the merge of three listings (top rated, most acclaimed,
 most popular), the first-occurrence de-duplication by id, the stable sort by
 descending rating, the cap at 24, the per-year store, and the Metacritic
 badge colour.
 */
module BestOfYear {
  import opened Wrappers
  import opened Text
  import opened Rawg

  const FirstYear: int := 1980

  /** At most this many games are kept for a year. */
  const RankedLimit: nat := 24

  /**
   `Array.from({length: currentYear - 1979}, (_, i) => currentYear - i)`.
   A negative length is clamped to zero by ECMAScript's ToLength.
   */
  function Years(currentYear: int): (ys: seq<int>)
    ensures |ys| == if currentYear >= FirstYear then currentYear - FirstYear + 1 else 0
    ensures forall i, j :: 0 <= i < j < |ys| ==> ys[i] > ys[j]
    ensures |ys| > 0 ==> ys[0] == currentYear && ys[|ys| - 1] == FirstYear
    ensures forall y :: y in ys <==> FirstYear <= y <= currentYear
  {
    var n := if currentYear >= FirstYear then currentYear - FirstYear + 1 else 0;
    var ys := seq(n, i requires 0 <= i < n => currentYear - i);
    assert forall y :: FirstYear <= y <= currentYear ==> y in ys by {
      forall y | FirstYear <= y <= currentYear ensures y in ys {
        assert ys[currentYear - y] == y;
      }
    }
    ys
  }

  /**
   The `reduce` over the concatenated listings: walk the games in order and keep
   one only when no game kept so far has its id.
   */
  function Dedupe(s: seq<Game>): (r: seq<Game>)
    ensures DistinctIds(r)
    ensures forall id :: HasId(r, id) <==> HasId(s, id)
    ensures |r| <= |s|
    decreases |s|
  {
    if |s| == 0 then []
    else
      var p := s[..|s| - 1];
      var g := s[|s| - 1];
      var acc := Dedupe(p);
      assert s == p + [g];
      HasIdAppend(p, g);
      HasIdAppend(acc, g);
      if HasId(acc, g.id) then acc else acc + [g]
  }

  /** Each game of `r` is the first game of `s` carrying its id. */
  predicate FirstOccurrencesOf(s: seq<Game>, r: seq<Game>) {
    forall k :: 0 <= k < |r| ==> HasId(s, r[k].id) && r[k] == s[FirstIndex(s, r[k].id)]
  }

  /** The games of `r` appear in the order their ids first occur in `s`. */
  predicate InFirstSeenOrder(s: seq<Game>, r: seq<Game>)
    requires FirstOccurrencesOf(s, r)
  {
    forall k1, k2 :: 0 <= k1 < k2 < |r| ==> FirstIndex(s, r[k1].id) < FirstIndex(s, r[k2].id)
  }

  /**
   The de-duplicated list holds, for each id, the game at that id's first
   occurrence, and lists them in order of first occurrence; it is therefore
   a subsequence of its input.
   */
  lemma {:induction false} DedupeFirstOccurrences(s: seq<Game>)
    ensures FirstOccurrencesOf(s, Dedupe(s))
    ensures InFirstSeenOrder(s, Dedupe(s))
    decreases |s|
  {
    if |s| > 0 {
      var p := s[..|s| - 1];
      var g := s[|s| - 1];
      var acc := Dedupe(p);
      assert s == p + [g];
      DedupeFirstOccurrences(p);
      DedupeExtendsFirstOccurrences(p, g, acc);
    }
  }

  /** The step of `DedupeFirstOccurrences`: appending one game to the walked input. */
  lemma DedupeExtendsFirstOccurrences(p: seq<Game>, g: Game, acc: seq<Game>)
    requires acc == Dedupe(p)
    requires FirstOccurrencesOf(p, acc) && InFirstSeenOrder(p, acc)
    ensures FirstOccurrencesOf(p + [g], Dedupe(p + [g]))
    ensures InFirstSeenOrder(p + [g], Dedupe(p + [g]))
  {
    var s := p + [g];
    assert s[..|s| - 1] == p;
    forall k | 0 <= k < |acc|
      ensures HasId(s, acc[k].id)
      ensures FirstIndex(s, acc[k].id) == FirstIndex(p, acc[k].id) < |p|
      ensures s[FirstIndex(s, acc[k].id)] == acc[k]
    {
      FirstIndexAppend(p, g, acc[k].id);
    }
    if HasId(acc, g.id) {
      assert Dedupe(s) == acc;
    } else {
      assert !HasId(p, g.id);
      FirstIndexAppendNew(p, g);
      var r := acc + [g];
      assert Dedupe(s) == r;
      assert FirstOccurrencesOf(s, r);
    }
  }

  /** A list whose ids are already distinct is left as it is. */
  lemma {:induction false} DedupeOfDistinct(s: seq<Game>)
    requires DistinctIds(s)
    ensures Dedupe(s) == s
    decreases |s|
  {
    if |s| > 0 {
      var p := s[..|s| - 1];
      var g := s[|s| - 1];
      assert DistinctIds(p);
      DedupeOfDistinct(p);
      assert !HasId(p, g.id);
      assert s == p + [g];
    }
  }

  /** De-duplicating twice is the same as once. */
  lemma DedupeIdempotent(s: seq<Game>)
    ensures Dedupe(Dedupe(s)) == Dedupe(s)
  {
    DedupeOfDistinct(Dedupe(s));
  }

  /** Non-increasing in rating from front to back. */
  predicate SortedByRating(s: seq<Game>) {
    forall i, j :: 0 <= i < j < |s| ==> s[i].rating >= s[j].rating
  }

  /**
   Places `g` in front of the first game rated no higher than it, so that among
   games of equal rating `g` stays first.
   */
  function Insert(g: Game, s: seq<Game>): (r: seq<Game>)
    ensures |r| == |s| + 1
    ensures multiset(r) == multiset(s) + multiset{g}
    decreases |s|
  {
    if |s| == 0 || s[0].rating <= g.rating then [g] + s
    else
      assert s == [s[0]] + s[1..];
      [s[0]] + Insert(g, s[1..])
  }

  /** Every game of `Insert(g, s)` is `g` or a game of `s`. */
  lemma InsertMembers(g: Game, s: seq<Game>, j: int)
    requires 0 <= j < |Insert(g, s)|
    ensures Insert(g, s)[j] == g || Insert(g, s)[j] in s
  {
    var r := Insert(g, s);
    assert r[j] in multiset(r);
  }

  lemma {:induction false} InsertSorted(g: Game, s: seq<Game>)
    requires SortedByRating(s)
    ensures SortedByRating(Insert(g, s))
    decreases |s|
  {
    if |s| > 0 && s[0].rating > g.rating {
      var rest := Insert(g, s[1..]);
      InsertSorted(g, s[1..]);
      forall j | 0 <= j < |rest| ensures rest[j].rating <= s[0].rating {
        InsertMembers(g, s[1..], j);
        if rest[j] != g {
          var m :| 0 <= m < |s[1..]| && s[1..][m] == rest[j];
          assert s[m + 1] == rest[j];
        }
      }
      var r := [s[0]] + rest;
      assert Insert(g, s) == r;
      forall i, j | 0 <= i < j < |r| ensures r[i].rating >= r[j].rating {
        assert r[j] == rest[j - 1];
        if i > 0 {
          assert r[i] == rest[i - 1];
        }
      }
    }
  }

  /**
   `games.sort((a, b) => b.rating - a.rating)`: a stable sort by descending
   rating (ECMA-262 requires `Array.prototype.sort` to be stable since the
   10th edition), written as an insertion sort.
   */
  function SortByRating(s: seq<Game>): (r: seq<Game>)
    ensures |r| == |s|
    ensures SortedByRating(r)
    ensures multiset(r) == multiset(s)
    decreases |s|
  {
    if |s| == 0 then []
    else
      assert s == [s[0]] + s[1..];
      InsertSorted(s[0], SortByRating(s[1..]));
      Insert(s[0], SortByRating(s[1..]))
  }

  /** The games of `s` whose rating is `k`, in their order in `s`. */
  function WithRating(s: seq<Game>, k: int): (r: seq<Game>)
    ensures forall x :: x in r ==> x in s && x.rating == k
    decreases |s|
  {
    if |s| == 0 then []
    else
      (if s[0].rating == k then [s[0]] else []) + WithRating(s[1..], k)
  }

  lemma {:induction false} InsertStable(g: Game, s: seq<Game>, k: int)
    ensures WithRating(Insert(g, s), k) ==
      if g.rating == k then [g] + WithRating(s, k) else WithRating(s, k)
    decreases |s|
  {
    if |s| == 0 || s[0].rating <= g.rating {
      assert ([g] + s)[1..] == s;
    } else {
      InsertStable(g, s[1..], k);
      assert ([s[0]] + Insert(g, s[1..]))[1..] == Insert(g, s[1..]);
    }
  }

  /** Stability: the games of each rating keep their relative order. */
  lemma {:induction false} SortStable(s: seq<Game>, k: int)
    ensures WithRating(SortByRating(s), k) == WithRating(s, k)
    decreases |s|
  {
    if |s| > 0 {
      SortStable(s[1..], k);
      InsertStable(s[0], SortByRating(s[1..]), k);
    }
  }

  lemma SortedHeadIsMax(s: seq<Game>, x: Game)
    requires SortedByRating(s) && x in s
    ensures x.rating <= s[0].rating
  {
    var i :| 0 <= i < |s| && s[i] == x;
  }

  /** In `a` and `b` the games of every rating appear in the same order. */
  ghost predicate SameRatingClasses(a: seq<Game>, b: seq<Game>) {
    forall k :: WithRating(a, k) == WithRating(b, k)
  }

  /** Unfolds `WithRating` once. */
  lemma WithRatingCons(s: seq<Game>, k: int)
    requires |s| > 0
    ensures s[0].rating == k ==> WithRating(s, k) == [s[0]] + WithRating(s[1..], k)
    ensures s[0].rating != k ==> WithRating(s, k) == WithRating(s[1..], k)
  {
    assert [] + WithRating(s[1..], k) == WithRating(s[1..], k);
  }

  /** A game heading `b` whose rating class is the same in `a` is rated no higher than `a`'s head. */
  lemma HeadBound(a: seq<Game>, b: seq<Game>)
    requires SortedByRating(a)
    requires |b| > 0 && WithRating(a, b[0].rating) == WithRating(b, b[0].rating)
    ensures |a| > 0 && b[0].rating <= a[0].rating
  {
    WithRatingCons(b, b[0].rating);
    assert b[0] in WithRating(b, b[0].rating);
    assert b[0] in a;
    SortedHeadIsMax(a, b[0]);
  }

  lemma SameHead(a: seq<Game>, b: seq<Game>)
    requires SortedByRating(a) && SortedByRating(b)
    requires SameRatingClasses(a, b)
    requires |a| > 0 && |b| > 0
    ensures a[0] == b[0]
  {
    var m := a[0].rating;
    assert WithRating(a, b[0].rating) == WithRating(b, b[0].rating);
    HeadBound(a, b);
    assert WithRating(b, m) == WithRating(a, m);
    HeadBound(b, a);
    WithRatingCons(a, m);
    WithRatingCons(b, m);
    assert WithRating(a, m)[0] == a[0];
    assert WithRating(b, m)[0] == b[0];
  }

  lemma SameTails(a: seq<Game>, b: seq<Game>)
    requires SameRatingClasses(a, b)
    requires |a| > 0 && |b| > 0 && a[0] == b[0]
    ensures SameRatingClasses(a[1..], b[1..])
  {
    forall k ensures WithRating(a[1..], k) == WithRating(b[1..], k) {
      assert WithRating(a, k) == WithRating(b, k);
      WithRatingCons(a, k);
      WithRatingCons(b, k);
      if a[0].rating == k {
        assert WithRating(a[1..], k) == WithRating(a, k)[1..];
        assert WithRating(b[1..], k) == WithRating(b, k)[1..];
      }
    }
  }

  /** The head of a non-empty list belongs to its own rating class. */
  lemma HeadClassNonEmpty(s: seq<Game>)
    ensures |s| > 0 ==> WithRating(s, s[0].rating) != []
  {
  }

  /**
   Two lists sorted by descending rating in which the games of every rating
   appear in the same order are the same list.
   */
  lemma {:induction false} SortedStableUnique(a: seq<Game>, b: seq<Game>)
    requires SortedByRating(a) && SortedByRating(b)
    requires SameRatingClasses(a, b)
    ensures a == b
    decreases |a| + |b|
  {
    HeadClassNonEmpty(a);
    HeadClassNonEmpty(b);
    if |a| > 0 && |b| > 0 {
      SameHead(a, b);
      SameTails(a, b);
      SortedStableUnique(a[1..], b[1..]);
      assert a == [a[0]] + a[1..];
      assert b == [b[0]] + b[1..];
    }
  }

  /**
   Any stable descending sort of `s` is `SortByRating(s)`: the insertion sort
   stands for every conforming `Array.prototype.sort`.
   */
  lemma SortIsTheStableSort(s: seq<Game>, t: seq<Game>)
    requires SortedByRating(t)
    requires forall k :: WithRating(t, k) == WithRating(s, k)
    ensures t == SortByRating(s)
  {
    forall k ensures WithRating(t, k) == WithRating(SortByRating(s), k) {
      SortStable(s, k);
    }
    assert SameRatingClasses(t, SortByRating(s));
    SortedStableUnique(t, SortByRating(s));
  }

  /** Sorting a sorted list changes nothing; in particular sorting is idempotent. */
  lemma SortOfSorted(s: seq<Game>)
    requires SortedByRating(s)
    ensures SortByRating(s) == s
  {
    SortIsTheStableSort(s, s);
  }

  lemma HasIdOfPermutation(a: seq<Game>, b: seq<Game>, id: int)
    requires multiset(a) == multiset(b)
    requires HasId(a, id)
    ensures HasId(b, id)
  {
    var k :| 0 <= k < |a| && a[k].id == id;
    assert a[k] in multiset(b);
    var j :| 0 <= j < |b| && b[j] == a[k];
  }

  lemma {:induction false} InsertDistinct(g: Game, s: seq<Game>)
    requires DistinctIds(s) && !HasId(s, g.id)
    ensures DistinctIds(Insert(g, s))
    decreases |s|
  {
    if |s| > 0 && s[0].rating > g.rating {
      var rest := Insert(g, s[1..]);
      assert !HasId(s[1..], g.id);
      InsertDistinct(g, s[1..]);
      forall j | 0 <= j < |rest| ensures rest[j].id != s[0].id {
        InsertMembers(g, s[1..], j);
        if rest[j] != g {
          var m :| 0 <= m < |s[1..]| && s[1..][m] == rest[j];
          assert s[m + 1] == rest[j];
        }
      }
    }
  }

  /** Sorting keeps ids distinct. */
  lemma {:induction false} SortDistinct(s: seq<Game>)
    requires DistinctIds(s)
    ensures DistinctIds(SortByRating(s))
    decreases |s|
  {
    if |s| > 0 {
      SortDistinct(s[1..]);
      var sorted := SortByRating(s[1..]);
      if HasId(sorted, s[0].id) {
        HasIdOfPermutation(sorted, s[1..], s[0].id);
      }
      InsertDistinct(s[0], sorted);
    }
  }

  function Min(a: int, b: int): int { if a <= b then a else b }

  /** `.sort(...)` then `.slice(0, 24)`. */
  function Rank(unique: seq<Game>): (r: seq<Game>)
    ensures |r| == Min(|unique|, RankedLimit)
    ensures SortedByRating(r)
    ensures forall x :: x in r ==> x in unique
    ensures DistinctIds(unique) ==> DistinctIds(r)
  {
    var sorted := SortByRating(unique);
    assert forall x :: x in sorted[..Min(|unique|, RankedLimit)] ==> x in multiset(unique);
    assert DistinctIds(unique) ==> DistinctIds(sorted) by {
      if DistinctIds(unique) {
        SortDistinct(unique);
      }
    }
    sorted[..Min(|unique|, RankedLimit)]
  }

  /**
   Whatever stable descending sort the engine uses, the ranked list is its
   first `min(24, n)` games: a prefix of a stable permutation of the input.
   */
  lemma RankIsPrefixOfStableSort(unique: seq<Game>, t: seq<Game>)
    requires SortedByRating(t)
    requires forall k :: WithRating(t, k) == WithRating(unique, k)
    ensures |t| == |unique|
    ensures Rank(unique) == t[..Min(|unique|, RankedLimit)]
  {
    SortIsTheStableSort(unique, t);
  }

  /** Ranking a ranked list changes nothing. */
  lemma RankIdempotent(s: seq<Game>)
    ensures Rank(Rank(s)) == Rank(s)
  {
    SortOfSorted(Rank(s));
  }

  /** The games stored for a year: the three listings merged, de-duplicated, ranked and capped. */
  function BestOfYearList(topRated: seq<Game>, acclaimed: seq<Game>, popular: seq<Game>): (r: seq<Game>)
    ensures DistinctIds(r)
    ensures SortedByRating(r)
    ensures |r| == Min(|Dedupe(topRated + acclaimed + popular)|, RankedLimit)
    ensures |r| <= |topRated| + |acclaimed| + |popular|
    ensures forall x :: x in r ==>
      HasId(topRated + acclaimed + popular, x.id) &&
      x == (topRated + acclaimed + popular)[FirstIndex(topRated + acclaimed + popular, x.id)]
  {
    var all := topRated + acclaimed + popular;
    var unique := Dedupe(all);
    DedupeFirstOccurrences(all);
    var r := Rank(unique);
    assert forall x :: x in r ==> exists k :: 0 <= k < |unique| && unique[k] == x;
    r
  }

  /** When the listings hold at most 24 distinct ids, every id of every listing is kept. */
  lemma BestOfYearKeepsEveryId(topRated: seq<Game>, acclaimed: seq<Game>, popular: seq<Game>, id: int)
    requires |Dedupe(topRated + acclaimed + popular)| <= RankedLimit
    requires HasId(topRated, id) || HasId(acclaimed, id) || HasId(popular, id)
    ensures HasId(BestOfYearList(topRated, acclaimed, popular), id)
  {
    var all := topRated + acclaimed + popular;
    var unique := Dedupe(all);
    var sorted := SortByRating(unique);
    assert HasId(all, id) by {
      if HasId(topRated, id) {
        var k :| 0 <= k < |topRated| && topRated[k].id == id;
        assert all[k] == topRated[k];
      } else if HasId(acclaimed, id) {
        var k :| 0 <= k < |acclaimed| && acclaimed[k].id == id;
        assert all[|topRated| + k] == acclaimed[k];
      } else {
        var k :| 0 <= k < |popular| && popular[k].id == id;
        assert all[|topRated| + |acclaimed| + k] == popular[k];
      }
    }
    HasIdOfPermutation(unique, sorted, id);
    assert sorted[..|sorted|] == sorted;
  }

  /** The page's state for this view; `gamesByYear` is keyed by year. */
  datatype YearState = YearState(gamesByYear: map<int, seq<Game>>, loading: bool, error: Option<string>)

  function LoadErrorMessage(year: nat): string {
    "Failed to load games for " + NatToString(year) + ". Please try again later."
  }

  /** The error message names the year it is about. */
  lemma LoadErrorNamesYear(year: nat)
    ensures Contains(LoadErrorMessage(year), NatToString(year))
  {
    ContainsInfix("Failed to load games for ", NatToString(year), ". Please try again later.");
  }

  /** Different years give different messages. */
  lemma LoadErrorMessageInjective(y1: nat, y2: nat)
    requires LoadErrorMessage(y1) == LoadErrorMessage(y2)
    ensures y1 == y2
  {
    var prefix := "Failed to load games for ";
    var m := LoadErrorMessage(y1);
    var n1 := |NatToString(y1)|;
    var n2 := |NatToString(y2)|;
    assert n1 == n2;
    assert m[|prefix|..|prefix| + n1] == NatToString(y1);
    assert LoadErrorMessage(y2)[|prefix|..|prefix| + n2] == NatToString(y2);
    NatToStringInjective(y1, y2);
  }

  /**
   `fetchGamesForYear` once its three responses are in: all three ok stores the
   ranked list under `year`; otherwise nothing is stored and the error names the
   year. No other year's entry changes, and loading ends either way.
   */
  function FetchGamesForYear(st: YearState, year: nat, topRated: Response, acclaimed: Response, popular: Response): (r: YearState)
    ensures !r.loading
    ensures forall y :: y != year ==> (y in r.gamesByYear <==> y in st.gamesByYear)
    ensures forall y :: y != year && y in st.gamesByYear ==> r.gamesByYear[y] == st.gamesByYear[y]
    ensures topRated.ok && acclaimed.ok && popular.ok ==>
      && year in r.gamesByYear
      && r.gamesByYear[year] == BestOfYearList(topRated.results, acclaimed.results, popular.results)
      && r.error == st.error
    ensures !(topRated.ok && acclaimed.ok && popular.ok) ==>
      r.gamesByYear == st.gamesByYear && r.error == Some(LoadErrorMessage(year))
  {
    if !topRated.ok || !acclaimed.ok || !popular.ok then
      st.(loading := false, error := Some(LoadErrorMessage(year)))
    else
      var ranked := BestOfYearList(topRated.results, acclaimed.results, popular.results);
      st.(gamesByYear := st.gamesByYear[year := ranked], loading := false)
  }

  /** Colour of the Metacritic badge; a missing score compares false against both thresholds. */
  datatype Badge = Green | Yellow | Red

  function MetacriticColor(score: Option<int>): (c: Badge)
    ensures c == Green <==> score.Some? && score.value >= 90
    ensures c == Yellow <==> score.Some? && 75 <= score.value < 90
    ensures c == Red <==> score.None? || score.value < 75
  {
    if score.Some? && score.value >= 90 then Green
    else if score.Some? && score.value >= 75 then Yellow
    else Red
  }

  function BadgeLevel(c: Badge): nat {
    match c
    case Red => 0
    case Yellow => 1
    case Green => 2
  }

  /** A higher score never gets a worse badge. */
  lemma MetacriticColorMonotonic(a: int, b: int)
    requires a <= b
    ensures BadgeLevel(MetacriticColor(Some(a))) <= BadgeLevel(MetacriticColor(Some(b)))
  {
  }
}
