/**
 The records the pages receive from the game-database API (RAWG): a game with
 its tags, and one page of a `/games` listing. A listing is an input value:
 the HTTP `ok` flag, the decoded `results`, and the `next` page link.
 */
module Rawg {
  import opened Wrappers

  /** The listing endpoint every page queries. */
  const GamesEndpoint: string := "https://api.rawg.io/api/games"

  /** A platform, genre or developer reference: `{id, name}`. */
  datatype Tag = Tag(id: int, name: string)

  /**
   A game. `rating` is the API's 0-5 score as an ordered key in hundredths
   (4.37 is 437); a missing `platforms` array is represented by the empty one.
   */
  datatype Game = Game(
    id: int,
    name: string,
    slug: string,
    rating: int,
    metacritic: Option<int>,
    backgroundImage: Option<string>,
    platforms: seq<Tag>,
    genres: seq<Tag>)

  /** One response of a listing endpoint; `next` is `None` when the API sends `null`. */
  datatype Response = Response(ok: bool, results: seq<Game>, next: Option<string>)

  /** `list.some(g => g.id === id)`. */
  predicate HasId(s: seq<Game>, id: int) {
    exists k :: 0 <= k < |s| && s[k].id == id
  }

  /** No two games of `s` share an id. */
  predicate DistinctIds(s: seq<Game>) {
    forall i, j :: 0 <= i < j < |s| ==> s[i].id != s[j].id
  }

  /** The ids of `p + [g]` are those of `p` and `g`'s. */
  lemma HasIdAppend(p: seq<Game>, g: Game)
    ensures forall id :: HasId(p + [g], id) <==> HasId(p, id) || g.id == id
  {
    forall id ensures HasId(p + [g], id) <==> HasId(p, id) || g.id == id {
      if HasId(p, id) {
        var k :| 0 <= k < |p| && p[k].id == id;
        assert (p + [g])[k] == p[k];
      }
      if g.id == id {
        assert (p + [g])[|p|] == g;
      }
    }
  }

  /** Index of the first game of `s` with the given id. */
  function FirstIndex(s: seq<Game>, id: int): (k: nat)
    requires HasId(s, id)
    ensures k < |s| && s[k].id == id
    ensures forall j :: 0 <= j < k ==> s[j].id != id
    decreases |s|
  {
    if s[0].id == id then 0
    else
      assert HasId(s[1..], id) by {
        var k :| 0 <= k < |s| && s[k].id == id;
        assert s[1..][k - 1] == s[k];
      }
      1 + FirstIndex(s[1..], id)
  }

  /** Appending a game does not move the first occurrence of an id already present. */
  lemma FirstIndexAppend(p: seq<Game>, g: Game, id: int)
    requires HasId(p, id)
    ensures HasId(p + [g], id) && FirstIndex(p + [g], id) == FirstIndex(p, id)
  {
    HasIdAppend(p, g);
    var k := FirstIndex(p + [g], id);
    var k' := FirstIndex(p, id);
    assert (p + [g])[k'] == p[k'];
  }

  /** An appended game whose id is new is the first occurrence of that id. */
  lemma FirstIndexAppendNew(p: seq<Game>, g: Game)
    requires !HasId(p, g.id)
    ensures HasId(p + [g], g.id) && FirstIndex(p + [g], g.id) == |p|
  {
    HasIdAppend(p, g);
    assert (p + [g])[|p|] == g;
  }
}
