/** `smartSearch` (app.js:140-174): every catalog record is scored against the
    lower-cased, trimmed query (100 for the name, 80 for the code, 70 for a
    barcode alternate), records scoring 0 are dropped and the rest are
    sorted by descending score with a stable sort. */
module Search {
  import opened Text
  import opened Catalog
  import Seqs

  /** One entry of `results`. `index` is the record's position in the catalog:
      it is not in the source's entry and is kept only to state the order of ties. */
  datatype Hit = Hit(game: Product, score: int, index: nat)

  predicate NameHit(p: Product, q: string) {
    p.name != [] && Contains(Lower(p.name), q)
  }

  predicate CodeHit(p: Product, q: string) {
    p.code != [] && Contains(Lower(p.code), q)
  }

  /** The alternates are trimmed but not lower-cased. */
  predicate BarcodeHit(p: Product, q: string) {
    p.barcode != [] && exists b :: b in Alternates(p.barcode) && Contains(b, q)
  }

  /** The score of one record for the normalized query `q`. */
  function Score(p: Product, q: string): (score: int)
    ensures 0 <= score <= 250
    ensures score > 0 <==> NameHit(p, q) || CodeHit(p, q) || BarcodeHit(p, q)
    ensures NameHit(p, q) ==> score >= 100
  {
    (if NameHit(p, q) then 100 else 0)
    + (if CodeHit(p, q) then 80 else 0)
    + (if BarcodeHit(p, q) then 70 else 0)
  }

  /** `query.toLowerCase().trim()`. */
  function NormalizeQuery(query: string): string {
    Trim(Lower(query))
  }

  /** The records of `games` with a positive score, in catalog order. */
  function Hits(games: seq<Product>, q: string): seq<Hit> {
    if games == [] then []
    else
      var n := |games| - 1;
      Hits(games[..n], q) + (if Score(games[n], q) > 0 then [Hit(games[n], Score(games[n], q), n)] else [])
  }

  /** `(a, b) => b.score - a.score` as a key: ascending key is descending score. */
  function ScoreKey(h: Hit): int {
    -h.score
  }

  function HitIndex(h: Hit): int {
    h.index
  }

  function HitGame(h: Hit): Product {
    h.game
  }

  /** The sorted entries of `smartSearch(games, query)`. */
  function SearchHits(games: seq<Product>, query: string): seq<Hit> {
    if |query| < 2 then [] else Seqs.SortBy(Hits(games, NormalizeQuery(query)), ScoreKey)
  }

  /** `smartSearch(games, query)`. */
  function SearchResult(games: seq<Product>, query: string): seq<Product> {
    Seqs.Map(HitGame, SearchHits(games, query))
  }

  method SmartSearch(games: seq<Product>, query: string) returns (found: seq<Product>)
    ensures found == SearchResult(games, query)
    ensures |query| < 2 ==> found == []
  {
    if |query| < 2 {
      return [];
    }
    var q := Trim(Lower(query));
    var results: seq<Hit> := [];
    var i := 0;
    while i < |games|
      invariant 0 <= i <= |games|
      invariant results == Hits(games[..i], q)
    {
      var game := games[i];
      var score := ScoreGame(game, q);
      HitsSnoc(games, q, i);
      if score > 0 {
        results := results + [Hit(game, score, i)];
      }
      i := i + 1;
    }
    assert games[..i] == games;
    var sorted := Seqs.SortBy(results, ScoreKey);
    found := Seqs.Map(HitGame, sorted);
  }

  /** One more record of the catalog adds its hit, if it scores. */
  lemma HitsSnoc(games: seq<Product>, q: string, i: nat)
    requires i < |games|
    ensures Hits(games[..i + 1], q) ==
      Hits(games[..i], q) + (if Score(games[i], q) > 0 then [Hit(games[i], Score(games[i], q), i)] else [])
  {
    assert games[..i + 1][..i] == games[..i];
  }

  /** The body of the `forEach` of `smartSearch`, up to the push. */
  method ScoreGame(game: Product, q: string) returns (score: int)
    ensures score == Score(game, q)
  {
    score := 0;
    if game.name != [] && Contains(Lower(game.name), q) {
      score := score + 100;
    }
    if game.code != [] && Contains(Lower(game.code), q) {
      score := score + 80;
    }
    if game.barcode != [] {
      var barcodes := Seqs.Map(Trim, Split(game.barcode, '/'));
      if exists b :: b in barcodes && Contains(b, q) {
        score := score + 70;
      }
    }
  }

  /** Every hit is the record at its index, with its positive score, and the
      indices increase strictly. */
  lemma {:induction false} HitsSound(games: seq<Product>, q: string)
    ensures forall h :: h in Hits(games, q) ==>
      h.index < |games| && games[h.index] == h.game && h.score == Score(h.game, q) && h.score > 0
    ensures forall a, b :: 0 <= a < b < |Hits(games, q)| ==> Hits(games, q)[a].index < Hits(games, q)[b].index
  {
    if games != [] {
      var n := |games| - 1;
      var init := games[..n];
      HitsSound(init, q);
      var hs := Hits(games, q);
      var pre := Hits(init, q);
      forall h | h in hs
        ensures h.index < |games| && games[h.index] == h.game && h.score == Score(h.game, q) && h.score > 0
      {
        if h in pre {
          assert games[h.index] == init[h.index];
        }
      }
      forall a, b | 0 <= a < b < |hs| ensures hs[a].index < hs[b].index {
        if b >= |pre| {
          assert hs[a] == pre[a];
          assert pre[a] in pre;
        } else {
          assert hs[a] == pre[a] && hs[b] == pre[b];
        }
      }
    }
  }

  /** Every record with a positive score has a hit. */
  lemma {:induction false} HitsComplete(games: seq<Product>, q: string, i: nat)
    requires i < |games| && Score(games[i], q) > 0
    ensures Hit(games[i], Score(games[i], q), i) in Hits(games, q)
  {
    var n := |games| - 1;
    if i < n {
      HitsComplete(games[..n], q, i);
      assert games[..n][i] == games[i];
    }
  }

  /** The number of records of `games` with a positive score. */
  function Matching(games: seq<Product>, q: string): nat {
    if games == [] then 0
    else Matching(games[..|games| - 1], q) + (if Score(games[|games| - 1], q) > 0 then 1 else 0)
  }

  lemma {:induction false} HitsCount(games: seq<Product>, q: string)
    ensures |Hits(games, q)| == Matching(games, q)
  {
    if games != [] {
      HitsCount(games[..|games| - 1], q);
    }
  }

  /** The results are sorted by descending score, and records of equal score
      keep their catalog order. */
  lemma SearchOrder(games: seq<Product>, query: string)
    ensures var hs := SearchHits(games, query);
      forall a, b :: 0 <= a < b < |hs| ==>
        hs[a].score > hs[b].score || (hs[a].score == hs[b].score && hs[a].index < hs[b].index)
  {
    if |query| >= 2 {
      var hits := Hits(games, NormalizeQuery(query));
      HitsSound(games, NormalizeQuery(query));
      Seqs.SortByStable(hits, ScoreKey, HitIndex);
    }
  }

  /** A record is found exactly when the query has at least two characters and
      the record scores above 0; each record is found once per catalog position. */
  lemma SearchMembers(games: seq<Product>, query: string)
    ensures var q := NormalizeQuery(query); var hs := SearchHits(games, query);
      && (forall h :: h in hs ==>
            |query| >= 2 && h.index < |games| && games[h.index] == h.game && h.score == Score(h.game, q) > 0)
      && (forall i :: 0 <= i < |games| && |query| >= 2 && Score(games[i], q) > 0 ==>
            Hit(games[i], Score(games[i], q), i) in hs)
      && |hs| == if |query| < 2 then 0 else Matching(games, q)
  {
    if |query| >= 2 {
      var q := NormalizeQuery(query);
      var hits := Hits(games, q);
      var hs := SearchHits(games, query);
      HitsSound(games, q);
      HitsCount(games, q);
      assert multiset(hs) == multiset(hits);
      forall h | h in hs ensures h in hits {
        assert h in multiset(hs);
      }
      forall i | 0 <= i < |games| && Score(games[i], q) > 0 ensures Hit(games[i], Score(games[i], q), i) in hs {
        HitsComplete(games, q, i);
        assert Hit(games[i], Score(games[i], q), i) in multiset(hits);
      }
      assert |hs| == |multiset(hs)| == |multiset(hits)| == |hits|;
    }
  }

  /** A query of two or more white-space characters normalizes to the empty
      text, which every name contains: every record with a name is found. */
  lemma BlankQueryFindsAllNamed(games: seq<Product>, query: string, i: nat)
    requires |query| >= 2 && AllSpace(query)
    requires i < |games| && games[i].name != []
    ensures games[i] in SearchResult(games, query)
  {
    var q := NormalizeQuery(query);
    BlankNormalizes(query);
    assert Contains(Lower(games[i].name), q);
    SearchMembers(games, query);
    HitFound(games, query, Hit(games[i], Score(games[i], q), i));
  }

  /** A query of white space alone normalizes to the empty string. */
  lemma BlankNormalizes(query: string)
    requires AllSpace(query)
    ensures NormalizeQuery(query) == []
  {
    assert AllSpace(Lower(query)) by {
      forall k | 0 <= k < |query| ensures IsSpace(Lower(query)[k]) {
        assert IsSpace(query[k]);
      }
    }
  }

  lemma HitFound(games: seq<Product>, query: string, h: Hit)
    requires h in SearchHits(games, query)
    ensures h.game in SearchResult(games, query)
  {
    var hs := SearchHits(games, query);
    var k :| 0 <= k < |hs| && hs[k] == h;
    assert SearchResult(games, query)[k] == h.game;
  }
}
