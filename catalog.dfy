/** The product catalog and `findGameByBarcode` (app.js:1439-1465): a scanned
    code is resolved in two passes over the catalog, an exact pass on the
    `/`-separated alternates and, only when that finds nothing, a substring
    pass. The first matching record in catalog order wins. */
module Catalog {
  import opened Wrappers
  import opened Text
  import Seqs

  /** One catalog record, as `parseCSV` builds it. `barcode` may hold several
      `/`-separated alternates; `optPrice` is the wholesale price text. */
  datatype Product = Product(
    platform: string,
    barcode: string,
    name: string,
    code: string,
    language: string,
    optPrice: string,
    marketplace: string,
    codeType: string)

  /** `barcode.split('/').map(b => b.trim())`. */
  function Alternates(barcode: string): (alts: seq<string>)
    ensures |alts| >= 1
    ensures forall i :: 0 <= i < |alts| ==> '/' !in alts[i] && IsTrimmed(alts[i])
  {
    var parts := Split(barcode, '/');
    var alts := Seqs.Map(Trim, parts);
    forall i | 0 <= i < |alts| ensures '/' !in alts[i] {
      if '/' in alts[i] { TrimChars(parts[i], '/'); }
    }
    alts
  }

  /** The first pass: the record has a barcode and the code is one of its
      alternates, or, for a barcode without `/`, the whole barcode. */
  predicate ExactMatch(p: Product, code: string) {
    p.barcode != [] &&
    if '/' in p.barcode then code in Alternates(p.barcode) else p.barcode == code
  }

  /** The fallback pass: some alternate (or the whole barcode) contains the code or is contained in it. */
  predicate PartialMatch(p: Product, code: string) {
    p.barcode != [] &&
    if '/' in p.barcode then
      exists b :: b in Alternates(p.barcode) && (Contains(code, b) || Contains(b, code))
    else
      Contains(p.barcode, code) || Contains(code, p.barcode)
  }

  /** `findGameByBarcode(barcode)` over the catalog `games`; `None` is `undefined`. */
  function FindGameByBarcode(games: seq<Product>, barcode: string): (r: Option<Product>)
    ensures r.Some? ==> r.value in games && r.value.barcode != []
    // the exact pass wins, and within it the first record in catalog order
    ensures var c := Trim(barcode);
      forall i :: 0 <= i < |games| && ExactMatch(games[i], c) && (forall j :: 0 <= j < i ==> !ExactMatch(games[j], c))
        ==> r == Some(games[i])
    // the substring pass runs only when no record matches exactly
    ensures var c := Trim(barcode);
      (forall j :: 0 <= j < |games| ==> !ExactMatch(games[j], c)) ==>
        forall i :: 0 <= i < |games| && PartialMatch(games[i], c) && (forall j :: 0 <= j < i ==> !PartialMatch(games[j], c))
          ==> r == Some(games[i])
    // nothing is found exactly when no record matches in either pass
    ensures var c := Trim(barcode);
      r.None? <==> forall j :: 0 <= j < |games| ==> !ExactMatch(games[j], c) && !PartialMatch(games[j], c)
  {
    var clean := Trim(barcode);
    match Seqs.FindFirst(games, p => ExactMatch(p, clean))
    case Some(i) => Some(games[i])
    case None =>
      match Seqs.FindFirst(games, p => PartialMatch(p, clean))
      case Some(i) => Some(games[i])
      case None => None
  }

  /** An exact match is also a substring match. */
  lemma ExactIsPartial(p: Product, code: string)
    requires ExactMatch(p, code)
    ensures PartialMatch(p, code)
  {
    if '/' in p.barcode {
      assert code in Alternates(p.barcode) && Contains(code, code);
    } else {
      assert Contains(p.barcode, code);
    }
  }

  /** A code equal to some record's alternate always finds a record that has
      that code as an alternate (the first such one, by FindGameByBarcode's contract). */
  lemma {:induction false} AlternateIsFound(games: seq<Product>, i: nat, code: string)
    requires i < |games| && ExactMatch(games[i], Trim(code))
    ensures FindGameByBarcode(games, code).Some?
    ensures ExactMatch(FindGameByBarcode(games, code).value, Trim(code))
  {
    var c := Trim(code);
    var k := Seqs.FindFirst(games, p => ExactMatch(p, c));
    assert k.Some?;
  }

  /** A barcode cell ending in `/` (or holding `//`) has an empty alternate, and
      such a record passes the substring pass for every code: it is returned
      for any code that no earlier record matches. */
  lemma EmptyAlternateMatchesEverything(p: Product, code: string)
    requires '/' in p.barcode && [] in Alternates(p.barcode)
    ensures PartialMatch(p, code)
  {
    assert Contains(code, []);
  }
}
