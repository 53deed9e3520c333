/** The cart of `GameScannerApp` (`scannedGames`), as values: what
    `addGameToCart` (app.js:1000-1024), `updateCartItem` (app.js:1026-1039)
    and `removeFromCart` (app.js:1041-1047) make of it, and the totals of
    `processSaleFromCart` (app.js:1062-1082). The class that owns the cart
    updates its field with these functions. */
module Cart {
  import opened Wrappers
  import opened Catalog
  import Seqs
  import Pricing

  /** One cart line. `price` is the retail price when the line was created;
      a `quantity` of 0 stands for a missing quantity, which counts as 1. */
  datatype CartLine = CartLine(
    name: string,
    barcode: string,
    price: int,
    platform: string,
    product: Product,
    quantity: int)

  /** `quantity || 1`. */
  function EffectiveQuantity(q: int): (e: int)
    ensures q != 0 ==> e == q
    ensures q == 0 ==> e == 1
  {
    if q == 0 then 1 else q
  }

  /** `scannedGames.findIndex(g => g.barcode === barcode)`. */
  function LineOf(cart: seq<CartLine>, barcode: string): Option<nat> {
    Seqs.FindFirst(cart, (l: CartLine) => l.barcode == barcode)
  }

  predicate UniqueBarcodes(cart: seq<CartLine>) {
    forall i, j :: 0 <= i < j < |cart| ==> cart[i].barcode != cart[j].barcode
  }

  /** The line `addGameToCart` pushes for a product not yet in the cart. */
  function NewLine(game: Product): CartLine {
    CartLine(game.name, game.barcode, Pricing.CalculateFinalPrice(game.optPrice), game.platform, game, 1)
  }

  /** `addGameToCart(game)`. */
  function AddLine(cart: seq<CartLine>, game: Product): seq<CartLine> {
    match LineOf(cart, game.barcode)
    case Some(i) => cart[i := cart[i].(quantity := EffectiveQuantity(cart[i].quantity) + 1)]
    case None => cart + [NewLine(game)]
  }

  /** `splice(index, 1)` behind the range check of `removeFromCart(index)`. */
  function RemoveAt(cart: seq<CartLine>, index: int): seq<CartLine> {
    if 0 <= index < |cart| then cart[..index] + cart[index + 1..] else cart
  }

  /** `updateCartItem(index, change)`. */
  function ChangeQuantity(cart: seq<CartLine>, index: int, change: int): seq<CartLine> {
    if 0 <= index < |cart| then
      var q := EffectiveQuantity(cart[index].quantity) + change;
      if q < 1 then RemoveAt(cart, index) else cart[index := cart[index].(quantity := q)]
    else cart
  }

  function LineTotal(l: CartLine): int {
    l.price * EffectiveQuantity(l.quantity)
  }

  /** `totalAmount` of `processSaleFromCart`: Σ price · (quantity || 1). */
  function TotalAmount(cart: seq<CartLine>): int {
    if cart == [] then 0 else TotalAmount(cart[..|cart| - 1]) + LineTotal(cart[|cart| - 1])
  }

  /** `totalItems` of `processSaleFromCart`: Σ (quantity || 1). */
  function TotalItems(cart: seq<CartLine>): int {
    if cart == [] then 0 else TotalItems(cart[..|cart| - 1]) + EffectiveQuantity(cart[|cart| - 1].quantity)
  }

  /** Adding a product whose barcode is in the cart raises the quantity of
      the first such line by one and changes nothing else. */
  lemma AddExisting(cart: seq<CartLine>, game: Product, i: nat)
    requires i < |cart| && cart[i].barcode == game.barcode
    requires forall j :: 0 <= j < i ==> cart[j].barcode != game.barcode
    ensures var r := AddLine(cart, game);
      && |r| == |cart|
      && r[i] == cart[i].(quantity := EffectiveQuantity(cart[i].quantity) + 1)
      && forall j :: 0 <= j < |cart| && j != i ==> r[j] == cart[j]
  {
    var k := LineOf(cart, game.barcode);
    assert k == Some(i);
  }

  /** Adding a product whose barcode is not in the cart appends one line of
      quantity 1 at its current retail price. */
  lemma AddNew(cart: seq<CartLine>, game: Product)
    requires forall j :: 0 <= j < |cart| ==> cart[j].barcode != game.barcode
    ensures AddLine(cart, game) == cart + [NewLine(game)]
    ensures AddLine(cart, game)[|cart|].quantity == 1
    ensures AddLine(cart, game)[|cart|].price == Pricing.CalculateFinalPrice(game.optPrice)
  {
  }

  /** At most one line per barcode, and the added barcode is in the cart. */
  lemma AddKeepsBarcodesUnique(cart: seq<CartLine>, game: Product)
    requires UniqueBarcodes(cart)
    ensures UniqueBarcodes(AddLine(cart, game))
    ensures exists j :: 0 <= j < |AddLine(cart, game)| && AddLine(cart, game)[j].barcode == game.barcode
  {
    var r := AddLine(cart, game);
    match LineOf(cart, game.barcode)
    case Some(i) =>
      assert r[i].barcode == game.barcode;
      forall a, b | 0 <= a < b < |r| ensures r[a].barcode != r[b].barcode {
        assert r[a].barcode == cart[a].barcode && r[b].barcode == cart[b].barcode;
      }
    case None =>
      assert r[|cart|].barcode == game.barcode;
  }

  /** Scanning the same product twice into an empty cart gives one line of quantity 2. */
  lemma AddTwice(game: Product)
    ensures AddLine(AddLine([], game), game) == [NewLine(game).(quantity := 2)]
  {
    var once := AddLine([], game);
    assert once == [NewLine(game)];
    assert LineOf(once, game.barcode) == Some(0);
  }

  /** Summing a cart after one line is replaced. */
  lemma {:induction false} TotalsUpdate(cart: seq<CartLine>, i: nat, l: CartLine)
    requires i < |cart|
    ensures TotalAmount(cart[i := l]) == TotalAmount(cart) - LineTotal(cart[i]) + LineTotal(l)
    ensures TotalItems(cart[i := l]) == TotalItems(cart) - EffectiveQuantity(cart[i].quantity) + EffectiveQuantity(l.quantity)
  {
    var n := |cart| - 1;
    var r := cart[i := l];
    assert r[..n] == if i < n then cart[..n][i := l] else cart[..n];
    if i < n {
      TotalsUpdate(cart[..n], i, l);
    }
  }

  lemma {:induction false} TotalsConcat(a: seq<CartLine>, b: seq<CartLine>)
    ensures TotalAmount(a + b) == TotalAmount(a) + TotalAmount(b)
    ensures TotalItems(a + b) == TotalItems(a) + TotalItems(b)
    decreases |b|
  {
    if b == [] {
      assert a + b == a;
    } else {
      var n := |b| - 1;
      assert (a + b)[..|a + b| - 1] == a + b[..n];
      TotalsConcat(a, b[..n]);
    }
  }

  /** One more unit on a line costs its snapshot price once more. */
  lemma LineTotalIncrement(l: CartLine)
    requires l.quantity >= 0
    ensures LineTotal(l.(quantity := EffectiveQuantity(l.quantity) + 1)) == LineTotal(l) + l.price
    ensures EffectiveQuantity(EffectiveQuantity(l.quantity) + 1) == EffectiveQuantity(l.quantity) + 1
  {
    var e := EffectiveQuantity(l.quantity);
    assert l.price * (e + 1) == l.price * e + l.price;
  }

  /** Adding a product adds one item, priced at the snapshot price of the
      line it lands on: an existing line keeps the price it was created with. */
  lemma AddTotals(cart: seq<CartLine>, game: Product)
    requires forall j :: 0 <= j < |cart| ==> cart[j].quantity >= 0
    ensures TotalItems(AddLine(cart, game)) == TotalItems(cart) + 1
    ensures match LineOf(cart, game.barcode)
      case Some(i) => TotalAmount(AddLine(cart, game)) == TotalAmount(cart) + cart[i].price
      case None => TotalAmount(AddLine(cart, game)) == TotalAmount(cart) + Pricing.CalculateFinalPrice(game.optPrice)
  {
    match LineOf(cart, game.barcode)
    case Some(i) => AddTotalsExisting(cart, game, i);
    case None => AddTotalsNew(cart, game);
  }

  lemma AddTotalsExisting(cart: seq<CartLine>, game: Product, i: nat)
    requires LineOf(cart, game.barcode) == Some(i) && i < |cart| && cart[i].quantity >= 0
    ensures TotalItems(AddLine(cart, game)) == TotalItems(cart) + 1
    ensures TotalAmount(AddLine(cart, game)) == TotalAmount(cart) + cart[i].price
  {
    var l := cart[i].(quantity := EffectiveQuantity(cart[i].quantity) + 1);
    assert AddLine(cart, game) == cart[i := l];
    BumpTotals(cart, i);
  }

  /** One more unit on line `i` adds one item and its snapshot price. */
  lemma BumpTotals(cart: seq<CartLine>, i: nat)
    requires i < |cart| && cart[i].quantity >= 0
    ensures var l := cart[i].(quantity := EffectiveQuantity(cart[i].quantity) + 1);
      && TotalItems(cart[i := l]) == TotalItems(cart) + 1
      && TotalAmount(cart[i := l]) == TotalAmount(cart) + cart[i].price
  {
    var l := cart[i].(quantity := EffectiveQuantity(cart[i].quantity) + 1);
    LineTotalIncrement(cart[i]);
    TotalsUpdate(cart, i, l);
  }

  lemma AddTotalsNew(cart: seq<CartLine>, game: Product)
    requires LineOf(cart, game.barcode) == None
    ensures TotalItems(AddLine(cart, game)) == TotalItems(cart) + 1
    ensures TotalAmount(AddLine(cart, game)) == TotalAmount(cart) + Pricing.CalculateFinalPrice(game.optPrice)
  {
    var l := NewLine(game);
    assert AddLine(cart, game) == cart + [l];
    TotalsConcat(cart, [l]);
    assert [l][..0] == [];
    assert LineTotal(l) == l.price * 1;
  }

  /** Removing a line keeps the others in order; a bad index changes nothing. */
  lemma RemoveAtSpec(cart: seq<CartLine>, index: int)
    ensures 0 <= index < |cart| ==>
      |RemoveAt(cart, index)| == |cart| - 1 &&
      forall j :: 0 <= j < |cart| - 1 ==> RemoveAt(cart, index)[j] == if j < index then cart[j] else cart[j + 1]
    ensures !(0 <= index < |cart|) ==> RemoveAt(cart, index) == cart
  {
  }

  /** Removing a line keeps at most one line per barcode. */
  lemma RemoveKeepsBarcodesUnique(cart: seq<CartLine>, index: int)
    requires UniqueBarcodes(cart)
    ensures UniqueBarcodes(RemoveAt(cart, index))
  {
    RemoveAtSpec(cart, index);
    if 0 <= index < |cart| {
      var r := RemoveAt(cart, index);
      forall a, b | 0 <= a < b < |r| ensures r[a].barcode != r[b].barcode {
        var a' := if a < index then a else a + 1;
        var b' := if b < index then b else b + 1;
        assert r[a] == cart[a'] && r[b] == cart[b'];
      }
    }
  }

  /** Removing a line takes its items and its amount off the totals. */
  lemma RemoveTotals(cart: seq<CartLine>, index: int)
    requires 0 <= index < |cart|
    ensures TotalItems(RemoveAt(cart, index)) == TotalItems(cart) - EffectiveQuantity(cart[index].quantity)
    ensures TotalAmount(RemoveAt(cart, index)) == TotalAmount(cart) - LineTotal(cart[index])
  {
    var pre := cart[..index];
    var post := cart[index + 1..];
    var mid := [cart[index]];
    TotalsConcat(pre, post);
    TotalsConcat(pre, mid);
    TotalsConcat(pre + mid, post);
    TotalsSingle(cart[index]);
    SplitAround(cart, index);
  }

  lemma TotalsSingle(l: CartLine)
    ensures TotalAmount([l]) == LineTotal(l)
    ensures TotalItems([l]) == EffectiveQuantity(l.quantity)
  {
    assert [l][..0] == [];
  }

  lemma SplitAround<T>(s: seq<T>, i: nat)
    requires i < |s|
    ensures s[..i] + [s[i]] + s[i + 1..] == s
  {
  }

  /** `updateCartItem`: an index out of range changes nothing; a quantity that
      would drop below 1 removes the line; otherwise only that line's quantity changes. */
  lemma ChangeQuantitySpec(cart: seq<CartLine>, index: int, change: int)
    ensures !(0 <= index < |cart|) ==> ChangeQuantity(cart, index, change) == cart
    ensures 0 <= index < |cart| && EffectiveQuantity(cart[index].quantity) + change < 1 ==>
      ChangeQuantity(cart, index, change) == RemoveAt(cart, index) &&
      |ChangeQuantity(cart, index, change)| == |cart| - 1
    ensures 0 <= index < |cart| && EffectiveQuantity(cart[index].quantity) + change >= 1 ==>
      var r := ChangeQuantity(cart, index, change);
      && |r| == |cart|
      && r[index].quantity == EffectiveQuantity(cart[index].quantity) + change
      && r[index] == cart[index].(quantity := r[index].quantity)
      && forall j :: 0 <= j < |cart| && j != index ==> r[j] == cart[j]
    ensures forall j :: 0 <= j < |ChangeQuantity(cart, index, change)| ==> ChangeQuantity(cart, index, change)[j].quantity >= 1 || ChangeQuantity(cart, index, change)[j] in cart
    ensures UniqueBarcodes(cart) ==> UniqueBarcodes(ChangeQuantity(cart, index, change))
  {
    RemoveAtSpec(cart, index);
    if UniqueBarcodes(cart) {
      RemoveKeepsBarcodesUnique(cart, index);
    }
    var r := ChangeQuantity(cart, index, change);
    if 0 <= index < |cart| && EffectiveQuantity(cart[index].quantity) + change < 1 {
      forall j | 0 <= j < |r| ensures r[j] in cart {
        assert r[j] == cart[if j < index then j else j + 1];
      }
    }
    if UniqueBarcodes(cart) && 0 <= index < |cart| && EffectiveQuantity(cart[index].quantity) + change >= 1 {
      forall a, b | 0 <= a < b < |r| ensures r[a].barcode != r[b].barcode {
        assert r[a].barcode == cart[a].barcode && r[b].barcode == cart[b].barcode;
      }
    }
  }

  /** A `+` and a `-` on a line with a quantity undo each other. */
  lemma IncrementThenDecrement(cart: seq<CartLine>, index: int)
    requires 0 <= index < |cart| && cart[index].quantity >= 1
    ensures ChangeQuantity(ChangeQuantity(cart, index, 1), index, -1) == cart
  {
    var up := ChangeQuantity(cart, index, 1);
    assert up == cart[index := cart[index].(quantity := cart[index].quantity + 1)];
  }
}
