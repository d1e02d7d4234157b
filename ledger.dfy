/**
 * Stock bookkeeping over values: how much of a product the carts hold, what
 * the catalogue says is left, and the cart and catalogue updates the cart
 * handlers perform, with the lemmas that relate them.
 */
module Ledger {
  import opened Wrappers
  import opened Records

  /** `carts.get(userId)` after a create-if-absent: the user's lines, or none. */
  function CartOf(carts: map<string, seq<LineItem>>, userId: string): seq<LineItem> {
    if userId in carts then carts[userId] else []
  }

  /** Each product appears on at most one line of the cart. */
  predicate DistinctLines(cart: seq<LineItem>) {
    forall i, j :: 0 <= i < j < |cart| ==> cart[i].productId != cart[j].productId
  }

  /** A cart the handlers can work on: distinct lines, each for a product of the catalogue. */
  predicate CartWellFormed(cart: seq<LineItem>, products: seq<Product>) {
    && DistinctLines(cart)
    && forall i :: 0 <= i < |cart| ==> ProductIndex(products, cart[i].productId).Some?
  }

  predicate CartsWellFormed(carts: map<string, seq<LineItem>>, products: seq<Product>) {
    forall k :: k in carts ==> CartWellFormed(carts[k], products)
  }

  /** Two catalogues that differ at most in their stock figures. */
  predicate SameCatalogue(a: seq<Product>, b: seq<Product>) {
    && |a| == |b|
    && forall j :: 0 <= j < |a| ==> a[j].id == b[j].id && a[j].name == b[j].name && a[j].price == b[j].price
  }

  /** Quantity of product `pid` held in one cart: the sum over the lines for it. */
  ghost function CartQty(cart: seq<LineItem>, pid: int): int {
    if cart == [] then 0
    else
      var last := cart[|cart| - 1];
      CartQty(cart[..|cart| - 1], pid) + (if last.productId == pid then last.quantity else 0)
  }

  /** Quantity of product `pid` held across all carts. */
  ghost function Held(carts: map<string, seq<LineItem>>, pid: int): int
    decreases carts.Keys
  {
    if carts == map[] then 0
    else
      var k :| k in carts;
      CartQty(carts[k], pid) + Held(carts - {k}, pid)
  }

  /** The stock the catalogue shows for `pid` (first match), or 0 when no product has that id. */
  ghost function StockOf(products: seq<Product>, pid: int): int {
    match ProductIndex(products, pid)
    case None => 0
    case Some(i) => products[i].stock
  }

  /** What the shop accounts for of product `pid`: the stock on display plus what all carts hold. */
  ghost function Accounted(products: seq<Product>, carts: map<string, seq<LineItem>>, pid: int): int {
    StockOf(products, pid) + Held(carts, pid)
  }

  /**
   * `products.find(p => p.id === pid).stock += delta`. When no product
   * matches, the source throws a TypeError (answered with a 500); here the
   * catalogue is returned unchanged instead. No handler reaches that case:
   * add checks the lookup first, and `Valid()` guarantees it for update,
   * remove and clear.
   */
  function AdjustStock(products: seq<Product>, pid: int, delta: int): (r: seq<Product>)
    ensures SameCatalogue(r, products)
  {
    match ProductIndex(products, pid)
    case None => products
    case Some(i) => products[i := products[i].(stock := products[i].stock + delta)]
  }

  /**
   * Adding `quantity` of `product` to a cart: the existing line for it is
   * incremented (its name and price snapshot stay as they were), or a new
   * line with the product's current name and price is appended.
   */
  function AddLine(cart: seq<LineItem>, product: Product, quantity: int): (r: seq<LineItem>)
    ensures |cart| <= |r| <= |cart| + 1
    ensures forall i :: 0 <= i < |cart| ==>
      r[i].productId == cart[i].productId && r[i].name == cart[i].name && r[i].price == cart[i].price
    ensures forall i :: |cart| <= i < |r| ==> r[i] == LineItem(product.id, product.name, product.price, quantity)
    ensures LineIndex(r, product.id).Some?
  {
    match LineIndex(cart, product.id)
    case Some(li) => cart[li := cart[li].(quantity := cart[li].quantity + quantity)]
    case None =>
      var appended := cart + [LineItem(product.id, product.name, product.price, quantity)];
      assert appended[|cart|].productId == product.id;
      appended
  }

  /** The catalogue after every line of `cart` has had its quantity put back, line by line. */
  ghost function ReleaseAll(products: seq<Product>, cart: seq<LineItem>): (r: seq<Product>)
    ensures SameCatalogue(r, products)
  {
    if cart == [] then products
    else
      var last := cart[|cart| - 1];
      AdjustStock(ReleaseAll(products, cart[..|cart| - 1]), last.productId, last.quantity)
  }

  // ---------------------------------------------------------------------------
  // Catalogue lemmas

  /** Putting back one more line of the cart. */
  lemma ReleaseAllStep(products: seq<Product>, cart: seq<LineItem>, i: nat)
    requires i < |cart|
    ensures ReleaseAll(products, cart[..i + 1]) == AdjustStock(ReleaseAll(products, cart[..i]), cart[i].productId, cart[i].quantity)
  {
    assert cart[..i + 1][..i] == cart[..i];
  }

  /** Lookups by id do not see stock changes. */
  lemma {:induction false} LookupKept(a: seq<Product>, b: seq<Product>, pid: int)
    requires SameCatalogue(a, b)
    ensures ProductIndex(a, pid) == ProductIndex(b, pid)
  {
    if a != [] && a[0].id != pid {
      LookupKept(a[1..], b[1..], pid);
    }
  }

  /** Adjusting one product's stock moves its displayed stock by exactly `delta`, and no other. */
  lemma AdjustStockOf(products: seq<Product>, pid: int, delta: int, x: int)
    ensures StockOf(AdjustStock(products, pid, delta), x)
         == StockOf(products, x) + (if x == pid && ProductIndex(products, pid).Some? then delta else 0)
  {
    LookupKept(AdjustStock(products, pid, delta), products, x);
  }

  /** The same, for a catalogued product, stated about the catalogue after the adjustment. */
  lemma StockMoved(products: seq<Product>, pid: int, delta: int, x: int, products': seq<Product>)
    requires ProductIndex(products, pid).Some?
    requires products' == AdjustStock(products, pid, delta)
    ensures StockOf(products', x) == StockOf(products, x) + (if x == pid then delta else 0)
  {
    AdjustStockOf(products, pid, delta, x);
  }

  /** Only the first product with that id has its stock changed; every other entry is left as it was. */
  lemma AdjustStockFrame(products: seq<Product>, pid: int, delta: int, j: nat)
    requires j < |products|
    ensures var r := AdjustStock(products, pid, delta);
      if ProductIndex(products, pid) == Some(j) then r[j] == products[j].(stock := products[j].stock + delta)
      else r[j] == products[j]
  {
  }

  /** Putting back a cart whose products are all catalogued raises each stock by what the cart held. */
  lemma {:induction false} ReleaseAllStockOf(products: seq<Product>, cart: seq<LineItem>, x: int)
    requires forall i :: 0 <= i < |cart| ==> ProductIndex(products, cart[i].productId).Some?
    ensures StockOf(ReleaseAll(products, cart), x) == StockOf(products, x) + CartQty(cart, x)
  {
    if cart != [] {
      var init, last := cart[..|cart| - 1], cart[|cart| - 1];
      ReleaseAllStockOf(products, init, x);
      var mid := ReleaseAll(products, init);
      LookupKept(mid, products, last.productId);
      AdjustStockOf(mid, last.productId, last.quantity, x);
    }
  }

  lemma CartWellFormedKept(cart: seq<LineItem>, a: seq<Product>, b: seq<Product>)
    requires CartWellFormed(cart, a) && SameCatalogue(b, a)
    ensures CartWellFormed(cart, b)
  {
    forall i | 0 <= i < |cart| ensures ProductIndex(b, cart[i].productId).Some? {
      LookupKept(b, a, cart[i].productId);
    }
  }

  lemma CartsWellFormedUpdate(carts: map<string, seq<LineItem>>, products: seq<Product>, userId: string, cart: seq<LineItem>)
    requires CartsWellFormed(carts, products) && CartWellFormed(cart, products)
    ensures CartsWellFormed(carts[userId := cart], products)
  {
  }

  lemma CartsWellFormedKept(carts: map<string, seq<LineItem>>, a: seq<Product>, b: seq<Product>)
    requires CartsWellFormed(carts, a) && SameCatalogue(b, a)
    ensures CartsWellFormed(carts, b)
  {
    forall k | k in carts ensures CartWellFormed(carts[k], b) {
      CartWellFormedKept(carts[k], a, b);
    }
  }

  /** The product of any line of a well-formed cart is found in the catalogue. */
  lemma LineCatalogued(carts: map<string, seq<LineItem>>, products: seq<Product>, userId: string, i: nat)
    requires CartsWellFormed(carts, products) && userId in carts && i < |carts[userId]|
    ensures ProductIndex(products, carts[userId][i].productId).Some?
  {
    assert CartWellFormed(carts[userId], products);
  }

  // ---------------------------------------------------------------------------
  // Cart lemmas

  lemma {:induction false} CartQtyAbsent(cart: seq<LineItem>, pid: int)
    requires forall i :: 0 <= i < |cart| ==> cart[i].productId != pid
    ensures CartQty(cart, pid) == 0
  {
    if cart != [] {
      CartQtyAbsent(cart[..|cart| - 1], pid);
    }
  }

  /** With distinct lines, a line's quantity is all the cart holds of its product. */
  lemma {:induction false} CartQtyOfLine(cart: seq<LineItem>, i: nat)
    requires DistinctLines(cart) && i < |cart|
    ensures CartQty(cart, cart[i].productId) == cart[i].quantity
  {
    var n := |cart|;
    if i == n - 1 {
      CartQtyAbsent(cart[..n - 1], cart[i].productId);
    } else {
      CartQtyOfLine(cart[..n - 1], i);
    }
  }

  lemma CartQtyAppend(cart: seq<LineItem>, line: LineItem, pid: int)
    ensures CartQty(cart + [line], pid) == CartQty(cart, pid) + (if line.productId == pid then line.quantity else 0)
  {
    assert (cart + [line])[..|cart|] == cart;
  }

  /** Setting one line's quantity changes the cart's holding of that line's product by the difference. */
  lemma {:induction false} CartQtySet(cart: seq<LineItem>, i: nat, q: int, pid: int)
    requires i < |cart|
    ensures CartQty(cart[i := cart[i].(quantity := q)], pid)
         == CartQty(cart, pid) + (if cart[i].productId == pid then q - cart[i].quantity else 0)
  {
    var n := |cart|;
    var updated := cart[i := cart[i].(quantity := q)];
    if i == n - 1 {
      assert updated[..n - 1] == cart[..n - 1];
    } else {
      assert updated[..n - 1] == cart[..n - 1][i := cart[i].(quantity := q)];
      CartQtySet(cart[..n - 1], i, q, pid);
    }
  }

  /** Splicing out line `i` takes exactly that line's quantity off its product's holding. */
  lemma {:induction false} CartQtyRemove(cart: seq<LineItem>, i: nat, pid: int)
    requires i < |cart|
    ensures CartQty(cart[..i] + cart[i + 1..], pid)
         == CartQty(cart, pid) - (if cart[i].productId == pid then cart[i].quantity else 0)
  {
    var n := |cart|;
    var rest := cart[..i] + cart[i + 1..];
    if i == n - 1 {
      assert rest == cart[..n - 1];
    } else {
      var init := cart[..n - 1];
      assert rest[..n - 2] == init[..i] + init[i + 1..];
      assert rest[n - 2] == cart[n - 1];
      CartQtyRemove(init, i, pid);
    }
  }

  /** Adding to a cart raises its holding of that product by exactly the quantity added. */
  lemma AddLineQty(cart: seq<LineItem>, product: Product, quantity: int, pid: int)
    ensures CartQty(AddLine(cart, product, quantity), pid)
         == CartQty(cart, pid) + (if pid == product.id then quantity else 0)
  {
    match LineIndex(cart, product.id)
    case Some(li) =>
      CartQtySet(cart, li, cart[li].quantity + quantity, pid);
    case None =>
      CartQtyAppend(cart, LineItem(product.id, product.name, product.price, quantity), pid);
  }

  /** Adding to a cart leaves every line for another product exactly as it was. */
  lemma AddLineOthers(cart: seq<LineItem>, product: Product, quantity: int, i: nat)
    requires i < |cart| && cart[i].productId != product.id
    ensures AddLine(cart, product, quantity)[i] == cart[i]
  {
  }

  /** Adding to a cart never creates a second line for a product. */
  lemma AddLineDistinct(cart: seq<LineItem>, product: Product, quantity: int)
    requires DistinctLines(cart)
    ensures DistinctLines(AddLine(cart, product, quantity))
  {
  }

  lemma AddLineWellFormed(cart: seq<LineItem>, products: seq<Product>, product: Product, quantity: int)
    requires CartWellFormed(cart, products) && ProductIndex(products, product.id).Some?
    ensures CartWellFormed(AddLine(cart, product, quantity), products)
  {
    AddLineDistinct(cart, product, quantity);
  }

  lemma SetQuantityWellFormed(cart: seq<LineItem>, products: seq<Product>, i: nat, q: int)
    requires CartWellFormed(cart, products) && i < |cart|
    ensures CartWellFormed(cart[i := cart[i].(quantity := q)], products)
  {
  }

  lemma RemoveWellFormed(cart: seq<LineItem>, products: seq<Product>, i: nat)
    requires CartWellFormed(cart, products) && i < |cart|
    ensures CartWellFormed(cart[..i] + cart[i + 1..], products)
  {
    var rest := cart[..i] + cart[i + 1..];
    assert forall a :: 0 <= a < |rest| ==> rest[a] == cart[if a < i then a else a + 1];
  }

  // ---------------------------------------------------------------------------
  // Lemmas about the sum over all carts

  /** The holding across all carts is any one cart's holding plus that of the others. */
  lemma {:induction false} HeldRemove(carts: map<string, seq<LineItem>>, k: string, pid: int)
    requires k in carts
    ensures Held(carts, pid) == CartQty(carts[k], pid) + Held(carts - {k}, pid)
    decreases carts.Keys
  {
    var j :| j in carts && Held(carts, pid) == CartQty(carts[j], pid) + Held(carts - {j}, pid);
    if j != k {
      HeldRemove(carts - {j}, k, pid);
      HeldRemove(carts - {k}, j, pid);
      assert carts - {j} - {k} == carts - {k} - {j};
    }
  }

  /** Replacing (or creating) one cart changes the holding across all carts by that cart's difference. */
  lemma HeldUpdate(carts: map<string, seq<LineItem>>, k: string, cart: seq<LineItem>, pid: int)
    ensures Held(carts[k := cart], pid) == Held(carts, pid) - CartQty(CartOf(carts, k), pid) + CartQty(cart, pid)
  {
    HeldRemove(carts[k := cart], k, pid);
    assert carts[k := cart] - {k} == carts - {k};
    if k in carts {
      HeldRemove(carts, k, pid);
    } else {
      assert carts - {k} == carts;
    }
  }

  // ---------------------------------------------------------------------------
  // Conservation: each cart operation moves quantity between stock and carts.
  // Each lemma takes the state before (products, carts) and after (products', carts').

  /** Creating an empty cart accounts for the same quantities. */
  lemma EmptyCartBalances(products: seq<Product>, carts: map<string, seq<LineItem>>, userId: string,
                          carts': map<string, seq<LineItem>>)
    requires userId !in carts && carts' == carts[userId := []]
    ensures forall x :: Accounted(products, carts', x) == Accounted(products, carts, x)
  {
    forall x ensures Accounted(products, carts', x) == Accounted(products, carts, x) {
      HeldUpdate(carts, userId, [], x);
    }
  }

  /** Adding to one cart raises the holding across all carts by exactly the quantity added. */
  lemma HeldAddLine(carts: map<string, seq<LineItem>>, userId: string, product: Product, quantity: int, x: int,
                    carts': map<string, seq<LineItem>>)
    requires carts' == carts[userId := AddLine(CartOf(carts, userId), product, quantity)]
    ensures Held(carts', x) == Held(carts, x) + (if x == product.id then quantity else 0)
  {
    var cart := CartOf(carts, userId);
    var added := AddLine(cart, product, quantity);
    HeldUpdate(carts, userId, added, x);
    AddLineQty(cart, product, quantity, x);
  }

  /** Taking `quantity` of a catalogued product off the stock and into a cart. */
  lemma AddBalances(products: seq<Product>, carts: map<string, seq<LineItem>>, userId: string, product: Product,
                    quantity: int, products': seq<Product>, carts': map<string, seq<LineItem>>)
    requires ProductIndex(products, product.id).Some?
    requires products' == AdjustStock(products, product.id, -quantity)
    requires carts' == carts[userId := AddLine(CartOf(carts, userId), product, quantity)]
    ensures forall x :: Accounted(products', carts', x) == Accounted(products, carts, x)
  {
    forall x ensures Accounted(products', carts', x) == Accounted(products, carts, x) {
      StockMoved(products, product.id, -quantity, x, products');
      HeldAddLine(carts, userId, product, quantity, x, carts');
    }
  }

  /** Setting line `i` of a cart to `quantity` while the stock pays the difference. */
  lemma SetQuantityBalances(products: seq<Product>, carts: map<string, seq<LineItem>>, userId: string, i: nat,
                            quantity: int, products': seq<Product>, carts': map<string, seq<LineItem>>)
    requires userId in carts && i < |carts[userId]|
    requires ProductIndex(products, carts[userId][i].productId).Some?
    requires products' == AdjustStock(products, carts[userId][i].productId, -(quantity - carts[userId][i].quantity))
    requires carts' == carts[userId := carts[userId][i := carts[userId][i].(quantity := quantity)]]
    ensures forall x :: Accounted(products', carts', x) == Accounted(products, carts, x)
  {
    var cart, pid := carts[userId], carts[userId][i].productId;
    var diff := quantity - cart[i].quantity;
    forall x ensures Accounted(products', carts', x) == Accounted(products, carts, x) {
      var moved := if x == pid then diff else 0;
      assert StockOf(products', x) == StockOf(products, x) - moved by {
        StockMoved(products, pid, -diff, x, products');
      }
      assert Held(carts', x) == Held(carts, x) + moved by {
        HeldUpdate(carts, userId, cart[i := cart[i].(quantity := quantity)], x);
        CartQtySet(cart, i, quantity, x);
      }
    }
  }

  /** Splicing line `i` out of a cart and putting its quantity back on the stock. */
  lemma RemoveBalances(products: seq<Product>, carts: map<string, seq<LineItem>>, userId: string, i: nat,
                       products': seq<Product>, carts': map<string, seq<LineItem>>)
    requires userId in carts && i < |carts[userId]|
    requires ProductIndex(products, carts[userId][i].productId).Some?
    requires products' == AdjustStock(products, carts[userId][i].productId, carts[userId][i].quantity)
    requires carts' == carts[userId := carts[userId][..i] + carts[userId][i + 1..]]
    ensures forall x :: Accounted(products', carts', x) == Accounted(products, carts, x)
  {
    var cart := carts[userId];
    var pid := cart[i].productId;
    forall x ensures Accounted(products', carts', x) == Accounted(products, carts, x) {
      var moved := if x == pid then cart[i].quantity else 0;
      assert StockOf(products', x) == StockOf(products, x) + moved by {
        StockMoved(products, pid, cart[i].quantity, x, products');
      }
      assert Held(carts', x) == Held(carts, x) - moved by {
        HeldUpdate(carts, userId, cart[..i] + cart[i + 1..], x);
        CartQtyRemove(cart, i, x);
      }
    }
  }

  /** Emptying a well-formed cart and putting every line's quantity back on the stock. */
  lemma ClearBalances(products: seq<Product>, carts: map<string, seq<LineItem>>, userId: string,
                      products': seq<Product>, carts': map<string, seq<LineItem>>)
    requires CartsWellFormed(carts, products) && userId in carts
    requires products' == ReleaseAll(products, carts[userId])
    requires carts' == carts[userId := []]
    ensures forall x :: StockOf(products', x) == StockOf(products, x) + CartQty(carts[userId], x)
    ensures forall x :: Accounted(products', carts', x) == Accounted(products, carts, x)
  {
    var cart := carts[userId];
    assert CartWellFormed(cart, products);
    forall x ensures StockOf(products', x) == StockOf(products, x) + CartQty(cart, x)
                  && Accounted(products', carts', x) == Accounted(products, carts, x) {
      assert StockOf(products', x) == StockOf(products, x) + CartQty(cart, x) by {
        ReleaseAllStockOf(products, cart, x);
      }
      assert Held(carts', x) == Held(carts, x) - CartQty(cart, x) by {
        HeldUpdate(carts, userId, [], x);
      }
    }
  }
}
