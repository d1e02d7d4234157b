/**
 * The shop's process-wide state and its HTTP handlers. Each handler is one
 * synchronous read-check-mutate step that answers with a status code; only
 * the status and the resulting state are modelled, not the JSON bodies.
 */
module Shop {
  import opened Wrappers
  import opened Records
  import opened Ledger

  /**
   * The catalogue as seeded, except that product 1's stock is a parameter.
   * The store always starts from `SeedProducts(10)`; the parameter only lets
   * the walkthrough name the catalogue after product 1's stock has moved.
   */
  function SeedProducts(stock1: int): seq<Product> {
    [Product(1, "Produit 1", 29.99, stock1), Product(2, "Produit 2", 39.99, 5), Product(3, "Produit 3", 49.99, 8)]
  }

  class Store {
    /** The user directory, in insertion order. */
    var users: seq<User>
    /** The product catalogue, in insertion order. Nothing removes or adds products. */
    var products: seq<Product>
    /** Carts by the user id string taken from the request path. */
    var carts: map<string, seq<LineItem>>

    /** Every cart has one line per product, and every line's product is in the catalogue. */
    ghost predicate Valid()
      reads this
    {
      CartsWellFormed(carts, products)
    }

    /** What the shop accounts for of a product: the stock on display plus what all carts hold. */
    ghost function Inventory(pid: int): int
      reads this
    {
      Accounted(products, carts, pid)
    }

    /** The seeded directory and catalogue, and no carts. */
    constructor ()
      ensures Valid()
      ensures users == [User(1, "User 1", "user1@example.com"), User(2, "User 2", "user2@example.com")]
      ensures products == SeedProducts(10)
      ensures carts == map[]
    {
      users := [User(1, "User 1", "user1@example.com"), User(2, "User 2", "user2@example.com")];
      products := SeedProducts(10);
      carts := map[];
    }

    // -------------------------------------------------------------------------
    // Users

    /** GET /api/users */
    method ListUsers() returns (status: Status, list: seq<User>)
      ensures status == Ok && list == users
    {
      return Ok, users;
    }

    /** GET /api/users/:id */
    method GetUser(id: int) returns (status: Status, user: Option<User>)
      ensures status == NotFound <==> forall j :: 0 <= j < |users| ==> users[j].id != id
      ensures status == NotFound ==> user == None
      ensures status != NotFound ==> status == Ok && user.Some? && user.value in users && user.value.id == id
      ensures status != NotFound ==> user == Some(users[UserIndex(users, id).value])
    {
      var i := UserIndex(users, id);
      if i.None? {
        return NotFound, None;
      }
      return Ok, Some(users[i.value]);
    }

    /** POST /api/users: the new id is the directory's length plus one. */
    method CreateUser(name: Option<string>, email: Option<string>) returns (status: Status)
      requires Valid()
      modifies this
      ensures Valid()
      ensures !TruthyText(name) || !TruthyText(email) ==> status == BadRequest && unchanged(this)
      ensures TruthyText(name) && TruthyText(email) ==>
        && status == Created
        && users == old(users) + [User(|old(users)| + 1, name.value, email.value)]
        && products == old(products) && carts == old(carts)
    {
      if !TruthyText(name) || !TruthyText(email) {
        return BadRequest;
      }
      var created := User(|users| + 1, name.value, email.value);
      users := users + [created];
      status := Created;
    }

    /** PUT /api/users/:id: only the fields given with a truthy value are overwritten. */
    method UpdateUser(id: int, name: Option<string>, email: Option<string>) returns (status: Status)
      requires Valid()
      modifies this
      ensures Valid()
      ensures UserIndex(old(users), id).None? ==> status == NotFound && unchanged(this)
      ensures UserIndex(old(users), id).Some? ==>
        var i := UserIndex(old(users), id).value;
        var was := old(users)[i];
        && status == Ok
        && users == old(users)[i := User(was.id, if TruthyText(name) then name.value else was.name,
                                                 if TruthyText(email) then email.value else was.email)]
        && products == old(products) && carts == old(carts)
    {
      var i := UserIndex(users, id);
      if i.None? {
        return NotFound;
      }
      var user := users[i.value];
      if TruthyText(name) {
        user := user.(name := name.value);
      }
      if TruthyText(email) {
        user := user.(email := email.value);
      }
      users := users[i.value := user];
      status := Ok;
    }

    /** DELETE /api/users/:id: the first user with that id is spliced out. */
    method DeleteUser(id: int) returns (status: Status)
      requires Valid()
      modifies this
      ensures Valid()
      ensures UserIndex(old(users), id).None? ==> status == NotFound && unchanged(this)
      ensures UserIndex(old(users), id).Some? ==>
        var i := UserIndex(old(users), id).value;
        && status == Ok
        && users == old(users)[..i] + old(users)[i + 1..]
        && products == old(products) && carts == old(carts)
    {
      var i := UserIndex(users, id);
      if i.None? {
        return NotFound;
      }
      users := users[..i.value] + users[i.value + 1..];
      status := Ok;
    }

    // -------------------------------------------------------------------------
    // Catalogue and carts

    /** GET /api/products */
    method ListProducts() returns (status: Status, list: seq<Product>)
      ensures status == Ok && list == products
    {
      return Ok, products;
    }

    /** GET /api/cart/:userId: a missing cart is created empty; the lines are returned. */
    method ViewCart(userId: string) returns (status: Status, items: seq<LineItem>)
      requires Valid()
      modifies this
      ensures Valid()
      ensures status == Ok && items == CartOf(old(carts), userId)
      ensures carts == old(carts)[userId := CartOf(old(carts), userId)]
      ensures users == old(users) && products == old(products)
      ensures forall x :: Inventory(x) == old(Inventory(x))
    {
      ghost var cs0 := carts;
      if userId !in carts {
        carts := carts[userId := []];
      }
      items := carts[userId];
      status := Ok;
      assert carts == cs0[userId := CartOf(cs0, userId)];
      if userId !in cs0 {
        EmptyCartBalances(products, cs0, userId, carts);
      }
    }

    /**
     * POST /api/cart/:userId/add. The quantity defaults to 1. All three checks
     * come before the cart is created, so a refused request changes nothing.
     */
    method AddToCart(userId: string, productId: Option<int>, quantity: Option<int>) returns (status: Status)
      requires Valid()
      modifies this
      ensures Valid()
      ensures
        if !TruthyNumber(productId) then status == BadRequest && unchanged(this)
        else if ProductIndex(old(products), productId.value).None? then status == NotFound && unchanged(this)
        else
          var pid, q := productId.value, quantity.GetOr(1);
          var product := old(products)[ProductIndex(old(products), pid).value];
          if product.stock < q then status == BadRequest && unchanged(this)
          else
            && status == Ok
            && users == old(users)
            && products == AdjustStock(old(products), pid, -q)
            && carts == old(carts)[userId := AddLine(CartOf(old(carts), userId), product, q)]
      ensures forall x :: Inventory(x) == old(Inventory(x))
    {
      if !TruthyNumber(productId) {
        return BadRequest;
      }
      var pid := productId.value;
      var q := quantity.GetOr(1);
      var pi := ProductIndex(products, pid);
      if pi.None? {
        return NotFound;
      }
      var product := products[pi.value];
      if product.stock < q {
        return BadRequest;
      }
      ghost var ps0, cs0 := products, carts;
      // a missing cart starts out empty; it is stored below together with the new line
      var cart := CartOf(carts, userId);
      ghost var added := AddLine(cart, product, q);
      var li := LineIndex(cart, pid);
      if li.Some? {
        cart := cart[li.value := cart[li.value].(quantity := cart[li.value].quantity + q)];
      } else {
        cart := cart + [LineItem(pid, product.name, product.price, q)];
      }
      assert cart == added;
      carts := carts[userId := cart];
      products := AdjustStock(products, pid, -q);
      status := Ok;

      assert Valid() by {
        AddLineWellFormed(CartOf(cs0, userId), ps0, product, q);
        CartsWellFormedUpdate(cs0, ps0, userId, cart);
        CartsWellFormedKept(carts, ps0, products);
      }
      assert forall x :: Inventory(x) == Accounted(ps0, cs0, x) by {
        AddBalances(ps0, cs0, userId, product, q, products, carts);
      }
    }

    /**
     * PUT /api/cart/:userId/update. The line's quantity is set outright; the
     * stock pays for an increase and takes back a decrease. Zero and negative
     * quantities are accepted.
     */
    method UpdateCartItem(userId: string, productId: Option<int>, quantity: int) returns (status: Status)
      requires Valid()
      modifies this
      ensures Valid()
      ensures
        if userId !in old(carts) || productId.None? || LineIndex(old(carts)[userId], productId.value).None? then
          status == NotFound && unchanged(this)
        else
          var pid, cart := productId.value, old(carts)[userId];
          var li := LineIndex(cart, pid).value;
          var diff := quantity - cart[li].quantity;
          if diff > 0 && StockOf(old(products), pid) < diff then status == BadRequest && unchanged(this)
          else
            && status == Ok
            && users == old(users)
            && products == AdjustStock(old(products), pid, -diff)
            && carts == old(carts)[userId := cart[li := cart[li].(quantity := quantity)]]
      ensures forall x :: Inventory(x) == old(Inventory(x))
    {
      if userId !in carts {
        return NotFound;
      }
      var cart := carts[userId];
      if productId.None? {
        return NotFound;
      }
      var pid := productId.value;
      var li := LineIndex(cart, pid);
      if li.None? {
        return NotFound;
      }
      // the line's product is catalogued, so the lookup below cannot fail
      LineCatalogued(carts, products, userId, li.value);
      var pi := ProductIndex(products, pid);
      var product := products[pi.value];
      var diff := quantity - cart[li.value].quantity;
      if diff > 0 && product.stock < diff {
        return BadRequest;
      }
      ghost var ps0, cs0 := products, carts;
      products := AdjustStock(products, pid, -diff);
      cart := cart[li.value := cart[li.value].(quantity := quantity)];
      carts := carts[userId := cart];
      status := Ok;

      assert Valid() by {
        SetQuantityWellFormed(cs0[userId], ps0, li.value, quantity);
        CartsWellFormedUpdate(cs0, ps0, userId, cart);
        CartsWellFormedKept(carts, ps0, products);
      }
      assert forall x :: Inventory(x) == Accounted(ps0, cs0, x) by {
        SetQuantityBalances(ps0, cs0, userId, li.value, quantity, products, carts);
      }
    }

    /** DELETE /api/cart/:userId/remove/:productId: the line's quantity goes back to stock. */
    method RemoveFromCart(userId: string, productId: int) returns (status: Status)
      requires Valid()
      modifies this
      ensures Valid()
      ensures
        if userId !in old(carts) || LineIndex(old(carts)[userId], productId).None? then
          status == NotFound && unchanged(this)
        else
          var cart := old(carts)[userId];
          var li := LineIndex(cart, productId).value;
          && status == Ok
          && users == old(users)
          && products == AdjustStock(old(products), productId, cart[li].quantity)
          && carts == old(carts)[userId := cart[..li] + cart[li + 1..]]
      ensures forall x :: Inventory(x) == old(Inventory(x))
    {
      if userId !in carts {
        return NotFound;
      }
      var cart := carts[userId];
      var li := LineIndex(cart, productId);
      if li.None? {
        return NotFound;
      }
      var removed := cart[li.value];
      // the line's product is catalogued, so the lookup below cannot fail
      LineCatalogued(carts, products, userId, li.value);
      assert ProductIndex(products, productId).Some?;
      ghost var ps0, cs0 := products, carts;
      products := AdjustStock(products, productId, removed.quantity);
      cart := cart[..li.value] + cart[li.value + 1..];
      carts := carts[userId := cart];
      status := Ok;

      assert Valid() by {
        RemoveWellFormed(cs0[userId], ps0, li.value);
        CartsWellFormedUpdate(cs0, ps0, userId, cart);
        CartsWellFormedKept(carts, ps0, products);
      }
      assert forall x :: Inventory(x) == Accounted(ps0, cs0, x) by {
        RemoveBalances(ps0, cs0, userId, li.value, products, carts);
      }
    }

    /**
     * DELETE /api/cart/:userId/clear: every line's quantity goes back to its
     * product's stock, then the cart is replaced by an empty one.
     */
    method ClearCart(userId: string) returns (status: Status)
      requires Valid()
      modifies this
      ensures Valid()
      ensures
        if userId !in old(carts) then status == NotFound && unchanged(this)
        else
          && status == Ok
          && users == old(users)
          && products == ReleaseAll(old(products), old(carts)[userId])
          && carts == old(carts)[userId := []]
      ensures userId in old(carts) ==>
        forall x :: StockOf(products, x) == old(StockOf(products, x)) + CartQty(old(carts)[userId], x)
      ensures forall x :: Inventory(x) == old(Inventory(x))
    {
      if userId !in carts {
        return NotFound;
      }
      var cart := carts[userId];
      ghost var ps0, cs0 := products, carts;
      var i := 0;
      while i < |cart|
        invariant 0 <= i <= |cart|
        invariant products == ReleaseAll(ps0, cart[..i])
        invariant carts == cs0 && users == old(users)
      {
        var item := cart[i];
        // the line's product is catalogued, so the lookup cannot fail
        LineCatalogued(cs0, ps0, userId, i);
        LookupKept(products, ps0, item.productId);
        assert ProductIndex(products, item.productId).Some?;
        products := AdjustStock(products, item.productId, item.quantity);
        ReleaseAllStep(ps0, cart, i);
        i := i + 1;
      }
      assert cart[..i] == cart;
      carts := carts[userId := []];
      status := Ok;

      CartsWellFormedUpdate(cs0, ps0, userId, []);
      CartsWellFormedKept(carts, ps0, products);
      ClearBalances(ps0, cs0, userId, products, carts);
    }
  }

  // ---------------------------------------------------------------------------
  // Client walkthroughs: what a caller can conclude from the contracts alone.

  /** Product 1 starts at stock 10: adding 3 leaves 7, raising the line to 5 leaves 5, removing it gives 10 back. */
  method StockWalkthrough() {
    var store := new Store();
    var status := store.AddToCart("u1", Some(1), Some(3));
    assert status == Ok;
    assert store.products == SeedProducts(7);
    assert store.carts["u1"] == [LineItem(1, "Produit 1", 29.99, 3)];

    status := store.UpdateCartItem("u1", Some(1), 5);
    assert status == Ok;
    assert store.products == SeedProducts(5);
    assert store.carts["u1"] == [LineItem(1, "Produit 1", 29.99, 5)];

    status := store.RemoveFromCart("u1", 1);
    assert status == Ok;
    assert store.products == SeedProducts(10);
    assert store.carts["u1"] == [];
  }

  /**
   * Removing a line and adding the same quantity back leaves that product's
   * stock where it was. The stock must not be negative to begin with: the
   * source lets stock go below zero (an update to a negative quantity
   * releases more than was taken), and from a stock of -3 a line of 8 put
   * back gives 5, which then refuses the re-add of 8 as insufficient stock.
   */
  method RemoveReAddRoundTrip(store: Store, userId: string, pid: int) returns (removed: Status, added: Status)
    requires store.Valid()
    requires pid != 0 && userId in store.carts && LineIndex(store.carts[userId], pid).Some?
    requires StockOf(store.products, pid) >= 0
    modifies store
    ensures removed == Ok && added == Ok
    ensures StockOf(store.products, pid) == old(StockOf(store.products, pid))
    ensures forall x :: store.Inventory(x) == old(store.Inventory(x))
  {
    ghost var ps0 := store.products;
    var q := store.carts[userId][LineIndex(store.carts[userId], pid).value].quantity;
    LineCatalogued(store.carts, store.products, userId, LineIndex(store.carts[userId], pid).value);
    removed := store.RemoveFromCart(userId, pid);
    ghost var ps1 := store.products;
    StockMoved(ps0, pid, q, pid, ps1);
    LookupKept(ps1, ps0, pid);
    added := store.AddToCart(userId, Some(pid), Some(q));
    StockMoved(ps1, pid, -q, pid, store.products);
  }

  /** Adding more than is in stock is refused and leaves everything as it was. */
  method OverdrawWalkthrough() {
    var store := new Store();
    assert ProductIndex(store.products, 2) == Some(1);
    var status := store.AddToCart("u1", Some(2), Some(6));
    assert status == BadRequest && store.carts == map[];
  }

  /** Ids are the directory length plus one, so a delete can lead to a duplicate id. */
  method DuplicateIdWalkthrough() {
    var store := new Store();
    var status := store.DeleteUser(1);
    assert status == Ok && store.users == [User(2, "User 2", "user2@example.com")];
    status := store.CreateUser(Some("User 3"), Some("user3@example.com"));
    assert status == Created;
    assert store.users[0].id == store.users[1].id == 2;
  }
}
