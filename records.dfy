/**
 * The records held by the shop's in-memory store, the first-match lookups the
 * handlers use on them (Array.prototype.find / findIndex), and JavaScript
 * truthiness of request-body fields.
 */
module Records {
  import opened Wrappers

  /** A registered user. */
  datatype User = User(id: int, name: string, email: string)

  /** A catalogue entry. The price is an opaque snapshot value: it is copied, never computed with. */
  datatype Product = Product(id: int, name: string, price: real, stock: int)

  /** One line of a cart, with the product's name and price as they were when the line was created. */
  datatype LineItem = LineItem(productId: int, name: string, price: real, quantity: int)

  /** The HTTP status a handler answers with: 200, 201, 400 and 404 respectively. */
  datatype Status = Ok | Created | BadRequest | NotFound

  /** `if (!s)` on a body field that is a string: absent and "" are falsy. */
  predicate TruthyText(s: Option<string>) {
    s.Some? && s.value != ""
  }

  /** `if (!n)` on a body field that is a number: absent and 0 are falsy. */
  predicate TruthyNumber(n: Option<int>) {
    n.Some? && n.value != 0
  }

  /**
   * `s.findIndex(e => key(e) === id)`: the index of the first element whose
   * key is `id`, or None when no element has it.
   */
  function FirstIndex<T>(s: seq<T>, key: T -> int, id: int): (r: Option<nat>)
    ensures r.Some? ==> r.value < |s| && key(s[r.value]) == id
    ensures r.Some? ==> forall j :: 0 <= j < r.value ==> key(s[j]) != id
    ensures r.None? ==> forall j :: 0 <= j < |s| ==> key(s[j]) != id
  {
    if s == [] then None
    else if key(s[0]) == id then Some(0)
    else match FirstIndex(s[1..], key, id)
      case None => None
      case Some(i) => Some(i + 1)
  }

  /** `users.findIndex(u => u.id === id)`: the first user with that id. */
  function UserIndex(users: seq<User>, id: int): (r: Option<nat>)
    ensures r.Some? ==> r.value < |users| && users[r.value].id == id
    ensures r.Some? ==> forall j :: 0 <= j < r.value ==> users[j].id != id
    ensures r.None? ==> forall j :: 0 <= j < |users| ==> users[j].id != id
  {
    FirstIndex(users, (e: User) => e.id, id)
  }

  /** `products.find(p => p.id === id)`, as the index of the first product with that id. */
  function ProductIndex(products: seq<Product>, id: int): (r: Option<nat>)
    ensures r.Some? ==> r.value < |products| && products[r.value].id == id
    ensures r.Some? ==> forall j :: 0 <= j < r.value ==> products[j].id != id
    ensures r.None? ==> forall j :: 0 <= j < |products| ==> products[j].id != id
  {
    FirstIndex(products, (e: Product) => e.id, id)
  }

  /** `cart.findIndex(item => item.productId === productId)`: the first line for that product. */
  function LineIndex(cart: seq<LineItem>, productId: int): (r: Option<nat>)
    ensures r.Some? ==> r.value < |cart| && cart[r.value].productId == productId
    ensures r.Some? ==> forall j :: 0 <= j < r.value ==> cart[j].productId != productId
    ensures r.None? ==> forall j :: 0 <= j < |cart| ==> cart[j].productId != productId
  {
    FirstIndex(cart, (e: LineItem) => e.productId, productId)
  }
}
