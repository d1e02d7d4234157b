# Shop store and cart bookkeeping

A model of the in-memory backend in `server.js`. The process-wide state is
three collections:

- `users`, an ordered list of `{id, name, email}`;
- `products`, an ordered list of `{id, name, price, stock}`;
- `carts`, a map from the user id string in the request path to an ordered
  list of line items `{productId, name, price, quantity}`.

Each route handler is one synchronous read-check-mutate step with early
400/404 exits. In the model each one is a method of the class `Shop.Store`,
whose fields are those three collections. A method returns the status code
the handler answers with. Its contract states the whole new state on every
path.

Files:

- `wrappers.dfy`: the `Option` type. An absent request-body field is `None`.
- `records.dfy`: the records, the status codes, JavaScript truthiness of
  body fields, and the first-match lookup `FirstIndex`, which models `find`
  and `findIndex`. `TruthyText` is `!name` and `if (name)` on a string field
  (server.js:53, 73-74): absent and the empty string are falsy.
  `TruthyNumber` is `!productId` (server.js:115): absent and 0 are falsy. `UserIndex`, `ProductIndex` and `LineIndex` apply it to
  users by id, products by id and cart lines by product id.
- `ledger.dfy`: the bookkeeping as values. It holds the cart and catalogue
  updates the handlers make (`AddLine`, `AdjustStock`, `ReleaseAll`).
  `CartOf` is `carts.get(userId)` after create-if-absent (server.js:97-100,
  128-132): the user's lines, or none when there is no cart.
  `CartQty` is what one cart holds of a product, and `Held` is the sum over
  all carts. `StockOf` is the stock the catalogue shows. The lemmas relating
  them are here too.
- `store.dfy`: the `Store` class, one method per handler, and some client
  methods. The client methods replay request sequences using only the
  contracts: add 3, raise to 5 and remove on a fresh store
  (`StockWalkthrough`), an overdraw that is refused, a delete followed by a
  create, and, for any cart line, a remove followed by re-adding the same
  quantity (`RemoveReAddRoundTrip`).

Two properties are proved for every cart handler:

- **Stock conservation.** `Inventory(x)` is the stock of product `x` plus
  what all carts hold of it. Every cart handler leaves `Inventory(x)` the
  same for every `x`. This holds on success and on error.
- **The invariant `Valid()`.** In every cart, a product id appears on at
  most one line, and every line's product is found in the catalogue. Every
  handler preserves it. Because of it, the product lookups in update,
  remove and clear can never fail, so their 500 paths cannot be reached.

Every refused request leaves the whole store unchanged (`unchanged(this)`).
This includes add-to-cart, which refuses before it creates a cart.

The user id is the directory length plus one. So a delete followed by a
create can produce two users with the same id. `DuplicateIdWalkthrough`
derives this from the contracts. The model keeps this behaviour, as the
code does.

## Model

| member | source | states |
|---|---|---|
| Records.FirstIndex | server.js:81 | the first index whose element has the key; when none, no element has it |
| Records.UserIndex | server.js:44 | the first index whose user has the id; when none, no user has it |
| Records.ProductIndex | server.js:119 | the first index whose product has the id; when none, no product has it |
| Records.LineIndex | server.js:133 | the first cart line for the product id; when none, no line is for it |
| Shop.Store.constructor | server.js:22-34 | the two seeded users, the three seeded products with stocks 10, 5 and 8, no carts, and the invariant holds |
| Shop.Store.ListUsers | server.js:38-40 | answers 200 with the directory as it is, changing nothing |
| Shop.Store.GetUser | server.js:43-47 | 404 exactly when no user has the id; otherwise 200 with the first user that has it |
| Shop.Store.CreateUser | server.js:50-65 | 400 and no change when the name or email is absent or empty; otherwise 201 and the directory gains `{id: old length + 1, name, email}` at the end |
| Shop.Store.UpdateUser | server.js:68-77 | 404 and no change for an unknown id; otherwise only the first matching user changes, and only in the fields given non-empty |
| Shop.Store.DeleteUser | server.js:80-86 | 404 and no change for an unknown id; otherwise exactly the first matching user is spliced out, order kept |
| Shop.Store.ListProducts | server.js:90-92 | answers 200 with the catalogue as it is, changing nothing |
| Shop.Store.ViewCart | server.js:95-108 | returns the user's lines (none if there was no cart) and creates an empty cart if missing; stock and holdings are unchanged |
| Shop.Store.AddToCart | server.js:111-152 | 400 for a missing or zero productId, 404 for an unknown product, 400 when the stock is below the quantity (default 1), each changing nothing; otherwise the stock drops by the quantity and the cart gains it; conservation and the invariant hold |
| Shop.Store.UpdateCartItem | server.js:155-184 | 404 and no change without a cart or a line for the product; 400 and no change when the increase exceeds the stock; otherwise the line's quantity is set and the stock moves by minus the difference; conservation and the invariant hold |
| Shop.Store.RemoveFromCart | server.js:187-212 | 404 and no change without a cart or a line for the product; otherwise the line's quantity goes back to stock and exactly that line is spliced out, order kept; conservation and the invariant hold |
| Shop.Store.ClearCart | server.js:215-234 | 404 and no change without a cart; otherwise each product's stock rises by what that cart held of it, the cart becomes empty, other carts are untouched; conservation and the invariant hold |
| Shop.RemoveReAddRoundTrip | server.js:187-212 | for any cart line, removing it and adding the same quantity back both answer 200, and the product's stock ends where it began, provided it was not negative |
| Ledger.AdjustStock | server.js:146 | changes only stock figures: ids, names and prices of the catalogue are kept |
| Ledger.AdjustStockFrame | server.js:203-204 | only the first product with the id changes, and only its stock, by the delta given; every other entry is left as it was |
| Ledger.AdjustStockOf | server.js:177 | the stock shown for the adjusted product moves by the delta, and the stock of every other id does not move |
| Ledger.StockMoved | server.js:146 | for a catalogued product, the stock after the adjustment is the stock before plus the delta for that id, and the same for every other id |
| Ledger.AddLine | server.js:133-144 | the cart grows by at most one line; existing lines keep product, name and price; any new line is `{productId, product name, product price, quantity}`; afterwards a line for the product exists |
| Ledger.AddLineOthers | server.js:133-136 | lines for other products are left exactly as they were |
| Ledger.AddLineQty | server.js:135-143 | the cart's holding of the product rises by exactly the quantity, and its holding of any other product does not change |
| Ledger.AddLineDistinct | server.js:133-144 | adding never creates a second line for a product already in the cart |
| Ledger.AddLineWellFormed | server.js:133-144 | adding a catalogued product keeps the cart well formed |
| Ledger.ReleaseAll | server.js:223-226 | putting every line back changes only stock figures |
| Ledger.ReleaseAllStep | server.js:223-226 | the loop puts back one line at a time, in cart order |
| Ledger.ReleaseAllStockOf | server.js:223-226 | releasing a cart whose products are catalogued raises each stock by exactly what the cart held of it |
| Ledger.LookupKept | server.js:224 | stock changes do not affect which product a lookup by id finds |
| Ledger.CartWellFormedKept | server.js:177 | a cart stays well formed when only stock figures change |
| Ledger.CartsWellFormedUpdate | server.js:228 | storing a well-formed cart keeps every cart well formed |
| Ledger.CartsWellFormedKept | server.js:204 | all carts stay well formed when only stock figures change |
| Ledger.LineCatalogued | server.js:170 | under the invariant, the product of any cart line is found in the catalogue, so the lookups in update, remove and clear succeed |
| Ledger.CartQtyAbsent | server.js:164 | a cart with no line for a product holds none of it |
| Ledger.CartQtyOfLine | server.js:202-204 | with distinct lines, a line's quantity is all the cart holds of that product |
| Ledger.CartQtyAppend | server.js:138-143 | appending a line adds its quantity to its product's holding, and nothing to the others |
| Ledger.CartQtySet | server.js:178 | setting a line's quantity changes that product's holding by the difference, and no other product's |
| Ledger.CartQtyRemove | server.js:206 | splicing out a line takes its quantity off its product's holding, and nothing off the others |
| Ledger.SetQuantityWellFormed | server.js:178 | setting a quantity keeps the cart well formed |
| Ledger.RemoveWellFormed | server.js:206 | splicing out a line keeps the cart well formed |
| Ledger.HeldRemove | server.js:34 | the holding across all carts is any one cart's holding plus that of the others |
| Ledger.HeldUpdate | server.js:228 | replacing or creating one cart changes the total holding by that cart's difference |
| Ledger.HeldAddLine | server.js:128-144 | adding to one cart raises the total holding of the product by the quantity, and of no other |
| Ledger.EmptyCartBalances | server.js:97-99 | creating an empty cart changes no product's stock plus holdings |
| Ledger.AddBalances | server.js:132-146 | adding moves exactly the quantity from stock into carts: stock plus holdings is unchanged for every product |
| Ledger.SetQuantityBalances | server.js:171-178 | setting a quantity while the stock pays the difference leaves stock plus holdings unchanged for every product |
| Ledger.RemoveBalances | server.js:202-206 | removing a line and returning its quantity leaves stock plus holdings unchanged for every product |
| Ledger.ClearBalances | server.js:222-228 | clearing raises each stock by the cart's holding, and stock plus holdings is unchanged for every product |

## Left out

- Express setup, body parsing, the logging and CORS middleware, the 500 error handler and `app.listen` (server.js:1-20, 237-246): this is I/O plumbing, not store logic.
- The cart total in view (server.js:102-106): it is floating-point arithmetic with `toFixed(2)`. Prices are opaque `real` values that are copied and never computed with.
- `parseInt` of path parameters, and `===` mismatches between string and number ids (server.js:44, 189): ids are modelled as integers that are already parsed. Cart keys are the path's user id string.
- Response bodies and messages: each handler returns only its status code (200, 201, 400 or 404). The resulting state is stated fully in the contract.
- productRoutes.js and cartRoutes.js: they only wire routes to controllers, and the controllers are not part of this model.
- Concurrency between requests: each handler runs as one atomic step.
- Shop.Store.UpdateCartItem: `quantity` is an integer parameter. A missing body field (NaN arithmetic in JavaScript) is not modelled.
- Body fields of unexpected JavaScript types are not modelled. Examples are a string `quantity`, for which `+=` concatenates, or a non-string `name`. Names and emails are strings, and ids and quantities are integers.
- Shop.Store.AddToCart: in the source, a missing cart is first stored empty and then filled in place. The model writes the filled cart once. The resulting state is the same.
- Zero and negative quantities are accepted by add and update, as in the source. Stock is not kept non-negative, because the source does not keep it so.
- Shop.RemoveReAddRoundTrip: the round trip is stated only when the stock starts non-negative. The source can drive stock negative. For example, a line updated to -3 releases more than was taken, and a line of 8 put back on a stock of -3 gives 5, which then refuses the re-add of 8.
- Shop.Store.ClearCart: conservation is proved under `Valid()`. Without the invariant, the source's lookup in clear would throw (a 500 after partial updates). That path is not modelled, because `Valid()` makes it unreachable.
