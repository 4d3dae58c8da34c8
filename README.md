# Online store API — a Dafny model

This project models the in-memory backend of a small online store (`main.py`).
The backend keeps a product catalog (`products`, product id → product) and the
users' carts (`carts`, user key → ordered list of product ids). It serves
client routes that list products, add to and remove from a cart and place an
order. It also serves two administrative routes, product update and product
creation, which are gated by HTTP Basic credentials checked against a static
user table.

Layout:

- `http.dfy`, module `Http`: the `Result` of a handler (a body, or the status
  code of the raised error) and the four status codes used (400, 401, 403, 404).
- `auth.dfy`, module `Auth`: the user table, `GetCurrentUser` and `RequireRole`
  as pure functions, and the role sets of the two admin routes.
- `carts.dfy`, module `Carts`: the list operations on a cart. `RemoveFirst` is
  the list `remove` (delete the first occurrence). The lemmas say what
  append-then-remove restores.
- `store.dfy`, module `OnlineStore`: the records `Product`, `CartItem` and
  `Order`, and the class `Store`. Its two fields `products` and `carts` are the
  two module-level dictionaries. Each handler is a method that updates them in
  place. `Valid()` is the catalog invariant: every key maps to a product with
  that id. Three client methods at the end chain handler calls.

On the credential routes the role check runs before the handler body, so a 401
or 403 is reported before a 404 or 400. FastAPI resolves a route's
dependencies before it calls the handler, and the model follows that order.

One would expect adding and then removing the same product id to give the
cart back. `add` appends at the end (main.py:54) and `remove` deletes the
first occurrence (main.py:61). When the id was not in the cart, the cart does
come back exactly. When the id was already there, the older copy is removed
and the new one stays at the end. The cart then comes back exactly only when
every element from the id's first occurrence on is that id: `[1, 7]` with
id 7 comes back, `[7, 8]` with id 7 becomes `[8, 7]`. In every case the
multiset of ids is restored (`Carts.AddThenRemoveRestores`,
`Carts.AddThenRemoveDuplicate`, `Carts.AddThenRemoveMultiset`). A cart that
was absent before the add is left present and empty.

## Model

| member | source | states |
|---|---|---|
| `Auth.GetCurrentUser` | main.py:32-36 | succeeds exactly when the table has a row for the username with the presented password; the user then has that username and the row's role; otherwise 401 |
| `Auth.RequireRole` | main.py:38-43 | succeeds exactly when the credentials authenticate and the role is allowed; bad credentials give 401 whatever the allowed set, and the role is checked only after that (403) |
| `Auth.AuthenticExactly` | main.py:27-30 | exactly the pairs manager/manager123 and admin/admin123 authenticate |
| `Auth.CreateAdmitsOnlyAdmin` | main.py:81 | the creation route admits only the admin's credentials; the manager's credentials get 403 |
| `Auth.UpdateAdmitsManagerAndAdmin` | main.py:72 | the update route admits both the manager and the admin, and nobody else |
| `Carts.FirstIndex` | main.py:59-61 | for an id in the cart, a position holding the id with no copy of it before |
| `Carts.RemoveFirst` | main.py:61 | deleting an id the cart holds leaves the cart one element shorter |
| `Carts.RemoveFirstSplice` | main.py:61 | removal cuts out exactly the element at the first position of the id and keeps everything before and after it |
| `Carts.RemoveFirstMultiset` | main.py:61 | removal takes exactly one copy of the id out of the multiset of ids |
| `Carts.AddThenRemoveFresh` | main.py:54-61 | appending an id not in the cart and then removing it gives back the cart exactly |
| `Carts.AddThenRemoveDuplicate` | main.py:54-61 | when the id is already in the cart, append-then-remove removes the older copy and leaves the new one at the end |
| `Carts.AddThenRemoveRestores` | main.py:54-61 | append-then-remove gives back the cart exactly if and only if the id was not in it or every element from its first occurrence on is that id |
| `Carts.AddThenRemoveMultiset` | main.py:54-61 | append-then-remove always restores the multiset of ids |
| `Carts.AddThenRemoveKeepsTrailingCopy` | main.py:54-61 | a concrete cart already holding the id that append-then-remove gives back exactly |
| `Carts.AddThenRemoveReorders` | main.py:54-61 | a concrete cart whose order append-then-remove does not restore |
| `OnlineStore.Store.constructor` | main.py:24-25 | the store starts with no products and no carts, and the catalog invariant holds |
| `OnlineStore.Store.GetProducts` | main.py:46-48 | returns one entry per stored product: every stored product is in the list, every listed product is stored, and the list has as many entries as the map has keys, being the values listed along an enumeration of the keys without repeats |
| `OnlineStore.Store.AddToCart` | main.py:50-55 | the user's cart becomes its old contents (or empty when absent) with the id appended; returns that cart; other carts and the catalog are unchanged |
| `OnlineStore.Store.RemoveFromCart` | main.py:57-62 | 404 and no change exactly when there is no cart or the id is not in it; otherwise the first occurrence is removed, only in that cart, and the cart is returned |
| `OnlineStore.Store.CreateOrder` | main.py:64-69 | 400 and no change exactly when the cart is absent or empty; otherwise only that cart is set to empty and the confirmation names the email; `items` plays no part |
| `OnlineStore.Store.UpdateProduct` | main.py:72-79 | role failure first (401/403), then 404 for an absent id, with nothing changed; otherwise name, description and price are overwritten, the stored id is kept and equals the key, and only that entry changes; the catalog invariant is preserved |
| `OnlineStore.Store.CreateProduct` | main.py:81-86 | role failure first (401/403, admin only), then 400 for a taken id, with nothing changed; otherwise the product is stored under its own id and returned, other entries unchanged; the catalog invariant is preserved |
| `OnlineStore.AddThenRemove` | main.py:50-62 | add then remove of the same id always succeeds, returns the final cart and restores the multiset; a fresh id gives back the whole carts map with that cart restored (an absent cart becomes present and empty); a present id leaves the carts map with that cart as its first occurrence removed and the id appended; the cart comes back exactly if and only if the id was absent or every element from its first occurrence on is that id; the catalog is unchanged |
| `OnlineStore.CreateTwice` | main.py:81-86 | creating a new product twice as admin: the first call stores it, the second gets 400; the carts are unchanged |
| `OnlineStore.OrderTwice` | main.py:64-69 | an order on a non-empty cart succeeds and empties it, only that cart changes; a second order then gets 400; the catalog is unchanged |

## Left out

- FastAPI routing, dependency injection and JSON (de)serialisation: each handler is a plain method; request-body validation errors (422) are not modelled.
- HTTP Basic header parsing: the credentials arrive already split into username and password. The constant-time comparison is modelled as string equality; its timing behaviour is not modelled.
- `EmailStr` validation and normalisation of `Order.email`: the model accepts any string as the order's email and uses it unchanged as the cart key.
- `price` is a float in the source and is not checked to be non-negative, so the model accepts any price; the model carries it as a `real` because it is only copied, never computed on.
- `OnlineStore.Store.GetProducts`: the source returns the values in the dictionary's insertion order; the model's maps have no order, so the contract fixes the contents and not the order.
- Object aliasing: `create_product` stores the request's own object and `update_product` mutates the stored one in place. The model treats products as immutable values and replaces the map entry by an updated copy.
- Concurrent requests: the source takes no locks and the model has no concurrency.
