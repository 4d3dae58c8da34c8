/** The online store: a product catalog and the users' carts, held in two
    in-memory maps that the request handlers update in place. */
module OnlineStore {
  import opened Http
  import opened Auth
  import Carts

  /** A catalog entry. The price is carried along, never computed on. */
  datatype Product = Product(id: int, name: string, description: string, price: real)

  /** The body of the cart requests. */
  datatype CartItem = CartItem(productId: int)

  /** The body of an order request; `items` is accepted and ignored. */
  datatype Order = Order(email: string, items: seq<int>)

  /** Every stored product sits under its own id. */
  ghost predicate Keyed(products: map<int, Product>)
  {
    forall k :: k in products ==> products[k].id == k
  }

  /** A non-empty set of ids has a member: the witness for picking the next id. */
  lemma HasElement(ids: set<int>)
    requires ids != {}
    ensures exists id :: id in ids
  {
    if forall id :: id !in ids {
      assert false;
    }
  }

  class Store {
    var products: map<int, Product>
    var carts: map<string, seq<int>>

    ghost predicate Valid()
      reads this
    {
      Keyed(products)
    }

    /** The cart of `email`, empty when the user has none yet. */
    function CartOf(email: string): seq<int>
      reads this
    {
      if email in carts then carts[email] else []
    }

    /** A store with no products and no carts. */
    constructor ()
      ensures Valid()
      ensures products == map[] && carts == map[]
    {
      products := map[];
      carts := map[];
    }

    /** Lists every stored product once, in some order of their ids. */
    method GetProducts() returns (r: seq<Product>, ghost order: seq<int>)
      ensures |r| == |order| == |products|
      ensures forall i :: 0 <= i < |order| ==> order[i] in products && r[i] == products[order[i]]
      ensures forall i, j :: 0 <= i < j < |order| ==> order[i] != order[j]
      ensures forall k :: k in products ==> k in order
      ensures forall k :: k in products ==> products[k] in r
      ensures forall p :: p in r ==> p in products.Values
    {
      r, order := [], [];
      var rest := products.Keys;
      while rest != {}
        invariant rest <= products.Keys
        invariant |r| == |order| && |order| + |rest| == |products|
        invariant forall i :: 0 <= i < |order| ==> order[i] in products && order[i] !in rest && r[i] == products[order[i]]
        invariant forall i, j :: 0 <= i < j < |order| ==> order[i] != order[j]
        invariant forall k :: k in products && k !in rest ==> k in order
        decreases |rest|
      {
        HasElement(rest);
        var id :| id in rest;
        r := r + [products[id]];
        order := order + [id];
        rest := rest - {id};
      }
    }

    /** Appends the product id to the user's cart, creating the cart when it
        is absent, and returns the updated cart. */
    method AddToCart(email: string, item: CartItem) returns (r: seq<int>)
      modifies this
      ensures products == old(products)
      ensures carts == old(carts)[email := old(CartOf(email)) + [item.productId]]
      ensures r == carts[email]
    {
      if email !in carts {
        carts := carts[email := []];
      }
      carts := carts[email := carts[email] + [item.productId]];
      r := carts[email];
    }

    /** Deletes the first occurrence of the product id from the user's cart
        and returns the updated cart; 404 when there is no cart or the id is
        not in it. */
    method RemoveFromCart(email: string, item: CartItem) returns (r: Result<seq<int>>)
      modifies this
      ensures products == old(products)
      ensures r.Err? <==> email !in old(carts) || item.productId !in old(carts)[email]
      ensures r.Err? ==> r.status == NotFound && carts == old(carts)
      ensures r.Ok? ==>
        && carts == old(carts)[email := Carts.RemoveFirst(old(carts)[email], item.productId)]
        && r.value == carts[email]
    {
      if email !in carts || item.productId !in carts[email] {
        return Err(NotFound);
      }
      carts := carts[email := Carts.RemoveFirst(carts[email], item.productId)];
      r := Ok(carts[email]);
    }

    /** Places an order: empties the user's cart and confirms; 400 when the
        cart is absent or already empty. */
    method CreateOrder(order: Order) returns (r: Result<string>)
      modifies this
      ensures products == old(products)
      ensures r.Err? <==> order.email !in old(carts) || old(carts)[order.email] == []
      ensures r.Err? ==> r.status == BadRequest && carts == old(carts)
      ensures r.Ok? ==>
        && carts == old(carts)[order.email := []]
        && r.value == "Order placed for " + order.email
    {
      if order.email !in carts || carts[order.email] == [] {
        return Err(BadRequest);
      }
      carts := carts[order.email := []];
      r := Ok("Order placed for " + order.email);
    }

    /** Overwrites name, description and price of a stored product, keeping
        its id, for a manager or an admin; 401/403 from the role check first,
        then 404 when the product id is absent. */
    method UpdateProduct(c: Credentials, productId: int, product: Product) returns (r: Result<Product>)
      requires Valid()
      modifies this
      ensures Valid()
      ensures carts == old(carts)
      ensures RequireRole(UpdateRoles, c).Err? ==>
        r == Err(RequireRole(UpdateRoles, c).status) && products == old(products)
      ensures RequireRole(UpdateRoles, c).Ok? && productId !in old(products) ==>
        r == Err(NotFound) && products == old(products)
      ensures RequireRole(UpdateRoles, c).Ok? && productId in old(products) ==>
        && r == Ok(old(products)[productId].(name := product.name,
                                             description := product.description,
                                             price := product.price))
        && r.value.id == productId
        && products == old(products)[productId := r.value]
    {
      var auth := RequireRole(UpdateRoles, c);
      if auth.Err? {
        return Err(auth.status);
      }
      if productId !in products {
        return Err(NotFound);
      }
      var updated := products[productId].(name := product.name,
                                          description := product.description,
                                          price := product.price);
      products := products[productId := updated];
      r := Ok(updated);
    }

    /** Inserts a new product under its own id, for an admin only; 401/403
        from the role check first, then 400 when the id is already taken. */
    method CreateProduct(c: Credentials, product: Product) returns (r: Result<Product>)
      requires Valid()
      modifies this
      ensures Valid()
      ensures carts == old(carts)
      ensures RequireRole(CreateRoles, c).Err? ==>
        r == Err(RequireRole(CreateRoles, c).status) && products == old(products)
      ensures RequireRole(CreateRoles, c).Ok? && product.id in old(products) ==>
        r == Err(BadRequest) && products == old(products)
      ensures RequireRole(CreateRoles, c).Ok? && product.id !in old(products) ==>
        r == Ok(product) && products == old(products)[product.id := product]
    {
      var auth := RequireRole(CreateRoles, c);
      if auth.Err? {
        return Err(auth.status);
      }
      if product.id in products {
        return Err(BadRequest);
      }
      products := products[product.id := product];
      r := Ok(product);
    }
  }

  /** Adding a product id to a cart and then removing it again: both calls
      succeed and the multiset of ids is restored. When the id was not in
      the cart the cart comes back exactly (an absent cart is left present
      and empty); otherwise the older copy is removed and the new one stays
      at the end, which gives the cart back exactly when everything from the
      id's first occurrence on is that id. */
  method AddThenRemove(s: Store, email: string, id: int) returns (added: seq<int>, removed: Result<seq<int>>)
    modifies s
    ensures s.products == old(s.products)
    ensures removed.Ok? && email in s.carts && removed.value == s.carts[email]
    ensures multiset(s.carts[email]) == multiset(old(s.CartOf(email)))
    ensures id !in old(s.CartOf(email)) ==> s.carts == old(s.carts)[email := old(s.CartOf(email))]
    ensures id in old(s.CartOf(email)) ==>
      s.carts == old(s.carts)[email := Carts.RemoveFirst(old(s.CartOf(email)), id) + [id]]
    ensures s.carts[email] == old(s.CartOf(email)) <==>
      || id !in old(s.CartOf(email))
      || forall j :: Carts.FirstIndex(old(s.CartOf(email)), id) <= j < |old(s.CartOf(email))| ==>
           old(s.CartOf(email))[j] == id
  {
    ghost var before, carts0 := s.CartOf(email), s.carts;
    added := s.AddToCart(email, CartItem(id));
    assert added == before + [id];
    assert id in added by { assert added[|before|] == id; }
    removed := s.RemoveFromCart(email, CartItem(id));
    ghost var after := Carts.RemoveFirst(added, id);
    assert s.carts == carts0[email := after];
    Carts.AddThenRemoveMultiset(before, id);
    Carts.AddThenRemoveRestores(before, id);
    if id !in before {
      Carts.AddThenRemoveFresh(before, id);
    } else {
      Carts.AddThenRemoveDuplicate(before, id);
    }
  }

  /** Creating the same product twice as an admin: the first call stores it,
      the second fails with 400 and changes nothing. */
  method CreateTwice(s: Store, p: Product) returns (first: Result<Product>, second: Result<Product>)
    requires s.Valid() && p.id !in s.products
    modifies s
    ensures first == Ok(p) && second == Err(BadRequest)
    ensures s.products == old(s.products)[p.id := p]
    ensures s.carts == old(s.carts)
  {
    var admin := Credentials("admin", "admin123");
    CreateAdmitsOnlyAdmin(admin);
    first := s.CreateProduct(admin, p);
    second := s.CreateProduct(admin, p);
  }

  /** An order on a non-empty cart never fails and empties the cart; a second
      order on the same cart fails with 400. */
  method OrderTwice(s: Store, order: Order) returns (first: Result<string>, second: Result<string>)
    requires order.email in s.carts && s.carts[order.email] != []
    modifies s
    ensures first.Ok? && second == Err(BadRequest)
    ensures s.carts == old(s.carts)[order.email := []]
    ensures s.products == old(s.products)
  {
    first := s.CreateOrder(order);
    second := s.CreateOrder(order);
  }
}
