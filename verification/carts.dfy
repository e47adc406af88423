/** The table invariants of the shop, and the change each cart view and
    checkout makes to the cart and order tables, stated as functions on the
    tables (myapp/views.py). The `Shop` class applies them in place. */
module Carts {
  import opened Seqs
  import opened Tables

  /** Product keys are unique, ascend in table order (the order a query set
      without `order_by` is read in) and stay below the next key to be
      handed out. */
  ghost predicate ProductsValid(products: seq<Product>, next: nat)
  {
    && DistinctBy(products, ProductRowId)
    && Ascending(products, ProductRowId)
    && forall i :: 0 <= i < |products| ==> products[i].id < next
  }

  /** The same for category keys. */
  ghost predicate CategoriesValid(categories: seq<Category>, next: nat)
  {
    && DistinctBy(categories, CategoryRowId)
    && Ascending(categories, CategoryRowId)
    && forall i :: 0 <= i < |categories| ==> categories[i].id < next
  }

  /** A user has at most one cart row per product; every row refers to an
      existing product and holds at least one unit; keys are unique and
      below the next key. */
  ghost predicate CartValid(cart: seq<CartEntry>, products: seq<Product>, next: nat)
  {
    && DistinctBy(cart, CartRowId)
    && DistinctBy(cart, CartPair)
    && (forall i :: 0 <= i < |cart| ==> cart[i].id < next && cart[i].quantity >= 1)
    && Resolves(cart, products)
  }

  ghost predicate OrdersValid(orders: seq<Order>, next: nat)
  {
    DistinctBy(orders, OrderRowId) && forall i :: 0 <= i < |orders| ==> orders[i].id < next
  }

  ghost predicate ItemsValid(items: seq<OrderItem>, next: nat)
  {
    DistinctBy(items, ItemRowId) && forall i :: 0 <= i < |items| ==> items[i].id < next
  }

  lemma ProductsAppendValid(products: seq<Product>, next: nat, p: Product)
    requires ProductsValid(products, next) && p.id == next
    ensures ProductsValid(products + [p], next + 1)
  {
    AppendDistinctBy(products, p, ProductRowId);
    assert forall i :: 0 <= i < |products| ==> ProductRowId(products[i]) < ProductRowId(p);
    AscendingAppend(products, p, ProductRowId);
  }

  lemma CategoriesAppendValid(categories: seq<Category>, next: nat, c: Category)
    requires CategoriesValid(categories, next) && c.id == next
    ensures CategoriesValid(categories + [c], next + 1)
  {
    AppendDistinctBy(categories, c, CategoryRowId);
    assert forall i :: 0 <= i < |categories| ==> CategoryRowId(categories[i]) < CategoryRowId(c);
    AscendingAppend(categories, c, CategoryRowId);
  }

  lemma OrdersAppendValid(orders: seq<Order>, next: nat, o: Order)
    requires OrdersValid(orders, next) && o.id == next
    ensures OrdersValid(orders + [o], next + 1)
  {
    AppendDistinctBy(orders, o, OrderRowId);
  }

  lemma ItemsAppendValid(items: seq<OrderItem>, next: nat, x: OrderItem)
    requires ItemsValid(items, next) && x.id == next
    ensures ItemsValid(items + [x], next + 1)
  {
    AppendDistinctBy(items, x, ItemRowId);
  }

  /** Deleting product row `k` keeps the product keys valid. */
  lemma ProductsRemoveValid(products: seq<Product>, next: nat, k: nat)
    requires ProductsValid(products, next) && k < |products|
    ensures ProductsValid(products[..k] + products[k + 1..], next)
  {
    var r := products[..k] + products[k + 1..];
    RemoveAtDistinct(products, k, ProductRowId);
    assert forall j :: 0 <= j < |r| ==> r[j] == products[if j < k then j else j + 1];
    AscendingIff(products, ProductRowId);
    AscendingIff(r, ProductRowId);
  }

  /** A bulk delete of order items keeps the item keys valid. */
  lemma ItemsFilterValid(items: seq<OrderItem>, next: nat, p: OrderItem -> bool)
    requires ItemsValid(items, next)
    ensures ItemsValid(Filter(items, p), next)
  {
    var kept := Filter(items, p);
    FilterDistinctBy(items, p, ItemRowId);
    forall j | 0 <= j < |kept| ensures kept[j].id < next {
      var l :| 0 <= l < |items| && items[l] == kept[j];
    }
  }

  /** A bulk delete of cart rows keeps the cart valid. */
  lemma CartFilterValid(cart: seq<CartEntry>, products: seq<Product>, next: nat, p: CartEntry -> bool)
    requires CartValid(cart, products, next)
    ensures CartValid(Filter(cart, p), products, next)
  {
    var kept := Filter(cart, p);
    FilterDistinctBy(cart, p, CartRowId);
    FilterDistinctBy(cart, p, CartPair);
    forall j | 0 <= j < |kept|
      ensures FindProduct(products, kept[j].product).Some? && kept[j].id < next && kept[j].quantity >= 1
    {
      var l :| 0 <= l < |cart| && cart[l] == kept[j];
    }
  }

  /** A new product row breaks no cart row's reference. */
  lemma CartProductsAppendValid(cart: seq<CartEntry>, products: seq<Product>, next: nat, p: Product)
    requires CartValid(cart, products, next)
    ensures CartValid(cart, products + [p], next)
  {
    forall j | 0 <= j < |cart| ensures FindProduct(products + [p], cart[j].product).Some? {
      FindProductAppend(products, p, cart[j].product);
    }
  }

  /** Rewriting a product row under the same key breaks no cart row's reference. */
  lemma CartProductEditValid(cart: seq<CartEntry>, products: seq<Product>, next: nat, k: nat, p: Product)
    requires CartValid(cart, products, next) && k < |products| && p.id == products[k].id
    ensures CartValid(cart, products[k := p], next)
  {
    forall j | 0 <= j < |cart| ensures FindProduct(products[k := p], cart[j].product).Some? {
      FindProductSameIds(products, products[k := p], cart[j].product);
    }
  }

  /** The rows a delete of product `id` keeps when `Cart.product` cascades. */
  function CartNotFor(id: ProductId): CartEntry -> bool
  {
    (e: CartEntry) => e.product != id
  }

  /** The rows a delete of product `id` keeps when `OrderItem.product` cascades. */
  function ItemNotFor(id: ProductId): OrderItem -> bool
  {
    (i: OrderItem) => i.product != id
  }

  /** Deleting product row `k` once no cart row refers to it keeps the cart valid. */
  lemma CartProductRemoveValid(cart: seq<CartEntry>, products: seq<Product>, next: nat, k: nat)
    requires CartValid(cart, products, next) && k < |products|
    requires forall i :: 0 <= i < |cart| ==> cart[i].product != products[k].id
    ensures CartValid(cart, products[..k] + products[k + 1..], next)
  {
    forall j | 0 <= j < |cart| ensures FindProduct(products[..k] + products[k + 1..], cart[j].product).Some? {
      FindProductRemove(products, k, cart[j].product);
    }
  }

  // ----- add_to_cart -----

  /** The cart after `Cart.objects.get_or_create(user=user, product=product)`
      followed, for a row that already existed, by `quantity += 1`; a new
      row gets key `nextId` and quantity 1 (the assumed model default). */
  function AddedCart(cart: seq<CartEntry>, user: UserId, product: ProductId, nextId: CartId): (r: seq<CartEntry>)
    ensures |r| == |cart| + (if PairIndex(cart, user, product) >= 0 then 0 else 1)
    ensures PairIndex(r, user, product) >= 0
    ensures |r| == |cart| + 1 ==> r[|cart|] == CartEntry(nextId, user, product, 1)
    ensures forall i :: 0 <= i < |cart| && i != PairIndex(cart, user, product) ==> r[i] == cart[i]
    ensures PairIndex(cart, user, product) >= 0 ==>
      r[PairIndex(cart, user, product)] == Bumped(cart[PairIndex(cart, user, product)])
  {
    var k := PairIndex(cart, user, product);
    if k >= 0 then
      var r := cart[k := Bumped(cart[k])];
      PairIndexSamePairs(r, cart, user, product);
      r
    else
      PairIndexAppendNew(cart, CartEntry(nextId, user, product, 1));
      cart + [CartEntry(nextId, user, product, 1)]
  }

  /** `cart_item.quantity += 1`. */
  function Bumped(e: CartEntry): CartEntry
  {
    e.(quantity := e.quantity + 1)
  }

  /** Adding raises the caller's quantity of the product by exactly one and
      leaves every other (user, product) quantity as it was. */
  lemma AddedCartQuantity(cart: seq<CartEntry>, user: UserId, product: ProductId, nextId: CartId)
    ensures Quantity(AddedCart(cart, user, product, nextId), user, product) == Quantity(cart, user, product) + 1
    ensures forall u: UserId, p: ProductId :: (u, p) != (user, product) ==>
      Quantity(AddedCart(cart, user, product, nextId), u, p) == Quantity(cart, u, p)
  {
    var k := PairIndex(cart, user, product);
    var r := AddedCart(cart, user, product, nextId);
    if k < 0 {
      var e := CartEntry(nextId, user, product, 1);
      PairIndexAppendNew(cart, e);
      forall u: UserId, p: ProductId | (u, p) != (user, product)
        ensures Quantity(r, u, p) == Quantity(cart, u, p)
      {
        PairIndexAppendOther(cart, e, u, p);
      }
    } else {
      assert forall i :: 0 <= i < |r| ==> CartPair(r[i]) == CartPair(cart[i]);
      forall u: UserId, p: ProductId ensures PairIndex(r, u, p) == PairIndex(cart, u, p) {
        PairIndexSamePairs(r, cart, u, p);
      }
    }
  }

  /** Adding an existing product keeps the cart valid: still one row per
      (user, product), and a key is used up only when a row is created. */
  lemma AddedCartValid(cart: seq<CartEntry>, products: seq<Product>, next: nat, user: UserId, product: ProductId)
    requires CartValid(cart, products, next)
    requires FindProduct(products, product).Some?
    ensures CartValid(AddedCart(cart, user, product, next), products,
                      if PairIndex(cart, user, product) < 0 then next + 1 else next)
  {
    var k := PairIndex(cart, user, product);
    var r := AddedCart(cart, user, product, next);
    if k < 0 {
      var e := CartEntry(next, user, product, 1);
      AppendDistinctBy(cart, e, CartRowId);
      AppendDistinctBy(cart, e, CartPair);
    } else {
      assert forall i :: 0 <= i < |r| ==> CartRowId(r[i]) == CartRowId(cart[i]);
      assert forall i :: 0 <= i < |r| ==> CartPair(r[i]) == CartPair(cart[i]);
    }
  }

  /** The cart after `n` calls of `add_to_cart` for the same user and product. */
  function AddedTimes(cart: seq<CartEntry>, user: UserId, product: ProductId, nextId: CartId, n: nat): seq<CartEntry>
  {
    if n == 0 then cart else AddedCart(AddedTimes(cart, user, product, nextId, n - 1), user, product, nextId)
  }

  /** Starting without a row for the product, `n` adds leave quantity `n`. */
  lemma {:induction false} RepeatedAddsQuantity(cart: seq<CartEntry>, user: UserId, product: ProductId, next: nat, n: nat)
    requires PairIndex(cart, user, product) < 0
    ensures Quantity(AddedTimes(cart, user, product, next, n), user, product) == n
  {
    if n > 0 {
      RepeatedAddsQuantity(cart, user, product, next, n - 1);
      AddedCartQuantity(AddedTimes(cart, user, product, next, n - 1), user, product, next);
    }
  }

  /** Starting without a row for the product, `n >= 1` adds create exactly
      one row for it (one key used up) and keep the cart valid. */
  lemma {:induction false} RepeatedAddsOneRow(cart: seq<CartEntry>, products: seq<Product>, next: nat,
                                              user: UserId, product: ProductId, n: nat)
    requires CartValid(cart, products, next) && FindProduct(products, product).Some?
    requires PairIndex(cart, user, product) < 0 && n >= 1
    ensures CartValid(AddedTimes(cart, user, product, next, n), products, next + 1)
    ensures |AddedTimes(cart, user, product, next, n)| == |cart| + 1
    ensures PairIndex(AddedTimes(cart, user, product, next, n), user, product) >= 0
  {
    RepeatedAddsLength(cart, user, product, next, n);
    if n == 1 {
      assert AddedTimes(cart, user, product, next, 1) == AddedCart(cart, user, product, next);
      AddedCartValid(cart, products, next, user, product);
    } else {
      var prev := AddedTimes(cart, user, product, next, n - 1);
      assert AddedTimes(cart, user, product, next, n) == AddedCart(prev, user, product, next);
      RepeatedAddsOneRow(cart, products, next, user, product, n - 1);
      assert AddedCart(prev, user, product, next) == AddedCart(prev, user, product, next + 1);
      AddedCartValid(prev, products, next + 1, user, product);
    }
  }

  lemma {:induction false} RepeatedAddsLength(cart: seq<CartEntry>, user: UserId, product: ProductId, next: nat, n: nat)
    requires PairIndex(cart, user, product) < 0 && n >= 1
    ensures |AddedTimes(cart, user, product, next, n)| == |cart| + 1
    ensures PairIndex(AddedTimes(cart, user, product, next, n), user, product) >= 0
  {
    if n == 1 {
      assert AddedTimes(cart, user, product, next, 1) == AddedCart(cart, user, product, next);
      PairIndexAppendNew(cart, CartEntry(next, user, product, 1));
    } else {
      var prev := AddedTimes(cart, user, product, next, n - 1);
      RepeatedAddsLength(cart, user, product, next, n - 1);
      var k := PairIndex(prev, user, product);
      assert AddedTimes(cart, user, product, next, n) == prev[k := Bumped(prev[k])];
      PairIndexSamePairs(prev[k := Bumped(prev[k])], prev, user, product);
    }
  }

  /** In a valid cart the row `PairIndex` finds is the only row of its pair. */
  lemma OnlyRow(cart: seq<CartEntry>, products: seq<Product>, next: nat, user: UserId, product: ProductId)
    requires CartValid(cart, products, next) && PairIndex(cart, user, product) >= 0
    ensures forall i :: 0 <= i < |cart| && CartPair(cart[i]) == (user, product) ==> i == PairIndex(cart, user, product)
  {
    var k := PairIndex(cart, user, product);
    assert forall i :: 0 <= i < |cart| && i != k ==> CartPair(cart[i]) != CartPair(cart[k]);
  }

  /** `n >= 1` adds of a product not yet in the caller's cart leave exactly
      one row for it, holding quantity `n`. */
  lemma RepeatedAdds(cart: seq<CartEntry>, products: seq<Product>, next: nat,
                     user: UserId, product: ProductId, n: nat)
    requires CartValid(cart, products, next) && FindProduct(products, product).Some?
    requires PairIndex(cart, user, product) < 0 && n >= 1
    ensures CartValid(AddedTimes(cart, user, product, next, n), products, next + 1)
    ensures Quantity(AddedTimes(cart, user, product, next, n), user, product) == n
    ensures var c := AddedTimes(cart, user, product, next, n);
      var k := PairIndex(c, user, product);
      k >= 0 && forall i :: 0 <= i < |c| && CartPair(c[i]) == (user, product) ==> i == k
  {
    RepeatedAddsQuantity(cart, user, product, next, n);
    RepeatedAddsOneRow(cart, products, next, user, product, n);
    OnlyRow(AddedTimes(cart, user, product, next, n), products, next + 1, user, product);
  }

  // ----- update_cart -----

  /** The cart after `update_cart` with `quantity`: the caller's row `id`
      takes the quantity when it is positive. */
  function UpdatedCart(cart: seq<CartEntry>, id: CartId, user: UserId, quantity: int): (r: seq<CartEntry>)
    ensures |r| == |cart|
    ensures forall i :: 0 <= i < |cart| ==> r[i].id == cart[i].id && CartPair(r[i]) == CartPair(cart[i])
    ensures forall i :: 0 <= i < |cart| && r[i] != cart[i] ==>
      cart[i].id == id && cart[i].user == user && r[i].quantity == quantity
    ensures quantity <= 0 ==> r == cart
  {
    var k := EntryIndex(cart, id, user);
    if k < 0 || quantity <= 0 then cart else cart[k := cart[k].(quantity := quantity)]
  }

  /** Row by row: the caller's row `id` gets a positive `quantity`; every
      other row, and every row when `quantity <= 0`, is unchanged. */
  lemma UpdatedCartRows(cart: seq<CartEntry>, id: CartId, user: UserId, quantity: int)
    requires DistinctBy(cart, CartRowId)
    ensures |UpdatedCart(cart, id, user, quantity)| == |cart|
    ensures forall i :: 0 <= i < |cart| ==>
      UpdatedCart(cart, id, user, quantity)[i] ==
        if cart[i].id == id && cart[i].user == user && quantity > 0 then cart[i].(quantity := quantity) else cart[i]
  {
    var k := EntryIndex(cart, id, user);
    if k >= 0 {
      forall i | 0 <= i < |cart| && cart[i].id == id
        ensures i == k
      {
        assert i == k || CartRowId(cart[i]) != CartRowId(cart[k]);
      }
    }
  }

  lemma UpdatedCartValid(cart: seq<CartEntry>, products: seq<Product>, next: nat, id: CartId, user: UserId, quantity: int)
    requires CartValid(cart, products, next)
    ensures CartValid(UpdatedCart(cart, id, user, quantity), products, next)
  {
    var r := UpdatedCart(cart, id, user, quantity);
    assert forall i :: 0 <= i < |r| ==> CartRowId(r[i]) == CartRowId(cart[i]);
    assert forall i :: 0 <= i < |r| ==> CartPair(r[i]) == CartPair(cart[i]);
  }

  // ----- remove_from_cart -----

  /** The cart after `remove_from_cart`: the caller's row `id` deleted. */
  function RemovedCart(cart: seq<CartEntry>, id: CartId, user: UserId): (r: seq<CartEntry>)
    ensures |cart| - 1 <= |r| <= |cart|
    ensures forall e :: e in r ==> e in cart
    ensures forall i :: 0 <= i < |cart| && cart[i].user != user ==> cart[i] in r
  {
    var k := EntryIndex(cart, id, user);
    if k < 0 then cart
    else
      RemoveAtKeeps(cart, k);
      cart[..k] + cart[k + 1..]
  }

  /** Exactly the caller's row `id` is gone; every other row, the other
      users' rows included, is still there. */
  lemma RemovedCartRows(cart: seq<CartEntry>, id: CartId, user: UserId)
    requires DistinctBy(cart, CartRowId)
    ensures forall e :: e in RemovedCart(cart, id, user) <==> e in cart && !(e.id == id && e.user == user)
    ensures |RemovedCart(cart, id, user)| == |cart| - (if EntryIndex(cart, id, user) < 0 then 0 else 1)
  {
    var k := EntryIndex(cart, id, user);
    if k >= 0 {
      RemoveAtKey(cart, k, CartRowId);
      assert forall j :: 0 <= j < |cart| && j != k ==> CartRowId(cart[j]) != CartRowId(cart[k]);
    }
  }

  lemma RemovedCartValid(cart: seq<CartEntry>, products: seq<Product>, next: nat, id: CartId, user: UserId)
    requires CartValid(cart, products, next)
    ensures CartValid(RemovedCart(cart, id, user), products, next)
  {
    var k := EntryIndex(cart, id, user);
    if k >= 0 {
      var r := cart[..k] + cart[k + 1..];
      assert RemovedCart(cart, id, user) == r;
      RemoveAtDistinct(cart, k, CartRowId);
      RemoveAtDistinct(cart, k, CartPair);
      forall j | 0 <= j < |r|
        ensures FindProduct(products, r[j].product).Some? && r[j].id < next && r[j].quantity >= 1
      {
        if j < k {
          assert r[j] == cart[j];
        } else {
          assert r[j] == cart[j + 1];
        }
      }
    }
  }

  // ----- checkout -----

  /** `str(uuid.uuid4())[:8].upper()`: eight characters from 0-9 and A-F. */
  predicate IsOrderNumber(s: string)
  {
    |s| == 8 && forall i :: 0 <= i < 8 ==> ('0' <= s[i] <= '9') || ('A' <= s[i] <= 'F')
  }

  /** The order item checkout writes for cart row `e` of product `p`. */
  function Snapshot(id: OrderItemId, order: OrderId, e: CartEntry, p: Product): OrderItem
  {
    OrderItem(id, order, e.product, p.vendor, e.quantity, p.price)
  }

  /** The items checkout's loop writes for `entries`, keys from `firstId`:
      one per row, in order, each with the row's product and quantity and
      the product's current vendor and price. */
  function SnapshotItems(entries: seq<CartEntry>, products: seq<Product>, order: OrderId, firstId: nat): (r: seq<OrderItem>)
    requires Resolves(entries, products)
    ensures |r| == |entries|
    ensures forall i :: 0 <= i < |entries| ==>
      var p := FindProduct(products, entries[i].product).value;
      && r[i].id == firstId + i && r[i].order == order && r[i].product == entries[i].product
      && r[i].quantity == entries[i].quantity && r[i].price == p.price && r[i].vendor == p.vendor
  {
    if entries == [] then []
    else
      var last := entries[|entries| - 1];
      SnapshotItems(entries[..|entries| - 1], products, order, firstId)
        + [Snapshot(firstId + |entries| - 1, order, last, FindProduct(products, last.product).value)]
  }

  /** One more cart row processed: one more item at the end. */
  lemma SnapshotItemsPrefix(entries: seq<CartEntry>, products: seq<Product>, order: OrderId, firstId: nat, i: nat)
    requires Resolves(entries, products) && i < |entries|
    ensures Resolves(entries[..i], products) && Resolves(entries[..i + 1], products)
    ensures SnapshotItems(entries[..i + 1], products, order, firstId)
         == SnapshotItems(entries[..i], products, order, firstId)
            + [Snapshot(firstId + i, order, entries[i], FindProduct(products, entries[i].product).value)]
  {
    assert entries[..i + 1][..i] == entries[..i];
  }

  lemma {:induction false} ItemsTotalSnoc(items: seq<OrderItem>, x: OrderItem)
    ensures ItemsTotal(items + [x]) == ItemsTotal(items) + x.price * x.quantity
  {
    if items == [] {
      assert [x][1..] == [];
    } else {
      assert (items + [x])[1..] == items[1..] + [x];
      ItemsTotalSnoc(items[1..], x);
    }
  }

  /** The order's items add up to the cart total the order was given:
      Σ price × quantity over the items equals the cart's Σ price × quantity. */
  lemma {:induction false} SnapshotItemsTotal(entries: seq<CartEntry>, products: seq<Product>, order: OrderId, firstId: nat)
    requires Resolves(entries, products)
    ensures ItemsTotal(SnapshotItems(entries, products, order, firstId)) == CartTotal(entries, products)
  {
    if entries != [] {
      var init, last := entries[..|entries| - 1], entries[|entries| - 1];
      assert init + [last] == entries;
      SnapshotItemsTotal(init, products, order, firstId);
      ItemsTotalSnoc(SnapshotItems(init, products, order, firstId),
                     Snapshot(firstId + |entries| - 1, order, last, FindProduct(products, last.product).value));
      CartTotalAppend(init, [last], products);
      assert CartTotal([last], products) == LineTotal(last, products);
    }
  }

  /** The rows of `user`'s cart refer to existing products. */
  lemma UserCartResolves(cart: seq<CartEntry>, products: seq<Product>, user: UserId)
    requires Resolves(cart, products)
    ensures Resolves(UserCart(cart, user), products)
  {
    var entries := UserCart(cart, user);
    forall i | 0 <= i < |entries| ensures FindProduct(products, entries[i].product).Some? {
      var j :| 0 <= j < |cart| && cart[j] == entries[i];
    }
  }

  /** `cart_items.delete()` after checkout: the caller's cart is empty,
      every other user's row is kept, and the cart stays valid. */
  lemma ClearedCart(cart: seq<CartEntry>, products: seq<Product>, next: nat, user: UserId)
    requires CartValid(cart, products, next)
    ensures CartValid(Filter(cart, NotOwnedBy(user)), products, next)
    ensures UserCart(Filter(cart, NotOwnedBy(user)), user) == []
    ensures forall i :: 0 <= i < |cart| && cart[i].user != user ==> cart[i] in Filter(cart, NotOwnedBy(user))
  {
    CartFilterValid(cart, products, next, NotOwnedBy(user));
    var kept := Filter(cart, NotOwnedBy(user));
    forall x | x in kept ensures x.user != user {
      var j :| 0 <= j < |kept| && kept[j] == x;
    }
  }

  /** A cart of two units of a product at 100 and one unit of a product at
      50 totals 250; checkout turns it into the items (100 x 2) and
      (50 x 1), which also total 250. */
  lemma CheckoutExample()
    ensures
      var products := [Product(1, 9, 1, "A", "a", "", 100, 5, "", true), Product(2, 9, 1, "B", "b", "", 50, 5, "", true)];
      var entries := [CartEntry(1, 3, 1, 2), CartEntry(2, 3, 2, 1)];
      && Resolves(entries, products)
      && CartTotal(entries, products) == 250
      && SnapshotItems(entries, products, 7, 1) == [OrderItem(1, 7, 1, 9, 2, 100), OrderItem(2, 7, 2, 9, 1, 50)]
      && ItemsTotal(SnapshotItems(entries, products, 7, 1)) == 250
  {
    var products := [Product(1, 9, 1, "A", "a", "", 100, 5, "", true), Product(2, 9, 1, "B", "b", "", 50, 5, "", true)];
    var entries := [CartEntry(1, 3, 1, 2), CartEntry(2, 3, 2, 1)];
    assert FindProduct(products, 1) == Some(products[0]);
    assert FindProduct(products, 2) == Some(products[1]) by {
      assert products[1..] == [products[1]];
    }
    assert entries[1..] == [entries[1]];
    assert CartTotal(entries, products) == 100 * 2 + 50 * 1;
    var items := SnapshotItems(entries, products, 7, 1);
    assert items == [OrderItem(1, 7, 1, 9, 2, 100), OrderItem(2, 7, 2, 9, 1, 50)];
    var second := OrderItem(2, 7, 2, 9, 1, 50);
    assert [second][1..] == [];
    assert ItemsTotal([second]) == 50;
    assert items[1..] == [second];
  }
}
