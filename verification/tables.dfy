/** The rows of the shop's database tables and the lookups the views make
    on them. Every table is a sequence of rows in the order they were
    created, which is primary-key order (for products and categories the
    table invariants of module Carts state it); a query set without
    `order_by` is assumed to be read in that order (the model classes
    declare no `Meta.ordering`). Prices and totals are whole centavos. */
module Tables {
  import opened Seqs

  type UserId = nat
  type CategoryId = nat
  type ProductId = nat
  type CartId = nat
  type OrderId = nat
  type OrderItemId = nat

  datatype Option<T> = None | Some(value: T)

  /** `User.user_type`. */
  datatype Role = Buyer | Vendor

  /** The authenticated caller of a view. */
  datatype User = User(id: UserId, role: Role)

  datatype Category = Category(id: CategoryId, name: string, slug: string, description: string)

  datatype Product = Product(
    id: ProductId,
    vendor: UserId,
    category: CategoryId,
    name: string,
    slug: string,
    description: string,
    price: int,
    stock: int,
    image: string,
    isActive: bool)

  /** One `Cart` row: a user's intent to buy `quantity` of a product. */
  datatype CartEntry = CartEntry(id: CartId, user: UserId, product: ProductId, quantity: int)

  datatype Order = Order(
    id: OrderId,
    user: UserId,
    orderNumber: string,
    totalAmount: int,
    shippingAddress: Option<string>,
    shippingCity: Option<string>,
    shippingZip: Option<string>)

  /** One `OrderItem` row; `vendor` and `price` are copied from the product. */
  datatype OrderItem = OrderItem(
    id: OrderItemId,
    order: OrderId,
    product: ProductId,
    vendor: UserId,
    quantity: int,
    price: int)

  /** Why a view refused: `get_object_or_404` failing, a role redirect,
      the stock gate, the empty-cart redirect, or a lookup matching twice. */
  datatype Error = NotFound | Forbidden | OutOfStock | EmptyCart | MultipleFound

  /** What a state-changing view did: its work, nothing (a GET, an invalid
      form), or a refusal. */
  datatype Outcome = Done | Ignored | Failed(error: Error)

  function ProductRowId(p: Product): ProductId { p.id }
  function CategoryRowId(c: Category): CategoryId { c.id }
  function CartRowId(e: CartEntry): CartId { e.id }
  function CartPair(e: CartEntry): (UserId, ProductId) { (e.user, e.product) }
  function OrderRowId(o: Order): OrderId { o.id }
  function ItemRowId(i: OrderItem): OrderItemId { i.id }

  /** `Product.objects.get(id=id)`, or None. */
  function FindProduct(products: seq<Product>, id: ProductId): (r: Option<Product>)
    ensures r.Some? ==> r.value in products && r.value.id == id
    ensures r.None? ==> forall i :: 0 <= i < |products| ==> products[i].id != id
  {
    if products == [] then None
    else if products[0].id == id then Some(products[0])
    else FindProduct(products[1..], id)
  }

  lemma {:induction false} FindProductAppend(products: seq<Product>, x: Product, id: ProductId)
    requires FindProduct(products, id).Some?
    ensures FindProduct(products + [x], id) == FindProduct(products, id)
  {
    if products[0].id != id {
      assert (products + [x])[1..] == products[1..] + [x];
      FindProductAppend(products[1..], x, id);
    }
  }

  /** Rewriting rows without touching their keys changes no lookup's success. */
  lemma {:induction false} FindProductSameIds(s: seq<Product>, t: seq<Product>, id: ProductId)
    requires |s| == |t|
    requires forall i :: 0 <= i < |s| ==> s[i].id == t[i].id
    ensures FindProduct(s, id).Some? == FindProduct(t, id).Some?
  {
    if s != [] {
      FindProductSameIds(s[1..], t[1..], id);
    }
  }

  /** Deleting row `k` keeps every lookup of another key. */
  lemma FindProductRemove(s: seq<Product>, k: nat, id: ProductId)
    requires k < |s| && s[k].id != id
    requires FindProduct(s, id).Some?
    ensures FindProduct(s[..k] + s[k + 1..], id).Some?
  {
    var t := s[..k] + s[k + 1..];
    var x := FindProduct(s, id).value;
    var j :| 0 <= j < |s| && s[j] == x;
    if j < k {
      assert t[j] == x;
    } else {
      assert j > k && t[j - 1] == x;
    }
  }

  /** Every cart entry refers to a product of the table. */
  predicate Resolves(entries: seq<CartEntry>, products: seq<Product>)
  {
    forall i :: 0 <= i < |entries| ==> FindProduct(products, entries[i].product).Some?
  }

  /** `Cart.get_total()`: the product's current price times the quantity
      (models.py is not part of this model; this is the assumed definition).
      A row of at least one unit costs at least the unit price. */
  function LineTotal(e: CartEntry, products: seq<Product>): (r: int)
    requires FindProduct(products, e.product).Some?
    ensures var price := FindProduct(products, e.product).value.price;
      price >= 0 && e.quantity >= 1 ==> price <= r
  {
    var price := FindProduct(products, e.product).value.price;
    AtLeastOnce(price, e.quantity);
    price * e.quantity
  }

  lemma AtLeastOnce(price: int, quantity: int)
    ensures price >= 0 && quantity >= 1 ==> price <= price * quantity
  {
    if price >= 0 && quantity >= 1 {
      assert price * quantity == price + price * (quantity - 1);
    }
  }

  /** `sum(item.get_total() for item in entries)`; with no negative price
      and no negative quantity it is never negative. */
  function CartTotal(entries: seq<CartEntry>, products: seq<Product>): (r: int)
    requires Resolves(entries, products)
    ensures ((forall i :: 0 <= i < |entries| ==> entries[i].quantity >= 0) &&
             (forall i :: 0 <= i < |products| ==> products[i].price >= 0)) ==> r >= 0
  {
    if entries == [] then 0
    else LineTotal(entries[0], products) + CartTotal(entries[1..], products)
  }

  /** The cart total is additive over the rows. */
  lemma {:induction false} CartTotalAppend(a: seq<CartEntry>, b: seq<CartEntry>, products: seq<Product>)
    requires Resolves(a, products) && Resolves(b, products)
    ensures Resolves(a + b, products)
    ensures CartTotal(a + b, products) == CartTotal(a, products) + CartTotal(b, products)
  {
    assert forall i :: 0 <= i < |a + b| ==> (a + b)[i] == if i < |a| then a[i] else b[i - |a|];
    if a != [] {
      assert (a + b)[1..] == a[1..] + b;
      CartTotalAppend(a[1..], b, products);
    } else {
      assert a + b == b;
    }
  }

  /** Sum of price times quantity over order items. */
  function ItemsTotal(items: seq<OrderItem>): int
  {
    if items == [] then 0 else items[0].price * items[0].quantity + ItemsTotal(items[1..])
  }

  /** The test for `Cart.objects.filter(user=user)`. */
  function OwnedBy(user: UserId): CartEntry -> bool
  {
    (e: CartEntry) => e.user == user
  }

  /** The complement of `OwnedBy`: the rows a bulk delete of `user`'s cart keeps. */
  function NotOwnedBy(user: UserId): CartEntry -> bool
  {
    (e: CartEntry) => e.user != user
  }

  /** `user`'s cart rows, in table order. */
  function UserCart(cart: seq<CartEntry>, user: UserId): (r: seq<CartEntry>)
    ensures forall i :: 0 <= i < |r| ==> r[i].user == user && r[i] in cart
    ensures forall i :: 0 <= i < |cart| && cart[i].user == user ==> cart[i] in r
    ensures Subsequence(r, cart)
  {
    Filter(cart, OwnedBy(user))
  }

  /** Index of the first cart row for (user, product), or -1 (the lookup
      behind `Cart.objects.get_or_create(user=..., product=...)`). */
  function PairIndex(cart: seq<CartEntry>, user: UserId, product: ProductId): (k: int)
    ensures -1 <= k < |cart|
    ensures k >= 0 ==> cart[k].user == user && cart[k].product == product
    ensures forall i :: 0 <= i < |cart| && (k < 0 || i < k) ==> CartPair(cart[i]) != (user, product)
  {
    if cart == [] then -1
    else if cart[0].user == user && cart[0].product == product then 0
    else
      var k := PairIndex(cart[1..], user, product);
      if k < 0 then -1 else k + 1
  }

  /** Rows whose (user, product) pairs agree index by index are searched alike. */
  lemma PairIndexSamePairs(c: seq<CartEntry>, d: seq<CartEntry>, user: UserId, product: ProductId)
    requires |c| == |d|
    requires forall i :: 0 <= i < |c| ==> CartPair(c[i]) == CartPair(d[i])
    ensures PairIndex(c, user, product) == PairIndex(d, user, product)
  {
    var kc, kd := PairIndex(c, user, product), PairIndex(d, user, product);
    if kc >= 0 {
      assert CartPair(d[kc]) == (user, product);
    }
    if kd >= 0 {
      assert CartPair(c[kd]) == (user, product);
    }
  }

  /** Appending a row for another pair leaves a pair's lookup alone. */
  lemma {:induction false} PairIndexAppendOther(c: seq<CartEntry>, e: CartEntry, user: UserId, product: ProductId)
    requires CartPair(e) != (user, product)
    ensures PairIndex(c + [e], user, product) == PairIndex(c, user, product)
  {
    if c == [] {
      assert [e][1..] == [];
    } else {
      assert (c + [e])[1..] == c[1..] + [e];
      PairIndexAppendOther(c[1..], e, user, product);
    }
  }

  /** Appending the first row for a pair makes it that pair's row. */
  lemma {:induction false} PairIndexAppendNew(c: seq<CartEntry>, e: CartEntry)
    requires PairIndex(c, e.user, e.product) < 0
    ensures PairIndex(c + [e], e.user, e.product) == |c|
  {
    if c != [] {
      assert (c + [e])[1..] == c[1..] + [e];
      PairIndexAppendNew(c[1..], e);
    }
  }

  /** How many of `product` `user` has in the cart (0 when there is no row). */
  function Quantity(cart: seq<CartEntry>, user: UserId, product: ProductId): int
  {
    var k := PairIndex(cart, user, product);
    if k < 0 then 0 else cart[k].quantity
  }

  /** Index of the row with primary key `id` owned by `user`, or -1 (the
      lookup `get_object_or_404(Cart, id=id, user=user)`). */
  function EntryIndex(cart: seq<CartEntry>, id: CartId, user: UserId): (k: int)
    ensures -1 <= k < |cart|
    ensures k >= 0 ==> cart[k].id == id && cart[k].user == user
    ensures k < 0 ==> forall i :: 0 <= i < |cart| ==> cart[i].id != id || cart[i].user != user
  {
    IndexWhere(cart, (e: CartEntry) => e.id == id && e.user == user)
  }

  /** Index of the product with primary key `id` whose vendor is `vendor`,
      or -1 (`get_object_or_404(Product, pk=id, vendor=vendor)`). */
  function OwnedProductIndex(products: seq<Product>, id: ProductId, vendor: UserId): (k: int)
    ensures -1 <= k < |products|
    ensures k >= 0 ==> products[k].id == id && products[k].vendor == vendor
    ensures k < 0 ==> forall i :: 0 <= i < |products| ==> products[i].id != id || products[i].vendor != vendor
  {
    IndexWhere(products, (p: Product) => p.id == id && p.vendor == vendor)
  }
}
