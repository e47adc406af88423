/** The shop's database as one object, and the views of myapp/views.py that
    write to it: add_to_cart, update_cart, remove_from_cart, checkout,
    product_create, product_edit and product_delete. One request runs at a
    time; the caller is the authenticated user (`@login_required`). */
module Store {
  import opened Seqs
  import opened Tables
  import opened Carts

  /** The fields `ProductForm` lets a vendor set. */
  datatype ProductForm = ProductForm(
    category: CategoryId,
    name: string,
    description: string,
    price: int,
    stock: int,
    image: string,
    isActive: bool)

  /** What checkout did: placed an order (POST), showed the cart and its
      total (GET), or refused. */
  datatype CheckoutResult = Placed(order: Order) | Review(entries: seq<CartEntry>, total: int) | Refused(error: Error)

  /** The row `product_edit` saves: the form's fields over the old row;
      primary key, vendor and slug are kept. */
  function Edited(p: Product, form: ProductForm): (r: Product)
    ensures r.id == p.id && r.vendor == p.vendor && r.slug == p.slug
    ensures r.name == form.name && r.price == form.price && r.stock == form.stock && r.isActive == form.isActive
    ensures r.category == form.category && r.description == form.description && r.image == form.image
  {
    p.(category := form.category, name := form.name, description := form.description,
       price := form.price, stock := form.stock, image := form.image, isActive := form.isActive)
  }

  /** `int(request.POST.get('quantity', 1))` for a well-formed number. */
  function PostedQuantity(posted: Option<int>): (q: int)
    ensures posted.None? ==> q == 1
    ensures posted.Some? ==> q == posted.value
  {
    if posted.Some? then posted.value else 1
  }

  class Shop {
    var products: seq<Product>
    var categories: seq<Category>
    var cart: seq<CartEntry>
    var orders: seq<Order>
    var orderItems: seq<OrderItem>
    var nextProductId: nat
    var nextCategoryId: nat
    var nextCartId: nat
    var nextOrderId: nat
    var nextItemId: nat
    /** The slug a `Product` or `Category` gets from its name when first saved. */
    const slugOf: string -> string

    /** Every table's invariant (module Carts). */
    ghost predicate Valid()
      reads this
    {
      && ProductsValid(products, nextProductId)
      && CategoriesValid(categories, nextCategoryId)
      && CartValid(cart, products, nextCartId)
      && OrdersValid(orders, nextOrderId)
      && ItemsValid(orderItems, nextItemId)
    }

    /** An empty database; keys start at 1. */
    constructor (slugOf: string -> string)
      ensures Valid() && this.slugOf == slugOf
      ensures products == [] && categories == [] && cart == [] && orders == [] && orderItems == []
    {
      products, categories, cart, orders, orderItems := [], [], [], [], [];
      nextProductId, nextCategoryId, nextCartId, nextOrderId, nextItemId := 1, 1, 1, 1, 1;
      this.slugOf := slugOf;
    }

    /** `add_to_cart`: on POST, 404 for an unknown product, refuse a product
        with no stock, else one more unit of it in the caller's cart (a new
        row holding 1 unit if there was none). Stock is not decremented. */
    method AddToCart(user: UserId, productId: ProductId, post: bool) returns (r: Outcome)
      requires Valid()
      modifies this`cart, this`nextCartId
      ensures Valid()
      ensures !post ==> r == Ignored
      ensures post && FindProduct(products, productId).None? ==> r == Failed(NotFound)
      ensures post && FindProduct(products, productId).Some? ==>
        r == (if FindProduct(products, productId).value.stock <= 0 then Failed(OutOfStock) else Done)
      ensures r != Done ==> cart == old(cart) && nextCartId == old(nextCartId)
      ensures r == Done ==>
        && cart == AddedCart(old(cart), user, productId, old(nextCartId))
        && nextCartId == if PairIndex(old(cart), user, productId) < 0 then old(nextCartId) + 1 else old(nextCartId)
      ensures r == Done ==> Quantity(cart, user, productId) == Quantity(old(cart), user, productId) + 1
      ensures forall u: UserId, p: ProductId :: (u, p) != (user, productId) ==> Quantity(cart, u, p) == Quantity(old(cart), u, p)
    {
      if !post {
        return Ignored;
      }
      var found := FindProduct(products, productId);
      if found.None? {
        return Failed(NotFound);
      }
      if found.value.stock <= 0 {
        return Failed(OutOfStock);
      }
      AddedCartValid(cart, products, nextCartId, user, productId);
      AddedCartQuantity(cart, user, productId, nextCartId);
      var created := PairIndex(cart, user, productId) < 0;
      cart := AddedCart(cart, user, productId, nextCartId);
      if created {
        nextCartId := nextCartId + 1;
      }
      r := Done;
    }

    /** `update_cart`: on POST, 404 unless the row exists and is the
        caller's; the posted quantity (1 when none is posted) replaces the
        row's quantity when it is positive, and any other quantity leaves
        the cart as it is. */
    method UpdateCart(user: UserId, cartId: CartId, posted: Option<int>, post: bool) returns (r: Outcome)
      requires Valid()
      modifies this`cart
      ensures Valid()
      ensures !post ==> r == Ignored && cart == old(cart)
      ensures post ==>
        if EntryIndex(old(cart), cartId, user) < 0 then r == Failed(NotFound) && cart == old(cart)
        else r == Done && cart == UpdatedCart(old(cart), cartId, user, PostedQuantity(posted))
      ensures |cart| == |old(cart)|
      ensures forall i :: 0 <= i < |cart| ==>
        cart[i] == if post && old(cart)[i].id == cartId && old(cart)[i].user == user && PostedQuantity(posted) > 0
                   then old(cart)[i].(quantity := PostedQuantity(posted)) else old(cart)[i]
    {
      if !post {
        return Ignored;
      }
      var k := EntryIndex(cart, cartId, user);
      if k < 0 {
        return Failed(NotFound);
      }
      var quantity := PostedQuantity(posted);
      UpdatedCartValid(cart, products, nextCartId, cartId, user, quantity);
      UpdatedCartRows(cart, cartId, user, quantity);
      cart := UpdatedCart(cart, cartId, user, quantity);
      r := Done;
    }

    /** `remove_from_cart` (on any request method): 404 unless the row
        exists and is the caller's, else exactly that row is deleted. */
    method RemoveFromCart(user: UserId, cartId: CartId) returns (r: Outcome)
      requires Valid()
      modifies this`cart
      ensures Valid()
      ensures r == (if EntryIndex(old(cart), cartId, user) < 0 then Failed(NotFound) else Done)
      ensures cart == RemovedCart(old(cart), cartId, user)
      ensures forall e :: e in cart <==> e in old(cart) && !(e.id == cartId && e.user == user)
    {
      RemovedCartValid(cart, products, nextCartId, cartId, user);
      RemovedCartRows(cart, cartId, user);
      var k := EntryIndex(cart, cartId, user);
      cart := RemovedCart(cart, cartId, user);
      r := if k < 0 then Failed(NotFound) else Done;
    }

    /** `Order.objects.create(...)`: the order is stored under the next key. */
    method AddOrder(order: Order)
      requires Valid() && order.id == nextOrderId
      modifies this`orders, this`nextOrderId
      ensures Valid()
      ensures orders == old(orders) + [order] && nextOrderId == old(nextOrderId) + 1
    {
      OrdersAppendValid(orders, nextOrderId, order);
      orders := orders + [order];
      nextOrderId := nextOrderId + 1;
    }

    /** `Cart.objects.filter(user=user).delete()`: the caller's cart is
        emptied and every other user's row is kept. */
    method ClearCart(user: UserId)
      requires Valid()
      modifies this`cart
      ensures Valid()
      ensures cart == Filter(old(cart), NotOwnedBy(user))
      ensures UserCart(cart, user) == []
      ensures forall i :: 0 <= i < |old(cart)| && old(cart)[i].user != user ==> old(cart)[i] in cart
    {
      ClearedCart(cart, products, nextCartId, user);
      cart := Filter(cart, NotOwnedBy(user));
    }

    /** The loop of `checkout` that writes one `OrderItem` per cart row of
        `entries`, in order, under fresh keys. */
    method WriteItems(entries: seq<CartEntry>, order: OrderId)
      requires ItemsValid(orderItems, nextItemId) && Resolves(entries, products)
      modifies this`orderItems, this`nextItemId
      ensures ItemsValid(orderItems, nextItemId)
      ensures orderItems == old(orderItems) + SnapshotItems(entries, products, order, old(nextItemId))
      ensures nextItemId == old(nextItemId) + |entries|
    {
      var i := 0;
      while i < |entries|
        invariant 0 <= i <= |entries|
        invariant Resolves(entries[..i], products)
        invariant orderItems == old(orderItems) + SnapshotItems(entries[..i], products, order, old(nextItemId))
        invariant nextItemId == old(nextItemId) + i
        invariant ItemsValid(orderItems, nextItemId)
      {
        var item := Snapshot(nextItemId, order, entries[i], FindProduct(products, entries[i].product).value);
        SnapshotItemsPrefix(entries, products, order, old(nextItemId), i);
        ItemsAppendValid(orderItems, nextItemId, item);
        orderItems := orderItems + [item];
        nextItemId := nextItemId + 1;
        i := i + 1;
      }
      assert entries[..i] == entries;
    }

    /** `checkout`: refuse an empty cart; on GET show the cart and its total;
        on POST write one order carrying that total, one item per cart row
        (copying the row's quantity and the product's current price and
        vendor), then delete the caller's cart. Stock is never touched. */
    method Checkout(user: UserId, post: bool, address: Option<string>, city: Option<string>, zip: Option<string>)
      returns (r: CheckoutResult)
      requires Valid()
      modifies this`orders, this`orderItems, this`cart, this`nextOrderId, this`nextItemId
      ensures Valid()
      ensures products == old(products)
      ensures UserCart(old(cart), user) == [] ==>
        r == Refused(EmptyCart) && unchanged(this)
      ensures UserCart(old(cart), user) != [] && !post ==>
        Resolves(UserCart(old(cart), user), products) &&
        r == Review(UserCart(old(cart), user), CartTotal(UserCart(old(cart), user), products)) && unchanged(this)
      ensures UserCart(old(cart), user) != [] && post ==>
        var entries := UserCart(old(cart), user);
        && Resolves(entries, products)
        && r.Placed?
        && orders == old(orders) + [r.order]
        && r.order.id == old(nextOrderId)
        && r.order.user == user
        && IsOrderNumber(r.order.orderNumber)
        && r.order.totalAmount == CartTotal(entries, products)
        && r.order.shippingAddress == address && r.order.shippingCity == city && r.order.shippingZip == zip
        && orderItems == old(orderItems) + SnapshotItems(entries, products, r.order.id, old(nextItemId))
        && ItemsTotal(SnapshotItems(entries, products, r.order.id, old(nextItemId))) == r.order.totalAmount
        && cart == Filter(old(cart), NotOwnedBy(user))
        && UserCart(cart, user) == []
    {
      var entries := UserCart(cart, user);
      if entries == [] {
        return Refused(EmptyCart);
      }
      UserCartResolves(cart, products, user);
      var total := CartTotal(entries, products);
      if !post {
        return Review(entries, total);
      }
      var order := PlaceOrder(user, entries, address, city, zip);
      ClearCart(user);
      r := Placed(order);
    }

    /** The writes of `checkout` on POST for the caller's cart rows
        `entries`: the order carrying their total, then one item per row. */
    method PlaceOrder(user: UserId, entries: seq<CartEntry>, address: Option<string>, city: Option<string>, zip: Option<string>)
      returns (order: Order)
      requires Valid() && Resolves(entries, products)
      modifies this`orders, this`orderItems, this`nextOrderId, this`nextItemId
      ensures Valid()
      ensures orders == old(orders) + [order]
      ensures order.id == old(nextOrderId) && order.user == user
      ensures IsOrderNumber(order.orderNumber)
      ensures order.totalAmount == CartTotal(entries, products)
      ensures order.shippingAddress == address && order.shippingCity == city && order.shippingZip == zip
      ensures orderItems == old(orderItems) + SnapshotItems(entries, products, order.id, old(nextItemId))
      ensures ItemsTotal(SnapshotItems(entries, products, order.id, old(nextItemId))) == order.totalAmount
    {
      assert IsOrderNumber("00000000");
      var number :| IsOrderNumber(number);
      order := Order(nextOrderId, user, number, CartTotal(entries, products), address, city, zip);
      AddOrder(order);
      WriteItems(entries, order.id);
      SnapshotItemsTotal(entries, products, order.id, old(nextItemId));
    }

    /** `product_create`: only vendors; on a valid POST, a new product owned
        by the caller, with the slug derived from its name. */
    method ProductCreate(user: User, post: bool, formValid: bool, form: ProductForm) returns (r: Outcome)
      requires Valid()
      modifies this`products, this`nextProductId
      ensures Valid()
      ensures user.role != Vendor ==> r == Failed(Forbidden)
      ensures user.role == Vendor && !(post && formValid) ==> r == Ignored
      ensures user.role == Vendor && post && formValid ==> r == Done
      ensures r != Done ==> products == old(products) && nextProductId == old(nextProductId)
      ensures r == Done ==>
        && nextProductId == old(nextProductId) + 1
        && products == old(products) + [Product(old(nextProductId), user.id, form.category, form.name, slugOf(form.name),
                                                 form.description, form.price, form.stock, form.image, form.isActive)]
    {
      if user.role != Vendor {
        return Failed(Forbidden);
      }
      if !(post && formValid) {
        return Ignored;
      }
      var p := Product(nextProductId, user.id, form.category, form.name, slugOf(form.name),
                       form.description, form.price, form.stock, form.image, form.isActive);
      ProductsAppendValid(products, nextProductId, p);
      CartProductsAppendValid(cart, products, nextCartId, p);
      products := products + [p];
      nextProductId := nextProductId + 1;
      r := Done;
    }

    /** `product_edit`: 404 unless the product exists and the caller is its
        vendor (the caller's role is not checked); on a valid POST the form's
        fields replace the row's. */
    method ProductEdit(user: User, productId: ProductId, post: bool, formValid: bool, form: ProductForm)
      returns (r: Outcome)
      requires Valid()
      modifies this`products
      ensures Valid()
      ensures
        var k := OwnedProductIndex(old(products), productId, user.id);
        if k < 0 then r == Failed(NotFound) && products == old(products)
        else if post && formValid then r == Done && products == old(products)[k := Edited(old(products)[k], form)]
        else r == Ignored && products == old(products)
    {
      var k := OwnedProductIndex(products, productId, user.id);
      if k < 0 {
        return Failed(NotFound);
      }
      if !(post && formValid) {
        return Ignored;
      }
      var p := Edited(products[k], form);
      assert forall i :: 0 <= i < |products| ==> ProductRowId(products[k := p][i]) == ProductRowId(products[i]);
      AscendingIff(products, ProductRowId);
      AscendingIff(products[k := p], ProductRowId);
      CartProductEditValid(cart, products, nextCartId, k, p);
      products := products[k := p];
      r := Done;
    }

    /** The cascade of a product delete onto `Cart`: every row for the product goes. */
    method DeleteCartRowsOf(productId: ProductId)
      requires Valid()
      modifies this`cart
      ensures Valid()
      ensures cart == Filter(old(cart), CartNotFor(productId))
      ensures forall i :: 0 <= i < |cart| ==> cart[i].product != productId
    {
      CartFilterValid(cart, products, nextCartId, CartNotFor(productId));
      cart := Filter(cart, CartNotFor(productId));
    }

    /** The cascade of a product delete onto `OrderItem`: every item for the product goes. */
    method DeleteItemsOf(productId: ProductId)
      requires Valid()
      modifies this`orderItems
      ensures Valid()
      ensures orderItems == Filter(old(orderItems), ItemNotFor(productId))
      ensures forall i :: 0 <= i < |orderItems| ==> orderItems[i].product != productId
    {
      ItemsFilterValid(orderItems, nextItemId, ItemNotFor(productId));
      orderItems := Filter(orderItems, ItemNotFor(productId));
    }

    /** Deleting the product row at `k` once nothing refers to it. */
    method DeleteProductRow(k: nat)
      requires Valid() && k < |products|
      requires forall i :: 0 <= i < |cart| ==> cart[i].product != products[k].id
      modifies this`products
      ensures Valid()
      ensures products == old(products)[..k] + old(products)[k + 1..]
      ensures forall p :: p in products <==> p in old(products) && p.id != old(products)[k].id
    {
      RemoveAtKey(products, k, ProductRowId);
      ProductsRemoveValid(products, nextProductId, k);
      CartProductRemoveValid(cart, products, nextCartId, k);
      products := products[..k] + products[k + 1..];
    }

    /** `product_delete`: 404 unless the product exists and the caller is
        its vendor (the caller's role is not checked); on POST the row is
        deleted together with the cart rows and order items that refer to it. */
    method ProductDelete(user: User, productId: ProductId, post: bool) returns (r: Outcome)
      requires Valid()
      modifies this`products, this`cart, this`orderItems
      ensures Valid()
      ensures
        var k := OwnedProductIndex(old(products), productId, user.id);
        if k < 0 then r == Failed(NotFound) && unchanged(this)
        else if !post then r == Ignored && unchanged(this)
        else
          && r == Done
          && products == old(products)[..k] + old(products)[k + 1..]
          && (forall p :: p in products <==> p in old(products) && p.id != productId)
          && cart == Filter(old(cart), CartNotFor(productId))
          && orderItems == Filter(old(orderItems), ItemNotFor(productId))
    {
      var k := OwnedProductIndex(products, productId, user.id);
      if k < 0 {
        return Failed(NotFound);
      }
      if !post {
        return Ignored;
      }
      DeleteCartRowsOf(productId);
      DeleteItemsOf(productId);
      DeleteProductRow(k);
      r := Done;
    }
  }
}
