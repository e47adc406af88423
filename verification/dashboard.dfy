/** `vendor_dashboard` of myapp/views.py: a vendor's products and the
    counts and sums shown above them. */
module Dashboard {
  import opened Seqs
  import opened Tables

  /** The test of `Product.objects.filter(vendor=user)`. */
  function ListedBy(vendor: UserId): Product -> bool
  {
    (p: Product) => p.vendor == vendor
  }

  /** The test of `OrderItem.objects.filter(vendor=user)`. */
  function SoldBy(vendor: UserId): OrderItem -> bool
  {
    (i: OrderItem) => i.vendor == vendor
  }

  /** `items.values('order').distinct()`: the keys of the orders the items belong to. */
  function OrderIds(items: seq<OrderItem>): (r: set<OrderId>)
    ensures forall o :: o in r <==> exists i :: 0 <= i < |items| && items[i].order == o
    ensures |r| <= |items|
  {
    if items == [] then {}
    else
      var rest := OrderIds(items[1..]);
      {items[0].order} + rest
  }

  /** `Sum('price')` over the items, `or 0` when there are none: unit
      prices added up, quantities not counted. */
  function Revenue(items: seq<OrderItem>): (r: int)
    ensures (forall i :: 0 <= i < |items| ==> items[i].price >= 0) ==> r >= 0
    ensures items == [] ==> r == 0
  {
    if items == [] then 0 else items[0].price + Revenue(items[1..])
  }

  datatype VendorPage = VendorPage(
    products: seq<Product>,
    recent: seq<OrderItem>,
    totalProducts: nat,
    totalOrders: nat,
    totalRevenue: int)

  /** `vendor_dashboard`: non-vendors are sent away (None); a vendor sees
      their products, their first ten order items, the number of their
      products, the number of distinct orders with an item of theirs, and
      the sum of those items' unit prices. */
  function VendorDashboard(user: User, products: seq<Product>, items: seq<OrderItem>): (r: Option<VendorPage>)
    ensures r.None? <==> user.role != Vendor
    ensures r.Some? ==>
      && Subsequence(r.value.products, products)
      && (forall i :: 0 <= i < |r.value.products| ==> r.value.products[i] in products && r.value.products[i].vendor == user.id)
      && (forall i :: 0 <= i < |products| && products[i].vendor == user.id ==> products[i] in r.value.products)
      && r.value.totalProducts == |r.value.products|
      && (forall i :: 0 <= i < |r.value.recent| ==> r.value.recent[i] in items && r.value.recent[i].vendor == user.id)
      && r.value.recent <= Filter(items, SoldBy(user.id))
      && |r.value.recent| == Min(10, |Filter(items, SoldBy(user.id))|)
      && r.value.totalOrders == |OrderIds(Filter(items, SoldBy(user.id)))|
      && r.value.totalOrders <= |Filter(items, SoldBy(user.id))|
      && (forall i :: 0 <= i < |items| && items[i].vendor == user.id ==> items[i].order in OrderIds(Filter(items, SoldBy(user.id))))
      && r.value.totalRevenue == Revenue(Filter(items, SoldBy(user.id)))
  {
    if user.role != Vendor then None
    else
      var mine := Filter(products, ListedBy(user.id));
      var sold := Filter(items, SoldBy(user.id));
      Some(VendorPage(mine, Take(sold, 10), |mine|, |OrderIds(sold)|, Revenue(sold)))
  }

  /** The revenue does not depend on quantities: items with the same
      prices give the same revenue whatever was bought of them. */
  lemma {:induction false} RevenueIgnoresQuantity(a: seq<OrderItem>, b: seq<OrderItem>)
    requires |a| == |b| && forall i :: 0 <= i < |a| ==> a[i].price == b[i].price
    ensures Revenue(a) == Revenue(b)
  {
    if a != [] {
      RevenueIgnoresQuantity(a[1..], b[1..]);
    }
  }

  /** With non-negative prices and at least one unit per item, the
      dashboard's revenue never exceeds what the items were sold for, and
      equals it exactly when every item is a single unit. */
  lemma {:induction false} RevenueAtMostSales(items: seq<OrderItem>)
    requires forall i :: 0 <= i < |items| ==> items[i].price >= 0 && items[i].quantity >= 1
    ensures Revenue(items) <= ItemsTotal(items)
    ensures (forall i :: 0 <= i < |items| ==> items[i].quantity == 1) ==> Revenue(items) == ItemsTotal(items)
  {
    if items != [] {
      RevenueAtMostSales(items[1..]);
      var x := items[0];
      assert x.price * x.quantity >= x.price * 1 by {
        assert x.price * x.quantity - x.price == x.price * (x.quantity - 1);
      }
    }
  }

  /** One order line of three units at 100: the dashboard reports 100 of
      revenue for 300 of sales. */
  lemma RevenueExample()
    ensures Revenue([OrderItem(1, 1, 1, 2, 3, 100)]) == 100
    ensures ItemsTotal([OrderItem(1, 1, 1, 2, 3, 100)]) == 300
  {
    assert [OrderItem(1, 1, 1, 2, 3, 100)][1..] == [];
  }
}
