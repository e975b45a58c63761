/**
 Properties of purchase-order creation. `Applied` describes, in closed form,
 the store after the per-line loop has fully processed a prefix of the
 request: every line of the prefix appended with its snapshot price, and every
 product's stock lowered by the amounts the prefix requested of it.
 */
module PurchaseProofs {
  import opened Wrappers
  import opened Models
  import opened Errors
  import opened Schemas
  import opened Repositories
  import opened Services

  /** The link row the loop writes for one item. */
  function LineFor(orderId: int, it: PurchaseItem, snapshot: map<int, Product>): OrderLine
  {
    OrderLine(orderId, it.productId, it.amount,
              if it.productId in snapshot then snapshot[it.productId].price else 0)
  }

  /** The link rows for a sequence of items, in order. */
  function LinesFor(orderId: int, items: seq<PurchaseItem>, snapshot: map<int, Product>): (ls: seq<OrderLine>)
    ensures |ls| == |items|
    ensures forall j :: 0 <= j < |items| ==> ls[j] == LineFor(orderId, items[j], snapshot)
  {
    seq(|items|, j requires 0 <= j < |items| => LineFor(orderId, items[j], snapshot))
  }

  /** The total amount the items request of one product. */
  function AmountFor(items: seq<PurchaseItem>, productId: int): int
  {
    if |items| == 0 then 0
    else AmountFor(items[..|items| - 1], productId)
         + (if items[|items| - 1].productId == productId then items[|items| - 1].amount else 0)
  }

  /** Every product's stock lowered by what the items request of it. */
  function Decremented(products: ProductTable, items: seq<PurchaseItem>): (r: ProductTable)
    ensures r.Keys == products.Keys
  {
    map k | k in products :: products[k].(stock := products[k].stock - AmountFor(items, k))
  }

  /** The store after the loop has written and decremented every item of `items`. */
  function Applied(st: Store, orderId: int, items: seq<PurchaseItem>, snapshot: map<int, Product>): Store
  {
    st.(links := st.links + LinesFor(orderId, items, snapshot), products := Decremented(st.products, items))
  }

  /** No two items name the same product. */
  predicate DistinctPids(items: seq<PurchaseItem>)
  {
    forall a, b :: 0 <= a < b < |items| ==> items[a].productId != items[b].productId
  }

  /** Every item passes the stock check against the snapshot. */
  predicate AllStocked(items: seq<PurchaseItem>, snapshot: map<int, Product>)
  {
    forall j :: 0 <= j < |items| ==> Stocked(items[j], snapshot)
  }

  /** Every requested product is stored. */
  predicate AllPresent(s: Store, items: seq<PurchaseItem>)
  {
    forall j :: 0 <= j < |items| ==> items[j].productId in s.products
  }

  /** The sum of amount times unit price over link rows. */
  function SumLines(ls: seq<OrderLine>): int
  {
    if |ls| == 0 then 0 else ls[0].amount * ls[0].unitPrice + SumLines(ls[1..])
  }

  // ---------------------------------------------------------------------------
  // The batch lookup and the snapshot
  // ---------------------------------------------------------------------------

  /** A list without repeated ids has as many distinct ids as entries. */
  lemma {:induction false} DistinctCard(xs: seq<int>)
    requires forall j, k :: 0 <= j < k < |xs| ==> xs[j] != xs[k]
    ensures |ToSet(xs)| == |xs|
    decreases |xs|
  {
    if |xs| > 0 {
      var last := xs[|xs| - 1];
      var init := xs[..|xs| - 1];
      assert xs == init + [last];
      assert ToSet(xs) == ToSet(init) + {last};
      assert last !in ToSet(init);
      DistinctCard(init);
    } else {
      assert ToSet(xs) == {};
    }
  }

  /** The requested ids that have a stored product. */
  function PresentIds(s: Store, ids: seq<int>): set<int>
  {
    set id | id in ids && id in s.products
  }

  /** The lookup returns one product per distinct requested id that is stored. */
  lemma LookupSize(s: Store, ids: seq<int>)
    ensures |GetProductsByIds(s, ids)| == |PresentIds(s, ids)|
  {
    var found := GetProductsByIds(s, ids);
    var foundIds := seq(|found|, i requires 0 <= i < |found| => found[i].id);
    DistinctCard(foundIds);
    assert ToSet(foundIds) == PresentIds(s, ids) by {
      forall id | id in PresentIds(s, ids)
        ensures id in ToSet(foundIds)
      {
        var i :| 0 <= i < |found| && found[i] == s.products[id];
        assert foundIds[i] == id;
      }
    }
  }

  /**
   The lookup's size check: the number of fetched products differs from the
   number of distinct requested ids exactly when some requested id is not stored.
   */
  lemma LookupCountDetectsMissing(s: Store, ids: seq<int>)
    ensures |GetProductsByIds(s, ids)| != |ToSet(ids)| <==> exists j :: 0 <= j < |ids| && ids[j] !in s.products
  {
    LookupSize(s, ids);
    var present := PresentIds(s, ids);
    if exists j :: 0 <= j < |ids| && ids[j] !in s.products {
      var j :| 0 <= j < |ids| && ids[j] !in s.products;
      assert ids[j] in ToSet(ids) && ids[j] !in present;
      SubsetCard(present, ToSet(ids) - {ids[j]});
    } else {
      assert ToSet(ids) == present;
    }
  }

  /** When every requested product is stored, the snapshot maps each requested id to its stored row. */
  lemma SnapshotIsStoredRows(s: Store, items: seq<PurchaseItem>)
    requires AllPresent(s, items)
    ensures var snapshot := ProductMap(GetProductsByIds(s, ProductIds(items)));
      && (forall k :: k in snapshot <==> k in ProductIds(items))
      && (forall k :: k in snapshot ==> snapshot[k] == s.products[k])
  {
    var ids := ProductIds(items);
    var found := GetProductsByIds(s, ids);
    var snapshot := ProductMap(found);
    forall k | k in ids
      ensures k in snapshot
    {
      var i :| 0 <= i < |found| && found[i] == s.products[k];
    }
  }

  // ---------------------------------------------------------------------------
  // Totals
  // ---------------------------------------------------------------------------

  /** The price total equals the sum of amount times unit price over the lines the loop writes. */
  lemma {:induction false} TotalMatchesLines(orderId: int, items: seq<PurchaseItem>, snapshot: map<int, Product>)
    requires forall j :: 0 <= j < |items| ==> items[j].productId in snapshot
    ensures SumLines(LinesFor(orderId, items, snapshot)) == SumPrices(items, snapshot)
    decreases |items|
  {
    if |items| > 0 {
      assert LinesFor(orderId, items, snapshot)[1..] == LinesFor(orderId, items[1..], snapshot);
      TotalMatchesLines(orderId, items[1..], snapshot);
    }
  }

  // ---------------------------------------------------------------------------
  // The per-line loop
  // ---------------------------------------------------------------------------

  /** A request's amounts for a product it does not name add up to 0. */
  lemma {:induction false} AmountForAbsent(items: seq<PurchaseItem>, productId: int)
    requires productId !in ProductIds(items)
    ensures AmountFor(items, productId) == 0
    decreases |items|
  {
    if |items| > 0 {
      var init := items[..|items| - 1];
      assert forall j :: 0 <= j < |init| ==> ProductIds(init)[j] == ProductIds(items)[j];
      AmountForAbsent(init, productId);
    }
  }

  /** The lines of a prefix one item longer gain that item's line at the end. */
  lemma LinesForSnoc(orderId: int, items: seq<PurchaseItem>, snapshot: map<int, Product>, i: nat)
    requires i < |items|
    ensures LinesFor(orderId, items[..i + 1], snapshot)
         == LinesFor(orderId, items[..i], snapshot) + [LineFor(orderId, items[i], snapshot)]
  {
    var a := LinesFor(orderId, items[..i + 1], snapshot);
    var b := LinesFor(orderId, items[..i], snapshot) + [LineFor(orderId, items[i], snapshot)];
    forall j | 0 <= j < |a|
      ensures a[j] == b[j]
    {
      if j < i {
        assert items[..i + 1][j] == items[..i][j];
      }
    }
  }

  /** Decrementing by a prefix one item longer lowers that item's product once more. */
  lemma DecrementedSnoc(products: ProductTable, items: seq<PurchaseItem>, i: nat)
    requires i < |items|
    requires items[i].productId in products
    ensures var d := Decremented(products, items[..i]);
            var pid := items[i].productId;
            Decremented(products, items[..i + 1]) == d[pid := d[pid].(stock := d[pid].stock - items[i].amount)]
  {
    var it := items[i];
    var d := Decremented(products, items[..i]);
    var d1 := Decremented(products, items[..i + 1]);
    var upd := d[it.productId := d[it.productId].(stock := d[it.productId].stock - it.amount)];
    assert items[..i + 1][..i] == items[..i];
    forall k | k in d1
      ensures d1[k] == upd[k]
    {
      assert AmountFor(items[..i + 1], k)
          == AmountFor(items[..i], k) + (if it.productId == k then it.amount else 0);
    }
    assert d1 == upd;
  }

  /** The closed form one item further on is the item's line appended and its decrement applied. */
  lemma AppliedSnoc(st: Store, orderId: int, items: seq<PurchaseItem>, snapshot: map<int, Product>, i: nat)
    requires i < |items|
    requires items[i].productId in st.products
    ensures var a := Applied(st, orderId, items[..i], snapshot);
            var it := items[i];
            var a1 := a.(links := a.links + [LineFor(orderId, it, snapshot)]);
            var p := a1.products[it.productId];
      Applied(st, orderId, items[..i + 1], snapshot) == a1.(products := a1.products[it.productId := p.(stock := p.stock - it.amount)])
  {
    LinesForSnoc(orderId, items, snapshot, i);
    DecrementedSnoc(st.products, items, i);
  }

  /**
   The loop from item `i`, started on the closed form of the first `i` items,
   ends in the closed form of the items it completed. A failed line write
   leaves the completed prefix; a refused decrement leaves the completed
   prefix plus the failing item's line, whose stock was short at that point.
   */
  lemma {:induction false} ApplyLinesShape(st: Store, orderId: int, items: seq<PurchaseItem>,
                                          snapshot: map<int, Product>, i: nat)
    requires i <= |items|
    ensures var r := ApplyLines(Applied(st, orderId, items[..i], snapshot), orderId, items, snapshot, i);
      && (r.0.AllApplied? ==> r.1 == Applied(st, orderId, items, snapshot))
      && (r.0.ItemFailed? ==>
            var k := r.0.index;
            var before := Applied(st, orderId, items[..k], snapshot);
            && r.1 == before
            && (items[k].productId !in snapshot || HasLine(before.links, orderId, items[k].productId)))
      && (r.0.StockFailed? ==>
            var k := r.0.index;
            var before := Applied(st, orderId, items[..k], snapshot);
            && r.1 == before.(links := before.links + [LineFor(orderId, items[k], snapshot)])
            && (items[k].productId !in st.products
                || st.products[items[k].productId].stock - AmountFor(items[..k], items[k].productId)
                   < items[k].amount))
    decreases |items| - i
  {
    if i < |items| {
      var a := Applied(st, orderId, items[..i], snapshot);
      var it := items[i];
      if it.productId in snapshot && !HasLine(a.links, orderId, it.productId) {
        var a1 := a.(links := a.links + [LineFor(orderId, it, snapshot)]);
        var (ok, a2) := UpdateProductStock(a1, it.productId, it.amount);
        if ok {
          assert it.productId in st.products;
          AppliedSnoc(st, orderId, items, snapshot, i);
          ApplyLinesShape(st, orderId, items, snapshot, i + 1);
        }
      }
    } else {
      assert items[..i] == items;
    }
  }

  /** The closed form of no items is the store itself. */
  lemma AppliedNothing(st: Store, orderId: int, items: seq<PurchaseItem>, snapshot: map<int, Product>)
    ensures Applied(st, orderId, items[..0], snapshot) == st
  {
    assert items[..0] == [];
    assert st.links + LinesFor(orderId, items[..0], snapshot) == st.links;
    assert Decremented(st.products, items[..0]) == st.products;
  }

  /** The store a refused decrement leaves, spelled out against the store the loop started from. */
  lemma StockFailedStore(st: Store, orderId: int, items: seq<PurchaseItem>, snapshot: map<int, Product>,
                         k: nat, r: Store)
    requires k < |items|
    requires var before := Applied(st, orderId, items[..k], snapshot);
      r == before.(links := before.links + [LineFor(orderId, items[k], snapshot)])
    ensures r.orders == st.orders && r.nextOrderId == st.nextOrderId
    ensures r.links == st.links + LinesFor(orderId, items[..k + 1], snapshot)
    ensures forall p :: p in r.products ==>
              p in st.products && r.products[p] == st.products[p].(stock := st.products[p].stock - AmountFor(items[..k], p))
  {
    LinesForSnoc(orderId, items, snapshot, k);
  }

  /**
   A refused stock decrement fails the loop but keeps every earlier line and
   decrement and the failing item's own line.
   */
  lemma StockFailureKeepsEarlierWrites(st: Store, orderId: int, items: seq<PurchaseItem>,
                                       snapshot: map<int, Product>)
    ensures var r := ApplyLines(st, orderId, items, snapshot, 0);
      r.0.StockFailed? ==>
        var k := r.0.index;
        && k < |items|
        && r.1.orders == st.orders && r.1.nextOrderId == st.nextOrderId
        && r.1.links == st.links + LinesFor(orderId, items[..k + 1], snapshot)
        && (forall p :: p in r.1.products ==>
              p in st.products && r.1.products[p] == st.products[p].(stock := st.products[p].stock - AmountFor(items[..k], p)))
  {
    AppliedNothing(st, orderId, items, snapshot);
    ApplyLinesShape(st, orderId, items, snapshot, 0);
    var r := ApplyLines(st, orderId, items, snapshot, 0);
    if r.0.StockFailed? {
      StockFailedStore(st, orderId, items, snapshot, r.0.index, r.1);
    }
  }

  // ---------------------------------------------------------------------------
  // The loop run right after the order row is written
  // ---------------------------------------------------------------------------

  /** With no earlier line of the order, the order has a line for a product exactly when the prefix named it. */
  lemma HasLineApplied(st: Store, orderId: int, items: seq<PurchaseItem>, snapshot: map<int, Product>, productId: int)
    requires forall j :: 0 <= j < |st.links| ==> st.links[j].orderId != orderId
    ensures HasLine(st.links + LinesFor(orderId, items, snapshot), orderId, productId)
            <==> productId in ProductIds(items)
  {
    var all := st.links + LinesFor(orderId, items, snapshot);
    if HasLine(all, orderId, productId) {
      var i :| 0 <= i < |all| && all[i].orderId == orderId && all[i].productId == productId;
      assert ProductIds(items)[i - |st.links|] == productId;
    }
    if productId in ProductIds(items) {
      var j :| 0 <= j < |items| && ProductIds(items)[j] == productId;
      assert all[|st.links| + j].productId == productId;
    }
  }

  /** A prefix without repeats stays without repeats when the next item names a new product. */
  lemma DistinctSnoc(items: seq<PurchaseItem>, i: nat)
    requires i < |items|
    requires DistinctPids(items[..i])
    requires items[i].productId !in ProductIds(items[..i])
    ensures DistinctPids(items[..i + 1])
  {
    var pre := items[..i + 1];
    forall x, y | 0 <= x < y < |pre|
      ensures pre[x].productId != pre[y].productId
    {
      if y == i {
        assert ProductIds(items[..i])[x] == items[x].productId;
      } else {
        assert items[..i][x] == items[x] && items[..i][y] == items[y];
      }
    }
  }

  /** An item naming a product of the prefix before it makes the request repeat a product. */
  lemma RepeatNotDistinct(items: seq<PurchaseItem>, i: nat)
    requires i < |items|
    requires items[i].productId in ProductIds(items[..i])
    ensures !DistinctPids(items)
  {
    var m :| 0 <= m < i && ProductIds(items[..i])[m] == items[i].productId;
    assert items[m].productId == items[i].productId;
  }

  /** An item naming a product the prefix already wrote cannot get its line. */
  lemma RepeatItemStep(st: Store, orderId: int, items: seq<PurchaseItem>, snapshot: map<int, Product>, i: nat)
    requires i < |items|
    requires forall j :: 0 <= j < |st.links| ==> st.links[j].orderId != orderId
    requires items[i].productId in ProductIds(items[..i])
    ensures ApplyLines(Applied(st, orderId, items[..i], snapshot), orderId, items, snapshot, i).0 == ItemFailed(i)
  {
    HasLineApplied(st, orderId, items[..i], snapshot, items[i].productId);
  }

  /** The line of an item naming a new product is accepted. */
  lemma FreshLineAccepted(st: Store, orderId: int, items: seq<PurchaseItem>, snapshot: map<int, Product>, i: nat)
    requires i < |items|
    requires forall j :: 0 <= j < |st.links| ==> st.links[j].orderId != orderId
    requires items[i].productId in snapshot
    requires items[i].productId !in ProductIds(items[..i])
    ensures var a := Applied(st, orderId, items[..i], snapshot);
            var it := items[i];
            AddProductToClientOrder(a, orderId, it.productId, it.amount, snapshot[it.productId].price)
              == (Success(LineFor(orderId, it, snapshot)), a.(links := a.links + [LineFor(orderId, it, snapshot)]))
  {
    HasLineApplied(st, orderId, items[..i], snapshot, items[i].productId);
  }

  /** The decrement of an item naming a new product finds the snapshot's stock and completes the closed form. */
  lemma FreshDecrementAccepted(st: Store, orderId: int, items: seq<PurchaseItem>, snapshot: map<int, Product>, i: nat)
    requires i < |items|
    requires Stocked(items[i], snapshot)
    requires items[i].productId in st.products && st.products[items[i].productId].stock == snapshot[items[i].productId].stock
    requires items[i].productId !in ProductIds(items[..i])
    ensures var a := Applied(st, orderId, items[..i], snapshot);
            var it := items[i];
            var a1 := a.(links := a.links + [LineFor(orderId, it, snapshot)]);
            UpdateProductStock(a1, it.productId, it.amount) == (true, Applied(st, orderId, items[..i + 1], snapshot))
  {
    var a := Applied(st, orderId, items[..i], snapshot);
    var it := items[i];
    var a1 := a.(links := a.links + [LineFor(orderId, it, snapshot)]);
    var next := Applied(st, orderId, items[..i + 1], snapshot);
    AmountForAbsent(items[..i], it.productId);
    assert a1.products[it.productId].stock == snapshot[it.productId].stock;
    AppliedSnoc(st, orderId, items, snapshot, i);
    assert UpdateProductStock(a1, it.productId, it.amount).0;
  }

  /** An item naming a new product that the snapshot stocks gets its line and its decrement. */
  lemma FreshItemStep(st: Store, orderId: int, items: seq<PurchaseItem>, snapshot: map<int, Product>, i: nat)
    requires i < |items|
    requires forall j :: 0 <= j < |st.links| ==> st.links[j].orderId != orderId
    requires Stocked(items[i], snapshot)
    requires forall k :: k in snapshot ==> k in st.products && st.products[k].stock == snapshot[k].stock
    requires items[i].productId !in ProductIds(items[..i])
    ensures ApplyLines(Applied(st, orderId, items[..i], snapshot), orderId, items, snapshot, i)
         == ApplyLines(Applied(st, orderId, items[..i + 1], snapshot), orderId, items, snapshot, i + 1)
  {
    FreshLineAccepted(st, orderId, items, snapshot, i);
    FreshDecrementAccepted(st, orderId, items, snapshot, i);
  }

  /**
   Run on a store that holds no line of the order and whose stock agrees with
   a snapshot every item passes, the loop never meets a refused decrement: it
   completes exactly when no product is named twice, and otherwise stops at
   the first repeated product.
   */
  lemma {:induction false} SequentialApply(st: Store, orderId: int, items: seq<PurchaseItem>,
                                          snapshot: map<int, Product>, i: nat)
    requires i <= |items|
    requires forall j :: 0 <= j < |st.links| ==> st.links[j].orderId != orderId
    requires AllStocked(items, snapshot)
    requires forall k :: k in snapshot ==> k in st.products && st.products[k].stock == snapshot[k].stock
    requires DistinctPids(items[..i])
    ensures var r := ApplyLines(Applied(st, orderId, items[..i], snapshot), orderId, items, snapshot, i);
      && !r.0.StockFailed?
      && (r.0.AllApplied? <==> DistinctPids(items))
      && (r.0.ItemFailed? ==>
            DistinctPids(items[..r.0.index]) && items[r.0.index].productId in ProductIds(items[..r.0.index]))
    decreases |items| - i
  {
    if i < |items| {
      assert Stocked(items[i], snapshot);
      if items[i].productId in ProductIds(items[..i]) {
        RepeatItemStep(st, orderId, items, snapshot, i);
        RepeatNotDistinct(items, i);
      } else {
        FreshItemStep(st, orderId, items, snapshot, i);
        DistinctSnoc(items, i);
        SequentialApply(st, orderId, items, snapshot, i + 1);
      }
    } else {
      assert items[..i] == items;
    }
  }

  /** With distinct products, each requested product's amount is what its one item asks. */
  lemma {:induction false} AmountForDistinct(items: seq<PurchaseItem>, j: nat)
    requires j < |items|
    requires DistinctPids(items)
    ensures AmountFor(items, items[j].productId) == items[j].amount
    decreases |items|
  {
    var n := |items| - 1;
    var init := items[..n];
    assert DistinctPids(init) by {
      forall x, y | 0 <= x < y < |init|
        ensures init[x].productId != init[y].productId
      {
        assert init[x] == items[x] && init[y] == items[y];
      }
    }
    if j < n {
      assert init[j] == items[j];
      AmountForDistinct(init, j);
    } else {
      assert items[j].productId !in ProductIds(init) by {
        forall x | 0 <= x < |init|
          ensures ProductIds(init)[x] != items[j].productId
        {
          assert init[x] == items[x];
        }
      }
      AmountForAbsent(init, items[j].productId);
    }
  }

  /**
   With distinct products, each requested product loses exactly its item's
   amount and every product no item names keeps its row.
   */
  lemma DecrementedEffect(products: ProductTable, items: seq<PurchaseItem>)
    requires forall j :: 0 <= j < |items| ==> items[j].productId in products
    requires DistinctPids(items)
    ensures var r := Decremented(products, items);
      && (forall j :: 0 <= j < |items| ==>
            items[j].productId in r && r[items[j].productId].stock == products[items[j].productId].stock - items[j].amount)
      && (forall k :: k in products && k !in ProductIds(items) ==> k in r && r[k] == products[k])
  {
    forall j | 0 <= j < |items|
      ensures AmountFor(items, items[j].productId) == items[j].amount
    {
      AmountForDistinct(items, j);
    }
    forall k | k in products && k !in ProductIds(items)
      ensures AmountFor(items, k) == 0
    {
      AmountForAbsent(items, k);
    }
  }

  /** Two price tables that agree on every requested product give the same lines and the same total. */
  lemma {:induction false} SnapshotsAgree(orderId: int, items: seq<PurchaseItem>, m1: map<int, Product>, m2: map<int, Product>)
    requires forall j :: 0 <= j < |items| ==>
      items[j].productId in m1 && items[j].productId in m2 && m1[items[j].productId] == m2[items[j].productId]
    ensures LinesFor(orderId, items, m1) == LinesFor(orderId, items, m2)
    ensures SumPrices(items, m1) == SumPrices(items, m2)
    decreases |items|
  {
    if |items| > 0 {
      SnapshotsAgree(orderId, items[1..], m1, m2);
    }
  }

  // ---------------------------------------------------------------------------
  // Purchase outcomes
  // ---------------------------------------------------------------------------

  /**
   A request naming a product that is not stored fails with the list of
   requested ids that have no product, and writes nothing.
   */
  lemma PurchaseMissingProduct(s: Store, userId: int, items: seq<PurchaseItem>, now: nat)
    requires exists j :: 0 <= j < |items| && items[j].productId !in s.products
    ensures var r := CreatePurchaseOrder(s, userId, items, now);
      && r.1 == s
      && r.0.Failure? && r.0.error.ProductsNotFound?
      && |r.0.error.missing| > 0
      && (forall id :: id in r.0.error.missing <==> id in ProductIds(items) && id !in s.products)
  {
    var ids := ProductIds(items);
    var found := GetProductsByIds(s, ids);
    LookupCountDetectsMissing(s, ids);
    var j :| 0 <= j < |items| && items[j].productId !in s.products;
    assert ids[j] !in s.products;
    var m := MissingIds(ids, found);
    forall id
      ensures id in m <==> id in ids && id !in s.products
    {
      if id in ids && id !in s.products {
        assert forall x :: 0 <= x < |found| ==> found[x].id != id;
      }
    }
    assert ids[j] in m;
  }

  /** The snapshot agrees with the store on every requested product. */
  lemma SnapshotAgrees(s: Store, items: seq<PurchaseItem>)
    requires AllPresent(s, items)
    ensures var snapshot := ProductMap(GetProductsByIds(s, ProductIds(items)));
      forall j :: 0 <= j < |items| ==>
        items[j].productId in snapshot && snapshot[items[j].productId] == s.products[items[j].productId]
  {
    SnapshotIsStoredRows(s, items);
    var snapshot := ProductMap(GetProductsByIds(s, ProductIds(items)));
    forall j | 0 <= j < |items|
      ensures items[j].productId in snapshot
    {
      assert ProductIds(items)[j] == items[j].productId;
    }
  }

  /** The snapshot the purchase prices and checks against. */
  function Snapshot(s: Store, items: seq<PurchaseItem>): map<int, Product>
  {
    ProductMap(GetProductsByIds(s, ProductIds(items)))
  }

  /** When every requested product is stored, the lookup's size check passes. */
  lemma LookupFindsAll(s: Store, items: seq<PurchaseItem>)
    requires AllPresent(s, items)
    ensures |GetProductsByIds(s, ProductIds(items))| == |ToSet(ProductIds(items))|
  {
    LookupCountDetectsMissing(s, ProductIds(items));
  }

  /**
   When every requested product is stored, the stock check against the
   snapshot passes exactly when every item is stocked in the store, and then
   totals the store's prices.
   */
  lemma StockCheckPassesOnStore(s: Store, items: seq<PurchaseItem>)
    requires AllPresent(s, items)
    ensures var c := CheckStock(items, Snapshot(s, items), 0, 0);
      && (c.Success? <==> AllStocked(items, s.products))
      && (c.Success? ==> c.value == SumPrices(items, s.products))
  {
    var snap := Snapshot(s, items);
    SnapshotAgrees(s, items);
    forall j | 0 <= j < |items|
      ensures Stocked(items[j], snap) == Stocked(items[j], s.products)
    {
      assert snap[items[j].productId] == s.products[items[j].productId];
    }
    assert items[0..] == items;
    SnapshotsAgree(0, items, snap, s.products);
  }

  /** Maps that agree on every requested product have the same first unsupplied item. */
  lemma {:induction false} FirstUnstockedAgrees(items: seq<PurchaseItem>, m1: map<int, Product>, m2: map<int, Product>, i: nat)
    requires i <= |items|
    requires forall j :: 0 <= j < |items| ==>
      items[j].productId in m1 && items[j].productId in m2 && m1[items[j].productId] == m2[items[j].productId]
    ensures FirstUnstocked(items, m1, i) == FirstUnstocked(items, m2, i)
    decreases |items| - i
  {
    if i < |items| {
      assert m1[items[i].productId] == m2[items[i].productId];
      FirstUnstockedAgrees(items, m1, m2, i + 1);
    }
  }

  /**
   When every requested product is stored and the stock check fails, it
   fails at the first item the store cannot supply, with that product's name.
   */
  lemma StockCheckFailsOnStore(s: Store, items: seq<PurchaseItem>)
    requires AllPresent(s, items)
    requires CheckStock(items, Snapshot(s, items), 0, 0).Failure?
    ensures var k := FirstUnstocked(items, s.products, 0);
      && k < |items|
      && CheckStock(items, Snapshot(s, items), 0, 0).error == InsufficientStock(s.products[items[k].productId].name)
  {
    var snap := Snapshot(s, items);
    SnapshotAgrees(s, items);
    FirstUnstockedAgrees(items, snap, s.products, 0);
    var k := FirstUnstocked(items, s.products, 0);
    assert snap[items[k].productId] == s.products[items[k].productId];
  }

  /** A purchase whose lookup finds every product and whose stock check fails returns that failure and writes nothing. */
  lemma PurchaseStopsAtStockCheck(s: Store, userId: int, items: seq<PurchaseItem>, now: nat)
    requires |GetProductsByIds(s, ProductIds(items))| == |ToSet(ProductIds(items))|
    requires CheckStock(items, Snapshot(s, items), 0, 0).Failure?
    ensures CreatePurchaseOrder(s, userId, items, now) == (CheckStock(items, Snapshot(s, items), 0, 0), s)
  {
  }

  /**
   When every product is stored but some item asks for more than its stock,
   the purchase fails with the name of the first such product and writes nothing.
   */
  lemma PurchaseInsufficientStock(s: Store, userId: int, items: seq<PurchaseItem>, now: nat)
    requires AllPresent(s, items)
    requires !AllStocked(items, s.products)
    ensures var r := CreatePurchaseOrder(s, userId, items, now);
      && r.1 == s
      && exists k :: 0 <= k < |items| && !Stocked(items[k], s.products)
                     && (forall m :: 0 <= m < k ==> Stocked(items[m], s.products))
                     && r.0 == Failure(InsufficientStock(s.products[items[k].productId].name))
  {
    LookupFindsAll(s, items);
    StockCheckPassesOnStore(s, items);
    StockCheckFailsOnStore(s, items);
    PurchaseStopsAtStockCheck(s, userId, items, now);
  }

  /** The store right after the purchase writes its order row, carrying `total` as its price. */
  function OrderRowWritten(s: Store, userId: int, total: int, now: nat): Store
  {
    CreateClientOrder(s, userId, total, Confirmed, now).1
  }

  /**
   A purchase whose products are all stored and stocked writes its order row
   with the summed price and then runs the per-line loop; its result is the
   loop's outcome.
   */
  lemma PurchaseReachesLines(s: Store, userId: int, items: seq<PurchaseItem>, now: nat)
    requires Valid(s)
    requires AllPresent(s, items)
    requires AllStocked(items, s.products)
    ensures var run := ApplyLines(OrderRowWritten(s, userId, SumPrices(items, s.products), now),
                                  s.nextOrderId, items, Snapshot(s, items), 0);
            var r := CreatePurchaseOrder(s, userId, items, now);
      && r.1 == run.1
      && (run.0.AllApplied? ==> r.0 == Success(s.nextOrderId))
      && (run.0.ItemFailed? ==> r.0 == Failure(OrderItemsFailed))
      && (run.0.StockFailed? ==> r.0 == Failure(StockUpdateFailed(items[run.0.index].productId)))
  {
    LookupFindsAll(s, items);
    StockCheckPassesOnStore(s, items);
  }

  /** The closed form of a prefix depends on the price table only through the requested products. */
  lemma AppliedPrefixAgrees(st: Store, orderId: int, items: seq<PurchaseItem>, k: nat,
                            m1: map<int, Product>, m2: map<int, Product>)
    requires k <= |items|
    requires forall j :: 0 <= j < |items| ==>
      items[j].productId in m1 && items[j].productId in m2 && m1[items[j].productId] == m2[items[j].productId]
    ensures Applied(st, orderId, items[..k], m1) == Applied(st, orderId, items[..k], m2)
  {
    assert forall j :: 0 <= j < k ==> items[..k][j] == items[j];
    SnapshotsAgree(orderId, items[..k], m1, m2);
  }

  /** The store right after the order row meets what the sequential-run lemma needs. */
  lemma OrderRowReadyForLines(s: Store, userId: int, items: seq<PurchaseItem>, now: nat)
    requires Valid(s)
    requires AllPresent(s, items)
    requires AllStocked(items, s.products)
    ensures var s1 := OrderRowWritten(s, userId, SumPrices(items, s.products), now);
            var snapshot := Snapshot(s, items);
      && (forall j :: 0 <= j < |s1.links| ==> s1.links[j].orderId != s.nextOrderId)
      && AllStocked(items, snapshot)
      && (forall k :: k in snapshot ==> k in s1.products && s1.products[k].stock == snapshot[k].stock)
      && Applied(s1, s.nextOrderId, items[..0], snapshot) == s1
  {
    var s1 := OrderRowWritten(s, userId, SumPrices(items, s.products), now);
    SnapshotAgrees(s, items);
    SnapshotIsStoredRows(s, items);
    AppliedNothing(s1, s.nextOrderId, items, Snapshot(s, items));
  }

  /** The loop right after the order row, described against the snapshot. */
  lemma LinesAfterOrderRowSnapshot(s: Store, userId: int, items: seq<PurchaseItem>, now: nat)
    requires Valid(s)
    requires AllPresent(s, items)
    requires AllStocked(items, s.products)
    ensures var s1 := OrderRowWritten(s, userId, SumPrices(items, s.products), now);
            var snapshot := Snapshot(s, items);
            var run := ApplyLines(s1, s.nextOrderId, items, snapshot, 0);
      && !run.0.StockFailed?
      && (run.0.AllApplied? <==> DistinctPids(items))
      && (run.0.AllApplied? ==> run.1 == Applied(s1, s.nextOrderId, items, snapshot))
      && (run.0.ItemFailed? ==>
            var k := run.0.index;
            && DistinctPids(items[..k]) && items[k].productId in ProductIds(items[..k])
            && run.1 == Applied(s1, s.nextOrderId, items[..k], snapshot))
  {
    var s1 := OrderRowWritten(s, userId, SumPrices(items, s.products), now);
    OrderRowReadyForLines(s, userId, items, now);
    SequentialApply(s1, s.nextOrderId, items, Snapshot(s, items), 0);
    ApplyLinesShape(s1, s.nextOrderId, items, Snapshot(s, items), 0);
  }

  /**
   The loop right after the order row of a purchase whose products are all
   stored and stocked: it completes exactly when no product repeats, it never
   meets a refused decrement, and on a repeat it stops at the first one with
   the earlier lines and decrements in place.
   */
  lemma LinesAfterOrderRow(s: Store, userId: int, items: seq<PurchaseItem>, now: nat)
    requires Valid(s)
    requires AllPresent(s, items)
    requires AllStocked(items, s.products)
    ensures var s1 := OrderRowWritten(s, userId, SumPrices(items, s.products), now);
            var run := ApplyLines(s1, s.nextOrderId, items, Snapshot(s, items), 0);
      && !run.0.StockFailed?
      && (run.0.AllApplied? <==> DistinctPids(items))
      && (run.0.AllApplied? ==> run.1 == Applied(s1, s.nextOrderId, items, s.products))
      && (run.0.ItemFailed? ==>
            var k := run.0.index;
            && DistinctPids(items[..k]) && items[k].productId in ProductIds(items[..k])
            && run.1 == Applied(s1, s.nextOrderId, items[..k], s.products))
  {
    var s1 := OrderRowWritten(s, userId, SumPrices(items, s.products), now);
    var snapshot := Snapshot(s, items);
    LinesAfterOrderRowSnapshot(s, userId, items, now);
    SnapshotAgrees(s, items);
    var run := ApplyLines(s1, s.nextOrderId, items, snapshot, 0);
    if run.0.AllApplied? {
      AppliedPrefixAgrees(s1, s.nextOrderId, items, |items|, snapshot, s.products);
      assert items[..|items|] == items;
    } else if run.0.ItemFailed? {
      AppliedPrefixAgrees(s1, s.nextOrderId, items, run.0.index, snapshot, s.products);
    }
  }

  /**
   A purchase of stored, stocked, distinct products succeeds with the next
   order id. It appends one CONFIRMED order whose total is the sum of price
   times amount, one line per item at the stored price, and lowers each
   product's stock by what the request asked of it.
   */
  lemma PurchaseSucceeds(s: Store, userId: int, items: seq<PurchaseItem>, now: nat)
    requires Valid(s)
    requires AllPresent(s, items)
    requires AllStocked(items, s.products)
    requires DistinctPids(items)
    ensures var r := CreatePurchaseOrder(s, userId, items, now);
            var oid := s.nextOrderId;
            var total := SumPrices(items, s.products);
      && r.0 == Success(oid)
      && r.1.orders == s.orders + [ClientOrder(oid, userId, total, Confirmed, now, now)]
      && r.1.links == s.links + LinesFor(oid, items, s.products)
      && r.1.products == Decremented(s.products, items)
      && r.1.nextOrderId == oid + 1
      && r.1 == s.(orders := r.1.orders, links := r.1.links, products := r.1.products, nextOrderId := oid + 1)
      && SumLines(LinesFor(oid, items, s.products)) == total
  {
    PurchaseReachesLines(s, userId, items, now);
    LinesAfterOrderRow(s, userId, items, now);
    TotalMatchesLines(s.nextOrderId, items, s.products);
  }

  /**
   After a successful purchase of distinct products, each requested product's
   stock is lower by its item's amount, and every other product is untouched.
   */
  lemma PurchaseStockEffect(s: Store, userId: int, items: seq<PurchaseItem>, now: nat)
    requires Valid(s)
    requires AllPresent(s, items)
    requires AllStocked(items, s.products)
    requires DistinctPids(items)
    ensures var r := CreatePurchaseOrder(s, userId, items, now);
      && (forall j :: 0 <= j < |items| ==>
            items[j].productId in r.1.products
            && r.1.products[items[j].productId].stock == s.products[items[j].productId].stock - items[j].amount)
      && (forall k :: k in s.products && k !in ProductIds(items) ==> k in r.1.products && r.1.products[k] == s.products[k])
  {
    PurchaseSucceeds(s, userId, items, now);
    DecrementedEffect(s.products, items);
  }

  /**
   A purchase of stored, stocked products that names one product twice fails
   on the repeated line, keeping the order row and the lines and decrements of
   every item before the first repeat.
   */
  lemma PurchaseRepeatedProduct(s: Store, userId: int, items: seq<PurchaseItem>, now: nat)
    requires Valid(s)
    requires AllPresent(s, items)
    requires AllStocked(items, s.products)
    requires !DistinctPids(items)
    ensures var r := CreatePurchaseOrder(s, userId, items, now);
            var s1 := OrderRowWritten(s, userId, SumPrices(items, s.products), now);
      && r.0 == Failure(OrderItemsFailed)
      && r.1.orders == s.orders + [ClientOrder(s.nextOrderId, userId, SumPrices(items, s.products), Confirmed, now, now)]
      && exists k :: 0 < k < |items| && DistinctPids(items[..k]) && items[k].productId in ProductIds(items[..k])
                     && r.1 == Applied(s1, s.nextOrderId, items[..k], s.products)
  {
    PurchaseReachesLines(s, userId, items, now);
    LinesAfterOrderRow(s, userId, items, now);
    var s1 := OrderRowWritten(s, userId, SumPrices(items, s.products), now);
    var run := ApplyLines(s1, s.nextOrderId, items, Snapshot(s, items), 0);
    var k := run.0.index;
    assert k > 0;
  }

  /** Under the store invariants, a purchase succeeds exactly when its products are stored, stocked and distinct. */
  lemma PurchaseSucceedsIff(s: Store, userId: int, items: seq<PurchaseItem>, now: nat)
    requires Valid(s)
    ensures CreatePurchaseOrder(s, userId, items, now).0.Success?
            <==> AllPresent(s, items) && AllStocked(items, s.products) && DistinctPids(items)
  {
    if !AllPresent(s, items) {
      PurchaseMissingProduct(s, userId, items, now);
    } else if !AllStocked(items, s.products) {
      PurchaseInsufficientStock(s, userId, items, now);
    } else if !DistinctPids(items) {
      PurchaseRepeatedProduct(s, userId, items, now);
    } else {
      PurchaseSucceeds(s, userId, items, now);
    }
  }

  /**
   Under the store invariants a purchase never reports a refused stock
   decrement: the stock check already passed against the same stock, and a
   repeated product fails on its line before reaching its decrement.
   */
  lemma PurchaseNeverRefusesDecrement(s: Store, userId: int, items: seq<PurchaseItem>, now: nat)
    requires Valid(s)
    ensures var r := CreatePurchaseOrder(s, userId, items, now);
      r.0.Failure? ==> !r.0.error.StockUpdateFailed?
  {
    if !AllPresent(s, items) {
      PurchaseMissingProduct(s, userId, items, now);
    } else if !AllStocked(items, s.products) {
      PurchaseInsufficientStock(s, userId, items, now);
    } else {
      PurchaseReachesLines(s, userId, items, now);
      LinesAfterOrderRow(s, userId, items, now);
    }
  }

  // ---------------------------------------------------------------------------
  // Store invariants
  // ---------------------------------------------------------------------------

  /** Writing an order row keeps the store invariants. */
  lemma OrderRowKeepsValid(s: Store, clientId: int, totalPrice: int, status: OrderStatus, now: nat)
    requires Valid(s)
    ensures Valid(CreateClientOrder(s, clientId, totalPrice, status, now).1)
  {
    var s1 := CreateClientOrder(s, clientId, totalPrice, status, now).1;
    assert forall i :: 0 <= i < |s.orders| ==> s1.orders[i] == s.orders[i];
  }

  /**
   The per-line loop for an already issued order id keeps the store invariants,
   and keeps every stock level non-negative.
   */
  lemma {:induction false} ApplyLinesKeepsInvariants(st: Store, orderId: int, items: seq<PurchaseItem>,
                                                    snapshot: map<int, Product>, i: nat)
    requires i <= |items|
    requires Valid(st)
    requires orderId < st.nextOrderId
    ensures var r := ApplyLines(st, orderId, items, snapshot, i);
      && Valid(r.1)
      && (StocksNonNegative(st.products) ==> StocksNonNegative(r.1.products))
    decreases |items| - i
  {
    if i < |items| {
      var it := items[i];
      if it.productId in snapshot {
        var (added, st1) := AddProductToClientOrder(st, orderId, it.productId, it.amount, snapshot[it.productId].price);
        if added.Success? {
          assert Valid(st1);
          var (ok, st2) := UpdateProductStock(st1, it.productId, it.amount);
          if ok {
            assert Valid(st2);
            assert StocksNonNegative(st1.products) ==> StocksNonNegative(st2.products);
            ApplyLinesKeepsInvariants(st2, orderId, items, snapshot, i + 1);
          }
        }
      }
    }
  }

  /** A purchase, whatever its outcome, keeps the store invariants and non-negative stock. */
  lemma PurchaseKeepsInvariants(s: Store, userId: int, items: seq<PurchaseItem>, now: nat)
    requires Valid(s)
    ensures var r := CreatePurchaseOrder(s, userId, items, now);
      && Valid(r.1)
      && (StocksNonNegative(s.products) ==> StocksNonNegative(r.1.products))
  {
    if !AllPresent(s, items) {
      PurchaseMissingProduct(s, userId, items, now);
    } else if !AllStocked(items, s.products) {
      PurchaseInsufficientStock(s, userId, items, now);
    } else {
      PurchaseReachesLines(s, userId, items, now);
      var total := SumPrices(items, s.products);
      OrderRowKeepsValid(s, userId, total, Confirmed, now);
      ApplyLinesKeepsInvariants(OrderRowWritten(s, userId, total, now), s.nextOrderId, items, Snapshot(s, items), 0);
    }
  }

  /** With an accepted request body, a successful purchase strictly lowers the stock of every product it names. */
  lemma PurchaseLowersStock(s: Store, userId: int, items: seq<PurchaseItem>, now: nat)
    requires Valid(s)
    requires ValidPurchaseRequest(items)
    requires CreatePurchaseOrder(s, userId, items, now).0.Success?
    ensures var r := CreatePurchaseOrder(s, userId, items, now);
      forall j :: 0 <= j < |items| ==>
        items[j].productId in r.1.products && items[j].productId in s.products
        && r.1.products[items[j].productId].stock < s.products[items[j].productId].stock
  {
    PurchaseSucceedsIff(s, userId, items, now);
    PurchaseStockEffect(s, userId, items, now);
    ValidPurchaseRequestMeans(items);
  }
}
