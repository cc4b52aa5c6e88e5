/** The store: it fulfils orders from its inventory, restocks from the
    order's factory in batches of 100 when the inventory is short, keeps one
    sample of every product it has stocked and logs every stock movement. */
module SupplyStore {
  import opened Wrappers
  import opened SupplyItems
  import opened SupplyFactory
  import opened SupplyOrders

  const RestockBatch: nat := 100

  datatype LogEntry =
    | Stocked(productId: Cell, name: Cell, restocked: nat)
    | Fulfilled(orderNumber: int, itemType: ItemType, productId: Cell, name: Cell, quantity: int)
    | Corrupted(orderNumber: int, error: ItemError)

  /** Inventory and samples are keyed by the order's product id. */
  datatype Store = Store(inventory: map<Cell, seq<Item>>, samples: map<Cell, Item>, history: seq<LogEntry>)

  const EmptyStore := Store(map[], map[], [])

  function Products(s: Store, id: Cell): seq<Item> {
    if id in s.inventory then s.inventory[id] else []
  }

  /** `create_item`: the order's factory builds the product of the order's
      category from the order's details. */
  function CreateItem(o: Order): (r: Result<Item, ItemError>)
    ensures r.Ok? ==> Valid(r.value) && Describes(o.details, r.value)
    ensures r.Ok? ==> TypeOf(r.value) == o.itemType && HolidayOf(r.value) == o.factory
  {
    Create(o.factory, o.itemType, o.details)
  }

  function Copies(it: Item, n: nat): (r: seq<Item>)
    ensures |r| == n && forall x :: x in r ==> x == it
  {
    seq(n, _ => it)
  }

  function StockEntry(o: Order, n: nat): LogEntry {
    Stocked(o.productId, o.name, n)
  }

  function FulfilledEntry(o: Order): LogEntry {
    Fulfilled(o.orderNumber, o.itemType, o.productId, o.name, o.quantity)
  }

  /** `k` consecutive restocks of one batch each. */
  function StockLog(o: Order, k: nat): (r: seq<LogEntry>)
    ensures |r| == k && forall e :: e in r ==> e == StockEntry(o, RestockBatch)
  {
    seq(k, _ => StockEntry(o, RestockBatch))
  }

  /** Everything about products other than `id` is as in `s`. */
  ghost predicate OthersUnchanged(s: Store, t: Store, id: Cell) {
    && (forall p :: p != id ==> (p in t.inventory <==> p in s.inventory))
    && (forall p :: p != id && p in t.inventory ==> t.inventory[p] == s.inventory[p])
    && (forall p :: p != id ==> (p in t.samples <==> p in s.samples))
    && (forall p :: p != id && p in t.samples ==> t.samples[p] == s.samples[p])
  }

  /** `stock_inventory(order, n)`: makes a sample when the product has none,
      then `n` new items, appends them and logs the restock; returns the
      new count. Any failing creation raises before anything is stored. */
  function StockInventory(s: Store, o: Order, n: nat): (r: Result<(Store, nat), ItemError>)
    ensures r.Err? <==> CreateItem(o).Err? && (o.productId !in s.samples || n > 0)
    ensures r.Err? ==> r.error == CreateItem(o).error
    ensures r.Ok? ==> var (t, count) := r.value;
      && count == |Products(s, o.productId)| + n == |Products(t, o.productId)|
      && o.productId in t.inventory
      && Products(t, o.productId)[..|Products(s, o.productId)|] == Products(s, o.productId)
      && (n > 0 ==> forall i :: |Products(s, o.productId)| <= i < count ==>
                      Products(t, o.productId)[i] == CreateItem(o).value)
      && o.productId in t.samples
      && (o.productId in s.samples ==> t.samples[o.productId] == s.samples[o.productId])
      && (o.productId !in s.samples ==> t.samples[o.productId] == CreateItem(o).value)
      && t.history == s.history + [StockEntry(o, n)]
      && OthersUnchanged(s, t, o.productId)
  {
    var id := o.productId;
    if id !in s.samples && CreateItem(o).Err? then Err(CreateItem(o).error)
    else if n > 0 && CreateItem(o).Err? then Err(CreateItem(o).error)
    else
      var samples := if id in s.samples then s.samples else s.samples[id := CreateItem(o).value];
      var made := if n == 0 then [] else Copies(CreateItem(o).value, n);
      var products := Products(s, id) + made;
      var t := Store(s.inventory[id := products], samples, s.history + [StockEntry(o, n)]);
      assert Products(t, id) == products && products[..|Products(s, id)|] == Products(s, id);
      Ok((t, |products|))
  }

  /** The number of batches the restock loop runs for a product holding
      `current` items and an order of `quantity`. */
  function Batches(current: int, quantity: int): (k: nat)
    decreases quantity - current
  {
    if current >= quantity then 0 else 1 + Batches(current + RestockBatch, quantity)
  }

  /** The restock loop runs the fewest batches that cover the order. */
  lemma {:induction false} BatchesLeast(current: int, quantity: int)
    ensures current + RestockBatch * Batches(current, quantity) >= quantity
    ensures Batches(current, quantity) > 0 ==>
              current + RestockBatch * (Batches(current, quantity) - 1) < quantity
    decreases quantity - current
  {
    if current < quantity {
      BatchesLeast(current + RestockBatch, quantity);
    }
  }

  /** `process_order`. With enough stock the order is served without
      touching a factory. Otherwise the store restocks in batches of 100
      until it has enough; if the order's data cannot build its product,
      nothing is stocked and the order is logged as corrupted. */
  /** What `k` completed restock batches have done to `s`. */
  ghost predicate Restocked(s: Store, st: Store, o: Order, k: nat) {
    && |Products(st, o.productId)| == |Products(s, o.productId)| + RestockBatch * k
    && (k == 0 ==> st == s)
    && (k > 0 ==> && CreateItem(o).Ok? && o.productId in st.inventory && o.productId in st.samples
                  && forall x :: x in Products(st, o.productId) ==>
                       x in Products(s, o.productId) || x == CreateItem(o).value)
    && st.history == s.history + StockLog(o, k)
    && OthersUnchanged(s, st, o.productId)
  }

  /** One more batch keeps `Restocked` with one more count. */
  lemma RestockStep(s: Store, st: Store, o: Order, k: nat, next: Store, count: nat)
    requires Restocked(s, st, o, k)
    requires StockInventory(st, o, RestockBatch) == Ok((next, count))
    ensures Restocked(s, next, o, k + 1) && count == |Products(next, o.productId)|
    ensures count == |Products(st, o.productId)| + RestockBatch
  {
    var id := o.productId;
    forall x | x in Products(next, id)
      ensures x in Products(s, id) || x == CreateItem(o).value
    {
      var i :| 0 <= i < |Products(next, id)| && Products(next, id)[i] == x;
      var older := Products(st, id);
      if i < |older| {
        assert Products(next, id)[..|older|][i] == x;
        assert x == older[i] && older[i] in older;
      }
    }
    assert StockLog(o, k + 1) == StockLog(o, k) + [StockEntry(o, RestockBatch)];
    OthersUnchangedTransitive(s, st, next, id);
  }

  lemma OthersUnchangedTransitive(a: Store, b: Store, c: Store, id: Cell)
    requires OthersUnchanged(a, b, id) && OthersUnchanged(b, c, id)
    ensures OthersUnchanged(a, c, id)
  {
  }

  /** A batch fails only before any batch has succeeded, and then with
      the order's own creation error. */
  lemma RestockFailsFirst(s: Store, st: Store, o: Order, k: nat)
    requires Restocked(s, st, o, k)
    requires StockInventory(st, o, RestockBatch).Err?
    ensures k == 0 && st == s && CreateItem(o).Err?
    ensures StockInventory(st, o, RestockBatch).error == CreateItem(o).error
  {
  }

  /** `process_order`. With enough stock the order is served without
      touching a factory. Otherwise the store restocks in batches of 100
      until it has enough; if the order's data cannot build its product,
      nothing is stocked and the order is logged as corrupted. */
  method ProcessOrder(s: Store, o: Order) returns (t: Store)
    requires o.quantity > 0
    ensures var id := o.productId; var before := |Products(s, id)|;
      before >= o.quantity ==>
        && |Products(t, id)| == before - o.quantity
        && Products(t, id) == Products(s, id)[..before - o.quantity]
        && t.samples == s.samples
        && t.history == s.history + [FulfilledEntry(o)]
    ensures var before := |Products(s, o.productId)|;
      before < o.quantity && CreateItem(o).Err? ==>
        t == s.(history := s.history + [Corrupted(o.orderNumber, CreateItem(o).error)])
    ensures var id := o.productId; var before := |Products(s, id)|; var k := Batches(before, o.quantity);
      before < o.quantity && CreateItem(o).Ok? ==>
        && |Products(t, id)| == before + RestockBatch * k - o.quantity < RestockBatch
        && (forall x :: x in Products(t, id) ==> x in Products(s, id) || x == CreateItem(o).value)
        && id in t.samples
        && t.history == s.history + StockLog(o, k) + [FulfilledEntry(o)]
    ensures OthersUnchanged(s, t, o.productId)
  {
    var st, batches, failed := RestockFor(s, o);
    if failed {
      t := s.(history := s.history + [Corrupted(o.orderNumber, CreateItem(o).error)]);
      return;
    }
    if |Products(s, o.productId)| >= o.quantity {
      assert batches == 0 && st == s;
    }
    BatchesLeast(|Products(s, o.productId)|, o.quantity);
    FinishOrder(s, st, o, batches);
    var products := st.inventory[o.productId];
    t := st.(inventory := st.inventory[o.productId := products[..|products| - o.quantity]],
             history := st.history + [FulfilledEntry(o)]);
  }

  /** The restock loop of `process_order`: batches of 100 until the stock
      covers the order. It fails only on the first batch, when the order's
      data cannot build its product, and then the store is untouched. */
  method RestockFor(s: Store, o: Order) returns (st: Store, batches: nat, failed: bool)
    ensures failed ==> st == s && batches == 0 && CreateItem(o).Err? && |Products(s, o.productId)| < o.quantity
    ensures !failed ==> && Restocked(s, st, o, batches)
                        && |Products(st, o.productId)| >= o.quantity
                        && batches == Batches(|Products(s, o.productId)|, o.quantity)
  {
    var id := o.productId;
    var before := |Products(s, id)|;
    var current := before;
    st := s;
    batches := 0;
    while current < o.quantity
      invariant current == |Products(st, id)|
      invariant batches + Batches(current, o.quantity) == Batches(before, o.quantity)
      invariant Restocked(s, st, o, batches)
      decreases o.quantity - current
    {
      var next, count, stop := RestockBatchOf(s, st, o, batches);
      if stop {
        return st, batches, true;
      }
      assert Batches(current, o.quantity) == 1 + Batches(current + RestockBatch, o.quantity);
      st, current, batches := next, count, batches + 1;
    }
    failed := false;
  }

  /** One pass of the restock loop: `stock_inventory(order, 100)`. */
  method RestockBatchOf(s: Store, st: Store, o: Order, k: nat) returns (next: Store, count: nat, failed: bool)
    requires Restocked(s, st, o, k)
    ensures failed ==> k == 0 && st == s && CreateItem(o).Err?
    ensures !failed ==> && Restocked(s, next, o, k + 1)
                        && count == |Products(next, o.productId)| == |Products(st, o.productId)| + RestockBatch
  {
    var step := StockInventory(st, o, RestockBatch);
    if step.Err? {
      RestockFailsFirst(s, st, o, k);
      return st, 0, true;
    }
    RestockStep(s, st, o, k, step.value.0, step.value.1);
    next, count, failed := step.value.0, step.value.1, false;
  }

  /** The stock after the last batch covers the order, and serving it keeps
      the facts the contract of `ProcessOrder` states. */
  lemma FinishOrder(s: Store, st: Store, o: Order, k: nat)
    requires o.quantity > 0 && Restocked(s, st, o, k)
    requires |Products(st, o.productId)| >= o.quantity
    requires k > 0 ==> |Products(s, o.productId)| + RestockBatch * (k - 1) < o.quantity
    ensures o.productId in st.inventory
    ensures var products := st.inventory[o.productId];
      var t := st.(inventory := st.inventory[o.productId := products[..|products| - o.quantity]],
                   history := st.history + [FulfilledEntry(o)]);
      && OthersUnchanged(s, t, o.productId)
      && |Products(t, o.productId)| == |Products(s, o.productId)| + RestockBatch * k - o.quantity
      && (k > 0 ==> |Products(t, o.productId)| < RestockBatch)
      && (forall x :: x in Products(t, o.productId) ==> x in Products(s, o.productId) || x == CreateItem(o).value)
  {
    var id := o.productId;
    var products := st.inventory[id];
    var t := st.(inventory := st.inventory[id := products[..|products| - o.quantity]],
                 history := st.history + [FulfilledEntry(o)]);
    forall x | x in Products(t, id)
      ensures x in Products(s, id) || x == CreateItem(o).value
    {
      assert x in products;
    }
  }

  /** `Store.process_order` over the orders of a sheet, one after another. */
  method ProcessAll(s: Store, orders: seq<Order>) returns (t: Store)
    requires forall o :: o in orders ==> o.quantity > 0
    ensures |t.history| >= |s.history| + |orders|
    ensures t.history[..|s.history|] == s.history
  {
    t := s;
    var i := 0;
    while i < |orders|
      invariant i <= |orders|
      invariant |t.history| >= |s.history| + i
      invariant t.history[..|s.history|] == s.history
    {
      var before := t;
      t := ProcessOrder(t, orders[i]);
      assert t.history[..|before.history|] == before.history;
      assert t.history[..|s.history|] == t.history[..|before.history|][..|s.history|];
      i := i + 1;
    }
  }

  datatype Status = InStock | Low | VeryLow | OutOfStock

  /** `get_quantity_status`: 10 or more is in stock, 3 to 9 low, 1 or 2
      very low, none out of stock. */
  function QuantityStatus(quantity: int): (r: Status)
    ensures r == InStock <==> quantity >= 10
    ensures r == Low <==> 3 <= quantity < 10
    ensures r == VeryLow <==> 0 < quantity < 3
    ensures r == OutOfStock <==> quantity <= 0
  {
    if quantity >= 10 then InStock
    else if quantity >= 3 then Low
    else if quantity > 0 then VeryLow
    else OutOfStock
  }

  function StatusRank(r: Status): nat {
    match r
    case OutOfStock => 0
    case VeryLow => 1
    case Low => 2
    case InStock => 3
  }

  /** More stock never reads as a worse status. */
  lemma StatusMonotone(a: int, b: int)
    requires a <= b
    ensures StatusRank(QuantityStatus(a)) <= StatusRank(QuantityStatus(b))
  {
  }
}
