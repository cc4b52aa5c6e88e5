/** Orders read from the order sheet: one `Order` per row whose holiday
    names a factory and whose order fields are well formed; other rows are
    skipped. A row is the pandas series of the row: column name -> cell. */
module SupplyOrders {
  import opened Wrappers
  import opened SupplyItems
  import opened SupplyFactory

  type Row = map<string, Cell>

  datatype Order = Order(
    orderNumber: int,
    productId: Cell,
    itemType: ItemType,
    name: Cell,
    quantity: int,
    factory: Holiday,
    details: Details)

  /** The columns `Order.__init__` takes by name; all others travel on to
      the item constructor as `product_details`. */
  const OrderColumns: set<string> := {"order_number", "product_id", "item", "name", "quantity"}

  /** `Order(factory=factory, **row)` for a row whose holiday is already
      dropped. A missing order column, a `factory` column clashing with the
      keyword, a blank order number or quantity, a quantity that is not
      above zero and an unknown item type all raise. */
  function NewOrder(row: Row, factory: Holiday): (r: Result<Order, ItemError>)
    ensures r.Ok? <==> && OrderColumns <= row.Keys && "factory" !in row
                       && Int(row["order_number"], "order_number").Ok?
                       && Int(row["quantity"], "quantity").Ok? && Int(row["quantity"], "quantity").value > 0
                       && ItemTypeOf(row["item"]).Some?
    ensures r.Ok? ==> && r.value.quantity > 0
                      && r.value.factory == factory
                      && r.value.productId == row["product_id"] && r.value.name == row["name"]
                      && row["item"] == Text(ItemTypeName(r.value.itemType))
    ensures r.Ok? ==> && r.value.details.Keys == row.Keys - {"order_number", "item", "quantity"}
                      && forall k :: k in r.value.details ==> r.value.details[k] == row[k]
    ensures OrderColumns <= row.Keys && "factory" !in row && row["order_number"] == Blank ==>
              r == Err(BadValue("order_number"))
    ensures OrderColumns <= row.Keys && "factory" !in row && row["order_number"] != Blank && row["quantity"] == Blank ==>
              r == Err(BadValue("quantity"))
  {
    if "factory" in row then Err(WrongType("factory")) else
    var numberCell :- Arg(row, "order_number");
    var pid :- Arg(row, "product_id");
    var itemCell :- Arg(row, "item");
    var name :- Arg(row, "name");
    var quantityCell :- Arg(row, "quantity");
    if numberCell == Blank then Err(BadValue("order_number"))
    else if quantityCell == Blank then Err(BadValue("quantity")) else
    var quantity :- Int(quantityCell, "quantity");
    if quantity <= 0 then Err(BadValue("quantity")) else
    var number :- Int(numberCell, "order_number");
    match ItemTypeOf(itemCell)
    case None => Err(BadValue("item"))
    case Some(t) =>
      var kwargs := row - OrderColumns;
      Ok(Order(number, pid, t, name, quantity, factory, kwargs["name" := name]["product_id" := pid]))
  }

  /** One step of `get_next_order`: the row's holiday picks the factory (a
      missing or unknown holiday skips the row), the holiday column is
      dropped and the order is built (a failing row is skipped). */
  function OrderOf(row: Row): (r: Option<Order>)
    ensures r.Some? <==> "holiday" in row && FactoryFor(row["holiday"]).Some?
                         && NewOrder(row - {"holiday"}, FactoryFor(row["holiday"]).value).Ok?
    ensures r.Some? ==> r.value.quantity > 0 && "holiday" !in r.value.details
    ensures r.Some? ==> row["holiday"] == Text(HolidayName(r.value.factory))
  {
    if "holiday" !in row then None
    else match FactoryFor(row["holiday"])
      case None => None
      case Some(h) =>
        match NewOrder(row - {"holiday"}, h)
        case Err(_) => None
        case Ok(o) => Some(o)
  }

  function HolidayName(h: Holiday): string {
    match h
    case Christmas => "Christmas"
    case Halloween => "Halloween"
    case Easter => "Easter"
  }

  /** The orders the generator yields, in sheet order. */
  function Yielded(rows: seq<Row>): (r: seq<Order>)
    ensures |r| <= |rows|
    ensures forall o :: o in r ==> exists row :: row in rows && OrderOf(row) == Some(o)
  {
    if |rows| == 0 then []
    else
      var last := rows[|rows| - 1];
      var front := Yielded(rows[..|rows| - 1]);
      assert forall row :: row in rows[..|rows| - 1] ==> row in rows;
      match OrderOf(last)
      case None => front
      case Some(o) => front + [o]
  }

  /** A row that yields an order is not lost: its order appears among the
      yielded ones. */
  lemma {:induction false} YieldedComplete(rows: seq<Row>, i: nat)
    requires i < |rows| && OrderOf(rows[i]).Some?
    ensures OrderOf(rows[i]).value in Yielded(rows)
  {
    var n := |rows| - 1;
    var front := Yielded(rows[..n]);
    if i < n {
      assert rows[..n][i] == rows[i];
      YieldedComplete(rows[..n], i);
      assert Yielded(rows) == front || Yielded(rows) == front + [OrderOf(rows[n]).value];
    } else {
      assert Yielded(rows) == front + [OrderOf(rows[n]).value];
    }
  }

  /** `get_next_order` drained into a list. */
  method NextOrders(rows: seq<Row>) returns (orders: seq<Order>)
    ensures orders == Yielded(rows)
    ensures forall o :: o in orders ==> o.quantity > 0
  {
    orders := [];
    var i := 0;
    while i < |rows|
      invariant i <= |rows|
      invariant orders == Yielded(rows[..i])
    {
      assert rows[..i + 1][..i] == rows[..i];
      var o := OrderOf(rows[i]);
      if o.Some? {
        orders := orders + [o.value];
      }
      i := i + 1;
    }
    assert rows[..|rows|] == rows;
  }
}
