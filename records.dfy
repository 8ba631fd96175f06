/**
 * The records the warehouse server keeps in its three JSON tables, and the
 * `Array.prototype.find` / `findIndex` lookups both of its code paths use.
 */
module Records {
  import opened JsText

  datatype Option<+T> = None | Some(value: T)

  /** A row of `warehouses.json`: `{ id, name }`. */
  datatype Warehouse = Warehouse(id: int, name: string)

  /** A row of `items.json`: the stock of one item at one warehouse. */
  datatype Item = Item(itemId: string, name: string, warehouseId: int, quantity: nat)

  /**
   * A row of `tickets.json`. The table holds tickets of two shapes (those the
   * server's auto-ticket pass writes and those the order webhook writes), so
   * the fields only one of them carries are optional.
   */
  datatype Ticket = Ticket(
    id: int,
    itemId: string,
    warehouseId: Option<int>,
    warehouse: Option<string>,
    fromWarehouse: Option<string>,
    toWarehouse: Option<string>,
    name: Option<string>,
    quantity: nat,
    requestDate: string,
    collectDate: string,
    status: string,
    expectedReady: Option<string>,
    actualReady: Option<string>,
    delayReason: Option<string>,
    updatedAt: Option<string>,
    createdBy: string)

  /** The marker whose presence in a lower-cased name makes a warehouse the main one. */
  const MAIN_MARKER := "main"

  predicate IsMainName(name: string)
  {
    Includes(ToLower(name), MAIN_MARKER)
  }

  /** `warehouses.find(w => w.name.toLowerCase().includes('main'))`. */
  function FindMainWarehouse(whs: seq<Warehouse>): (r: Option<Warehouse>)
    ensures r.None? <==> forall k :: 0 <= k < |whs| ==> !IsMainName(whs[k].name)
    ensures r.Some? ==> exists k :: 0 <= k < |whs| && whs[k] == r.value
                          && IsMainName(r.value.name)
                          && forall j :: 0 <= j < k ==> !IsMainName(whs[j].name)
  {
    if whs == [] then None
    else if IsMainName(whs[0].name) then Some(whs[0])
    else
      var r := FindMainWarehouse(whs[1..]);
      assert r.Some? ==> exists k :: 0 <= k < |whs| && whs[k] == r.value
                          && forall j :: 0 <= j < k ==> !IsMainName(whs[j].name) by {
        if r.Some? {
          var k :| 0 <= k < |whs[1..]| && whs[1..][k] == r.value
                   && forall j :: 0 <= j < k ==> !IsMainName(whs[1..][j].name);
          assert whs[k + 1] == r.value;
          assert forall j :: 0 <= j < k + 1 ==> !IsMainName(whs[j].name) by {
            forall j | 0 < j < k + 1 ensures !IsMainName(whs[j].name) {
              assert whs[j] == whs[1..][j - 1];
            }
          }
        }
      }
      r
  }

  /** `warehouses.find(w => w.id === id)`. */
  function FindWarehouseById(whs: seq<Warehouse>, id: int): (r: Option<Warehouse>)
    ensures r.None? <==> forall k :: 0 <= k < |whs| ==> whs[k].id != id
    ensures r.Some? ==> exists k :: 0 <= k < |whs| && whs[k] == r.value && r.value.id == id
                          && forall j :: 0 <= j < k ==> whs[j].id != id
  {
    if whs == [] then None
    else if whs[0].id == id then Some(whs[0])
    else
      var r := FindWarehouseById(whs[1..], id);
      assert r.Some? ==> exists k :: 0 <= k < |whs| && whs[k] == r.value
                          && forall j :: 0 <= j < k ==> whs[j].id != id by {
        if r.Some? {
          var k :| 0 <= k < |whs[1..]| && whs[1..][k] == r.value
                   && forall j :: 0 <= j < k ==> whs[1..][j].id != id;
          assert whs[k + 1] == r.value;
          assert forall j :: 0 <= j < k + 1 ==> whs[j].id != id by {
            forall j | 0 < j < k + 1 ensures whs[j].id != id {
              assert whs[j] == whs[1..][j - 1];
            }
          }
        }
      }
      r
  }

  /** `warehouses.find(w => w.name === name)`. */
  function FindWarehouseByName(whs: seq<Warehouse>, name: string): (r: Option<Warehouse>)
    ensures r.None? <==> forall k :: 0 <= k < |whs| ==> whs[k].name != name
    ensures r.Some? ==> exists k :: 0 <= k < |whs| && whs[k] == r.value && r.value.name == name
                          && forall j :: 0 <= j < k ==> whs[j].name != name
  {
    if whs == [] then None
    else if whs[0].name == name then Some(whs[0])
    else
      var r := FindWarehouseByName(whs[1..], name);
      assert r.Some? ==> exists k :: 0 <= k < |whs| && whs[k] == r.value
                          && forall j :: 0 <= j < k ==> whs[j].name != name by {
        if r.Some? {
          var k :| 0 <= k < |whs[1..]| && whs[1..][k] == r.value
                   && forall j :: 0 <= j < k ==> whs[1..][j].name != name;
          assert whs[k + 1] == r.value;
          assert forall j :: 0 <= j < k + 1 ==> whs[j].name != name by {
            forall j | 0 < j < k + 1 ensures whs[j].name != name {
              assert whs[j] == whs[1..][j - 1];
            }
          }
        }
      }
      r
  }

  predicate IsRecordOf(r: Item, itemId: string, warehouseId: int)
  {
    r.itemId == itemId && r.warehouseId == warehouseId
  }

  /** `items.findIndex(i => i.item_id === itemId && i.warehouse_id === warehouseId)`, with -1 as None. */
  function FindRecord(items: seq<Item>, itemId: string, warehouseId: int): (r: Option<nat>)
    ensures r.None? <==> forall k :: 0 <= k < |items| ==> !IsRecordOf(items[k], itemId, warehouseId)
    ensures r.Some? ==> r.value < |items| && IsRecordOf(items[r.value], itemId, warehouseId)
                        && forall j :: 0 <= j < r.value ==> !IsRecordOf(items[j], itemId, warehouseId)
  {
    if items == [] then None
    else if IsRecordOf(items[0], itemId, warehouseId) then Some(0)
    else
      match FindRecord(items[1..], itemId, warehouseId)
      case None => None
      case Some(k) => Some(k + 1)
  }

  /**
   * The record of `itemId` at the warehouse `mainId`, as the status report and
   * the auto-ticket pass both look it up. None when there is none.
   */
  function MainRecord(items: seq<Item>, itemId: string, mainId: int): Option<Item>
  {
    match FindRecord(items, itemId, mainId)
    case None => None
    case Some(k) => Some(items[k])
  }

  /**
   * The low-stock test: `(q / m) * 100 <= 60` with `m > 0`, by cross-multiplication.
   * With `m == 0` the JavaScript quotient is NaN or Infinity and the test fails.
   */
  predicate IsLowStock(q: nat, m: nat)
  {
    m > 0 && 100 * q <= 60 * m
  }
}
