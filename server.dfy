/**
 * The warehouse server's rule engine: the traffic-light stock report, the
 * validation and id allocation of a new warehouse, the admin's in-place item
 * update, the ticket listing's warehouse names, and the in-memory tables
 * (`warehouses`, `items`, `tickets`) those routes read and change.
 */
module Server {
  import opened Records
  import opened JsText
  import opened JsObjects
  import opened AutoTicket

  // ---------------------------------------------------------------------------
  // GET /inventory-status

  datatype StockStatus = Green | Orange | Red | Unknown

  /** One row of the status report. */
  datatype StatusRow = StatusRow(warehouseName: string, itemId: string, name: string,
                                 quantity: nat, status: StockStatus)

  /** The logged-in user as the session holds it: `{ role, warehouse_id }`. */
  datatype SessionUser = SessionUser(role: string, warehouseId: Option<int>)

  /**
   * The status of a record holding `q` when the main warehouse holds `m` of
   * the same item (0 when it has no record): green in the main warehouse
   * itself, unknown without a positive main quantity, otherwise by percentage.
   */
  function Classify(atMain: bool, q: nat, m: nat): (s: StockStatus)
    ensures atMain ==> s == Green
    ensures !atMain && m == 0 ==> s == Unknown
    ensures !atMain && m > 0 ==> (s == Red <==> 100 * q <= 10 * m)
    ensures !atMain && m > 0 ==> (s == Orange <==> 10 * m < 100 * q <= 60 * m)
    ensures !atMain && m > 0 ==> (s == Green <==> 60 * m < 100 * q)
    ensures !atMain && m > 0 ==> s != Unknown
  {
    if !atMain && m > 0 then
      if 100 * q <= 10 * m then Red
      else if 100 * q <= 60 * m then Orange
      else Green
    else if atMain then Green
    else Unknown
  }

  /** The main warehouse's quantity of `itemId`, 0 when it has no record of it. */
  function MainQuantity(items: seq<Item>, itemId: string, mainId: int): nat
  {
    match MainRecord(items, itemId, mainId)
    case None => 0
    case Some(r) => r.quantity
  }

  function StatusOf(items: seq<Item>, mainId: int, item: Item): StockStatus
  {
    Classify(item.warehouseId == mainId, item.quantity, MainQuantity(items, item.itemId, mainId))
  }

  predicate IsAdmin(user: Option<SessionUser>)
  {
    user.Some? && user.value.role == "admin"
  }

  /** `user?.warehouse_id || null`: a missing (or zero) warehouse id is null. */
  function UserWarehouseId(user: Option<SessionUser>): Option<int>
  {
    if user.Some? && user.value.warehouseId.Some? && user.value.warehouseId.value != 0
    then user.value.warehouseId else None
  }

  predicate Visible(user: Option<SessionUser>, item: Item)
  {
    IsAdmin(user) || UserWarehouseId(user) == Some(item.warehouseId)
  }

  /** `items.filter(item => isAdmin || item.warehouse_id === userWarehouseId)`. */
  function VisibleItems(items: seq<Item>, user: Option<SessionUser>): (v: seq<Item>)
    ensures forall r :: r in v <==> r in items && Visible(user, r)
    ensures |v| <= |items|
  {
    if items == [] then []
    else
      var last := items[|items| - 1];
      assert items == items[..|items| - 1] + [last];
      VisibleItems(items[..|items| - 1], user) + (if Visible(user, last) then [last] else [])
  }

  /** Filtering keeps the order of `items`: the visible records of `a + b` are those of `a`, then those of `b`. */
  lemma {:induction false} VisibleItemsAppend(a: seq<Item>, b: seq<Item>, user: Option<SessionUser>)
    ensures VisibleItems(a + b, user) == VisibleItems(a, user) + VisibleItems(b, user)
    decreases |b|
  {
    if b == [] {
      assert a + b == a;
    } else {
      var init, last := b[..|b| - 1], b[|b| - 1];
      var tail := if Visible(user, last) then [last] else [];
      assert (a + b)[..|a + b| - 1] == a + init;
      VisibleItemsAppend(a, init, user);
      assert VisibleItems(a + b, user) == VisibleItems(a, user) + VisibleItems(init, user) + tail;
    }
  }

  /** `warehouse?.name || '-'`. */
  function WarehouseLabel(whs: seq<Warehouse>, id: int): string
  {
    match FindWarehouseById(whs, id)
    case Some(w) => if w.name != "" then w.name else "-"
    case None => "-"
  }

  /** The JSON array `GET /inventory-status` answers for the session user `user`. */
  function InventoryStatus(whs: seq<Warehouse>, items: seq<Item>, user: Option<SessionUser>): (rows: seq<StatusRow>)
    ensures FindMainWarehouse(whs).None? ==> rows == []
    ensures FindMainWarehouse(whs).Some? ==>
              var mainId := FindMainWarehouse(whs).value.id;
              var v := VisibleItems(items, user);
              && |rows| == |v|
              && forall k :: 0 <= k < |rows| ==>
                   && rows[k].itemId == v[k].itemId
                   && rows[k].name == v[k].name
                   && rows[k].quantity == v[k].quantity
                   && rows[k].warehouseName == WarehouseLabel(whs, v[k].warehouseId)
                   && rows[k].status == StatusOf(items, mainId, v[k])
  {
    match FindMainWarehouse(whs)
    case None => []
    case Some(mainWh) =>
      var v := VisibleItems(items, user);
      seq(|v|, k requires 0 <= k < |v| =>
        StatusRow(WarehouseLabel(whs, v[k].warehouseId), v[k].itemId, v[k].name, v[k].quantity,
                  StatusOf(items, mainWh.id, v[k])))
  }

  /** An admin sees every record, in the order of `items`. */
  lemma {:induction false} AdminSeesAll(items: seq<Item>, user: Option<SessionUser>)
    requires IsAdmin(user)
    ensures VisibleItems(items, user) == items
  {
    if items != [] {
      AdminSeesAll(items[..|items| - 1], user);
      assert items == items[..|items| - 1] + [items[|items| - 1]];
    }
  }

  /** Anyone else sees exactly the records of their own warehouse, and nobody's when they have none. */
  lemma UserSeesOwnWarehouse(items: seq<Item>, user: Option<SessionUser>)
    requires !IsAdmin(user)
    ensures forall r :: r in VisibleItems(items, user) <==>
              r in items && UserWarehouseId(user) == Some(r.warehouseId)
    ensures UserWarehouseId(user).None? ==> VisibleItems(items, user) == []
  {
  }

  /**
   * For a record outside the main warehouse whose item has a main record of
   * positive quantity `m`: red at or below 10% (exactly 10% is red), orange
   * above 10% and at or below 60% (exactly 60% is orange), green above.
   */
  lemma StatusThresholds(items: seq<Item>, mainId: int, item: Item)
    requires item.warehouseId != mainId && MainRecord(items, item.itemId, mainId).Some?
    requires MainRecord(items, item.itemId, mainId).value.quantity > 0
    ensures var m := MainRecord(items, item.itemId, mainId).value.quantity;
            && (StatusOf(items, mainId, item) == Red <==> 100 * item.quantity <= 10 * m)
            && (StatusOf(items, mainId, item) == Orange <==> 10 * m < 100 * item.quantity <= 60 * m)
            && (StatusOf(items, mainId, item) == Green <==> 60 * m < 100 * item.quantity)
  {
  }

  /** Main-warehouse records are green; a record whose main counterpart is missing or empty is unknown. */
  lemma StatusWithoutRatio(items: seq<Item>, mainId: int, item: Item)
    ensures item.warehouseId == mainId ==> StatusOf(items, mainId, item) == Green
    ensures item.warehouseId != mainId && MainQuantity(items, item.itemId, mainId) == 0 ==>
              StatusOf(items, mainId, item) == Unknown
    ensures item.warehouseId != mainId && MainRecord(items, item.itemId, mainId).None? ==>
              StatusOf(items, mainId, item) == Unknown
  {
  }

  // ---------------------------------------------------------------------------
  // POST /add-warehouse

  datatype AddResult = Added(warehouse: Warehouse) | NameRequired | AlreadyExists

  /** `warehouses.find(w => w.name.toLowerCase() === name.toLowerCase())` found one. */
  predicate NameTaken(whs: seq<Warehouse>, name: string)
  {
    exists k :: 0 <= k < |whs| && ToLower(whs[k].name) == ToLower(name)
  }

  /** `Math.max(...ids)` over a non-empty table. */
  function MaxId(whs: seq<Warehouse>): (m: int)
    requires whs != []
    ensures forall k :: 0 <= k < |whs| ==> whs[k].id <= m
    ensures exists k :: 0 <= k < |whs| && whs[k].id == m
  {
    if |whs| == 1 then whs[0].id
    else
      var rest := MaxId(whs[1..]);
      assert forall k :: 1 <= k < |whs| ==> whs[k] == whs[1..][k - 1];
      if whs[0].id >= rest then whs[0].id else rest
  }

  /** The id of a new warehouse: 1 for an empty table, otherwise the largest id plus one. */
  function NextWarehouseId(whs: seq<Warehouse>): (id: int)
    ensures whs == [] ==> id == 1
    ensures forall k :: 0 <= k < |whs| ==> whs[k].id < id
    ensures whs != [] ==> exists k :: 0 <= k < |whs| && whs[k].id == id - 1
  {
    if whs == [] then 1 else MaxId(whs) + 1
  }

  /**
   * The decision of `POST /add-warehouse` for the body field `name` (None when
   * it is missing or not a string): the trimmed name must be non-empty and
   * must differ, ignoring case, from every existing name.
   */
  function DecideNewWarehouse(whs: seq<Warehouse>, name: Option<string>): (r: AddResult)
    ensures r == NameRequired <==>
              name.None? || forall k :: 0 <= k < |name.value| ==> IsJsWhitespace(name.value[k])
    ensures r == AlreadyExists <==> name.Some? && Trim(name.value) != "" && NameTaken(whs, Trim(name.value))
    ensures r.Added? ==>
              && name.Some? && r.warehouse.name == Trim(name.value) && r.warehouse.name != ""
              && r.warehouse.id == NextWarehouseId(whs)
              && forall k :: 0 <= k < |whs| ==>
                   whs[k].id != r.warehouse.id && ToLower(whs[k].name) != ToLower(r.warehouse.name)
  {
    if name.None? || Trim(name.value) == "" then NameRequired
    else
      var trimmed := Trim(name.value);
      if NameTaken(whs, trimmed) then AlreadyExists
      else Added(Warehouse(NextWarehouseId(whs), trimmed))
  }

  predicate DistinctIds(whs: seq<Warehouse>)
  {
    forall a, b :: 0 <= a < b < |whs| ==> whs[a].id != whs[b].id
  }

  predicate DistinctNamesIgnoringCase(whs: seq<Warehouse>)
  {
    forall a, b :: 0 <= a < b < |whs| ==> ToLower(whs[a].name) != ToLower(whs[b].name)
  }

  /** Adding a warehouse keeps the ids distinct and the names distinct ignoring case. */
  lemma AddKeepsWarehousesDistinct(whs: seq<Warehouse>, name: Option<string>)
    requires DistinctIds(whs) && DistinctNamesIgnoringCase(whs)
    requires DecideNewWarehouse(whs, name).Added?
    ensures DistinctIds(whs + [DecideNewWarehouse(whs, name).warehouse])
    ensures DistinctNamesIgnoringCase(whs + [DecideNewWarehouse(whs, name).warehouse])
  {
    var w := DecideNewWarehouse(whs, name).warehouse;
    var all := whs + [w];
    forall a, b | 0 <= a < b < |all|
      ensures all[a].id != all[b].id && ToLower(all[a].name) != ToLower(all[b].name)
    {
      assert all[a] == whs[a];
      if b < |whs| {
        assert all[b] == whs[b];
      }
    }
  }

  // ---------------------------------------------------------------------------
  // POST /update-item

  datatype UpdateResult = Updated | WarehouseNotFound | ItemNotFound

  // ---------------------------------------------------------------------------
  // GET /tickets

  datatype ListedTicket = ListedTicket(ticket: Ticket, warehouseName: string)

  /** A truthy `ticket.warehouse_id`: present and not 0. */
  predicate HasWarehouseId(t: Ticket)
  {
    t.warehouseId.Some? && t.warehouseId.value != 0
  }

  /**
   * The `warehouse_name` the listing adds to a ticket: the warehouse with the
   * ticket's id when it has a truthy one, otherwise the warehouse with the
   * ticket's `warehouse` name, and 'Unknown' when that lookup finds nothing.
   */
  function ListedWarehouseName(whs: seq<Warehouse>, t: Ticket): (n: string)
    ensures HasWarehouseId(t) && (exists k :: 0 <= k < |whs| && whs[k].id == t.warehouseId.value) ==>
              exists k :: 0 <= k < |whs| && whs[k].id == t.warehouseId.value && whs[k].name == n
                && forall j :: 0 <= j < k ==> whs[j].id != t.warehouseId.value
    ensures HasWarehouseId(t) && (forall k :: 0 <= k < |whs| ==> whs[k].id != t.warehouseId.value) ==>
              n == "Unknown"
    ensures !HasWarehouseId(t) && t.warehouse.Some?
            && (exists k :: 0 <= k < |whs| && whs[k].name == t.warehouse.value) ==>
              n == t.warehouse.value
    ensures !HasWarehouseId(t) && (t.warehouse.None? || forall k :: 0 <= k < |whs| ==> Some(whs[k].name) != t.warehouse) ==>
              n == "Unknown"
  {
    var found :=
      if HasWarehouseId(t) then FindWarehouseById(whs, t.warehouseId.value)
      else if t.warehouse.Some? then FindWarehouseByName(whs, t.warehouse.value)
      else None;
    match found
    case Some(w) => w.name
    case None => "Unknown"
  }

  /** `tickets.map(ticket => ({ ...ticket, warehouse_name }))`. */
  function ListTickets(whs: seq<Warehouse>, tks: seq<Ticket>): (r: seq<ListedTicket>)
    ensures |r| == |tks|
    ensures forall k :: 0 <= k < |r| ==>
              r[k].ticket == tks[k] && r[k].warehouseName == ListedWarehouseName(whs, tks[k])
  {
    seq(|tks|, k requires 0 <= k < |tks| => ListedTicket(tks[k], ListedWarehouseName(whs, tks[k])))
  }

  // ---------------------------------------------------------------------------
  // The server's in-memory tables

  class Store {
    var warehouses: seq<Warehouse>
    var items: seq<Item>
    var tickets: seq<Ticket>

    /** The tables as loaded from the three JSON files at start-up. */
    constructor (whs: seq<Warehouse>, its: seq<Item>, tks: seq<Ticket>)
      ensures warehouses == whs && items == its && tickets == tks
    {
      warehouses, items, tickets := whs, its, tks;
    }

    /** `GET /inventory-status` on the current tables. */
    function Status(user: Option<SessionUser>): seq<StatusRow>
      reads this
    {
      InventoryStatus(warehouses, items, user)
    }

    /** `POST /add-warehouse`: validates the name and appends one warehouse. */
    method AddWarehouse(name: Option<string>) returns (r: AddResult)
      modifies this`warehouses
      ensures r == DecideNewWarehouse(old(warehouses), name)
      ensures warehouses == if r.Added? then old(warehouses) + [r.warehouse] else old(warehouses)
    {
      r := DecideNewWarehouse(warehouses, name);
      if r.Added? {
        warehouses := warehouses + [r.warehouse];
      }
    }

    /**
     * `POST /update-item`: the first record of `itemId` at the warehouse named
     * `warehouseName` is given the new name and quantity, and the auto-ticket
     * pass runs; on either lookup failing nothing changes.
     */
    method UpdateItem(warehouseName: string, itemId: string, name: string, quantity: nat,
                      today: string, collect: string) returns (r: UpdateResult)
      modifies this`items, this`tickets
      ensures FindWarehouseByName(warehouses, warehouseName).None? ==>
                r == WarehouseNotFound && items == old(items) && tickets == old(tickets)
      ensures FindWarehouseByName(warehouses, warehouseName).Some?
              && FindRecord(old(items), itemId, FindWarehouseByName(warehouses, warehouseName).value.id).None? ==>
                r == ItemNotFound && items == old(items) && tickets == old(tickets)
      ensures FindWarehouseByName(warehouses, warehouseName).Some?
              && FindRecord(old(items), itemId, FindWarehouseByName(warehouses, warehouseName).value.id).Some? ==>
                r == Updated
      ensures r == Updated ==>
                && FindWarehouseByName(warehouses, warehouseName).Some?
                && var k := FindRecord(old(items), itemId, FindWarehouseByName(warehouses, warehouseName).value.id);
                && k.Some?
                && items == old(items)[k.value := old(items)[k.value].(name := name, quantity := quantity)]
                && tickets == AutoTickets(warehouses, items, old(tickets), today, collect)
    {
      var wh := FindWarehouseByName(warehouses, warehouseName);
      if wh.None? {
        return WarehouseNotFound;
      }
      var index := FindRecord(items, itemId, wh.value.id);
      if index.None? {
        return ItemNotFound;
      }
      EditRecord(index.value, name, quantity, today, collect);
      r := Updated;
    }

    /** Writes the new name and quantity into record `k`, then runs the auto-ticket pass. */
    method EditRecord(k: nat, name: string, quantity: nat, today: string, collect: string)
      requires k < |items|
      modifies this`items, this`tickets
      ensures items == old(items)[k := old(items)[k].(name := name, quantity := quantity)]
      ensures tickets == AutoTickets(warehouses, items, old(tickets), today, collect)
    {
      items := items[k := items[k].(name := name, quantity := quantity)];
      CheckAutoTicketLogic(today, collect);
    }

    /** `GET /tickets` on the current tables. */
    function Tickets(): seq<ListedTicket>
      reads this
    {
      ListTickets(warehouses, tickets)
    }

    /**
     * `checkAutoTicketLogic()`: groups the records by item id, then pushes a
     * replenishment ticket for every low-stock record not yet ticketed.
     */
    method CheckAutoTicketLogic(today: string, collect: string)
      modifies this`tickets
      ensures tickets == AutoTickets(warehouses, items, old(tickets), today, collect)
    {
      var grouped, inserted := GroupByItem();

      var mainWarehouse := FindMainWarehouse(warehouses);
      if mainWarehouse.None? {
        return;
      }
      var mainId := mainWarehouse.value.id;

      var entries := PropertyOrder(inserted);
      AutoTicketsOfMain(warehouses, items, old(tickets), today, collect);
      forall k | 0 <= k < |entries| ensures entries[k] in grouped && grouped[entries[k]] == ItemsWithId(items, entries[k]) {
        assert entries[k] in multiset(entries);
      }
      TicketGroups(grouped, mainId, entries, today, collect);
    }

    /** `Object.entries(grouped).forEach(...)`: visits the groups `entries` in turn. */
    method TicketGroups(grouped: map<string, seq<Item>>, mainId: int, entries: seq<string>,
                        today: string, collect: string)
      requires forall k :: 0 <= k < |entries| ==> entries[k] in grouped
      requires forall k :: 0 <= k < |entries| ==> grouped[entries[k]] == ItemsWithId(items, entries[k])
      modifies this`tickets
      ensures tickets == ProcessGroups(warehouses, items, mainId, today, collect, old(tickets), entries)
    {
      ghost var whs, its, tks := warehouses, items, tickets;
      var e := 0;
      while e < |entries|
        invariant 0 <= e <= |entries|
        invariant warehouses == whs && items == its
        invariant tickets == ProcessGroups(whs, its, mainId, today, collect, tks, entries[..e])
      {
        var key := entries[e];
        var group := grouped[key];
        var mainItem := FirstAtWarehouse(group, mainId);
        MainRecordOfGroup(its, key, mainId);
        if mainItem.Some? {
          GroupVisited(whs, its, mainId, today, collect, tks, entries, e, mainItem.value);
          TicketGroup(mainId, key, mainItem.value.quantity, group, today, collect);
        } else {
          GroupSkipped(whs, its, mainId, today, collect, tks, entries, e);
        }
        e := e + 1;
      }
      assert entries[..|entries|] == entries;
    }

    /** The `items.forEach` that fills `grouped`, keys in first-insertion order. */
    method GroupByItem() returns (grouped: map<string, seq<Item>>, inserted: seq<string>)
      ensures inserted == KeysInOrder(items)
      ensures forall key :: key in grouped <==> key in inserted
      ensures forall key :: key in grouped ==> grouped[key] == ItemsWithId(items, key)
    {
      grouped, inserted := map[], [];
      var i := 0;
      while i < |items|
        invariant 0 <= i <= |items|
        invariant GroupedBy(grouped, inserted, items[..i])
      {
        var item := items[i];
        var inserted' := if item.itemId in grouped then inserted else inserted + [item.itemId];
        var group := if item.itemId in grouped then grouped[item.itemId] else [];
        var grouped' := grouped[item.itemId := group + [item]];
        GroupStep(grouped, inserted, items, i, grouped', inserted');
        grouped, inserted := grouped', inserted';
        i := i + 1;
      }
      assert items[..|items|] == items;
    }

    /** The inner `group.forEach` for the records of `key`, main quantity `m`. */
    method TicketGroup(mainId: int, key: string, m: nat, group: seq<Item>, today: string, collect: string)
      modifies this`tickets
      ensures tickets == ProcessGroup(warehouses, mainId, key, m, today, collect, old(tickets), group)
    {
      var whs := warehouses;
      var j := 0;
      while j < |group|
        invariant 0 <= j <= |group|
        invariant tickets == ProcessGroup(whs, mainId, key, m, today, collect, old(tickets), group[..j])
      {
        var r := group[j];
        ghost var before := tickets;
        if r.warehouseId != mainId {
          var wh := FindWarehouseById(whs, r.warehouseId);
          if wh.Some? {
            var urgent := IsUrgent(r.quantity, m);
            if IsLowStock(r.quantity, m) && !HasTicketFor(tickets, key, wh.value.name) {
              tickets := tickets + [NewTicket(|tickets| + 1, wh.value, key, m, urgent, today, collect)];
            }
          }
        }
        assert tickets == ProcessRecord(whs, mainId, key, m, today, collect, before, r);
        assert group[..j + 1][..j] == group[..j];
        j := j + 1;
      }
      assert group[..|group|] == group;
    }
  }

  lemma {:induction false} UngroupedKeyIsEmpty(items: seq<Item>, key: string)
    requires key !in KeysInOrder(items)
    ensures ItemsWithId(items, key) == []
  {
    if items != [] {
      UngroupedKeyIsEmpty(items[..|items| - 1], key);
    }
  }

  lemma AutoTicketsOfMain(whs: seq<Warehouse>, items: seq<Item>, tks: seq<Ticket>, today: string, collect: string)
    requires FindMainWarehouse(whs).Some?
    ensures AutoTickets(whs, items, tks, today, collect) ==
              ProcessGroups(whs, items, FindMainWarehouse(whs).value.id, today, collect, tks, PropertyOrder(KeysInOrder(items)))
  {
  }

  /** The outer `forEach` visits the group of `keys[e]`, whose main record is `mainItem`. */
  lemma GroupVisited(whs: seq<Warehouse>, items: seq<Item>, mainId: int, today: string, collect: string,
                     tks: seq<Ticket>, keys: seq<string>, e: nat, mainItem: Item)
    requires e < |keys| && MainRecord(items, keys[e], mainId) == Some(mainItem)
    ensures ProcessGroups(whs, items, mainId, today, collect, tks, keys[..e + 1]) ==
              ProcessGroup(whs, mainId, keys[e], mainItem.quantity, today, collect,
                           ProcessGroups(whs, items, mainId, today, collect, tks, keys[..e]),
                           ItemsWithId(items, keys[e]))
  {
    assert keys[..e + 1][..e] == keys[..e];
  }

  /** The outer `forEach` skips the group of `keys[e]`, which has no main record. */
  lemma GroupSkipped(whs: seq<Warehouse>, items: seq<Item>, mainId: int, today: string, collect: string,
                     tks: seq<Ticket>, keys: seq<string>, e: nat)
    requires e < |keys| && MainRecord(items, keys[e], mainId).None?
    ensures ProcessGroups(whs, items, mainId, today, collect, tks, keys[..e + 1]) ==
              ProcessGroups(whs, items, mainId, today, collect, tks, keys[..e])
  {
    assert keys[..e + 1][..e] == keys[..e];
  }

  /** `grouped` and its insertion order `inserted` after the records `done` were visited. */
  ghost predicate GroupedBy(grouped: map<string, seq<Item>>, inserted: seq<string>, done: seq<Item>)
  {
    && inserted == KeysInOrder(done)
    && (forall key :: key in grouped <==> key in inserted)
    && (forall key :: key in grouped ==> grouped[key] == ItemsWithId(done, key))
  }

  /** Visiting `items[i]` appends it to its group, creating the group on first sight. */
  lemma GroupStep(grouped: map<string, seq<Item>>, inserted: seq<string>, items: seq<Item>, i: nat,
                  grouped': map<string, seq<Item>>, inserted': seq<string>)
    requires i < |items| && GroupedBy(grouped, inserted, items[..i])
    requires grouped' == grouped[items[i].itemId := (if items[i].itemId in grouped then grouped[items[i].itemId] else []) + [items[i]]]
    requires inserted' == if items[i].itemId in grouped then inserted else inserted + [items[i].itemId]
    ensures GroupedBy(grouped', inserted', items[..i + 1])
  {
    KeysStep(inserted, items, i);
    GroupContentsStep(grouped, inserted, items, i, grouped');
  }

  lemma GroupContentsStep(grouped: map<string, seq<Item>>, inserted: seq<string>, items: seq<Item>, i: nat,
                          grouped': map<string, seq<Item>>)
    requires i < |items| && GroupedBy(grouped, inserted, items[..i])
    requires grouped' == grouped[items[i].itemId := (if items[i].itemId in grouped then grouped[items[i].itemId] else []) + [items[i]]]
    ensures forall key :: key in grouped' ==> grouped'[key] == ItemsWithId(items[..i + 1], key)
  {
    forall key | key in grouped' ensures grouped'[key] == ItemsWithId(items[..i + 1], key) {
      GroupContentStep(grouped, inserted, items, i, key);
    }
  }

  lemma KeysStep(inserted: seq<string>, items: seq<Item>, i: nat)
    requires i < |items| && inserted == KeysInOrder(items[..i])
    ensures KeysInOrder(items[..i + 1]) ==
              if items[i].itemId in inserted then inserted else inserted + [items[i].itemId]
  {
    assert items[..i + 1][..i] == items[..i];
  }

  lemma GroupContentStep(grouped: map<string, seq<Item>>, inserted: seq<string>, items: seq<Item>, i: nat, key: string)
    requires i < |items| && GroupedBy(grouped, inserted, items[..i])
    requires key in grouped || key == items[i].itemId
    ensures ItemsWithId(items[..i + 1], key) ==
              (if key in grouped then grouped[key] else []) + (if key == items[i].itemId then [items[i]] else [])
  {
    assert items[..i + 1][..i] == items[..i];
    if key !in grouped {
      UngroupedKeyIsEmpty(items[..i], key);
    }
  }

  /** `group.find(i => i.warehouse_id === warehouseId)`. */
  function FirstAtWarehouse(group: seq<Item>, warehouseId: int): (r: Option<Item>)
    ensures r.None? <==> forall k :: 0 <= k < |group| ==> group[k].warehouseId != warehouseId
    ensures r.Some? ==> r.value in group && r.value.warehouseId == warehouseId
    ensures r.Some? ==> exists k :: 0 <= k < |group| && group[k] == r.value
                          && forall j :: 0 <= j < k ==> group[j].warehouseId != warehouseId
  {
    if group == [] then None
    else if group[0].warehouseId == warehouseId then Some(group[0])
    else
      var r := FirstAtWarehouse(group[1..], warehouseId);
      assert forall k :: 1 <= k < |group| ==> group[k] == group[1..][k - 1];
      r
  }

  lemma {:induction false} FirstAtWarehouseAppend(group: seq<Item>, x: Item, warehouseId: int)
    ensures FirstAtWarehouse(group + [x], warehouseId) ==
              if FirstAtWarehouse(group, warehouseId).Some? then FirstAtWarehouse(group, warehouseId)
              else if x.warehouseId == warehouseId then Some(x) else None
  {
    if group != [] {
      assert (group + [x])[1..] == group[1..] + [x];
      FirstAtWarehouseAppend(group[1..], x, warehouseId);
    }
  }

  lemma MainRecordAppend(items: seq<Item>, x: Item, key: string, mainId: int)
    ensures MainRecord(items + [x], key, mainId) ==
              if MainRecord(items, key, mainId).Some? then MainRecord(items, key, mainId)
              else if IsRecordOf(x, key, mainId) then Some(x) else None
  {
    var all := items + [x];
    assert forall k :: 0 <= k < |items| ==> all[k] == items[k];
    match FindRecord(items, key, mainId)
    case Some(k) =>
      var k' := FindRecord(all, key, mainId).value;
      assert !(k' < k) && !(k < k');
    case None =>
      assert all[|items|] == x;
  }

  /** Looking for the main record inside the group of `key` finds the one `items.find` finds. */
  lemma {:induction false} MainRecordOfGroup(items: seq<Item>, key: string, mainId: int)
    ensures FirstAtWarehouse(ItemsWithId(items, key), mainId) == MainRecord(items, key, mainId)
  {
    if items != [] {
      var init := items[..|items| - 1];
      var last := items[|items| - 1];
      assert items == init + [last];
      MainRecordOfGroup(init, key, mainId);
      MainRecordAppend(init, last, key, mainId);
      if last.itemId == key {
        FirstAtWarehouseAppend(ItemsWithId(init, key), last, mainId);
      } else {
        assert ItemsWithId(items, key) == ItemsWithId(init, key);
      }
    }
  }
}
