/**
 * The replenishment rule of the server's auto-ticket pass, as functions over
 * the warehouse, item and ticket tables, and what it guarantees: it only
 * appends, every new ticket answers one low-stock record, no (item, warehouse
 * name) pair is ticketed twice, every shortage ends up ticketed, and a second
 * pass over unchanged stock adds nothing.
 */
module AutoTicket {
  import opened Records
  import opened JsObjects

  const AUTO_SYSTEM := "auto-system"
  const URGENT := "URGENT"
  const PENDING := "PENDING"

  /** `grouped[key]` once every record has been pushed: the records of `key`, in `items` order. */
  function ItemsWithId(items: seq<Item>, key: string): (g: seq<Item>)
    ensures forall r :: r in g <==> r in items && r.itemId == key
  {
    if items == [] then []
    else
      var last := items[|items| - 1];
      assert items == items[..|items| - 1] + [last];
      ItemsWithId(items[..|items| - 1], key) + (if last.itemId == key then [last] else [])
  }

  /** The keys of `grouped` in the order they were first inserted: each item id once. */
  function KeysInOrder(items: seq<Item>): (keys: seq<string>)
    ensures forall r :: r in items ==> r.itemId in keys
    ensures forall a, b :: 0 <= a < b < |keys| ==> keys[a] != keys[b]
  {
    if items == [] then []
    else
      var last := items[|items| - 1];
      var keys := KeysInOrder(items[..|items| - 1]);
      assert items == items[..|items| - 1] + [last];
      if last.itemId in keys then keys else keys + [last.itemId]
  }

  /** Every key of `grouped` is the item id of some record. */
  lemma {:induction false} KeysComeFromItems(items: seq<Item>)
    ensures forall key :: key in KeysInOrder(items) ==> exists r :: r in items && r.itemId == key
  {
    if items != [] {
      var init := items[..|items| - 1];
      KeysComeFromItems(init);
      assert items == init + [items[|items| - 1]];
    }
  }

  /** `Object.entries(grouped)`: the order in which the groups are visited. */
  function GroupOrder(items: seq<Item>): (keys: seq<string>)
    ensures forall r :: r in items ==> r.itemId in keys
    ensures forall key :: key in keys ==> key in KeysInOrder(items)
  {
    var inserted := KeysInOrder(items);
    var keys := PropertyOrder(inserted);
    assert forall key :: key in keys <==> key in inserted by {
      forall key ensures key in keys <==> key in inserted {
        assert key in keys <==> key in multiset(keys);
      }
    }
    keys
  }

  /** Only item ids of records are visited. */
  lemma GroupOrderFromItems(items: seq<Item>)
    ensures forall key :: key in GroupOrder(items) ==> exists r :: r in items && r.itemId == key
  {
    KeysComeFromItems(items);
  }

  /** `(q / m) * 100 <= 20`, by cross-multiplication. */
  predicate IsUrgent(q: nat, m: nat)
  {
    100 * q <= 20 * m
  }

  /** The ticket the pass pushes for a low-stock record of `key` at `wh`. */
  function NewTicket(id: int, wh: Warehouse, key: string, m: nat, urgent: bool,
                     today: string, collect: string): Ticket
  {
    Ticket(id, key, Some(wh.id), Some(wh.name), None, None, None, m, today, collect,
           if urgent then URGENT else PENDING, None, None, None, None, AUTO_SYSTEM)
  }

  /** `tickets.some(t => t.item_id === key && t.warehouse === whName)`: any status counts. */
  predicate HasTicketFor(tks: seq<Ticket>, key: string, whName: string)
  {
    exists t :: t in tks && t.itemId == key && t.warehouse == Some(whName)
  }

  /** The body of the inner `group.forEach`, for one record of the group of `key`. */
  function ProcessRecord(whs: seq<Warehouse>, mainId: int, key: string, m: nat,
                         today: string, collect: string, tks: seq<Ticket>, r: Item): seq<Ticket>
  {
    if r.warehouseId == mainId then tks
    else
      match FindWarehouseById(whs, r.warehouseId)
      case None => tks
      case Some(wh) =>
        if IsLowStock(r.quantity, m) && !HasTicketFor(tks, key, wh.name)
        then tks + [NewTicket(|tks| + 1, wh, key, m, IsUrgent(r.quantity, m), today, collect)]
        else tks
  }

  /** The inner `group.forEach` over the records of `key`, main quantity `m`. */
  function ProcessGroup(whs: seq<Warehouse>, mainId: int, key: string, m: nat,
                        today: string, collect: string, tks: seq<Ticket>, group: seq<Item>): seq<Ticket>
  {
    if group == [] then tks
    else
      ProcessRecord(whs, mainId, key, m, today, collect,
                    ProcessGroup(whs, mainId, key, m, today, collect, tks, group[..|group| - 1]),
                    group[|group| - 1])
  }

  /** The outer `forEach` over the groups `keys`, skipping a group with no main record. */
  function ProcessGroups(whs: seq<Warehouse>, items: seq<Item>, mainId: int,
                         today: string, collect: string, tks: seq<Ticket>, keys: seq<string>): seq<Ticket>
  {
    if keys == [] then tks
    else
      var prev := ProcessGroups(whs, items, mainId, today, collect, tks, keys[..|keys| - 1]);
      var key := keys[|keys| - 1];
      match MainRecord(items, key, mainId)
      case None => prev
      case Some(mainItem) =>
        ProcessGroup(whs, mainId, key, mainItem.quantity, today, collect, prev, ItemsWithId(items, key))
  }

  /**
   * The ticket table after `checkAutoTicketLogic()`; `today` and `collect` are
   * the request date and the date five days on.
   */
  function AutoTickets(whs: seq<Warehouse>, items: seq<Item>, tks: seq<Ticket>,
                       today: string, collect: string): (r: seq<Ticket>)
    ensures FindMainWarehouse(whs).None? ==> r == tks
  {
    match FindMainWarehouse(whs)
    case None => tks
    case Some(mainWh) => ProcessGroups(whs, items, mainWh.id, today, collect, tks, GroupOrder(items))
  }

  // ---------------------------------------------------------------------------
  // What the pass guarantees

  /** `b` is `a` with tickets appended. */
  predicate Extends(a: seq<Ticket>, b: seq<Ticket>)
  {
    |a| <= |b| && b[..|a|] == a
  }

  /**
   * A record the pass must answer: not in the main warehouse, its item has a
   * main record, its warehouse exists, and it holds at most 60% of the main
   * quantity (which must be positive).
   */
  predicate Qualifies(whs: seq<Warehouse>, items: seq<Item>, mainId: int, r: Item)
  {
    && r.warehouseId != mainId
    && MainRecord(items, r.itemId, mainId).Some?
    && FindWarehouseById(whs, r.warehouseId).Some?
    && IsLowStock(r.quantity, MainRecord(items, r.itemId, mainId).value.quantity)
  }

  /** The ticket that answers the qualifying record `r` when it lands at index `k`. */
  function AnswerTo(whs: seq<Warehouse>, items: seq<Item>, mainId: int, today: string,
                    collect: string, r: Item, k: nat): Ticket
    requires Qualifies(whs, items, mainId, r)
  {
    var m := MainRecord(items, r.itemId, mainId).value.quantity;
    NewTicket(k + 1, FindWarehouseById(whs, r.warehouseId).value, r.itemId, m,
              IsUrgent(r.quantity, m), today, collect)
  }

  predicate IsAnswerAt(whs: seq<Warehouse>, items: seq<Item>, mainId: int, today: string,
                       collect: string, tks: seq<Ticket>, k: nat)
    requires k < |tks|
  {
    exists r :: r in items && Qualifies(whs, items, mainId, r)
                && tks[k] == AnswerTo(whs, items, mainId, today, collect, r, k)
  }

  /** No ticket before index `k` has the item id and warehouse name of ticket `k`. */
  predicate FirstOfItsKey(tks: seq<Ticket>, k: nat)
    requires k < |tks|
  {
    tks[k].warehouse.Some? && !HasTicketFor(tks[..k], tks[k].itemId, tks[k].warehouse.value)
  }

  /** `tks` extends `before` and every appended ticket answers a record and is first of its key. */
  predicate WellAppended(whs: seq<Warehouse>, items: seq<Item>, mainId: int, today: string,
                         collect: string, before: seq<Ticket>, tks: seq<Ticket>)
  {
    && Extends(before, tks)
    && forall k :: |before| <= k < |tks| ==>
         IsAnswerAt(whs, items, mainId, today, collect, tks, k) && FirstOfItsKey(tks, k)
  }

  /** Every qualifying record has a ticket for its item id and warehouse name. */
  predicate Covered(whs: seq<Warehouse>, items: seq<Item>, mainId: int, tks: seq<Ticket>)
  {
    forall r :: r in items && Qualifies(whs, items, mainId, r) ==>
      HasTicketFor(tks, r.itemId, FindWarehouseById(whs, r.warehouseId).value.name)
  }

  lemma ExtendsKeepsTickets(a: seq<Ticket>, b: seq<Ticket>, key: string, whName: string)
    requires Extends(a, b) && HasTicketFor(a, key, whName)
    ensures HasTicketFor(b, key, whName)
  {
    var t :| t in a && t.itemId == key && t.warehouse == Some(whName);
    var k :| 0 <= k < |a| && a[k] == t;
    assert b[k] == t;
  }

  /** One record step keeps the appended part well-formed and answers the record. */
  lemma {:induction false} ProcessRecordStep(whs: seq<Warehouse>, items: seq<Item>, mainId: int,
                                             key: string, today: string, collect: string,
                                             before: seq<Ticket>, tks: seq<Ticket>, r: Item)
    requires WellAppended(whs, items, mainId, today, collect, before, tks)
    requires r in items && r.itemId == key && MainRecord(items, key, mainId).Some?
    ensures var out := ProcessRecord(whs, mainId, key, MainRecord(items, key, mainId).value.quantity,
                                     today, collect, tks, r);
            && WellAppended(whs, items, mainId, today, collect, before, out)
            && Extends(tks, out)
            && (Qualifies(whs, items, mainId, r) ==>
                  HasTicketFor(out, key, FindWarehouseById(whs, r.warehouseId).value.name))
  {
    var m := MainRecord(items, key, mainId).value.quantity;
    var out := ProcessRecord(whs, mainId, key, m, today, collect, tks, r);
    if out != tks {
      var wh := FindWarehouseById(whs, r.warehouseId).value;
      var t := NewTicket(|tks| + 1, wh, key, m, IsUrgent(r.quantity, m), today, collect);
      assert out == tks + [t];
      assert Qualifies(whs, items, mainId, r);
      assert out[|tks|] == AnswerTo(whs, items, mainId, today, collect, r, |tks|);
      assert out[..|tks|] == tks;
      assert FirstOfItsKey(out, |tks|);
      assert out[..|before|] == before by {
        assert out[..|before|] == tks[..|before|];
      }
      forall k | |before| <= k < |out|
        ensures IsAnswerAt(whs, items, mainId, today, collect, out, k) && FirstOfItsKey(out, k)
      {
        if k < |tks| {
          assert out[k] == tks[k] && out[..k] == tks[..k];
          assert IsAnswerAt(whs, items, mainId, today, collect, tks, k);
        } else {
          assert out[k] == AnswerTo(whs, items, mainId, today, collect, r, k);
        }
      }
      assert t in out;
    } else {
      assert out[..|tks|] == tks;
    }
  }

  /** The inner loop over a group keeps the appended part well-formed and answers the group. */
  lemma {:induction false} ProcessGroupAnswers(whs: seq<Warehouse>, items: seq<Item>, mainId: int,
                                               key: string, today: string, collect: string,
                                               before: seq<Ticket>, tks: seq<Ticket>, group: seq<Item>)
    requires WellAppended(whs, items, mainId, today, collect, before, tks)
    requires MainRecord(items, key, mainId).Some?
    requires forall r :: r in group ==> r in items && r.itemId == key
    ensures var out := ProcessGroup(whs, mainId, key, MainRecord(items, key, mainId).value.quantity,
                                    today, collect, tks, group);
            && WellAppended(whs, items, mainId, today, collect, before, out)
            && Extends(tks, out)
            && forall r :: r in group && Qualifies(whs, items, mainId, r) ==>
                 HasTicketFor(out, key, FindWarehouseById(whs, r.warehouseId).value.name)
  {
    if group != [] {
      var m := MainRecord(items, key, mainId).value.quantity;
      var init := group[..|group| - 1];
      var last := group[|group| - 1];
      assert group == init + [last];
      ProcessGroupAnswers(whs, items, mainId, key, today, collect, before, tks, init);
      var mid := ProcessGroup(whs, mainId, key, m, today, collect, tks, init);
      ProcessRecordStep(whs, items, mainId, key, today, collect, before, mid, last);
      var out := ProcessRecord(whs, mainId, key, m, today, collect, mid, last);
      assert out[..|tks|] == tks by {
        assert out[..|mid|][..|tks|] == out[..|tks|];
      }
      forall r | r in group && Qualifies(whs, items, mainId, r)
        ensures HasTicketFor(out, key, FindWarehouseById(whs, r.warehouseId).value.name)
      {
        if r in init {
          ExtendsKeepsTickets(mid, out, key, FindWarehouseById(whs, r.warehouseId).value.name);
        }
      }
    }
  }

  /** The outer loop over the groups `keys` keeps the appended part well-formed and answers them. */
  lemma {:induction false} ProcessGroupsAnswers(whs: seq<Warehouse>, items: seq<Item>, mainId: int,
                                                today: string, collect: string,
                                                tks: seq<Ticket>, keys: seq<string>)
    ensures var out := ProcessGroups(whs, items, mainId, today, collect, tks, keys);
            && WellAppended(whs, items, mainId, today, collect, tks, out)
            && forall r :: r in items && r.itemId in keys && Qualifies(whs, items, mainId, r) ==>
                 HasTicketFor(out, r.itemId, FindWarehouseById(whs, r.warehouseId).value.name)
  {
    if keys == [] {
      assert tks[..|tks|] == tks;
    } else {
      var init := keys[..|keys| - 1];
      var key := keys[|keys| - 1];
      assert keys == init + [key];
      ProcessGroupsAnswers(whs, items, mainId, today, collect, tks, init);
      var prev := ProcessGroups(whs, items, mainId, today, collect, tks, init);
      var out := ProcessGroups(whs, items, mainId, today, collect, tks, keys);
      match MainRecord(items, key, mainId)
      case None =>
        forall r | r in items && r.itemId in keys && Qualifies(whs, items, mainId, r)
          ensures r.itemId in init
        {
        }
      case Some(mainItem) =>
        var group := ItemsWithId(items, key);
        ProcessGroupAnswers(whs, items, mainId, key, today, collect, tks, prev, group);
        forall r | r in items && r.itemId in keys && Qualifies(whs, items, mainId, r)
          ensures HasTicketFor(out, r.itemId, FindWarehouseById(whs, r.warehouseId).value.name)
        {
          if r.itemId != key {
            ExtendsKeepsTickets(prev, out, r.itemId, FindWarehouseById(whs, r.warehouseId).value.name);
          }
        }
    }
  }

  /**
   * The pass only appends to the ticket table, and every ticket it appends
   * answers one qualifying record (with id = its position + 1, the main
   * quantity as amount, URGENT at or below 20%) and is the first ticket of
   * its item id and warehouse name.
   */
  lemma AutoTicketsWellAppended(whs: seq<Warehouse>, items: seq<Item>, tks: seq<Ticket>,
                                today: string, collect: string)
    requires FindMainWarehouse(whs).Some?
    ensures WellAppended(whs, items, FindMainWarehouse(whs).value.id, today, collect, tks,
                         AutoTickets(whs, items, tks, today, collect))
  {
    ProcessGroupsAnswers(whs, items, FindMainWarehouse(whs).value.id, today, collect, tks, GroupOrder(items));
  }

  /** Without a main warehouse nothing is appended; with one, the before tickets stay as they were. */
  lemma AutoTicketsAppendOnly(whs: seq<Warehouse>, items: seq<Item>, tks: seq<Ticket>,
                              today: string, collect: string)
    ensures Extends(tks, AutoTickets(whs, items, tks, today, collect))
  {
    if FindMainWarehouse(whs).Some? {
      AutoTicketsWellAppended(whs, items, tks, today, collect);
    } else {
      assert tks[..|tks|] == tks;
    }
  }

  /** The tickets one pass appends are pairwise distinct on (item id, warehouse name). */
  lemma AutoTicketKeysDistinct(whs: seq<Warehouse>, items: seq<Item>, tks: seq<Ticket>,
                               today: string, collect: string)
    ensures var out := AutoTickets(whs, items, tks, today, collect);
            forall a, b :: |tks| <= a < b < |out| ==>
              out[a].itemId != out[b].itemId || out[a].warehouse != out[b].warehouse
  {
    var out := AutoTickets(whs, items, tks, today, collect);
    if FindMainWarehouse(whs).Some? {
      AutoTicketsWellAppended(whs, items, tks, today, collect);
      forall a, b | |tks| <= a < b < |out|
        ensures out[a].itemId != out[b].itemId || out[a].warehouse != out[b].warehouse
      {
        assert FirstOfItsKey(out, b);
        assert out[a] in out[..b];
      }
    }
  }

  /** A ticket already present for (item id, warehouse name), in any status, suppresses every new one. */
  lemma ExistingTicketSuppresses(whs: seq<Warehouse>, items: seq<Item>, tks: seq<Ticket>,
                                 today: string, collect: string, key: string, whName: string)
    requires HasTicketFor(tks, key, whName)
    ensures var out := AutoTickets(whs, items, tks, today, collect);
            forall k :: |tks| <= k < |out| ==> out[k].itemId != key || out[k].warehouse != Some(whName)
  {
    var out := AutoTickets(whs, items, tks, today, collect);
    if FindMainWarehouse(whs).Some? {
      AutoTicketsWellAppended(whs, items, tks, today, collect);
      forall k | |tks| <= k < |out| ensures out[k].itemId != key || out[k].warehouse != Some(whName) {
        FirstOfKeyIsNew(tks, out, k, key, whName);
      }
    }
  }

  lemma FirstOfKeyIsNew(tks: seq<Ticket>, out: seq<Ticket>, k: nat, key: string, whName: string)
    requires Extends(tks, out) && |tks| <= k < |out| && FirstOfItsKey(out, k)
    requires HasTicketFor(tks, key, whName)
    ensures out[k].itemId != key || out[k].warehouse != Some(whName)
  {
    assert out[..k][..|tks|] == tks;
    ExtendsKeepsTickets(tks, out[..k], key, whName);
  }

  /** After a pass every qualifying record has a ticket for its item and warehouse name. */
  lemma AutoTicketsCover(whs: seq<Warehouse>, items: seq<Item>, tks: seq<Ticket>,
                         today: string, collect: string)
    requires FindMainWarehouse(whs).Some?
    ensures Covered(whs, items, FindMainWarehouse(whs).value.id, AutoTickets(whs, items, tks, today, collect))
  {
    ProcessGroupsAnswers(whs, items, FindMainWarehouse(whs).value.id, today, collect, tks, GroupOrder(items));
  }

  lemma {:induction false} CoveredGroupUnchanged(whs: seq<Warehouse>, items: seq<Item>, mainId: int,
                                                 key: string, today: string, collect: string,
                                                 tks: seq<Ticket>, group: seq<Item>)
    requires Covered(whs, items, mainId, tks)
    requires MainRecord(items, key, mainId).Some?
    requires forall r :: r in group ==> r in items && r.itemId == key
    ensures ProcessGroup(whs, mainId, key, MainRecord(items, key, mainId).value.quantity,
                         today, collect, tks, group) == tks
  {
    if group != [] {
      var init := group[..|group| - 1];
      assert group == init + [group[|group| - 1]];
      CoveredGroupUnchanged(whs, items, mainId, key, today, collect, tks, init);
    }
  }

  lemma {:induction false} CoveredGroupsUnchanged(whs: seq<Warehouse>, items: seq<Item>, mainId: int,
                                                  today: string, collect: string,
                                                  tks: seq<Ticket>, keys: seq<string>)
    requires Covered(whs, items, mainId, tks)
    ensures ProcessGroups(whs, items, mainId, today, collect, tks, keys) == tks
  {
    if keys != [] {
      var key := keys[|keys| - 1];
      CoveredGroupsUnchanged(whs, items, mainId, today, collect, tks, keys[..|keys| - 1]);
      if MainRecord(items, key, mainId).Some? {
        CoveredGroupUnchanged(whs, items, mainId, key, today, collect, tks, ItemsWithId(items, key));
      }
    }
  }

  /** A second pass over unchanged warehouses and items appends nothing. */
  lemma AutoTicketsIdempotent(whs: seq<Warehouse>, items: seq<Item>, tks: seq<Ticket>,
                              today: string, collect: string, today': string, collect': string)
    ensures var once := AutoTickets(whs, items, tks, today, collect);
            AutoTickets(whs, items, once, today', collect') == once
  {
    if FindMainWarehouse(whs).Some? {
      var mainId := FindMainWarehouse(whs).value.id;
      AutoTicketsCover(whs, items, tks, today, collect);
      CoveredGroupsUnchanged(whs, items, mainId, today', collect',
                             AutoTickets(whs, items, tks, today, collect), GroupOrder(items));
    }
  }
}
