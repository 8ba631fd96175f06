/**
 * The order webhook of the storefront integration: for every SKU line of an
 * order it deducts stock from the India warehouse (id 6), creates the India
 * record when it is missing, and asks the main warehouse for replenishment
 * when the India stock falls to 60% of the main stock or below.
 *
 * `ApplyLine` / `ApplyLines` state what the loop does to the two tables;
 * `ProcessOrder` is the loop itself, run on the tables of a `Server.Store`.
 */
module OrderWebhook {
  import opened Records
  import Server

  /** The warehouse the storefront sells from; its records are the ones deducted. */
  const INDIA_WAREHOUSE_ID: int := 6
  const INDIA_NAME := "India"
  const WEBHOOK_CREATOR := "auto-wix-order"
  const WEBHOOK_STATUS := "Pending"

  /**
   * A line item of the order. A missing `sku` is the empty string and a
   * missing `quantity` is 0: both are falsy, as `undefined` is.
   */
  datatype LineItem = LineItem(sku: string, quantity: int)

  /** An entry `{ sku, qty }` of `skus`. */
  datatype SkuLine = SkuLine(sku: string, qty: int)

  /** `item.sku && item.quantity`. */
  predicate IsSkuLine(l: LineItem)
  {
    l.sku != "" && l.quantity != 0
  }

  /** The entries `order.lineItems?.forEach` pushes onto `skus`, in order. */
  function SkuLines(lines: seq<LineItem>): (r: seq<SkuLine>)
    ensures |r| <= |lines|
    ensures forall k :: 0 <= k < |r| ==> r[k].sku != "" && r[k].qty != 0
    ensures r == [] <==> forall k :: 0 <= k < |lines| ==> !IsSkuLine(lines[k])
  {
    if lines == [] then []
    else
      var init := lines[..|lines| - 1];
      var last := lines[|lines| - 1];
      assert forall k :: 0 <= k < |init| ==> init[k] == lines[k];
      SkuLines(init) + (if IsSkuLine(last) then [SkuLine(last.sku, last.quantity)] else [])
  }

  /** Every kept line appears in `skus`, and nothing else does. */
  lemma {:induction false} SkuLinesMembers(lines: seq<LineItem>)
    ensures forall s :: s in SkuLines(lines) <==>
              exists l :: l in lines && IsSkuLine(l) && s == SkuLine(l.sku, l.quantity)
  {
    if lines != [] {
      var init := lines[..|lines| - 1];
      SkuLinesMembers(init);
      assert lines == init + [lines[|lines| - 1]];
    }
  }

  /** The lines of a concatenated order are the lines of each part, in order. */
  lemma {:induction false} SkuLinesAppend(a: seq<LineItem>, b: seq<LineItem>)
    ensures SkuLines(a + b) == SkuLines(a) + SkuLines(b)
  {
    if b != [] {
      var init := b[..|b| - 1];
      SkuLinesAppend(a, init);
      assert (a + b)[..|a + b| - 1] == a + init;
    } else {
      assert a + b == a;
    }
  }

  /** The accumulation loop of lines 37-42. */
  method CollectSkus(lines: seq<LineItem>) returns (skus: seq<SkuLine>)
    ensures skus == SkuLines(lines)
  {
    skus := [];
    var i := 0;
    while i < |lines|
      invariant 0 <= i <= |lines|
      invariant skus == SkuLines(lines[..i])
    {
      var item := lines[i];
      assert lines[..i + 1][..i] == lines[..i];
      if item.sku != "" && item.quantity != 0 {
        skus := skus + [SkuLine(item.sku, item.quantity)];
      }
      i := i + 1;
    }
    assert lines[..|lines|] == lines;
  }

  /** `quantity -= qty`, then clamped at zero. */
  function Deduct(q: nat, qty: int): (r: nat)
    ensures r == 0 || r == q - qty
    ensures r >= q - qty
    ensures qty >= 0 ==> r <= q
  {
    if q - qty < 0 then 0 else q - qty
  }

  /** `Math.ceil(m / 10)` for a whole number `m`. */
  function ReplenishQuantity(m: nat): (r: nat)
    ensures 10 * r >= m && 10 * r < m + 10
    ensures m > 0 ==> r >= 1
  {
    (m + 9) / 10
  }

  /** The two tables the webhook reads and writes back. */
  datatype Tables = Tables(items: seq<Item>, tickets: seq<Ticket>)

  /**
   * `items.find(i => i.item_id === sku && i.warehouse_id === mainWarehouse?.id)`:
   * with no main warehouse the id is `undefined`, which no record has.
   */
  function MainItemOf(items: seq<Item>, sku: string, main: Option<Warehouse>): (r: Option<Item>)
    ensures main.None? ==> r.None?
    ensures main.Some? ==>
              (r.None? <==> forall k :: 0 <= k < |items| ==> !IsRecordOf(items[k], sku, main.value.id))
    ensures r.Some? ==> r.value in items && IsRecordOf(r.value, sku, main.value.id)
    ensures r.Some? ==> exists k :: 0 <= k < |items| && items[k] == r.value
                          && forall j :: 0 <= j < k ==> !IsRecordOf(items[j], sku, main.value.id)
  {
    match main
    case None => None
    case Some(w) =>
      match FindRecord(items, sku, w.id)
      case None => None
      case Some(k) => assert items[k] in items; Some(items[k])
  }

  /** The ticket pushed for a low India stock of `sku`; `m` is the main quantity. */
  function WebhookTicket(id: int, main: Warehouse, sku: string, targetName: string, m: nat,
                         now: string): (t: Ticket)
    ensures t.itemId == sku && t.quantity == ReplenishQuantity(m)
    ensures t.fromWarehouse == Some(main.name) && t.toWarehouse == Some(INDIA_NAME)
  {
    Ticket(id, sku, None, None, Some(main.name), Some(INDIA_NAME), Some(targetName),
           ReplenishQuantity(m), now, "", WEBHOOK_STATUS, Some(""), Some(""), Some(""), Some(now),
           WEBHOOK_CREATOR)
  }

  /** The shape every webhook ticket has. */
  predicate IsWebhookTicket(t: Ticket)
  {
    && t.toWarehouse == Some(INDIA_NAME)
    && t.status == WEBHOOK_STATUS
    && t.collectDate == ""
    && t.expectedReady == Some("") && t.actualReady == Some("") && t.delayReason == Some("")
    && t.createdBy == WEBHOOK_CREATOR
    && t.quantity >= 1
  }

  /**
   * One pass of the `for (const { sku, qty } of skus)` body. `main` is the main
   * warehouse found before the loop; `nowMillis` and `now` are the clock
   * readings `Date.now()` and `new Date().toISOString()`.
   */
  function ApplyLine(main: Option<Warehouse>, t: Tables, line: SkuLine, nowMillis: int, now: string): Tables
  {
    match FindRecord(t.items, line.sku, INDIA_WAREHOUSE_ID)
    case None =>
      (match MainItemOf(t.items, line.sku, main)
       case None => t
       case Some(mainItem) => t.(items := t.items + [Item(line.sku, mainItem.name, INDIA_WAREHOUSE_ID, 0)]))
    case Some(k) =>
      var target := t.items[k].(quantity := Deduct(t.items[k].quantity, line.qty));
      var items := t.items[k := target];
      match MainItemOf(items, line.sku, main)
      case None => t.(items := items)
      case Some(mainItem) =>
        if IsLowStock(target.quantity, mainItem.quantity) then
          var ticket := WebhookTicket(nowMillis, main.value, line.sku, target.name, mainItem.quantity, now);
          Tables(items, t.tickets + [ticket])
        else t.(items := items)
  }

  /** The whole `for…of` loop over `skus`. */
  function ApplyLines(main: Option<Warehouse>, t: Tables, skus: seq<SkuLine>, nowMillis: int, now: string): Tables
  {
    if skus == [] then t
    else ApplyLine(main, ApplyLines(main, t, skus[..|skus| - 1], nowMillis, now), skus[|skus| - 1], nowMillis, now)
  }

  // ---------------------------------------------------------------------------
  // One line

  /** A line whose SKU has an India record deducts from the first such record and nothing else. */
  lemma DeductsFirstIndiaRecord(main: Option<Warehouse>, t: Tables, line: SkuLine, nowMillis: int, now: string)
    requires FindRecord(t.items, line.sku, INDIA_WAREHOUSE_ID).Some?
    ensures var k := FindRecord(t.items, line.sku, INDIA_WAREHOUSE_ID).value;
            var r := ApplyLine(main, t, line, nowMillis, now);
            && |r.items| == |t.items|
            && r.items[k].quantity as int == (if t.items[k].quantity - line.qty < 0 then 0 else t.items[k].quantity - line.qty)
            && r.items[k] == t.items[k].(quantity := r.items[k].quantity)
            && (forall j :: 0 <= j < |t.items| && j != k ==> r.items[j] == t.items[j])
  {
  }

  /**
   * A line whose SKU has no India record deducts nothing and makes no ticket;
   * it appends the India record exactly when the main warehouse has one.
   */
  lemma CreatesMissingIndiaRecord(main: Option<Warehouse>, t: Tables, line: SkuLine, nowMillis: int, now: string)
    requires FindRecord(t.items, line.sku, INDIA_WAREHOUSE_ID).None?
    ensures var r := ApplyLine(main, t, line, nowMillis, now);
            && r.tickets == t.tickets
            && match MainItemOf(t.items, line.sku, main)
               case None => r.items == t.items
               case Some(mainItem) => r.items == t.items + [Item(line.sku, mainItem.name, INDIA_WAREHOUSE_ID, 0)]
  {
  }

  /**
   * A line appends a ticket exactly when its SKU has an India record, the main
   * warehouse has a record of it with `m > 0`, and the deducted quantity `q`
   * satisfies `100 * q <= 60 * m`; otherwise the tickets are unchanged.
   */
  lemma TicketIffLowAfterDeduction(main: Option<Warehouse>, t: Tables, line: SkuLine, nowMillis: int, now: string)
    ensures var r := ApplyLine(main, t, line, nowMillis, now);
            var k := FindRecord(t.items, line.sku, INDIA_WAREHOUSE_ID);
            var low := k.Some? &&
              var items := r.items;
              var mainItem := MainItemOf(items, line.sku, main);
              mainItem.Some? && IsLowStock(items[k.value].quantity, mainItem.value.quantity);
            && (low ==> |r.tickets| == |t.tickets| + 1 && r.tickets[..|t.tickets|] == t.tickets)
            && (!low ==> r.tickets == t.tickets)
  {
    var r := ApplyLine(main, t, line, nowMillis, now);
    match FindRecord(t.items, line.sku, INDIA_WAREHOUSE_ID)
    case None =>
    case Some(k) =>
      assert |r.items| == |t.items| && r.items[k].quantity == Deduct(t.items[k].quantity, line.qty);
  }

  /** A ticket the webhook appends carries the replenishment fields for `line`. */
  lemma AppendedTicketShape(main: Option<Warehouse>, t: Tables, line: SkuLine, nowMillis: int, now: string)
    requires |ApplyLine(main, t, line, nowMillis, now).tickets| > |t.tickets|
    ensures var r := ApplyLine(main, t, line, nowMillis, now);
            var k := FindRecord(t.items, line.sku, INDIA_WAREHOUSE_ID).value;
            var mainItem := MainItemOf(r.items, line.sku, main).value;
            var ticket := r.tickets[|t.tickets|];
            && FindRecord(t.items, line.sku, INDIA_WAREHOUSE_ID).Some?
            && MainItemOf(r.items, line.sku, main).Some?
            && main.Some?
            && IsWebhookTicket(ticket)
            && ticket == WebhookTicket(nowMillis, main.value, line.sku, t.items[k].name, mainItem.quantity, now)
            && 10 * ticket.quantity >= mainItem.quantity && 10 * (ticket.quantity - 1) < mainItem.quantity
  {
  }

  /**
   * No deduplication: what a line does to the records, and whether it appends
   * a ticket, does not depend on the tickets already in the table.
   */
  lemma NoDedup(main: Option<Warehouse>, items: seq<Item>, tks1: seq<Ticket>, tks2: seq<Ticket>,
                line: SkuLine, nowMillis: int, now: string)
    ensures var r1 := ApplyLine(main, Tables(items, tks1), line, nowMillis, now);
            var r2 := ApplyLine(main, Tables(items, tks2), line, nowMillis, now);
            && r1.items == r2.items
            && |r1.tickets| - |tks1| == |r2.tickets| - |tks2|
            && r1.tickets[|tks1|..] == r2.tickets[|tks2|..]
  {
  }

  /** What one line keeps: old tickets, and every old record but its India quantity. */
  predicate Keeps(before: Tables, after: Tables)
  {
    && |before.items| <= |after.items|
    && (forall j :: 0 <= j < |before.items| ==>
          && after.items[j].itemId == before.items[j].itemId
          && after.items[j].name == before.items[j].name
          && after.items[j].warehouseId == before.items[j].warehouseId
          && (before.items[j].warehouseId != INDIA_WAREHOUSE_ID ==> after.items[j] == before.items[j]))
    && (forall j :: |before.items| <= j < |after.items| ==> after.items[j].warehouseId == INDIA_WAREHOUSE_ID)
    && before.tickets <= after.tickets
    && (forall j :: |before.tickets| <= j < |after.tickets| ==> IsWebhookTicket(after.tickets[j]))
  }

  lemma ApplyLineKeeps(main: Option<Warehouse>, t: Tables, line: SkuLine, nowMillis: int, now: string)
    ensures Keeps(t, ApplyLine(main, t, line, nowMillis, now))
  {
    match FindRecord(t.items, line.sku, INDIA_WAREHOUSE_ID)
    case None =>
      if MainItemOf(t.items, line.sku, main).Some? {
        KeepsAppendedRecord(t, Item(line.sku, MainItemOf(t.items, line.sku, main).value.name, INDIA_WAREHOUSE_ID, 0));
      } else {
        assert t.tickets <= t.tickets;
      }
    case Some(k) =>
      var r := ApplyLine(main, t, line, nowMillis, now);
      KeepsDeducted(t, k, r.items[k].quantity, r.tickets[|t.tickets|..]);
      assert r.tickets == t.tickets + r.tickets[|t.tickets|..];
  }

  lemma KeepsAppendedRecord(t: Tables, x: Item)
    requires x.warehouseId == INDIA_WAREHOUSE_ID
    ensures Keeps(t, t.(items := t.items + [x]))
  {
    assert t.tickets <= t.tickets;
  }

  lemma KeepsDeducted(t: Tables, k: nat, q: nat, extra: seq<Ticket>)
    requires k < |t.items| && t.items[k].warehouseId == INDIA_WAREHOUSE_ID
    requires forall j :: 0 <= j < |extra| ==> IsWebhookTicket(extra[j])
    ensures Keeps(t, Tables(t.items[k := t.items[k].(quantity := q)], t.tickets + extra))
  {
    var after := Tables(t.items[k := t.items[k].(quantity := q)], t.tickets + extra);
    assert after.tickets[..|t.tickets|] == t.tickets;
    forall j | |t.tickets| <= j < |after.tickets| ensures IsWebhookTicket(after.tickets[j]) {
      assert after.tickets[j] == extra[j - |t.tickets|];
    }
  }

  lemma KeepsTransitive(a: Tables, b: Tables, c: Tables)
    requires Keeps(a, b) && Keeps(b, c)
    ensures Keeps(a, c)
  {
    forall j | |a.items| <= j < |c.items| ensures c.items[j].warehouseId == INDIA_WAREHOUSE_ID {
      if j < |b.items| {
        assert b.items[j].warehouseId == INDIA_WAREHOUSE_ID;
      }
    }
    forall j | |a.tickets| <= j < |c.tickets| ensures IsWebhookTicket(c.tickets[j]) {
      if j < |b.tickets| {
        assert c.tickets[j] == b.tickets[j];
      }
    }
  }

  // ---------------------------------------------------------------------------
  // The whole loop

  /**
   * Within one call only the quantities of existing India records change, new
   * records are India records, existing tickets are kept and every new ticket
   * has the webhook shape.
   */
  lemma {:induction false} ApplyLinesKeeps(main: Option<Warehouse>, t: Tables, skus: seq<SkuLine>,
                                           nowMillis: int, now: string)
    ensures Keeps(t, ApplyLines(main, t, skus, nowMillis, now))
  {
    if skus == [] {
      assert t.tickets <= t.tickets;
    } else {
      var init := skus[..|skus| - 1];
      var mid := ApplyLines(main, t, init, nowMillis, now);
      ApplyLinesKeeps(main, t, init, nowMillis, now);
      ApplyLineKeeps(main, mid, skus[|skus| - 1], nowMillis, now);
      KeepsTransitive(t, mid, ApplyLines(main, t, skus, nowMillis, now));
    }
  }

  /** Each line appends at most one ticket. */
  lemma {:induction false} AtMostOneTicketPerLine(main: Option<Warehouse>, t: Tables, skus: seq<SkuLine>,
                                                  nowMillis: int, now: string)
    ensures |ApplyLines(main, t, skus, nowMillis, now).tickets| <= |t.tickets| + |skus|
  {
    if skus != [] {
      var init := skus[..|skus| - 1];
      AtMostOneTicketPerLine(main, t, init, nowMillis, now);
      TicketIffLowAfterDeduction(main, ApplyLines(main, t, init, nowMillis, now), skus[|skus| - 1], nowMillis, now);
    }
  }

  /** Each line appends at most one record. */
  lemma {:induction false} AtMostOneRecordPerLine(main: Option<Warehouse>, t: Tables, skus: seq<SkuLine>,
                                                  nowMillis: int, now: string)
    ensures |ApplyLines(main, t, skus, nowMillis, now).items| <= |t.items| + |skus|
  {
    if skus != [] {
      var init := skus[..|skus| - 1];
      var mid := ApplyLines(main, t, init, nowMillis, now);
      AtMostOneRecordPerLine(main, t, init, nowMillis, now);
      match FindRecord(mid.items, skus[|skus| - 1].sku, INDIA_WAREHOUSE_ID)
      case None =>
      case Some(k) =>
        assert |ApplyLines(main, t, skus, nowMillis, now).items| == |mid.items|;
    }
  }

  lemma ApplyLinesStep(main: Option<Warehouse>, t: Tables, skus: seq<SkuLine>, i: nat, nowMillis: int, now: string)
    requires i < |skus|
    ensures ApplyLines(main, t, skus[..i + 1], nowMillis, now) ==
              ApplyLine(main, ApplyLines(main, t, skus[..i], nowMillis, now), skus[i], nowMillis, now)
  {
    assert skus[..i + 1][..i] == skus[..i];
  }

  /** One pass of the loop body, on the loop's local copies of the two tables. */
  method ProcessLine(mainWarehouse: Option<Warehouse>, items: seq<Item>, tickets: seq<Ticket>,
                     line: SkuLine, nowMillis: int, now: string)
    returns (items': seq<Item>, tickets': seq<Ticket>)
    ensures Tables(items', tickets') == ApplyLine(mainWarehouse, Tables(items, tickets), line, nowMillis, now)
  {
    var sku, qty := line.sku, line.qty;
    items', tickets' := items, tickets;
    var targetIndex := FindRecord(items', sku, INDIA_WAREHOUSE_ID);

    if targetIndex.None? {
      var mainItem := MainItemOf(items', sku, mainWarehouse);
      if mainItem.Some? {
        items' := items' + [Item(sku, mainItem.value.name, INDIA_WAREHOUSE_ID, 0)];
      }
      return;
    }

    var k := targetIndex.value;
    var quantity := items'[k].quantity - qty;
    if quantity < 0 {
      quantity := 0;
    }
    items' := items'[k := items'[k].(quantity := quantity)];

    var mainItem := MainItemOf(items', sku, mainWarehouse);
    if mainItem.Some? && mainItem.value.quantity > 0 {
      if 100 * items'[k].quantity <= 60 * mainItem.value.quantity {
        var ticket := WebhookTicket(nowMillis, mainWarehouse.value, sku, items'[k].name,
                                    mainItem.value.quantity, now);
        tickets' := tickets' + [ticket];
      }
    }
  }

  /** Outcome of the webhook, short of the HTTP reply. */
  datatype WebhookOutcome = NoSkus | Processed

  /**
   * Lines 37-97 of `post_orderWebhook`: collects the SKU lines, then applies
   * them one at a time to the items and tickets, and writes both back.
   */
  method ProcessOrder(store: Server.Store, lines: seq<LineItem>, nowMillis: int, now: string)
    returns (outcome: WebhookOutcome)
    modifies store`items, store`tickets
    ensures SkuLines(lines) == [] ==>
              outcome == NoSkus && store.items == old(store.items) && store.tickets == old(store.tickets)
    ensures SkuLines(lines) != [] ==>
              && outcome == Processed
              && Tables(store.items, store.tickets) ==
                   ApplyLines(FindMainWarehouse(store.warehouses), Tables(old(store.items), old(store.tickets)),
                              SkuLines(lines), nowMillis, now)
  {
    var skus := CollectSkus(lines);
    if |skus| == 0 {
      return NoSkus;
    }

    var items := store.items;
    var tickets := store.tickets;
    var mainWarehouse := FindMainWarehouse(store.warehouses);
    ghost var start := Tables(items, tickets);

    var i := 0;
    while i < |skus|
      invariant 0 <= i <= |skus|
      invariant Tables(items, tickets) == ApplyLines(mainWarehouse, start, skus[..i], nowMillis, now)
    {
      ApplyLinesStep(mainWarehouse, start, skus, i, nowMillis, now);
      items, tickets := ProcessLine(mainWarehouse, items, tickets, skus[i], nowMillis, now);
      i := i + 1;
    }
    assert skus[..|skus|] == skus;

    store.items := items;
    store.tickets := tickets;
    outcome := Processed;
  }
}
