# Warehouse stock rules, in Dafny

This project models the rule engine of a small warehouse-management server.
The server keeps three JSON tables in memory: `warehouses`, `items` (stock
records, each for one item id at one warehouse) and `tickets` (replenishment
requests). The model covers the parts of the system that decide things:

- **Stock status report** (`GET /inventory-status`). The main warehouse is
  the first one whose lower-cased name contains `main`. Each record a user
  may see is labelled green, orange, red or unknown. The label compares the
  record's quantity with the main warehouse's quantity of the same item.
- **Auto-ticket pass** (`checkAutoTicketLogic`). It runs at start-up and
  after `POST /update-item`; the order webhook changes stock without running
  it. Records are grouped by item id. Every non-main record whose warehouse
  exists and which holds at most 60% of a positive main quantity gets a
  ticket: URGENT at or below 20%, PENDING
  otherwise. The ticket is created only if no ticket for the same item id
  and warehouse name exists yet.
- **Table operations**:
  - `POST /add-warehouse`: trimmed, unique ignoring case, id max + 1.
  - `POST /update-item`: an in-place edit followed by the auto-ticket pass.
  - `GET /tickets`: adds a warehouse name to each ticket.
- **Order webhook** of the storefront integration. Each SKU line of an
  order deducts stock from the India warehouse (id 6), clamped at zero. A
  missing India record is created with quantity 0 (when the main warehouse
  has a record of the SKU), and that line makes no ticket. After a
  deduction, a "Pending" ticket from the main warehouse to India is appended
  exactly when the main warehouse has a record of the SKU with a positive
  quantity and the India stock is at or below 60% of it.

Modules:
- `JsText`, in `js_text.dfy`: the JavaScript string operations the code
  relies on: `toLowerCase` (ASCII letters), `includes` and `trim`, with the
  ECMAScript whitespace set.
- `JsObjects`, in `js_objects.dfy`: the key order of `Object.entries`.
  Array-index keys come first, ascending; the other keys follow in insertion
  order. This decides the order in which the auto-ticket pass visits its
  groups, and so the ids of its tickets.
- `Records`, in `records.dfy`: the three record types and the
  `find`/`findIndex` lookups.
- `AutoTicket`, in `auto_ticket.dfy`: the auto-ticket pass as functions on
  sequences, and the lemmas about it.
- `Server`, in `server.dfy`: the status report, the add-warehouse decision
  and the ticket listing. It also holds the class `Store`, whose fields are
  the three tables and whose methods are the routes that change them.
  `AddWarehouse` is proved equal to the decision `DecideNewWarehouse`;
  `UpdateItem` edits one record in place and then runs
  `CheckAutoTicketLogic`, whose loops are proved equal to the functions of
  `AutoTicket`. The start-up run (server.js:273) is `CheckAutoTicketLogic`
  on a freshly constructed `Store`.
- `OrderWebhook`, in `order_webhook.dfy`: the webhook loop. It is a method on
  a `Store`'s tables, proved equal to the fold `ApplyLines`, together with
  the lemmas about that fold.

Percentages are compared by cross-multiplication. For example,
`(q / m) * 100 <= 60` with `m > 0` becomes `100 * q <= 60 * m`. When
`m == 0` the JavaScript quotient is NaN or Infinity, so every comparison
fails, and the model says so explicitly.

Rules of the code that are easy to misread:
- Ticket deduplication in the auto-ticket pass (server.js:247) matches on
  item id and warehouse **name**, and a ticket in **any** status suppresses
  a new one. No status is treated as terminal, and warehouse ids are not
  compared.
- The auto-ticket pass has one trigger, the 60% rule. There is no
  escalation to any other destination.
- The order of the visited groups follows `Object.entries`. Item ids that are
  canonical array indices (decimal digits, no sign, no leading zero, at most
  2^32 - 2) are visited first, in numeric order; every other id, such as
  `007`, `-1`, `1.5` or `4294967295`, keeps its insertion order.

## Model

| member | source | states |
|---|---|---|
| JsText.ToLower | server.js:103 | the result has the input's length and lower-cases each ASCII capital letter at its own position |
| JsText.IncludesIffOccurs | server.js:186 | `includes` holds exactly when the substring occurs at some position |
| JsText.SkipWhitespace | server.js:98-102 | the first non-blank at or after `i` (or the end): everything skipped is whitespace |
| JsText.SkipWhitespaceBack | server.js:98-102 | the start of the whitespace run ending at `j`: everything skipped is whitespace, the character just before is non-blank, and a non-blank at `lo` is never skipped |
| JsText.Trim | server.js:98-102 | the trimmed name is the slice of the name after its leading whitespace, and everything dropped on either side is whitespace; it is empty exactly when the name is all whitespace, and otherwise non-blank at both ends |
| Records.FindMainWarehouse | server.js:186 | None exactly when no name contains `main` after lower-casing; otherwise the first warehouse whose name does |
| Records.FindWarehouseById | server.js:196 | None exactly when no warehouse has the id; otherwise the first one that does |
| Records.FindWarehouseByName | server.js:139 | None exactly when no warehouse has the name; otherwise the first one that does |
| Records.FindRecord | server.js:142 | `findIndex` on (item id, warehouse id): None exactly when no record matches; otherwise the index of the first match |
| JsObjects.InsertBy | server.js:235 | inserting into an ascending run gives an ascending run with one more copy of the key |
| JsObjects.SortBy | server.js:235 | the result ascends by the given rank and is a permutation of the input; with the array-index value as rank it orders the index keys |
| JsObjects.SplitKeepsElements | server.js:235 | the index keys and the other keys together are a permutation of all keys |
| JsObjects.OtherKeysOfAppend | server.js:235 | filtering out the array indices distributes over concatenation |
| JsObjects.IndicesThenOthers | server.js:235 | sorted indices followed by non-index keys put every index before every other key |
| JsObjects.PropertyOrder | server.js:235 | `Object.entries` visits a permutation of the inserted keys: array indices first in ascending order, then the other keys in insertion order |
| AutoTicket.ItemsWithId | server.js:224-228 | a group holds exactly the records of its item id |
| AutoTicket.KeysInOrder | server.js:224-228 | every item id is a key of `grouped`, and no key appears twice |
| AutoTicket.KeysComeFromItems | server.js:224-228 | every key of `grouped` is the item id of some record |
| AutoTicket.GroupOrder | server.js:235 | every item id is visited, and only keys of `grouped` are visited |
| AutoTicket.GroupOrderFromItems | server.js:235 | every visited key is the item id of some record |
| AutoTicket.AutoTickets | server.js:230-231 | with no main warehouse the ticket table is unchanged |
| AutoTicket.ProcessRecordStep | server.js:239-260 | one record keeps the appended tickets well-formed, only appends, and leaves a qualifying record ticketed |
| AutoTicket.ProcessGroupAnswers | server.js:236-261 | the inner loop only appends well-formed answers and tickets every qualifying record of the group |
| AutoTicket.ProcessGroupsAnswers | server.js:235-262 | the outer loop only appends well-formed answers and tickets every qualifying record of the visited groups |
| AutoTicket.AutoTicketsWellAppended | server.js:236-258 | with a main warehouse, every new ticket answers a qualifying record: non-main, main record with `m > 0`, warehouse exists, `100q <= 60m`. It carries id = position + 1, quantity `m`, the warehouse-id and warehouse-name fields, URGENT iff `100q <= 20m` (else PENDING) and author `auto-system`, and no earlier ticket has its (item id, warehouse name) |
| AutoTicket.AutoTicketsAppendOnly | server.js:247-248 | the pass only appends: the earlier tickets are an unchanged prefix |
| AutoTicket.AutoTicketKeysDistinct | server.js:247 | the tickets added in one run are pairwise distinct on (item id, warehouse name) |
| AutoTicket.ExistingTicketSuppresses | server.js:247 | an existing ticket, in any status, for an (item id, warehouse name) stops every new ticket with that key |
| AutoTicket.FirstOfKeyIsNew | server.js:247 | a new ticket that is the first of its (item id, warehouse name) does not repeat the key of any ticket that was already in the table |
| AutoTicket.AutoTicketsCover | server.js:236-258 | after a pass every qualifying record has a ticket for its item id and warehouse name |
| AutoTicket.CoveredGroupUnchanged | server.js:239-261 | when every qualifying record is already ticketed, the inner loop appends nothing |
| AutoTicket.CoveredGroupsUnchanged | server.js:235-262 | when every qualifying record is already ticketed, the outer loop appends nothing |
| AutoTicket.AutoTicketsIdempotent | server.js:223-265 | a second pass over unchanged warehouses and items appends nothing, whatever its dates |
| Server.Classify | server.js:200-208 | main records are green; without a positive main quantity the status is unknown; otherwise red iff `100q <= 10m`, orange iff `10m < 100q <= 60m`, green iff `100q > 60m` |
| Server.VisibleItems | server.js:193-194 | a record is visible exactly when the user is an admin or the record is at the user's warehouse |
| Server.VisibleItemsAppend | server.js:193-194 | filtering keeps order and multiplicity: the visible records of `a + b` are those of `a` followed by those of `b` |
| Server.InventoryStatus | server.js:185-220 | no main warehouse gives `[]`; otherwise one row per visible record, in order, with its item id, name, quantity, warehouse name (or `-`) and status |
| Server.AdminSeesAll | server.js:191-194 | an admin sees every record, in the order of `items` |
| Server.UserSeesOwnWarehouse | server.js:189-194 | anyone else sees exactly the records of their own warehouse, and none when their warehouse id is missing or 0 |
| Server.StatusThresholds | server.js:200-205 | for a non-main record with main quantity `m > 0`: red iff `100q <= 10m`, orange iff `10m < 100q <= 60m`, green iff `100q > 60m` |
| Server.StatusWithoutRatio | server.js:197-208 | main-warehouse records are green; a non-main record whose main record is missing or empty is unknown |
| Server.MaxId | server.js:108 | the result bounds every id and is one of them |
| Server.NextWarehouseId | server.js:108 | 1 for an empty table; otherwise one more than the largest id, hence different from every id |
| Server.DecideNewWarehouse | server.js:98-110 | rejected as missing exactly when the name is absent or all whitespace; rejected as duplicate exactly when the trimmed name equals an existing name ignoring case; otherwise the new warehouse is the trimmed name with a fresh id |
| Server.AddKeepsWarehousesDistinct | server.js:103-110 | adding a warehouse keeps ids distinct and names distinct ignoring case |
| Server.ListedWarehouseName | server.js:162-169 | a truthy warehouse id gives the name of the first warehouse with that id; otherwise a ticket's warehouse name is kept when some warehouse has it; `Unknown` when the lookup finds nothing |
| Server.ListTickets | server.js:159-174 | one listed ticket per ticket, in order, each with its warehouse name |
| Server.Store.AddWarehouse | server.js:95-115 | the result is the add-warehouse decision on the old table, and exactly one warehouse is appended when it is accepted |
| Server.Store.UpdateItem | server.js:136-156 | an unknown warehouse name or a missing (item id, warehouse id) record changes nothing and reports which lookup failed; when both lookups succeed the result is `Updated`, only the first matching record's name and quantity change, and the tickets become the auto-ticket pass over the edited items |
| Server.Store.EditRecord | server.js:145-149 | record `k` gets the new name and quantity, other records are unchanged, and the tickets become the auto-ticket pass's result |
| Server.Store.CheckAutoTicketLogic | server.js:223-265 | the ticket table becomes `AutoTickets` of the tables |
| Server.Store.GroupByItem | server.js:224-228 | the `grouped` map holds, under each item id, exactly the records of that id, and its keys are in first-insertion order |
| Server.Store.TicketGroups | server.js:235-262 | the outer loop leaves the tickets equal to `ProcessGroups` over the visited keys |
| Server.Store.TicketGroup | server.js:239-261 | the inner loop leaves the tickets equal to `ProcessGroup` over the group |
| Server.FirstAtWarehouse | server.js:236 | `group.find`: None exactly when no record of the group is at the warehouse; otherwise the first group record at that warehouse |
| Server.MainRecordOfGroup | server.js:236 | looking for the main record inside a group finds the record `items.find` finds |
| Server.MainRecordAppend | server.js:197 | appending a record changes the main-record lookup only when there was none |
| Server.FirstAtWarehouseAppend | server.js:236 | appending to a group changes the lookup only when there was no match |
| Server.GroupStep | server.js:225-228 | visiting one record appends it to its group, creating the group and its key on first sight |
| Server.KeysStep | server.js:226 | a key is added to the insertion order only the first time its item id is seen |
| Server.GroupContentStep | server.js:227 | after a record is visited, its group is the old group plus that record |
| Server.GroupContentsStep | server.js:227 | after a record is visited, every group holds exactly the visited records of its id |
| Server.UngroupedKeyIsEmpty | server.js:226 | an item id not yet seen has no visited records |
| Server.GroupVisited | server.js:236-261 | a visited group with a main record contributes the inner loop over its records |
| Server.GroupSkipped | server.js:237 | a group without a main record contributes nothing |
| Server.AutoTicketsOfMain | server.js:230-235 | with a main warehouse, the pass is the outer loop over the `Object.entries` order |
| OrderWebhook.SkuLines | public/dashboard.js:37-42 | at most one entry per line; every entry has a non-empty SKU and a non-zero quantity; empty exactly when no line has both |
| OrderWebhook.SkuLinesMembers | public/dashboard.js:37-42 | an entry is collected exactly when some line with a truthy SKU and quantity produced it |
| OrderWebhook.SkuLinesAppend | public/dashboard.js:38-42 | collection preserves order: the lines of a concatenation are the concatenated lines |
| OrderWebhook.CollectSkus | public/dashboard.js:37-42 | the loop collects exactly `SkuLines` |
| OrderWebhook.Deduct | public/dashboard.js:69-70 | the new quantity is 0 or `q - qty`, never below `q - qty`, and never above `q` for a non-negative `qty` |
| OrderWebhook.ReplenishQuantity | public/dashboard.js:83 | the ceiling of `m / 10`: `10r >= m > 10r - 10`, and at least 1 when `m > 0` |
| OrderWebhook.MainItemOf | public/dashboard.js:56 | no main warehouse gives None; otherwise None exactly when no record has the SKU at the main warehouse, and else the first such record |
| OrderWebhook.WebhookTicket | public/dashboard.js:77-92 | the ticket is for the SKU, from the main warehouse to India, with quantity `ceil(m / 10)` |
| OrderWebhook.DeductsFirstIndiaRecord | public/dashboard.js:52-70 | with an India record, the first one gets `max(0, q - qty)` and every other record is unchanged |
| OrderWebhook.CreatesMissingIndiaRecord | public/dashboard.js:54-65 | without an India record no ticket is made, and one record `{sku, main name, warehouse 6, quantity 0}` is appended exactly when the main warehouse has a record |
| OrderWebhook.TicketIffLowAfterDeduction | public/dashboard.js:73-93 | exactly one ticket is appended iff there is an India record, the main record exists with `m > 0` and the deducted quantity satisfies `100q <= 60m`; otherwise the tickets are unchanged |
| OrderWebhook.AppendedTicketShape | public/dashboard.js:77-93 | an appended ticket has to-warehouse India, status Pending, empty collect date and progress fields, author `auto-wix-order`, the target record's name and quantity `ceil(m / 10)` |
| OrderWebhook.NoDedup | public/dashboard.js:73-93 | what a line does, including whether it appends a ticket, does not depend on the tickets already present |
| OrderWebhook.ApplyLineKeeps | public/dashboard.js:51-97 | one line keeps every old ticket and every old record except an India quantity; new records are India records and new tickets have the webhook shape |
| OrderWebhook.KeepsAppendedRecord | public/dashboard.js:58-63 | appending an India record keeps the tables |
| OrderWebhook.KeepsDeducted | public/dashboard.js:69-93 | changing an India quantity and appending webhook tickets keeps the tables |
| OrderWebhook.KeepsTransitive | public/dashboard.js:51-97 | keeping composes across lines |
| OrderWebhook.ApplyLinesKeeps | public/dashboard.js:51-97 | within one call only existing India records' quantities change, new records are India records, old tickets are kept and new tickets have the webhook shape |
| OrderWebhook.AtMostOneTicketPerLine | public/dashboard.js:73-93 | a call appends at most one ticket per SKU line |
| OrderWebhook.AtMostOneRecordPerLine | public/dashboard.js:54-65 | a call appends at most one record per SKU line |
| OrderWebhook.ApplyLinesStep | public/dashboard.js:51 | the loop handles the lines one after another |
| OrderWebhook.ProcessLine | public/dashboard.js:52-96 | one turn of the loop on the local tables gives exactly `ApplyLine`: deduct the first India record and maybe append a ticket, or create the missing India record |
| OrderWebhook.ProcessOrder | public/dashboard.js:37-97 | with no SKU lines nothing changes; otherwise the items and tickets become `ApplyLines` over the collected lines from the old tables |

## Left out

- HTTP plumbing is not modelled: Express routing, body parsing, sessions, login, `requireAdmin` and redirects. The status report takes the session user as a parameter.
- Persistence is not modelled: `readJson`/`writeJson` and the `fs` calls. A failed read that yields `[]` is not modelled either. The tables are the fields of `Store`, and the webhook writes its local copies back to them.
- Clock reads are parameters:
  - the request date and the date five days on in the auto-ticket pass. The source reads the clock again for every ticket it pushes; the model takes one pair of dates per pass, so a pass that runs across midnight UTC (tickets of one pass with different dates) is not modelled;
  - `Date.now()` and `new Date().toISOString()` in the webhook. The model reads each clock once per call, so all tickets of one call share an id and a timestamp.
- Floating point: percentages are exact rationals via cross-multiplication. IEEE rounding at very large quantities, and quantities above 2^53, are not modelled.
- Quantities are whole numbers. A record quantity is modelled as `nat`, and a line-item quantity as an `int`; a non-integer or non-numeric quantity in a request body is not modelled.
- Server.Store.UpdateItem: the new quantity is a `nat`, so a negative quantity, which the route stores unchecked (server.js:146), is ruled out. With a negative main quantity the source's percentage test can pass and open tickets (server.js:241-247); the model's `m > 0` guard covers only non-negative stock.
- Item ids are strings. Numeric ids, and the `===` comparisons between numbers and strings that they would cause, are not modelled.
- Item ids that name `Object.prototype` members (`constructor`, `toString`, …) make `grouped[item.item_id]` truthy before any push; that case is not modelled.
- JsText.ToLower: lower-cases ASCII letters only. This is exact for the `includes('main')` test: no other character lower-cases to a string containing `main`. It is weaker than `toLowerCase` for the case-insensitive name comparison in `POST /add-warehouse`.
- `Math.max(...ids)` over a table too large for the argument list, and ids that are not numbers, are not modelled.
- Foreign code is not modelled: the storefront SDK client, `get_wix_products`, JSON parsing of the raw request body, async/await, and the `try`/`catch` around each route. A missing `lineItems` array is modelled as an empty list of lines.
- db.js is not part of this model: it only declares SQLite tables.
