# Invoicing: stock-checked purchases and the invoice page

A model of the logic of a small inventory-and-purchasing backend. The backend has three tables:

- items: a name, a price, a description and a stock count;
- purchases;
- purchase lines: each links one purchase to one item with a quantity.

The database is replaced by the `Store.Database` class. It holds four things:

- `items: map<int, Item>`;
- the order in which item rows come back, `itemOrder`;
- `purchases: map<int, seq<Line>>`: each purchase id with its lines, in insertion order;
- the auto-increment id counters of the item table and the purchase table. A purchase line has no id of its own in the model.

Prices are integer hundredths: a price column holds 10 digits, 2 of them decimal places.

The request handlers are modelled as follows:

- Purchase creation (`Views.CreatePurchase`) and purchase update (`Views.UpdatePurchase`) are imperative methods over the database.
- So is the purchase serializer's `create` (`Serializers.Create`).
- Each of these methods is proved equal to a pure function of the old state: `Views.PostEntries` for creation, `Store.LinkItems` for the other two. For creation, `Views.PostOne` performs one pass of the loop and `Views.PostAll` the whole loop; `Views.PostSnoc` relates each pass to the function.
- The lemmas about those functions carry the properties: stock arithmetic, where a failing request stops, and the round trip with `get_items`.
- The invoice handler is a loop that draws one line per purchase line while `y` steps down by 20. It becomes `Views.InvoiceLayout`, a method that returns the `(x, y, text)` draw commands.

Request bodies are sequences of `Store.Entry(item, quantity)`. The model takes integer quantities, and a quantity may be negative.

Errors are `Store.Error` values inside a `Result`:

| error | HTTP response |
|---|---|
| `InsufficientStock(message)` | 400 with `{"error": message}` |
| `ItemNotFound` | a `DoesNotExist` lookup failure |
| `PurchaseNotFound` | a `DoesNotExist` lookup failure |
| `NegativeQuantity` | the database refuses the line row, because the quantity column's CHECK constraint requires `quantity >= 0` |

A success result carries the 201 purchase id of creation, or the 200 message of update.

The model follows the code, including these behaviours a reader may not expect:

- **No rollback.** A failing purchase creation rolls nothing back. The purchase row stays, and so do the decrements and lines of the entries before the failing one.
- **Negative quantities.** A negative quantity passes the stock check, because `stock >= q` holds when `q` is negative. The stock is then raised and saved, and only after that does the line insert fail. See `Views.PostStep` and `Views.PostStepOutcome`.
- **Zero quantities.** The quantity column allows 0, so a zero quantity is accepted.
- **Update can stop partway.** Update can stop after clearing the purchase's lines, on an unknown item or a negative quantity. What it inserted before that stays.
- **Two decimal places.** The database hands prices back with two decimal places. A price of ten therefore prints as `10.00` on the invoice, and a total of eighty as `80.00`.
- **Empty total.** The total of a purchase with no lines is the integer `0` of an empty `sum`, so it prints as `Total: 0`.

## Model

| member | source | states |
|---|---|---|
| Models.WithoutItem | invoicing/models.py:17-19 | the cascade on deleting an item keeps every line that refers to another item, with its multiplicity, and drops every line that refers to the deleted one |
| Models.WithoutItemAppend | invoicing/models.py:19 | the cascade works line by line: on two runs of lines it gives the survivors of each, in the same order |
| Models.WithoutItemOne | invoicing/models.py:19 | a single line survives exactly when it refers to another item |
| Models.WithoutItemRefers | invoicing/models.py:19 | after the cascade no line refers to the deleted item and every line still refers to an existing item |
| Models.WithoutAbsentItem | invoicing/models.py:19 | deleting an item that no line refers to leaves the lines unchanged |
| Money.NatToString | invoicing/views.py:154 | a quantity prints as a non-empty string of decimal digits without leading zeros |
| Money.DigitsRoundTrip | invoicing/views.py:154 | the printed digits of a quantity read back as that quantity |
| Money.RenderParseRoundTrip | invoicing/tests.py:42 | a price's decimal text, with two fraction digits and an optional sign, reads back as the same price |
| Store.LinkItems | invoicing/views.py:116-122 | the look-up-then-insert loop over the entries (the same loop as serializers.py:46-53) keeps the lines it started from and adds at most one line per entry; when it fails, the error is an unknown item or a negative quantity |
| Store.LinkItemsSucceeds | invoicing/views.py:116-122 | the look-up-then-insert loop succeeds exactly when every entry names an existing item with a non-negative quantity; it then appends one line per entry, in order |
| Store.LinkItemsStopsAt | invoicing/views.py:116-122 | when entry k is the first refused, the lines of entries 0..k-1 stay and the error is entry k's (unknown item, or negative quantity) |
| Store.LinkItemsRefers | invoicing/models.py:19 | every line the loop inserts refers to an existing item |
| Store.ShortageMessage | invoicing/views.py:78 | the 400 message is "Not enough stock for " followed by exactly the item's name |
| Store.Database.constructor | invoicing/models.py:3-20 | an empty database whose ids start at 1 |
| Store.Database.CreateItem | invoicing/models.py:3-7 | an item that meets its column constraints is stored under a fresh id, with stock 0 when none is given, and is listed last; any other item is refused and nothing changes |
| Store.Database.NewPurchase | invoicing/views.py:63 | a new purchase with a fresh id and no lines; nothing else changes |
| Store.Database.SaveStock | invoicing/views.py:70-71 | saving an item changes that item's stock and nothing else |
| Store.Database.AddLine | invoicing/views.py:72-76 | a line is appended to exactly one purchase when its quantity is non-negative; otherwise nothing changes |
| Store.Database.ClearLines | invoicing/views.py:114 | the purchase keeps no lines; nothing else changes |
| Store.Database.DeleteItem | invoicing/models.py:19 | the item goes, and every line that refers to it goes from every purchase |
| Store.Database.DeletePurchase | invoicing/models.py:18 | the purchase goes with its lines; items are untouched |
| Serializers.ItemFields | invoicing/serializers.py:5-8 | an item is rendered with exactly the fields id, name, price, description, stock, in that order |
| Serializers.ItemFieldsRoundTrip | invoicing/tests.py:38-44 | the rendered fields read back as the same id, name, price (a decimal string), description and stock |
| Serializers.GetItems | invoicing/serializers.py:28-34 | one (item id, quantity) pair per stored line, in stored order, and nothing else |
| Serializers.Create | invoicing/serializers.py:38-55 | creates one new purchase whose lines are the result of the look-up-then-insert loop; it never touches stock, and on failure the purchase and the earlier lines stay |
| Serializers.GetItemsAfterCreate | invoicing/serializers.py:28-55 | reading back a purchase that create built gives exactly the requested (item, quantity) list |
| Views.ListItems | invoicing/views.py:27-29 | every item is serialized once, in row order; the list is empty exactly when there are no items |
| Views.PostStepOutcome | invoicing/views.py:66-78 | one entry of creation (`Views.PostStep`): the set of items is kept and every other item is untouched; it succeeds exactly when the item exists and 0 <= quantity <= stock, and then appends one line; when the stock covers the quantity (including a negative one) the stock drops by the quantity; a negative quantity fails with the refused line after the stock has been raised; a shortage or an unknown item changes nothing |
| Views.PostSnoc | invoicing/views.py:65-78 | running the entries up to k+1 (`Views.PostEntries`) is running them up to k and then, if that did not fail, one more step on entry k |
| Views.PostOne | invoicing/views.py:66-78 | one pass of the loop against the database: the new item table, the purchase's lines and the result are those of `Views.PostStep`; other purchases, the item order and the id counters are unchanged |
| Views.PostAll | invoicing/views.py:65-78 | the whole loop against the database: the new item table, the purchase's lines and the result are those of `Views.PostEntries`; the loop stops at the first failure; other purchases, the item order and the id counters are unchanged |
| Views.PostKeepsCatalogue | invoicing/views.py:65-76 | whatever the outcome, creation keeps the set of items, changes nothing of an item but its stock, and only appends lines |
| Views.PostLeavesOthers | invoicing/views.py:65-76 | an item that no entry names keeps its stock, whatever the outcome |
| Views.PostSplit | invoicing/views.py:65-78 | processing the entries equals processing a prefix of them and then, if that prefix did not fail, the rest from where it stopped |
| Views.PostSuccess | invoicing/views.py:65-80 | on success every entry named an existing item with a non-negative quantity; each item's stock covered its total requested quantity (repeated ids accumulate) and dropped by exactly that total; one line per entry, in request order |
| Views.PostSucceedsIfCoverable | invoicing/views.py:65-76 | a request whose per-item totals fit in stock, with known items and non-negative quantities, succeeds |
| Views.PostSucceedsIff | invoicing/views.py:69-78 | creation succeeds exactly when the request fits in stock in that sense |
| Views.PostAfterPrefix | invoicing/views.py:63-78 | after a prefix of k entries that fits in stock, the state is those k decrements and k lines, and the run continues from there |
| Views.PostStopsAtShortage | invoicing/views.py:77-78 | when entry k is the first whose quantity exceeds the stock left, the result is "Not enough stock for <name>"; entries 0..k-1 keep their decrements and lines, and entry k and the later entries change nothing |
| Views.PostStopsAtMissing | invoicing/views.py:66 | when entry k is the first to name an unknown item, the result is the lookup error and entries 0..k-1 keep their decrements and lines |
| Views.CreatePurchase | invoicing/views.py:62-80 | creates a purchase under a fresh id; the new item table and lines are those of processing the entries; other purchases are unchanged; the result is the new id or the error that stopped the run |
| Views.UpdatePurchase | invoicing/views.py:113-124 | an unknown purchase fails with no change; otherwise its lines are replaced by those of the look-up-then-insert loop; no item and no other purchase changes |
| Money.RenderCentsShape | invoicing/views.py:154 | a price prints as a two-place decimal: at least four characters, a point before exactly two digits, and a leading minus sign exactly when the price is negative |
| Views.LineTextParts | invoicing/views.py:154 | an invoice line (`Views.LineText`) reads the item's name, " x ", the quantity's digits, " @ ", then the price's two-place text, and nothing else |
| Views.Total | invoicing/views.py:158 | the sum of price times quantity over the lines; it is 0 when every line contributes 0, in particular for a purchase with no lines |
| Views.TotalText | invoicing/views.py:158-159 | the total prints as "0" exactly when the purchase has no lines (the integer sum of an empty list); otherwise as a two-place decimal, with a minus sign exactly when the total is negative |
| Views.TotalAppend | invoicing/views.py:158 | the invoice total over two runs of lines is the sum of their totals |
| Views.TotalNonNegative | invoicing/views.py:158 | with no negative prices the invoice total is not negative |
| Views.InvoiceLayout | invoicing/views.py:147-159 | "Invoice" at (100, 800); line i at (100, 750 - 20 i) reading "<name> x <qty> @ <price>"; "Total: <sum of price x qty>" at (100, 730 - 20 n) |
| Views.Invoice | invoicing/views.py:138-159 | an unknown purchase is an error; otherwise the page for the purchase's lines, in stored order |

## Left out

- The REST framework's request and response objects, and status codes. A `Result` stands in for the response.
- URL routing. The invoice handler is modelled even though the URL table does not route it (invoicing/urls.py:4-8).
- The PDF canvas, the in-memory buffer and the file response. Only the sequence of `drawString` calls is modelled, as `(x, y, text)` values.
- The purchase's `created_at` timestamp, which is clock input.
- The purchase-line table's own auto-increment id. A line is stored as an (item, quantity) pair inside its purchase, and no handler reads a line's id.
- Concurrent requests. The code takes no locks, and each operation is modelled as one sequential step.
- Malformed request bodies. These keys raise `KeyError` when missing, and that path is not modelled:
  - `items`: invoicing/views.py:65, invoicing/views.py:116 and invoicing/serializers.py:41;
  - `id`: invoicing/views.py:66 and invoicing/views.py:117;
  - `item`: invoicing/serializers.py:48;
  - `quantity`: invoicing/views.py:69, invoicing/views.py:121 and invoicing/serializers.py:52.
- A `KeyError` from a missing key does not undo what ran before it:
  - the purchase row already exists when the loop runs (invoicing/views.py:63, invoicing/serializers.py:44);
  - in purchase creation, the earlier entries keep their stock decrements and lines;
  - in purchase update, the lines inserted for the earlier entries stay;
  - in purchase update, `purchase.items.clear()` (invoicing/views.py:114) has already deleted every line of the purchase before `request.data['items']` (invoicing/views.py:116) is read.
- Non-integer quantities. A JSON float such as `1.5` raises nothing: it passes the stock check and is subtracted, and the integer columns truncate the saved stock and the line's quantity. A boolean acts as 0 or 1. `Store.Entry` takes integer quantities only, so none of this is modelled.
- Serializers.Create: the request key that carries the item id differs. It is `item` for the serializer and `id` for the views. `Store.Entry` abstracts the key away.
- Serializers.ItemFieldsRoundTrip: `Serializers.ItemFromFields` is a reference reader that shows the field list loses nothing. It is not the framework's validating deserializer. That deserializer also trims whitespace, rejects blank strings, and accepts decimal forms such as `.5`, `+5` or exponents. Those checks are library code and are not part of this model.
- Store.Database.CreateItem: items are created out of band, through the admin. The model checks only the column constraints (name length, price range, stock not negative) and keeps them as the invariant `Item.Valid`. The admin form also refuses a blank name or description (invoicing/models.py:4, :6); that check is not modelled.
- Integer ranges of the backing database are not modelled. Positive integer columns are unbounded `nat` values here, while many backends cap them at 2147483647. The 28-digit precision of Python's default decimal context is also not modelled, so very large invoice totals are exact here.
- Row order: no query orders its rows. Item rows and purchase lines are taken in insertion order.
- Auto-increment ids come from a counter that is never reused. The id-reuse policy of a particular backend is not modelled.
- The admin-site configuration (invoicing/admin.py) is not part of this model.
- Models.ItemStr: an item's string form (invoicing/models.py:9-10) only returns the name field. There is nothing to prove about it beyond that, so it has no member.
