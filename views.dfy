/**
 * The four request handlers: the item list, purchase creation (which checks
 * and decrements stock), purchase update (which replaces the lines and never
 * looks at stock) and the invoice layout.
 */
module Views {
  import opened Options
  import opened Money
  import opened Models
  import opened Store
  import opened Serializers

  // ---------------------------------------------------------------------
  // Item list
  // ---------------------------------------------------------------------

  /** Every item, rendered by the item serializer, in the order the rows come
      back; an empty table gives the empty list. */
  function ListItems(db: Database): (r: seq<Fields>)
    reads db
    requires db.Valid()
    ensures |r| == |db.itemOrder|
    ensures forall i :: 0 <= i < |r| ==> r[i] == ItemFields(db.itemOrder[i], db.items[db.itemOrder[i]])
    ensures forall id :: id in db.items ==> exists i :: 0 <= i < |r| && r[i] == ItemFields(id, db.items[id])
    ensures r == [] <==> db.items == map[]
  {
    var items, order := db.items, db.itemOrder;
    assert forall id :: id in order <==> id in items;
    assert forall i :: 0 <= i < |order| ==> order[i] in items by {
      forall i | 0 <= i < |order| ensures order[i] in items {
        assert order[i] in order;
      }
    }
    var r := ItemRows(items, order);
    assert forall id :: id in items ==> exists i :: 0 <= i < |order| && order[i] == id;
    assert order != [] ==> order[0] in items;
    r
  }

  /** The serialized rows for the ids in `order`. */
  function ItemRows(items: map<int, Item>, order: seq<int>): (r: seq<Fields>)
    requires forall i :: 0 <= i < |order| ==> order[i] in items
    ensures |r| == |order|
    ensures forall i :: 0 <= i < |order| ==> r[i] == ItemFields(order[i], items[order[i]])
  {
    seq(|order|, i requires 0 <= i < |order| => ItemFields(order[i], items[order[i]]))
  }

  // ---------------------------------------------------------------------
  // Purchase creation
  // ---------------------------------------------------------------------

  /** The item table and the new purchase's lines after some entries, and the
      error that stopped the run, if any. */
  datatype Progress = Progress(items: map<int, Item>, lines: seq<Line>, failure: Option<Error>)

  /** One entry of purchase creation: look the item up; if its stock covers
      the quantity, save the lowered stock and then insert the line (which the
      database refuses for a negative quantity); otherwise stop with the
      shortage message naming the item. */
  function PostStep(items: map<int, Item>, lines: seq<Line>, e: Entry): (r: Progress)
  {
    if e.item !in items then Progress(items, lines, Some(ItemNotFound(e.item)))
    else
      var it := items[e.item];
      if it.stock >= e.quantity then
        var items' := items[e.item := it.(stock := it.stock - e.quantity)];
        if e.quantity < 0 then Progress(items', lines, Some(NegativeQuantity))
        else Progress(items', lines + [LineOf(e)], None)
      else Progress(items, lines, Some(InsufficientStock(ShortageMessage(it))))
  }

  /** What one entry does: it succeeds exactly when the item exists and its
      stock covers a non-negative quantity, and then the line is appended and
      the stock drops by the quantity. A negative quantity passes the stock
      check, so its stock is raised and saved before the line is refused. A
      missing item or a shortage changes nothing. No other item changes. */
  lemma PostStepOutcome(items: map<int, Item>, lines: seq<Line>, e: Entry)
    ensures var r := PostStep(items, lines, e);
            && r.items.Keys == items.Keys
            && (forall id :: id in items && id != e.item ==> r.items[id] == items[id])
            && (r.failure.None? <==> e.item in items && 0 <= e.quantity <= items[e.item].stock)
            && r.lines == (if r.failure.None? then lines + [Line(e.item, e.quantity)] else lines)
            && (e.item in items && e.quantity <= items[e.item].stock ==>
                  r.items[e.item] == items[e.item].(stock := items[e.item].stock - e.quantity))
            && (r.failure.Some? && r.failure != Some(NegativeQuantity) ==> r.items == items)
            && (r.failure == Some(NegativeQuantity) <==>
                  e.item in items && e.quantity < 0)
            && (r.failure == Some(NegativeQuantity) ==> r.items[e.item].stock > items[e.item].stock)
  {
  }

  /** Purchase creation over all entries, in order, stopping at the first
      failure with nothing undone. */
  function PostEntries(items: map<int, Item>, lines: seq<Line>, entries: seq<Entry>): (r: Progress)
    decreases |entries|
  {
    if entries == [] then Progress(items, lines, None)
    else
      var p := PostStep(items, lines, entries[0]);
      if p.failure.Some? then p else PostEntries(p.items, p.lines, entries[1..])
  }

  /** The total quantity the entries request of item `id`. */
  function Requested(entries: seq<Entry>, id: int): int {
    if entries == [] then 0
    else (if entries[0].item == id then entries[0].quantity else 0) + Requested(entries[1..], id)
  }

  lemma {:induction false} RequestedNonNegative(entries: seq<Entry>, id: int)
    requires forall i :: 0 <= i < |entries| ==> entries[i].quantity >= 0
    ensures Requested(entries, id) >= 0
  {
    if entries != [] {
      assert forall i :: 1 <= i < |entries| ==> entries[1..][i - 1] == entries[i];
      RequestedNonNegative(entries[1..], id);
    }
  }

  /** Whatever the outcome, purchase creation keeps the set of items, changes
      nothing of an item but its stock, and only appends lines. */
  lemma {:induction false} PostKeepsCatalogue(items: map<int, Item>, lines: seq<Line>, entries: seq<Entry>)
    ensures var p := PostEntries(items, lines, entries);
            && p.items.Keys == items.Keys
            && (forall id :: id in items ==> p.items[id] == items[id].(stock := p.items[id].stock))
            && |p.lines| >= |lines| && p.lines[..|lines|] == lines
    decreases |entries|
  {
    if entries != [] {
      var s := PostStep(items, lines, entries[0]);
      if s.failure.None? {
        PostKeepsCatalogue(s.items, s.lines, entries[1..]);
        var p := PostEntries(s.items, s.lines, entries[1..]);
        assert p.lines[..|s.lines|][..|lines|] == lines;
      }
    }
  }

  /** Whatever the outcome, an item no entry names keeps its stock. */
  lemma {:induction false} PostLeavesOthers(items: map<int, Item>, lines: seq<Line>, entries: seq<Entry>, id: int)
    requires id in items
    requires forall i :: 0 <= i < |entries| ==> entries[i].item != id
    ensures id in PostEntries(items, lines, entries).items
    ensures PostEntries(items, lines, entries).items[id] == items[id]
    decreases |entries|
  {
    if entries != [] {
      var s := PostStep(items, lines, entries[0]);
      if s.failure.None? {
        assert forall i :: 1 <= i < |entries| ==> entries[1..][i - 1] == entries[i];
        PostLeavesOthers(s.items, s.lines, entries[1..], id);
      }
    }
  }

  /** Running the entries is running a prefix of them and, if that did not
      fail, the rest from where the prefix left off. */
  lemma {:induction false} PostSplit(items: map<int, Item>, lines: seq<Line>, entries: seq<Entry>, k: nat)
    requires k <= |entries|
    ensures PostEntries(items, lines, entries) ==
            var p := PostEntries(items, lines, entries[..k]);
            if p.failure.Some? then p else PostEntries(p.items, p.lines, entries[k..])
    decreases k
  {
    if k == 0 {
      assert entries[..0] == [] && entries[0..] == entries;
    } else {
      assert entries[..k][0] == entries[0];
      assert entries[..k][1..] == entries[1..][..k - 1];
      var s := PostStep(items, lines, entries[0]);
      if s.failure.None? {
        PostSplit(s.items, s.lines, entries[1..], k - 1);
        assert entries[1..][k - 1..] == entries[k..];
      }
    }
  }

  /** A successful creation used only existing items and non-negative
      quantities; each item's stock covered everything requested of it and
      went down by exactly that total, repeated ids accumulating; and the
      purchase got one line per entry, in request order. */
  lemma {:induction false} PostSuccess(items: map<int, Item>, lines: seq<Line>, entries: seq<Entry>)
    requires PostEntries(items, lines, entries).failure.None?
    ensures forall i :: 0 <= i < |entries| ==> entries[i].item in items && entries[i].quantity >= 0
    ensures var p := PostEntries(items, lines, entries);
            && p.items.Keys == items.Keys
            && (forall id :: id in items ==>
                  && Requested(entries, id) <= items[id].stock
                  && p.items[id] == items[id].(stock := items[id].stock - Requested(entries, id)))
            && |p.lines| == |lines| + |entries|
            && p.lines[..|lines|] == lines
            && (forall i :: 0 <= i < |entries| ==> p.lines[|lines| + i] == LineOf(entries[i]))
    decreases |entries|
  {
    if entries != [] {
      var e := entries[0];
      var rest := entries[1..];
      var s := PostStep(items, lines, e);
      assert s.failure.None?;
      assert forall i :: 1 <= i < |entries| ==> rest[i - 1] == entries[i];
      PostSuccess(s.items, s.lines, rest);
      var p := PostEntries(s.items, s.lines, rest);
      forall id | id in items
        ensures Requested(entries, id) <= items[id].stock
        ensures p.items[id] == items[id].(stock := items[id].stock - Requested(entries, id))
      {
        assert Requested(entries, id) == (if e.item == id then e.quantity else 0) + Requested(rest, id);
      }
      assert p.lines[..|s.lines|][..|lines|] == lines;
      forall i | 0 <= i < |entries| ensures p.lines[|lines| + i] == LineOf(entries[i]) {
        if i == 0 {
          assert p.lines[..|s.lines|][|lines|] == LineOf(e);
        } else {
          assert p.lines[|s.lines| + (i - 1)] == LineOf(rest[i - 1]);
        }
      }
    }
  }

  /** Enough stock for the whole request, counted per item over all its
      entries, with existing items and non-negative quantities. */
  predicate Coverable(items: map<int, Item>, entries: seq<Entry>) {
    && (forall i :: 0 <= i < |entries| ==> entries[i].item in items && entries[i].quantity >= 0)
    && (forall id :: id in items ==> Requested(entries, id) <= items[id].stock)
  }

  lemma {:induction false} PostSucceedsIfCoverable(items: map<int, Item>, lines: seq<Line>, entries: seq<Entry>)
    requires Coverable(items, entries)
    ensures PostEntries(items, lines, entries).failure.None?
    decreases |entries|
  {
    if entries != [] {
      var e := entries[0];
      var rest := entries[1..];
      assert forall i :: 1 <= i < |entries| ==> rest[i - 1] == entries[i];
      RequestedNonNegative(rest, e.item);
      assert Requested(entries, e.item) == e.quantity + Requested(rest, e.item);
      var s := PostStep(items, lines, e);
      assert s.failure.None?;
      forall id | id in s.items ensures Requested(rest, id) <= s.items[id].stock {
        assert Requested(entries, id) == (if e.item == id then e.quantity else 0) + Requested(rest, id);
      }
      PostSucceedsIfCoverable(s.items, s.lines, rest);
    }
  }

  /** Purchase creation succeeds exactly when the request is coverable. */
  lemma PostSucceedsIff(items: map<int, Item>, lines: seq<Line>, entries: seq<Entry>)
    ensures PostEntries(items, lines, entries).failure.None? <==> Coverable(items, entries)
  {
    if PostEntries(items, lines, entries).failure.None? {
      PostSuccess(items, lines, entries);
    } else if Coverable(items, entries) {
      PostSucceedsIfCoverable(items, lines, entries);
    }
  }

  /** The run after a coverable prefix of k entries continues from the state
      where those k entries are applied in full. */
  lemma PostAfterPrefix(items: map<int, Item>, entries: seq<Entry>, k: nat)
    requires k <= |entries|
    requires Coverable(items, entries[..k])
    ensures var p := PostEntries(items, [], entries[..k]);
            && p.failure.None?
            && PostEntries(items, [], entries) == PostEntries(p.items, p.lines, entries[k..])
            && p.items.Keys == items.Keys
            && (forall id :: id in items ==>
                  && Requested(entries[..k], id) <= items[id].stock
                  && p.items[id] == items[id].(stock := items[id].stock - Requested(entries[..k], id)))
            && |p.lines| == k
            && (forall i :: 0 <= i < k ==> p.lines[i] == LineOf(entries[i]))
  {
    PostSucceedsIfCoverable(items, [], entries[..k]);
    PostSuccess(items, [], entries[..k]);
    PostSplit(items, [], entries, k);
    assert forall i :: 0 <= i < k ==> entries[..k][i] == entries[i];
  }

  /** When entry k is the first whose quantity exceeds the stock left, the
      result is the shortage error naming that item; the earlier entries keep
      their decrements and lines, and entry k and the later ones change
      nothing. */
  lemma PostStopsAtShortage(items: map<int, Item>, entries: seq<Entry>, k: nat)
    requires k < |entries|
    requires Coverable(items, entries[..k])
    requires entries[k].item in items
    requires entries[k].quantity > items[entries[k].item].stock - Requested(entries[..k], entries[k].item)
    ensures var p := PostEntries(items, [], entries);
            && p.failure == Some(InsufficientStock(ShortageMessage(items[entries[k].item])))
            && p.items.Keys == items.Keys
            && (forall id :: id in items ==>
                  && Requested(entries[..k], id) <= items[id].stock
                  && p.items[id] == items[id].(stock := items[id].stock - Requested(entries[..k], id)))
            && |p.lines| == k
            && (forall i :: 0 <= i < k ==> p.lines[i] == LineOf(entries[i]))
  {
    PostAfterPrefix(items, entries, k);
    assert entries[k..][0] == entries[k];
  }

  /** When entry k is the first naming an unknown item, the result is the
      lookup error; the earlier entries keep their decrements and lines. */
  lemma PostStopsAtMissing(items: map<int, Item>, entries: seq<Entry>, k: nat)
    requires k < |entries|
    requires Coverable(items, entries[..k])
    requires entries[k].item !in items
    ensures var p := PostEntries(items, [], entries);
            && p.failure == Some(ItemNotFound(entries[k].item))
            && p.items.Keys == items.Keys
            && (forall id :: id in items ==>
                  && Requested(entries[..k], id) <= items[id].stock
                  && p.items[id] == items[id].(stock := items[id].stock - Requested(entries[..k], id)))
            && |p.lines| == k
            && (forall i :: 0 <= i < k ==> p.lines[i] == LineOf(entries[i]))
  {
    PostAfterPrefix(items, entries, k);
    assert entries[k..][0] == entries[k];
  }

  /** Running one more entry after a prefix that did not fail is one step. */
  lemma PostSnoc(items: map<int, Item>, lines: seq<Line>, entries: seq<Entry>, k: nat)
    requires k < |entries|
    ensures var p := PostEntries(items, lines, entries[..k]);
            PostEntries(items, lines, entries[..k + 1]) ==
            if p.failure.Some? then p else PostStep(p.items, p.lines, entries[k])
  {
    PostSplit(items, lines, entries[..k + 1], k);
    assert entries[..k + 1][..k] == entries[..k];
    assert entries[..k + 1][k..] == [entries[k]];
    var p := PostEntries(items, lines, entries[..k]);
    assert [entries[k]][1..] == [];
  }

  /** One pass of CreatePurchaseView.post's loop on the purchase `id`: the
      item look-up, the stock check, the saved stock and the line insert. */
  method PostOne(db: Database, id: int, e: Entry) returns (failure: Option<Error>)
    requires db.Valid() && id in db.purchases
    modifies db
    ensures db.Valid() && id in db.purchases
    ensures var step := PostStep(old(db.items), old(db.purchases[id]), e);
            && failure == step.failure
            && db.items == step.items
            && db.purchases == old(db.purchases)[id := step.lines]
    ensures db.itemOrder == old(db.itemOrder)
    ensures db.nextItemId == old(db.nextItemId) && db.nextPurchaseId == old(db.nextPurchaseId)
  {
    if e.item !in db.items {
      return Some(ItemNotFound(e.item));
    }
    var it := db.items[e.item];
    if it.stock >= e.quantity {
      db.SaveStock(e.item, it.stock - e.quantity);
      var ok := db.AddLine(id, e.item, e.quantity);
      if !ok {
        return Some(NegativeQuantity);
      }
      failure := None;
    } else {
      failure := Some(InsufficientStock(ShortageMessage(it)));
    }
  }

  /** The loop of CreatePurchaseView.post on the purchase `id`: the entries
      in order, stopping at the first failure with nothing undone. */
  method PostAll(db: Database, id: int, entries: seq<Entry>) returns (failure: Option<Error>)
    requires db.Valid() && id in db.purchases
    modifies db
    ensures db.Valid()
    ensures var run := PostEntries(old(db.items), old(db.purchases[id]), entries);
            && failure == run.failure
            && db.items == run.items
            && db.purchases == old(db.purchases)[id := run.lines]
    ensures db.itemOrder == old(db.itemOrder)
    ensures db.nextItemId == old(db.nextItemId) && db.nextPurchaseId == old(db.nextPurchaseId)
  {
    ghost var items0, lines0 := db.items, db.purchases[id];
    ghost var purchases0 := db.purchases;
    var i := 0;
    failure := None;
    assert entries[..0] == [];
    while i < |entries| && failure.None?
      invariant 0 <= i <= |entries|
      invariant db.Valid() && id in db.purchases
      invariant db.purchases == purchases0[id := db.purchases[id]]
      invariant db.itemOrder == old(db.itemOrder)
      invariant db.nextItemId == old(db.nextItemId) && db.nextPurchaseId == old(db.nextPurchaseId)
      invariant PostEntries(items0, lines0, entries[..i]) == Progress(db.items, db.purchases[id], failure)
    {
      PostSnoc(items0, lines0, entries, i);
      ghost var step := PostStep(db.items, db.purchases[id], entries[i]);
      assert PostEntries(items0, lines0, entries[..i + 1]) == step;
      failure := PostOne(db, id, entries[i]);
      assert Progress(db.items, db.purchases[id], failure) == step;
      i := i + 1;
    }
    PostSplit(items0, lines0, entries, i);
    assert entries[..|entries|] == entries;
  }

  /** CreatePurchaseView.post: create the purchase record, then run the
      entries; the response carries the new purchase's id, or the error that
      stopped the run, with nothing rolled back. */
  method CreatePurchase(db: Database, entries: seq<Entry>) returns (r: Result<int>)
    requires db.Valid()
    modifies db
    ensures db.Valid()
    ensures var id := old(db.nextPurchaseId);
            var run := PostEntries(old(db.items), [], entries);
            && id !in old(db.purchases)
            && db.items == run.items
            && db.purchases == old(db.purchases)[id := run.lines]
            && r == (if run.failure.None? then Ok(id) else Err(run.failure.value))
    ensures db.itemOrder == old(db.itemOrder)
    ensures db.nextItemId == old(db.nextItemId) && db.nextPurchaseId == old(db.nextPurchaseId) + 1
  {
    var id := db.NewPurchase();
    var failure := PostAll(db, id, entries);
    r := if failure.None? then Ok(id) else Err(failure.value);
  }

  // ---------------------------------------------------------------------
  // Purchase update
  // ---------------------------------------------------------------------

  const UpdatedMessage: string := "Purchase updated successfully"

  /** UpdatePurchaseView.put: an unknown purchase fails before any change;
      otherwise all its lines are removed and one line per entry inserted, as
      the purchase serializer's create does. Stock is never read or changed. */
  method UpdatePurchase(db: Database, id: int, entries: seq<Entry>) returns (r: Result<string>)
    requires db.Valid()
    modifies db
    ensures db.Valid()
    ensures db.items == old(db.items) && db.itemOrder == old(db.itemOrder)
    ensures db.nextItemId == old(db.nextItemId) && db.nextPurchaseId == old(db.nextPurchaseId)
    ensures id !in old(db.purchases) ==> r == Err(PurchaseNotFound(id)) && db.purchases == old(db.purchases)
    ensures id in old(db.purchases) ==>
            var run := LinkItems(old(db.items), [], entries);
            && db.purchases == old(db.purchases)[id := run.lines]
            && r == (if run.failure.None? then Ok(UpdatedMessage) else Err(run.failure.value))
  {
    if id !in db.purchases {
      return Err(PurchaseNotFound(id));
    }
    db.ClearLines(id);
    ghost var purchases0 := db.purchases;
    var i := 0;
    while i < |entries|
      invariant 0 <= i <= |entries|
      invariant db.Valid() && id in db.purchases
      invariant db.purchases == purchases0[id := db.purchases[id]]
      invariant db.items == old(db.items) && db.itemOrder == old(db.itemOrder)
      invariant db.nextItemId == old(db.nextItemId) && db.nextPurchaseId == old(db.nextPurchaseId)
      invariant LinkItems(db.items, [], entries) == LinkItems(db.items, db.purchases[id], entries[i..])
    {
      var e := entries[i];
      assert entries[i..][1..] == entries[i + 1..];
      if e.item !in db.items {
        return Err(ItemNotFound(e.item));
      }
      var ok := db.AddLine(id, e.item, e.quantity);
      if !ok {
        return Err(NegativeQuantity);
      }
      i := i + 1;
    }
    r := Ok(UpdatedMessage);
  }

  // ---------------------------------------------------------------------
  // Invoice
  // ---------------------------------------------------------------------

  /** One drawString call: a position on the page and the text drawn there. */
  datatype Draw = Draw(x: int, y: int, text: string)

  /** "<name> x <quantity> @ <price>" */
  function LineText(it: Item, quantity: nat): string {
    it.name + " x " + NatToString(quantity) + " @ " + RenderCents(it.price)
  }

  /** The line text has the name first, the quantity's digits after " x ",
      and the price's two-place text last after " @ ". */
  lemma LineTextParts(it: Item, quantity: nat)
    ensures var r, n, q := LineText(it, quantity), |it.name|, |NatToString(quantity)|;
            && |r| == n + q + 6 + |RenderCents(it.price)|
            && r[..n] == it.name
            && r[n..n + 3] == " x "
            && r[n + 3..n + 3 + q] == NatToString(quantity)
            && r[n + 3 + q..n + q + 6] == " @ "
            && r[n + q + 6..] == RenderCents(it.price)
  {
  }

  /** The sum of price times quantity over the lines, in hundredths. */
  function Total(items: map<int, Item>, lines: seq<Line>): (r: int)
    requires LinesRefer(lines, items.Keys)
    ensures (forall i :: 0 <= i < |lines| ==> items[lines[i].item].price * lines[i].quantity == 0) ==> r == 0
  {
    if lines == [] then 0
    else items[lines[0].item].price * lines[0].quantity + Total(items, lines[1..])
  }

  /** The total's text: the sum over no lines is the integer 0 and prints as
      "0"; otherwise it is a two-place decimal. */
  function TotalText(items: map<int, Item>, lines: seq<Line>): (r: string)
    requires LinesRefer(lines, items.Keys)
    ensures r == "0" <==> lines == []
    ensures lines != [] ==> |r| >= 4 && r[|r| - 3] == '.' && (r[0] == '-' <==> Total(items, lines) < 0)
  {
    if lines == [] then "0"
    else
      RenderCentsShape(Total(items, lines));
      RenderCents(Total(items, lines))
  }

  lemma {:induction false} TotalAppend(items: map<int, Item>, a: seq<Line>, b: seq<Line>)
    requires LinesRefer(a, items.Keys) && LinesRefer(b, items.Keys)
    ensures LinesRefer(a + b, items.Keys)
    ensures Total(items, a + b) == Total(items, a) + Total(items, b)
    decreases |a|
  {
    if a != [] {
      var head := items[a[0].item].price * a[0].quantity;
      assert (a + b)[0] == a[0];
      assert (a + b)[1..] == a[1..] + b;
      TotalAppend(items, a[1..], b);
      assert Total(items, a + b) == head + Total(items, a[1..] + b);
      assert Total(items, a) == head + Total(items, a[1..]);
    } else {
      assert a + b == b;
    }
  }

  /** With no negative prices, the total is not negative. */
  lemma {:induction false} TotalNonNegative(items: map<int, Item>, lines: seq<Line>)
    requires LinesRefer(lines, items.Keys)
    requires forall i :: 0 <= i < |lines| ==> items[lines[i].item].price >= 0
    ensures Total(items, lines) >= 0
    decreases |lines|
  {
    if lines != [] {
      TotalNonNegative(items, lines[1..]);
    }
  }

  /** The page: "Invoice" at (100, 800); line i at (100, 750 - 20 i); the total
      one step below the last line, at (100, 730 - 20 n). */
  predicate IsInvoiceLayout(items: map<int, Item>, lines: seq<Line>, cmds: seq<Draw>)
    requires LinesRefer(lines, items.Keys)
  {
    && |cmds| == |lines| + 2
    && cmds[0] == Draw(100, 800, "Invoice")
    && (forall i :: 0 <= i < |lines| ==>
          cmds[i + 1] == Draw(100, 750 - 20 * i, LineText(items[lines[i].item], lines[i].quantity)))
    && cmds[|lines| + 1] == Draw(100, 730 - 20 * |lines|, "Total: " + TotalText(items, lines))
  }

  /** The drawString calls of InvoiceView.get, in order. */
  method InvoiceLayout(items: map<int, Item>, lines: seq<Line>) returns (cmds: seq<Draw>)
    requires LinesRefer(lines, items.Keys)
    ensures IsInvoiceLayout(items, lines, cmds)
  {
    cmds := [Draw(100, 800, "Invoice")];
    var y := 750;
    for i := 0 to |lines|
      invariant |cmds| == i + 1 && y == 750 - 20 * i
      invariant cmds[0] == Draw(100, 800, "Invoice")
      invariant forall j :: 0 <= j < i ==>
                  cmds[j + 1] == Draw(100, 750 - 20 * j, LineText(items[lines[j].item], lines[j].quantity))
    {
      var line := lines[i];
      cmds := cmds + [Draw(100, y, LineText(items[line.item], line.quantity))];
      y := y - 20;
    }
    var total := TotalText(items, lines);
    cmds := cmds + [Draw(100, y - 20, "Total: " + total)];
  }

  /** InvoiceView.get: an unknown purchase is an error; otherwise the page
      for its lines in stored order. */
  method Invoice(db: Database, id: int) returns (r: Result<seq<Draw>>)
    requires db.Valid()
    ensures id !in db.purchases ==> r == Err(PurchaseNotFound(id))
    ensures id in db.purchases ==> r.Ok? && IsInvoiceLayout(db.items, db.purchases[id], r.value)
  {
    if id !in db.purchases {
      return Err(PurchaseNotFound(id));
    }
    var cmds := InvoiceLayout(db.items, db.purchases[id]);
    r := Ok(cmds);
  }
}
