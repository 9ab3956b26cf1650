/**
 * The database the views and serializers work on, with the ORM replaced by
 * maps: the item table keyed by id (plus the order its rows come back in),
 * the purchase-line table grouped by purchase id, and the id counters of the
 * item and purchase tables (a purchase line has no id of its own here). Also
 * the meaning of the loop that both the purchase update and the purchase
 * serializer run: look each requested item up, then insert a line.
 */
module Store {
  import opened Options
  import opened Models

  /** One requested (item id, quantity) pair of a request body. Quantities
      arrive from JSON and may be negative. */
  datatype Entry = Entry(item: int, quantity: int)

  datatype Error =
    | ItemNotFound(itemId: int)        // Item.objects.get finds no row
    | PurchaseNotFound(purchaseId: int) // Purchase.objects.get finds no row
    | InsufficientStock(message: string)
    | NegativeQuantity                 // the quantity column's CHECK (quantity >= 0) rejects the row

  datatype Result<+T> = Ok(value: T) | Err(error: Error)

  /** The message of the 400 response for a shortage of `it`: a fixed
      sentence followed by the item's name, so the message names the item. */
  function ShortageMessage(it: Item): (r: string)
    ensures |r| == 21 + |it.name|
    ensures r[..21] == "Not enough stock for "
    ensures r[21..] == it.name
  {
    "Not enough stock for " + it.name
  }

  predicate Distinct(s: seq<int>) {
    forall i, j :: 0 <= i < j < |s| ==> s[i] != s[j]
  }

  /** `s` without `x`, in the same order. */
  function Remove(s: seq<int>, x: int): (r: seq<int>)
    ensures forall y :: y in r <==> y in s && y != x
  {
    if s == [] then []
    else if s[0] == x then Remove(s[1..], x)
    else [s[0]] + Remove(s[1..], x)
  }

  lemma {:induction false} RemoveDistinct(s: seq<int>, x: int)
    requires Distinct(s)
    ensures Distinct(Remove(s, x))
  {
    if s != [] {
      RemoveDistinct(s[1..], x);
      if s[0] != x {
        var r := Remove(s[1..], x);
        assert s[0] !in s[1..];
        assert s[0] !in r;
        forall i, j | 0 <= i < j < |[s[0]] + r| ensures ([s[0]] + r)[i] != ([s[0]] + r)[j] {
          if i == 0 {
            assert ([s[0]] + r)[j] in r;
          }
        }
      }
    }
  }

  /** The line a well-formed entry becomes. */
  function LineOf(e: Entry): Line
    requires e.quantity >= 0
  {
    Line(e.item, e.quantity)
  }

  /** Where a run of lookups-and-inserts stopped: the lines so far, and the
      error that stopped it, if any. */
  datatype Linked = Linked(lines: seq<Line>, failure: Option<Error>)

  /** For each entry in order: look the item up (ItemNotFound when absent),
      then insert a line (NegativeQuantity when the database refuses it).
      Stock is never read. The first failure stops the run, and what was
      inserted before it stays. */
  function LinkItems(items: map<int, Item>, lines: seq<Line>, entries: seq<Entry>): (r: Linked)
    ensures |lines| <= |r.lines| <= |lines| + |entries|
    ensures r.failure.Some? ==> r.failure.value.ItemNotFound? || r.failure.value == NegativeQuantity
    decreases |entries|
  {
    if entries == [] then Linked(lines, None)
    else if entries[0].item !in items then Linked(lines, Some(ItemNotFound(entries[0].item)))
    else if entries[0].quantity < 0 then Linked(lines, Some(NegativeQuantity))
    else LinkItems(items, lines + [LineOf(entries[0])], entries[1..])
  }

  /** An entry the loop accepts. */
  predicate Linkable(items: map<int, Item>, e: Entry) {
    e.item in items && e.quantity >= 0
  }

  /** The run succeeds exactly when every entry names an existing item with a
      non-negative quantity, and then it appends one line per entry, in order. */
  lemma {:induction false} LinkItemsSucceeds(items: map<int, Item>, lines: seq<Line>, entries: seq<Entry>)
    ensures LinkItems(items, lines, entries).failure.None? <==>
            forall i :: 0 <= i < |entries| ==> Linkable(items, entries[i])
    ensures LinkItems(items, lines, entries).failure.None? ==>
            var r := LinkItems(items, lines, entries).lines;
            && |r| == |lines| + |entries|
            && r[..|lines|] == lines
            && forall i :: 0 <= i < |entries| ==> r[|lines| + i] == LineOf(entries[i])
    decreases |entries|
  {
    if entries != [] {
      var rest := entries[1..];
      if Linkable(items, entries[0]) {
        var lines' := lines + [LineOf(entries[0])];
        LinkItemsSucceeds(items, lines', rest);
        assert forall i :: 1 <= i < |entries| ==> entries[i] == rest[i - 1];
        if LinkItems(items, lines, entries).failure.None? {
          var r := LinkItems(items, lines', rest).lines;
          assert r[..|lines'|][..|lines|] == lines;
          forall i | 0 <= i < |entries| ensures r[|lines| + i] == LineOf(entries[i]) {
            if i == 0 {
              assert r[..|lines'|][|lines|] == LineOf(entries[0]);
            } else {
              assert r[|lines'| + (i - 1)] == LineOf(rest[i - 1]);
            }
          }
        }
      }
    }
  }

  /** When entry k is the first the loop refuses, the run ends with the lines
      of entries 0..k-1 appended and the error that entry k raises. */
  lemma {:induction false} LinkItemsStopsAt(items: map<int, Item>, lines: seq<Line>, entries: seq<Entry>, k: nat)
    requires k < |entries|
    requires forall i :: 0 <= i < k ==> entries[i].item in items && entries[i].quantity >= 0
    requires !Linkable(items, entries[k])
    ensures var r := LinkItems(items, lines, entries);
            && |r.lines| == |lines| + k
            && r.lines[..|lines|] == lines
            && (forall i :: 0 <= i < k ==> r.lines[|lines| + i] == LineOf(entries[i]))
            && r.failure == Some(if entries[k].item !in items then ItemNotFound(entries[k].item)
                                 else NegativeQuantity)
    decreases k
  {
    if k > 0 {
      var rest := entries[1..];
      var lines' := lines + [LineOf(entries[0])];
      assert forall i :: 1 <= i < |entries| ==> entries[i] == rest[i - 1];
      LinkItemsStopsAt(items, lines', rest, k - 1);
      var r := LinkItems(items, lines', rest).lines;
      assert r[..|lines'|][..|lines|] == lines;
      forall i | 0 <= i < k ensures r[|lines| + i] == LineOf(entries[i]) {
        if i == 0 {
          assert r[..|lines'|][|lines|] == LineOf(entries[0]);
        } else {
          assert r[|lines'| + (i - 1)] == LineOf(rest[i - 1]);
        }
      }
    }
  }

  /** The lines the run inserts refer to existing items. */
  lemma {:induction false} LinkItemsRefers(items: map<int, Item>, lines: seq<Line>, entries: seq<Entry>)
    requires LinesRefer(lines, items.Keys)
    ensures LinesRefer(LinkItems(items, lines, entries).lines, items.Keys)
    decreases |entries|
  {
    if entries != [] && Linkable(items, entries[0]) {
      LinkItemsRefers(items, lines + [LineOf(entries[0])], entries[1..]);
    }
  }

  /** Every purchase's lines after deleting the item `id`. */
  function Cascade(purchases: map<int, seq<Line>>, id: int): (r: map<int, seq<Line>>)
    ensures r.Keys == purchases.Keys
    ensures forall p :: p in r ==> r[p] == WithoutItem(purchases[p], id)
  {
    map p | p in purchases :: WithoutItem(purchases[p], id)
  }

  lemma CascadeRefers(purchases: map<int, seq<Line>>, ids: set<int>, id: int)
    requires forall p :: p in purchases ==> LinesRefer(purchases[p], ids)
    ensures forall p :: p in Cascade(purchases, id) ==> LinesRefer(Cascade(purchases, id)[p], ids - {id})
  {
    forall p | p in purchases ensures LinesRefer(WithoutItem(purchases[p], id), ids - {id}) {
      WithoutItemRefers(purchases[p], ids, id);
    }
  }

  /** The tables. A class because every operation of the source changes rows
      in place. */
  class Database {
    var items: map<int, Item>
    var itemOrder: seq<int>
    var purchases: map<int, seq<Line>>
    var nextItemId: int
    var nextPurchaseId: int

    /** Ids are below the next id to hand out; the listing order holds every
        item exactly once; saved items meet their column constraints; every
        line refers to an existing item. */
    ghost predicate Valid()
      reads this
    {
      && (forall id :: id in items ==> id < nextItemId && items[id].Valid())
      && Distinct(itemOrder)
      && (forall id :: id in itemOrder <==> id in items)
      && (forall p :: p in purchases ==> p < nextPurchaseId && LinesRefer(purchases[p], items.Keys))
    }

    /** An empty database; auto-increment ids start at 1. */
    constructor ()
      ensures Valid()
      ensures items == map[] && itemOrder == [] && purchases == map[]
      ensures nextItemId == 1 && nextPurchaseId == 1
    {
      items, itemOrder, purchases := map[], [], map[];
      nextItemId, nextPurchaseId := 1, 1;
    }

    /** Item.objects.create with the column constraints only: an item that
        breaks one is refused; a missing stock defaults to 0. */
    method CreateItem(name: string, price: int, description: string, stock: Option<nat>) returns (r: Option<int>)
      requires Valid()
      modifies this
      ensures Valid()
      ensures var it := Item(name, price, description, if stock.Some? then stock.value else 0);
              if it.Valid() then
                && r == Some(old(nextItemId))
                && old(nextItemId) !in old(items)
                && items == old(items)[old(nextItemId) := it]
                && itemOrder == old(itemOrder) + [old(nextItemId)]
                && nextItemId == old(nextItemId) + 1
                && purchases == old(purchases) && nextPurchaseId == old(nextPurchaseId)
              else
                r == None && unchanged(this)
    {
      var it := Item(name, price, description, if stock.Some? then stock.value else 0);
      if !it.Valid() {
        return None;
      }
      var id := nextItemId;
      assert id !in itemOrder;
      forall i, j | 0 <= i < j < |itemOrder + [id]| ensures (itemOrder + [id])[i] != (itemOrder + [id])[j] {
        if j == |itemOrder| {
          assert (itemOrder + [id])[i] in itemOrder;
        }
      }
      items := items[id := it];
      itemOrder := itemOrder + [id];
      nextItemId := nextItemId + 1;
      r := Some(id);
      forall p | p in purchases ensures LinesRefer(purchases[p], items.Keys) {
        assert old(LinesRefer(purchases[p], items.Keys));
      }
    }

    /** Purchase.objects.create: a new purchase with no lines. */
    method NewPurchase() returns (id: int)
      requires Valid()
      modifies this
      ensures Valid()
      ensures id == old(nextPurchaseId) && id !in old(purchases)
      ensures purchases == old(purchases)[id := []]
      ensures nextPurchaseId == id + 1
      ensures items == old(items) && itemOrder == old(itemOrder) && nextItemId == old(nextItemId)
    {
      id := nextPurchaseId;
      purchases := purchases[id := []];
      nextPurchaseId := nextPurchaseId + 1;
    }

    /** item.save() after a stock change: only that item's stock changes. */
    method SaveStock(id: int, stock: nat)
      requires Valid() && id in items
      modifies this
      ensures Valid()
      ensures items == old(items)[id := old(items)[id].(stock := stock)]
      ensures itemOrder == old(itemOrder) && purchases == old(purchases)
      ensures nextItemId == old(nextItemId) && nextPurchaseId == old(nextPurchaseId)
    {
      ghost var keys := items.Keys;
      items := items[id := items[id].(stock := stock)];
      assert items.Keys == keys;
    }

    /** PurchaseItem.objects.create: one line appended to a purchase. The
        quantity column refuses negative values, and the item must exist. */
    method AddLine(purchase: int, item: int, quantity: int) returns (ok: bool)
      requires Valid() && purchase in purchases && item in items
      modifies this
      ensures Valid()
      ensures ok <==> quantity >= 0
      ensures ok ==> purchases == old(purchases)[purchase := old(purchases)[purchase] + [Line(item, quantity)]]
      ensures !ok ==> purchases == old(purchases)
      ensures items == old(items) && itemOrder == old(itemOrder)
      ensures nextItemId == old(nextItemId) && nextPurchaseId == old(nextPurchaseId)
    {
      if quantity < 0 {
        return false;
      }
      purchases := purchases[purchase := purchases[purchase] + [Line(item, quantity)]];
      ok := true;
    }

    /** purchase.items.clear(): every line of the purchase is deleted. */
    method ClearLines(purchase: int)
      requires Valid() && purchase in purchases
      modifies this
      ensures Valid()
      ensures purchases == old(purchases)[purchase := []]
      ensures items == old(items) && itemOrder == old(itemOrder)
      ensures nextItemId == old(nextItemId) && nextPurchaseId == old(nextPurchaseId)
    {
      purchases := purchases[purchase := []];
    }

    /** Deleting an item cascades to every purchase line that refers to it. */
    method DeleteItem(id: int)
      requires Valid()
      modifies this
      ensures Valid()
      ensures items == old(items) - {id}
      ensures itemOrder == Remove(old(itemOrder), id)
      ensures purchases.Keys == old(purchases).Keys
      ensures forall p :: p in purchases ==> purchases[p] == WithoutItem(old(purchases)[p], id)
      ensures nextItemId == old(nextItemId) && nextPurchaseId == old(nextPurchaseId)
    {
      RemoveDistinct(itemOrder, id);
      CascadeRefers(purchases, items.Keys, id);
      items := items - {id};
      itemOrder := Remove(itemOrder, id);
      purchases := Cascade(purchases, id);
    }

    /** Deleting a purchase cascades to its lines. */
    method DeletePurchase(id: int)
      requires Valid()
      modifies this
      ensures Valid()
      ensures purchases == old(purchases) - {id}
      ensures items == old(items) && itemOrder == old(itemOrder)
      ensures nextItemId == old(nextItemId) && nextPurchaseId == old(nextPurchaseId)
    {
      purchases := purchases - {id};
    }
  }
}
