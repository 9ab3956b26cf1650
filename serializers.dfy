/**
 * The item serializer's JSON shape and the purchase serializer's two
 * hand-written members: reading a purchase's lines as (item, quantity)
 * pairs, and creating a purchase with one line per requested pair.
 */
module Serializers {
  import opened Options
  import opened Money
  import opened Models
  import opened Store

  datatype Json = JInt(i: int) | JStr(s: string)

  /** A JSON object as its ordered (key, value) members. */
  type Fields = seq<(string, Json)>

  const ItemFieldNames: seq<string> := ["id", "name", "price", "description", "stock"]

  function Keys(f: Fields): (r: seq<string>)
    ensures |r| == |f| && forall i :: 0 <= i < |f| ==> r[i] == f[i].0
  {
    if f == [] then [] else [f[0].0] + Keys(f[1..])
  }

  /** An item as the item serializer renders it: exactly the fields id, name,
      price, description and stock, in that order, with the price as a
      two-place decimal string. */
  function ItemFields(id: int, it: Item): (r: Fields)
    ensures Keys(r) == ItemFieldNames
  {
    [ ("id", JInt(id)),
      ("name", JStr(it.name)),
      ("price", JStr(RenderCents(it.price))),
      ("description", JStr(it.description)),
      ("stock", JInt(it.stock)) ]
  }

  /** The value of the first member named `key`. */
  function Lookup(f: Fields, key: string): Option<Json> {
    if f == [] then None
    else if f[0].0 == key then Some(f[0].1)
    else Lookup(f[1..], key)
  }

  /** A reference reading of the item shape back into an id and an item: the
      price must be decimal text, the stock a non-negative integer, and a
      missing stock reads as the column default 0. */
  function ItemFromFields(f: Fields): Option<(int, Item)> {
    match (Lookup(f, "id"), Lookup(f, "name"), Lookup(f, "price"), Lookup(f, "description"))
    case (Some(JInt(id)), Some(JStr(name)), Some(JStr(price)), Some(JStr(description))) =>
      var cents := ParseCents(price);
      var stock := Lookup(f, "stock");
      if cents.None? then None
      else if stock.None? then Some((id, Item(name, cents.value, description, 0)))
      else if stock.value.JInt? && stock.value.i >= 0 then Some((id, Item(name, cents.value, description, stock.value.i)))
      else None
    case _ => None
  }

  /** The item shape loses nothing: reading it back gives the same id, name,
      price, description and stock. */
  lemma ItemFieldsRoundTrip(id: int, it: Item)
    ensures ItemFromFields(ItemFields(id, it)) == Some((id, it))
  {
    var f := ItemFields(id, it);
    RenderParseRoundTrip(it.price);
    assert f[1..][1..][1..][1..] == [("stock", JInt(it.stock))];
    assert Lookup(f, "id") == Some(JInt(id));
    assert Lookup(f, "name") == Some(JStr(it.name));
    assert Lookup(f[1..][1..], "price") == Some(JStr(RenderCents(it.price)));
    assert Lookup(f, "price") == Some(JStr(RenderCents(it.price)));
    assert Lookup(f[1..][1..][1..], "description") == Some(JStr(it.description));
    assert Lookup(f[1..][1..], "description") == Some(JStr(it.description));
    assert Lookup(f[1..], "description") == Some(JStr(it.description));
    assert Lookup(f, "description") == Some(JStr(it.description));
    assert Lookup(f[1..][1..][1..], "stock") == Some(JInt(it.stock));
    assert Lookup(f[1..][1..], "stock") == Some(JInt(it.stock));
    assert Lookup(f[1..], "stock") == Some(JInt(it.stock));
    assert Lookup(f, "stock") == Some(JInt(it.stock));
  }

  /** get_items: one {item, quantity} pair per stored line of the purchase,
      in the order the lines are stored, and nothing else. */
  function GetItems(lines: seq<Line>): (r: seq<Entry>)
    ensures |r| == |lines|
    ensures forall i :: 0 <= i < |lines| ==> r[i].item == lines[i].item && r[i].quantity == lines[i].quantity
  {
    seq(|lines|, i requires 0 <= i < |lines| => Entry(lines[i].item, lines[i].quantity))
  }

  /** create: a new purchase, then for each requested pair in order the item
      lookup and the line insert. Stock is neither read nor changed. A failure
      leaves the new purchase and the lines inserted before it in place. */
  method Create(db: Database, entries: seq<Entry>) returns (r: Result<int>)
    requires db.Valid()
    modifies db
    ensures db.Valid()
    ensures var id := old(db.nextPurchaseId);
            var run := LinkItems(old(db.items), [], entries);
            && id !in old(db.purchases)
            && db.purchases == old(db.purchases)[id := run.lines]
            && r == (if run.failure.None? then Ok(id) else Err(run.failure.value))
    ensures db.items == old(db.items) && db.itemOrder == old(db.itemOrder)
    ensures db.nextItemId == old(db.nextItemId) && db.nextPurchaseId == old(db.nextPurchaseId) + 1
  {
    var id := db.NewPurchase();
    ghost var purchases0 := db.purchases;
    var i := 0;
    while i < |entries|
      invariant 0 <= i <= |entries|
      invariant db.Valid() && id in db.purchases
      invariant db.purchases == purchases0[id := db.purchases[id]]
      invariant db.items == old(db.items) && db.itemOrder == old(db.itemOrder)
      invariant db.nextItemId == old(db.nextItemId) && db.nextPurchaseId == id + 1
      invariant LinkItems(db.items, [], entries) == LinkItems(db.items, db.purchases[id], entries[i..])
    {
      var e := entries[i];
      assert entries[i..][1..] == entries[i + 1..];
      if e.item !in db.items {
        return Err(ItemNotFound(e.item));
      }
      var ok := db.AddLine(id, e.item, e.quantity);
      if !ok {
        return Err(NegativeQuantity);
      }
      i := i + 1;
    }
    r := Ok(id);
  }

  /** Reading back a purchase that create built gives the requested pairs. */
  lemma GetItemsAfterCreate(items: map<int, Item>, entries: seq<Entry>)
    requires LinkItems(items, [], entries).failure.None?
    ensures GetItems(LinkItems(items, [], entries).lines) == entries
  {
    LinkItemsSucceeds(items, [], entries);
    var lines := LinkItems(items, [], entries).lines;
    forall i | 0 <= i < |entries| ensures GetItems(lines)[i] == entries[i] {
      assert lines[0 + i] == LineOf(entries[i]);
    }
  }
}
