/**
 * The three tables of the invoicing schema as values.
 *
 * An item has a name of at most 100 characters, a price that is a decimal
 * with at most 10 digits of which exactly 2 are decimal places (kept here as
 * integer hundredths, so |price| < 10^10), a description and a stock count
 * that cannot be negative. A purchase line links one purchase to one item
 * with a quantity that cannot be negative; which purchase it belongs to is
 * given by the key under which the store files it.
 */
module Models {
  /** Prices are below 10^8 in absolute value, i.e. below 10^10 hundredths. */
  const PriceLimit: int := 10_000_000_000
  const NameMaxLength: nat := 100

  predicate ValidPrice(cents: int) {
    -PriceLimit < cents < PriceLimit
  }

  datatype Item = Item(name: string, price: int, description: string, stock: nat) {
    /** The column constraints a saved item satisfies (stock >= 0 is the type). */
    predicate Valid() {
      |name| <= NameMaxLength && ValidPrice(price)
    }
  }

  /** One purchase line: the item it refers to and how many were bought. */
  datatype Line = Line(item: int, quantity: nat)

  /** Every line refers to an existing item (the item foreign key). */
  predicate LinesRefer(lines: seq<Line>, ids: set<int>) {
    forall i :: 0 <= i < |lines| ==> lines[i].item in ids
  }

  /** The lines that survive deleting the item `id`: deletion cascades to
      every line referring to it, and the other lines keep their order. */
  function WithoutItem(lines: seq<Line>, id: int): (r: seq<Line>)
    ensures forall l :: l in r <==> l in lines && l.item != id
    ensures forall l :: multiset(r)[l] == if l.item == id then 0 else multiset(lines)[l]
    ensures |r| <= |lines|
  {
    if lines == [] then []
    else
      assert lines == [lines[0]] + lines[1..];
      if lines[0].item == id then WithoutItem(lines[1..], id)
      else [lines[0]] + WithoutItem(lines[1..], id)
  }

  /** The cascade works row by row: the surviving lines of two runs of lines
      are the surviving lines of each, in the same order. With the one-line
      case below this fixes the result completely. */
  lemma {:induction false} WithoutItemAppend(a: seq<Line>, b: seq<Line>, id: int)
    ensures WithoutItem(a + b, id) == WithoutItem(a, id) + WithoutItem(b, id)
    decreases |a|
  {
    if a == [] {
      assert a + b == b;
    } else {
      assert (a + b)[0] == a[0];
      assert (a + b)[1..] == a[1..] + b;
      WithoutItemAppend(a[1..], b, id);
    }
  }

  /** A single line survives exactly when it refers to another item. */
  lemma WithoutItemOne(l: Line, id: int)
    ensures WithoutItem([l], id) == if l.item == id then [] else [l]
  {
    assert [l][1..] == [];
  }

  /** After the cascade no line refers to the deleted item, and every line
      that referred to another existing item still does. */
  lemma WithoutItemRefers(lines: seq<Line>, ids: set<int>, id: int)
    requires LinesRefer(lines, ids)
    ensures LinesRefer(WithoutItem(lines, id), ids - {id})
  {
  }

  /** Deleting an item no purchase line refers to changes no line. */
  lemma {:induction false} WithoutAbsentItem(lines: seq<Line>, id: int)
    requires forall i :: 0 <= i < |lines| ==> lines[i].item != id
    ensures WithoutItem(lines, id) == lines
    decreases |lines|
  {
    if lines != [] {
      WithoutAbsentItem(lines[1..], id);
      assert [lines[0]] + lines[1..] == lines;
    }
  }
}
