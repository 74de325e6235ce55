/**
 * What the page derives from the cart: the item-count badge, the checkout
 * table with its per-line subtotals, and the grand total.
 */
module Totals {
  import opened Wrappers
  import opened Products
  import opened CartStore

  function LineQty(l: Line): int {
    l.qty
  }

  /** A line's subtotal, `price * qty`. */
  function Subtotal(l: Line): int {
    l.price * l.qty
  }

  /** `cart.reduce((s, p) => s + f(p), 0)`: a left fold, last line added last. */
  function SumOf(cart: Cart, f: Line -> int): int {
    if |cart| == 0 then 0 else SumOf(cart[..|cart| - 1], f) + f(cart[|cart| - 1])
  }

  /** A sum of terms that are each at least 1 is at least the number of terms; of non-negative terms, non-negative. */
  lemma {:induction false} SumBounds(cart: Cart, f: Line -> int)
    ensures (forall i :: 0 <= i < |cart| ==> f(cart[i]) >= 1) ==> SumOf(cart, f) >= |cart|
    ensures (forall i :: 0 <= i < |cart| ==> f(cart[i]) >= 0) ==> SumOf(cart, f) >= 0
  {
    if |cart| > 0 {
      var init := cart[..|cart| - 1];
      assert forall j :: 0 <= j < |init| ==> init[j] == cart[j];
      SumBounds(init, f);
    }
  }

  /**
   * The badge value `updateBadges` shows: the number of units in the cart.
   * Every stored line holds at least one unit, so it is at least the number of lines.
   */
  function ItemCount(cart: Cart): (n: int)
    ensures |cart| == 0 ==> n == 0
    ensures QtyPositive(cart) ==> n >= |cart|
  {
    SumBounds(cart, LineQty);
    SumOf(cart, LineQty)
  }

  /** The grand total: the sum of the line subtotals, never negative while no quantity is. */
  function GrandTotal(cart: Cart): (t: int)
    ensures |cart| == 0 ==> t == 0
    ensures (forall i :: 0 <= i < |cart| ==> cart[i].qty >= 0) ==> t >= 0
  {
    SumBounds(cart, Subtotal);
    SumOf(cart, Subtotal)
  }

  /** Sums split over a split cart. */
  lemma {:induction false} SumAppend(a: Cart, b: Cart, f: Line -> int)
    ensures SumOf(a + b, f) == SumOf(a, f) + SumOf(b, f)
  {
    if |b| == 0 {
      assert a + b == a;
    } else {
      var ab := a + b;
      assert ab[..|ab| - 1] == a + b[..|b| - 1];
      SumAppend(a, b[..|b| - 1], f);
    }
  }

  lemma SumSingle(l: Line, f: Line -> int)
    ensures SumOf([l], f) == f(l)
  {
    assert [l][..0] == [];
  }

  /** Changing one line changes the sum by exactly that line's difference. */
  lemma SumOneChanged(before: Cart, after: Cart, i: nat, q: int, f: Line -> int)
    requires OnlyQtyChanged(before, after, i, q)
    ensures SumOf(after, f) == SumOf(before, f) - f(before[i]) + f(after[i])
  {
    assert before == before[..i] + [before[i]] + before[i + 1..];
    assert after == before[..i] + [after[i]] + before[i + 1..];
    SumAppend(before[..i] + [before[i]], before[i + 1..], f);
    SumAppend(before[..i], [before[i]], f);
    SumAppend(before[..i] + [after[i]], before[i + 1..], f);
    SumAppend(before[..i], [after[i]], f);
    SumSingle(before[i], f);
    SumSingle(after[i], f);
  }

  /** Appending a line adds its own value to the sum. */
  lemma SumAppendLine(cart: Cart, l: Line, f: Line -> int)
    ensures SumOf(cart + [l], f) == SumOf(cart, f) + f(l)
  {
    assert (cart + [l])[..|cart|] == cart;
  }

  /** Removing one id from a cart with unique ids takes off exactly that line's value. */
  lemma SumRemove(cart: Cart, id: int, f: Line -> int)
    requires UniqueIds(cart)
    ensures !HasId(cart, id) ==> SumOf(Remove(cart, id), f) == SumOf(cart, f)
    ensures HasId(cart, id) ==>
              SumOf(Remove(cart, id), f) == SumOf(cart, f) - f(cart[FirstWithId(cart, id).value])
  {
    if HasId(cart, id) {
      var i := FirstWithId(cart, id).value;
      SumRemoveAt(cart, id, i, f);
    } else {
      RemoveAbsent(cart, id);
    }
  }

  lemma SumRemoveAt(cart: Cart, id: int, i: nat, f: Line -> int)
    requires UniqueIds(cart) && FirstWithId(cart, id) == Some(i)
    ensures SumOf(Remove(cart, id), f) == SumOf(cart, f) - f(cart[i])
  {
    RemoveOne(cart, id, i);
    var front, back := cart[..i], cart[i + 1..];
    assert cart == front + [cart[i]] + back;
    SumAppend(front + [cart[i]], back, f);
    SumAppend(front, [cart[i]], f);
    SumAppend(front, back, f);
    SumSingle(cart[i], f);
  }

  // ---- how each operation moves the badge and the total ----

  /** Moving a line's quantity by `d` moves its subtotal by `d` unit prices. */
  lemma SubtotalShift(before: Line, after: Line, d: int)
    requires after.price == before.price && after.qty == before.qty + d
    ensures Subtotal(after) == Subtotal(before) + before.price * d
  {
    calc {
      Subtotal(after);
      before.price * (before.qty + d);
      { assert before.price * (before.qty + d) == before.price * before.qty + before.price * d; }
      Subtotal(before) + before.price * d;
    }
  }

  /** One add puts one more unit in the cart and the bumped line's price on the total. */
  lemma AddToCartTotals(cart: Cart, p: Option<Product>)
    requires Addable(p)
    ensures ItemCount(AddToCart(cart, p)) == ItemCount(cart) + 1
    ensures GrandTotal(AddToCart(cart, p)) == GrandTotal(cart) +
              (if HasId(cart, p.value.id) then cart[FirstWithId(cart, p.value.id).value].price
               else p.value.price)
  {
    var r := AddToCart(cart, p);
    if HasId(cart, p.value.id) {
      var i := FirstWithId(cart, p.value.id).value;
      SumOneChanged(cart, r, i, cart[i].qty + 1, LineQty);
      SumOneChanged(cart, r, i, cart[i].qty + 1, Subtotal);
      SubtotalShift(cart[i], r[i], 1);
    } else {
      var l := NewLine(p.value.id, p.value.name, p.value.price, p.value.img);
      SumAppendLine(cart, l, LineQty);
      SumAppendLine(cart, l, Subtotal);
    }
  }

  /** A manual add also puts exactly one more unit in the cart. */
  lemma AddProductToCartTotals(cart: Cart, name: string, price: nat, img: string, freshId: int)
    ensures ItemCount(AddProductToCart(cart, name, price, img, freshId)) == ItemCount(cart) + 1
  {
    var r := AddProductToCart(cart, name, price, img, freshId);
    match FirstWithName(cart, name)
    case Some(i) => SumOneChanged(cart, r, i, cart[i].qty + 1, LineQty);
    case None => SumAppendLine(cart, NewLine(freshId, name, price, img), LineQty);
  }

  /** `updateQty` moves the badge by the clamped change of the one line it touches ... */
  lemma UpdateQtyCount(cart: Cart, id: int, delta: int, i: nat)
    requires FirstWithId(cart, id) == Some(i)
    ensures ItemCount(UpdateQty(cart, id, delta)) == ItemCount(cart) - cart[i].qty + AtLeastOne(cart[i].qty + delta)
  {
    var q := AtLeastOne(cart[i].qty + delta);
    var r := UpdateQty(cart, id, delta);
    assert OnlyQtyChanged(cart, r, i, q);
    SumOneChanged(cart, r, i, q, LineQty);
  }

  /** ... and the total by that change times the line's unit price. */
  lemma UpdateQtyTotal(cart: Cart, id: int, delta: int, i: nat)
    requires FirstWithId(cart, id) == Some(i)
    ensures GrandTotal(UpdateQty(cart, id, delta))
              == GrandTotal(cart) + cart[i].price * (AtLeastOne(cart[i].qty + delta) - cart[i].qty)
  {
    var q := AtLeastOne(cart[i].qty + delta);
    var r := UpdateQty(cart, id, delta);
    assert OnlyQtyChanged(cart, r, i, q);
    SumOneChanged(cart, r, i, q, Subtotal);
    SubtotalShift(cart[i], r[i], q - cart[i].qty);
  }

  /**
   * In a valid cart each "−" click on a line that is there takes exactly one
   * unit off the badge, whether it decrements the line or removes it ...
   */
  lemma MinusClickCount(cart: Cart, id: int)
    requires Valid(cart) && HasId(cart, id)
    ensures ItemCount(MinusClick(cart, id)) == ItemCount(cart) - 1
  {
    var i := FirstWithId(cart, id).value;
    if cart[i].qty > 1 {
      SumOneChanged(cart, MinusClick(cart, id), i, cart[i].qty - 1, LineQty);
    } else {
      SumRemove(cart, id, LineQty);
    }
  }

  /** ... and that line's unit price off the total. */
  lemma MinusClickTotal(cart: Cart, id: int, i: nat)
    requires Valid(cart) && FirstWithId(cart, id) == Some(i)
    ensures GrandTotal(MinusClick(cart, id)) == GrandTotal(cart) - cart[i].price
  {
    var r := MinusClick(cart, id);
    if cart[i].qty > 1 {
      SumOneChanged(cart, r, i, cart[i].qty - 1, Subtotal);
      SubtotalShift(cart[i], r[i], -1);
    } else {
      SumRemoveAt(cart, id, i, Subtotal);
      SubtotalShift(cart[i], cart[i].(qty := 0), -1);
    }
  }

  // ---- the checkout table ----

  /** One table row: image, name, quantity control, unit price and subtotal. */
  datatype Row = Row(id: int, name: string, img: string, qty: int, price: nat, subtotal: int)

  /** The table body: the "cart is empty" notice, or one row per line. */
  datatype Body = EmptyNotice | Rows(rows: seq<Row>)

  /** What the checkout page shows: the table body and the total figure. */
  datatype View = View(body: Body, total: int)

  function RowOf(l: Line): Row {
    Row(l.id, l.name, l.img, l.qty, l.price, Subtotal(l))
  }

  /**
   * `renderCartIfNeeded`: an empty cart shows the notice and total 0; any
   * other cart shows its lines in order and the sum of their subtotals.
   */
  function Project(cart: Cart): (v: View)
    ensures v.body.EmptyNotice? <==> |cart| == 0
    ensures v.body.EmptyNotice? ==> v.total == 0
    ensures v.body.Rows? ==> |v.body.rows| == |cart|
    ensures v.body.Rows? ==> forall i :: 0 <= i < |cart| ==> v.body.rows[i] == RowOf(cart[i])
    ensures v.total == GrandTotal(cart)
  {
    if |cart| == 0 then View(EmptyNotice, 0)
    else View(Rows(seq(|cart|, i requires 0 <= i < |cart| => RowOf(cart[i]))), GrandTotal(cart))
  }

  /** The render loop itself: rows appended and the total accumulated line by line. */
  method Render(cart: Cart) returns (v: View)
    ensures v == Project(cart)
  {
    if |cart| == 0 {
      return View(EmptyNotice, 0);
    }
    var rows: seq<Row> := [];
    var total := 0;
    var i := 0;
    while i < |cart|
      invariant 0 <= i <= |cart|
      invariant |rows| == i
      invariant forall j :: 0 <= j < i ==> rows[j] == RowOf(cart[j])
      invariant total == GrandTotal(cart[..i])
    {
      var item := cart[i];
      var subtotal := item.price * item.qty;
      assert cart[..i + 1][..i] == cart[..i];
      total := total + subtotal;
      rows := rows + [RowOf(item)];
      i := i + 1;
    }
    assert cart[..i] == cart;
    v := View(Rows(rows), total);
  }
}
