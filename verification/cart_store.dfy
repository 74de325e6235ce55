/**
 * The cart: an ordered sequence of lines, first-added first.  Each operation
 * here is the in-memory half of one of the page's mutators; writing the cart
 * back to storage and re-rendering are modelled in module Session.
 */
module CartStore {
  import opened Wrappers
  import opened Products

  /** One cart line; `qty` is an unbounded integer so that "at least 1" is a real invariant. */
  datatype Line = Line(id: int, name: string, price: nat, img: string, qty: int)

  type Cart = seq<Line>

  predicate HasId(cart: Cart, id: int) {
    exists i :: 0 <= i < |cart| && cart[i].id == id
  }

  /** `cart.findIndex(p => Number(p.id) === Number(id))`, with ids already numbers. */
  function FirstWithId(cart: Cart, id: int): (r: Option<nat>)
    ensures r.None? <==> !HasId(cart, id)
    ensures r.Some? ==> r.value < |cart| && cart[r.value].id == id
    ensures r.Some? ==> forall j :: 0 <= j < r.value ==> cart[j].id != id
  {
    if |cart| == 0 then None
    else if cart[0].id == id then Some(0)
    else match FirstWithId(cart[1..], id)
      case None => None
      case Some(k) => Some(k + 1)
  }

  /** `cart.find(p => p.name === name)`, as an index. */
  function FirstWithName(cart: Cart, name: string): (r: Option<nat>)
    ensures r.None? <==> forall j :: 0 <= j < |cart| ==> cart[j].name != name
    ensures r.Some? ==> r.value < |cart| && cart[r.value].name == name
    ensures r.Some? ==> forall j :: 0 <= j < r.value ==> cart[j].name != name
  {
    if |cart| == 0 then None
    else if cart[0].name == name then Some(0)
    else match FirstWithName(cart[1..], name)
      case None => None
      case Some(k) => Some(k + 1)
  }

  predicate UniqueIds(cart: Cart) {
    forall i, j :: 0 <= i < j < |cart| ==> cart[i].id != cart[j].id
  }

  predicate QtyPositive(cart: Cart) {
    forall i :: 0 <= i < |cart| ==> cart[i].qty >= 1
  }

  /** The cart invariant: at most one line per id, and no line with a quantity below 1. */
  predicate Valid(cart: Cart) {
    UniqueIds(cart) && QtyPositive(cart)
  }

  /**
   * `after` is `before` with only the quantity of line `i` changed, to `q`:
   * same length, same order, every other line and every other field untouched.
   */
  predicate OnlyQtyChanged(before: Cart, after: Cart, i: nat, q: int) {
    && |after| == |before|
    && i < |before|
    && after[i].id == before[i].id && after[i].name == before[i].name
    && after[i].price == before[i].price && after[i].img == before[i].img
    && after[i].qty == q
    && forall j :: 0 <= j < |before| && j != i ==> after[j] == before[j]
  }

  /** The line a new product gets: quantity 1. */
  function NewLine(id: int, name: string, price: nat, img: string): (l: Line)
    ensures l.qty == 1
  {
    Line(id, name, price, img, 1)
  }

  /** `addToCart` acts only on a product that is present and has a non-zero id. */
  predicate Addable(p: Option<Product>) {
    p.Some? && p.value.id != 0
  }

  /**
   * `addToCart(product)`: bump the line with the product's id by one, or
   * append a new line with quantity 1 at the end; no-op without a product or
   * with a zero id.
   */
  function AddToCart(cart: Cart, p: Option<Product>): (r: Cart)
    ensures !Addable(p) ==> r == cart
    ensures Addable(p) && !HasId(cart, p.value.id) ==>
              r == cart + [NewLine(p.value.id, p.value.name, p.value.price, p.value.img)]
    ensures Addable(p) && HasId(cart, p.value.id) ==>
              var i := FirstWithId(cart, p.value.id).value;
              OnlyQtyChanged(cart, r, i, cart[i].qty + 1)
  {
    if !Addable(p) then cart
    else match FirstWithId(cart, p.value.id)
      case Some(i) => cart[i := cart[i].(qty := cart[i].qty + 1)]
      case None => cart + [NewLine(p.value.id, p.value.name, p.value.price, p.value.img)]
  }

  /**
   * `window.addProductToCart(name, price, img)`: bump the first line with
   * that name, or append a line under `freshId` (the page's `Date.now()`).
   */
  function AddProductToCart(cart: Cart, name: string, price: nat, img: string, freshId: int): (r: Cart)
    ensures FirstWithName(cart, name).None? ==> r == cart + [NewLine(freshId, name, price, img)]
    ensures FirstWithName(cart, name).Some? ==>
              var i := FirstWithName(cart, name).value;
              OnlyQtyChanged(cart, r, i, cart[i].qty + 1)
  {
    match FirstWithName(cart, name)
    case Some(i) => cart[i := cart[i].(qty := cart[i].qty + 1)]
    case None => cart + [NewLine(freshId, name, price, img)]
  }

  /** `Math.max(1, q)`: never below 1, and `q` itself whenever `q` is at least 1. */
  function AtLeastOne(q: int): (r: int)
    ensures r >= 1 && r >= q
    ensures r == q || r == 1
  {
    if q < 1 then 1 else q
  }

  /**
   * `window.updateQty(id, delta)`: the line with that id gets quantity
   * `max(1, qty + delta)`; no line with that id leaves the cart as it was.
   */
  function UpdateQty(cart: Cart, id: int, delta: int): (r: Cart)
    ensures !HasId(cart, id) ==> r == cart
    ensures HasId(cart, id) ==>
              var i := FirstWithId(cart, id).value;
              OnlyQtyChanged(cart, r, i, AtLeastOne(cart[i].qty + delta))
    ensures HasId(cart, id) ==> r[FirstWithId(cart, id).value].qty >= 1
  {
    match FirstWithId(cart, id)
    case None => cart
    case Some(i) => cart[i := cart[i].(qty := AtLeastOne(cart[i].qty + delta))]
  }

  /** `window.removeItem(id)`: keep exactly the lines with another id. */
  function Remove(cart: Cart, id: int): (r: Cart)
    ensures !HasId(r, id)
    ensures |r| <= |cart|
  {
    if |cart| == 0 then []
    else (if cart[0].id == id then [] else [cart[0]]) + Remove(cart[1..], id)
  }

  /** The lines kept are exactly the cart's lines with another id. */
  lemma {:induction false} RemoveMembers(cart: Cart, id: int)
    ensures forall l :: l in Remove(cart, id) <==> l in cart && l.id != id
  {
    if |cart| > 0 {
      RemoveMembers(cart[1..], id);
      assert cart == [cart[0]] + cart[1..];
    }
  }

  /** Removing an id that is not in the cart gives back the very same cart. */
  lemma {:induction false} RemoveAbsent(cart: Cart, id: int)
    requires !HasId(cart, id)
    ensures Remove(cart, id) == cart
  {
    if |cart| > 0 {
      assert !HasId(cart[1..], id) by {
        forall j | 0 <= j < |cart[1..]|
          ensures cart[1..][j].id != id
        {
          assert cart[1..][j] == cart[j + 1];
        }
      }
      RemoveAbsent(cart[1..], id);
      assert cart == [cart[0]] + cart[1..];
    }
  }

  /** Removing the same id twice is removing it once. */
  lemma RemoveIdempotent(cart: Cart, id: int)
    ensures Remove(Remove(cart, id), id) == Remove(cart, id)
  {
    RemoveAbsent(Remove(cart, id), id);
  }

  /** Removal is a filter: it works piecewise on a split cart, so order is kept. */
  lemma {:induction false} RemoveConcat(a: Cart, b: Cart, id: int)
    ensures Remove(a + b, id) == Remove(a, id) + Remove(b, id)
  {
    if |a| == 0 {
      assert a + b == b;
    } else {
      assert (a + b)[1..] == a[1..] + b;
      RemoveConcat(a[1..], b, id);
    }
  }

  /** No line of `cart` carries `id`. */
  lemma NoIdInSlice(cart: Cart, lo: nat, hi: nat, id: int)
    requires lo <= hi <= |cart|
    requires forall j :: lo <= j < hi ==> cart[j].id != id
    ensures !HasId(cart[lo..hi], id)
  {
    var s := cart[lo..hi];
    forall j | 0 <= j < |s|
      ensures s[j].id != id
    {
      assert s[j] == cart[lo + j];
    }
  }

  /** Removing the id of the one line between two id-free pieces leaves the two pieces. */
  lemma {:induction false} RemoveMiddle(front: Cart, x: Line, back: Cart, id: int)
    requires !HasId(front, id) && !HasId(back, id) && x.id == id
    ensures Remove(front + [x] + back, id) == front + back
  {
    if |front| == 0 {
      assert front + [x] + back == [x] + back;
      assert ([x] + back)[1..] == back;
      RemoveAbsent(back, id);
    } else {
      var rest := front[1..];
      assert !HasId(rest, id) by {
        forall j | 0 <= j < |rest|
          ensures rest[j].id != id
        {
          assert rest[j] == front[j + 1];
        }
      }
      assert (front + [x] + back)[1..] == rest + [x] + back;
      RemoveMiddle(rest, x, back, id);
      assert front + back == [front[0]] + (rest + back);
    }
  }

  /** In a cart with unique ids, removal cuts out exactly the one line with that id. */
  lemma RemoveOne(cart: Cart, id: int, i: nat)
    requires UniqueIds(cart) && FirstWithId(cart, id) == Some(i)
    ensures Remove(cart, id) == cart[..i] + cart[i + 1..]
  {
    var front, back := cart[..i], cart[i + 1..];
    assert cart == front + [cart[i]] + back;
    NoIdInSlice(cart, 0, i, id);
    NoIdInSlice(cart, i + 1, |cart|, id);
    RemoveMiddle(front, cart[i], back, id);
  }

  /**
   * The "−" button: a line with quantity above 1 loses one unit, any other
   * line is removed (and an absent id removes nothing).
   */
  function MinusClick(cart: Cart, id: int): (r: Cart)
    ensures !HasId(cart, id) ==> r == cart
    ensures HasId(cart, id) ==>
              var i := FirstWithId(cart, id).value;
              if cart[i].qty > 1 then OnlyQtyChanged(cart, r, i, cart[i].qty - 1)
              else r == Remove(cart, id)
  {
    match FirstWithId(cart, id)
    case Some(i) => if cart[i].qty > 1 then UpdateQty(cart, id, -1) else Remove(cart, id)
    case None => RemoveAbsent(cart, id); Remove(cart, id)
  }

  // ---- the cart invariant is kept by every operation ----

  lemma OnlyQtyChangedKeepsValid(before: Cart, after: Cart, i: nat, q: int)
    requires Valid(before) && OnlyQtyChanged(before, after, i, q) && q >= 1
    ensures Valid(after)
  {
  }

  lemma AddToCartKeepsValid(cart: Cart, p: Option<Product>)
    requires Valid(cart)
    ensures Valid(AddToCart(cart, p))
  {
    if Addable(p) && HasId(cart, p.value.id) {
      var i := FirstWithId(cart, p.value.id).value;
      OnlyQtyChangedKeepsValid(cart, AddToCart(cart, p), i, cart[i].qty + 1);
    }
  }

  /** A manual add keeps ids unique as long as the stamp it uses is not already an id. */
  lemma AddProductToCartKeepsValid(cart: Cart, name: string, price: nat, img: string, freshId: int)
    requires Valid(cart) && !HasId(cart, freshId)
    ensures Valid(AddProductToCart(cart, name, price, img, freshId))
  {
    match FirstWithName(cart, name)
    case Some(i) =>
      OnlyQtyChangedKeepsValid(cart, AddProductToCart(cart, name, price, img, freshId), i, cart[i].qty + 1);
    case None =>
  }

  lemma UpdateQtyKeepsValid(cart: Cart, id: int, delta: int)
    requires Valid(cart)
    ensures Valid(UpdateQty(cart, id, delta))
  {
    if HasId(cart, id) {
      var i := FirstWithId(cart, id).value;
      OnlyQtyChangedKeepsValid(cart, UpdateQty(cart, id, delta), i, AtLeastOne(cart[i].qty + delta));
    }
  }

  lemma {:induction false} RemoveKeepsValid(cart: Cart, id: int)
    requires Valid(cart)
    ensures Valid(Remove(cart, id))
  {
    if |cart| > 0 {
      var tail := cart[1..];
      assert Valid(tail) by {
        forall j | 0 <= j < |tail|
          ensures tail[j] == cart[j + 1]
        {
        }
      }
      RemoveKeepsValid(tail, id);
      if cart[0].id != id {
        assert !HasId(tail, cart[0].id);
        RemoveMembers(tail, id);
        ConsKeepsValid(cart[0], Remove(tail, id));
      }
    }
  }

  /** A line whose id is new may go in front of a valid cart. */
  lemma ConsKeepsValid(l: Line, cart: Cart)
    requires Valid(cart) && !HasId(cart, l.id) && l.qty >= 1
    ensures Valid([l] + cart)
  {
  }

  lemma MinusClickKeepsValid(cart: Cart, id: int)
    requires Valid(cart)
    ensures Valid(MinusClick(cart, id))
  {
    if HasId(cart, id) {
      var i := FirstWithId(cart, id).value;
      if cart[i].qty > 1 {
        OnlyQtyChangedKeepsValid(cart, MinusClick(cart, id), i, cart[i].qty - 1);
      } else {
        RemoveKeepsValid(cart, id);
      }
    }
  }

  // ---- repeated adds ----

  /** `n` clicks on the same product's add button. */
  function AddTimes(cart: Cart, p: Option<Product>, n: nat): Cart {
    if n == 0 then cart else AddToCart(AddTimes(cart, p, n - 1), p)
  }

  /**
   * Adding the same product `n >= 1` times to a cart that lacks its id gives
   * exactly one new line for it, at the end, with quantity `n`.
   */
  lemma {:induction false} AddTimesCounts(cart: Cart, p: Option<Product>, n: nat)
    requires Addable(p) && !HasId(cart, p.value.id) && n >= 1
    ensures var r := AddTimes(cart, p, n);
            && |r| == |cart| + 1
            && r[..|cart|] == cart
            && r[|cart|].id == p.value.id && r[|cart|].qty == n
            && forall j :: 0 <= j < |r| && r[j].id == p.value.id ==> j == |cart|
  {
    var id := p.value.id;
    if n == 1 {
      assert AddTimes(cart, p, 0) == cart;
    } else {
      AddTimesCounts(cart, p, n - 1);
      var prev := AddTimes(cart, p, n - 1);
      assert HasId(prev, id);
      var i := FirstWithId(prev, id).value;
      assert i == |cart|;
      var r := AddTimes(cart, p, n);
      assert OnlyQtyChanged(prev, r, i, prev[i].qty + 1);
      assert r[..|cart|] == prev[..|cart|];
    }
  }
}
