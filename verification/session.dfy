/**
 * The page as a whole: every user action is a command applied to the page
 * state.  A command that changes the cart is followed by `persist()`, which
 * stores the cart, recomputes the badge and re-renders the checkout table.
 */
module Session {
  import opened Wrappers
  import opened Products
  import opened CartStore
  import opened Totals
  import opened Coupon
  import opened Wizard

  /**
   * The page: the cart (which storage mirrors), the badge value, the
   * checkout view when the page has a checkout table, and the wizard.
   */
  datatype Page = Page(cart: Cart, badge: int, view: Option<View>, wizard: State)

  /** `persist()` after a change to `cart`. */
  function Persist(page: Page, cart: Cart): (p: Page)
    ensures p.cart == cart && p.badge == ItemCount(cart) && p.wizard == page.wizard
    ensures p.view.Some? <==> page.view.Some?
    ensures p.view.Some? ==> p.view.value == Project(cart)
  {
    Page(cart, ItemCount(cart), if page.view.Some? then Some(Project(cart)) else None, page.wizard)
  }

  /** Page load: the stored cart, its badge, its table on the checkout page, a fresh wizard. */
  function Load(stored: Cart, checkout: bool): (p: Page)
    ensures p.cart == stored && p.wizard == Start
    ensures p.view.Some? <==> checkout
    ensures Synced(p)
  {
    Page(stored, ItemCount(stored), if checkout then Some(Project(stored)) else None, Start)
  }

  /** The user actions the page reacts to. */
  datatype Command =
    | AddCard(key: string)                                       // a product card's buy button
    | AddManual(name: string, price: nat, img: string, stamp: int) // window.addProductToCart
    | SetQty(id: int, delta: int)                                // window.updateQty
    | RemoveLine(id: int)                                        // window.removeItem
    | Plus(id: int)                                              // "+" in the table
    | Minus(id: int)                                             // "−" in the table
    | Delete(id: int)                                            // "حذف" in the table
    | EnterCoupon(code: string)                                  // window.applyCoupon
    | Answer(step: int, value: string)                           // a wizard answer button
    | BuyRecommended                                             // the wizard's buy button

  /**
   * `addToCart(product)`: nothing at all happens without a product or with
   * id 0; otherwise the cart changes and is persisted.
   */
  function AddOp(page: Page, p: Option<Product>): (r: Page)
    ensures !Addable(p) ==> r == page
    ensures Addable(p) ==> r.cart == AddToCart(page.cart, p) && Synced(r) && r.wizard == page.wizard
    ensures r.view.Some? <==> page.view.Some?
  {
    if Addable(p) then Persist(page, AddToCart(page.cart, p)) else page
  }

  /**
   * `updateQty(id, delta)`: returns before `persist()` when no line has the
   * id, so a page out of sync stays out of sync.
   */
  function UpdateQtyOp(page: Page, id: int, delta: int): (r: Page)
    ensures !HasId(page.cart, id) ==> r == page
    ensures HasId(page.cart, id) ==> r.cart == UpdateQty(page.cart, id, delta) && Synced(r)
    ensures r.wizard == page.wizard && (r.view.Some? <==> page.view.Some?)
  {
    if HasId(page.cart, id) then Persist(page, UpdateQty(page.cart, id, delta)) else page
  }

  /** `removeItem(id)`: always persists, so the page is in sync afterwards even when nothing was removed. */
  function RemoveOp(page: Page, id: int): (r: Page)
    ensures r.cart == Remove(page.cart, id) && !HasId(r.cart, id)
    ensures Synced(r)
    ensures r.wizard == page.wizard && (r.view.Some? <==> page.view.Some?)
  {
    Persist(page, Remove(page.cart, id))
  }

  /**
   * The "−" button: `updateQty(id, -1)` on a line above 1, `removeItem(id)`
   * otherwise; the resulting cart is the cart-level policy `MinusClick`,
   * and the page ends in sync with it.
   */
  function MinusOp(page: Page, id: int): (r: Page)
    ensures r.cart == MinusClick(page.cart, id)
    ensures Synced(r)
    ensures r.wizard == page.wizard && (r.view.Some? <==> page.view.Some?)
  {
    match FirstWithId(page.cart, id)
    case Some(i) => if page.cart[i].qty > 1 then UpdateQtyOp(page, id, -1) else RemoveOp(page, id)
    case None => RemoveAbsent(page.cart, id); RemoveOp(page, id)
  }

  /**
   * The coupon never touches the cart, the badge, the table rows or the
   * wizard; an accepted code replaces only the total figure.
   */
  function CouponOp(page: Page, code: string): (p: Page)
    ensures p.cart == page.cart && p.badge == page.badge && p.wizard == page.wizard
    ensures p.view.Some? <==> page.view.Some?
    ensures p.view.Some? ==> p.view.value.body == page.view.value.body
    ensures p.view.Some? && ApplyCoupon(code, page.cart).Discounted? ==>
              p.view.value.total == ApplyCoupon(code, page.cart).total
    ensures !ApplyCoupon(code, page.cart).Discounted? ==> p == page
  {
    match ApplyCoupon(code, page.cart)
    case Discounted(t) => if page.view.Some? then page.(view := Some(page.view.value.(total := t))) else page
    case _ => page
  }

  /**
   * One user action.  Whenever it changes the cart, storage, badge and view
   * follow the new cart; apart from the coupon no action leaves a synced
   * page out of sync; the coupon and the wizard's answers leave the cart
   * alone, and only the answers touch the wizard.
   */
  function Step(c: Catalog, page: Page, cmd: Command): (r: Page)
    ensures r.cart != page.cart ==> Synced(r)
    ensures Synced(page) && !cmd.EnterCoupon? ==> Synced(r)
    ensures cmd.EnterCoupon? || cmd.Answer? ==> r.cart == page.cart && r.badge == page.badge
    ensures !cmd.Answer? ==> r.wizard == page.wizard
  {
    match cmd
    case AddCard(key) => AddOp(page, Lookup(c, key))
    case AddManual(name, price, img, stamp) => Persist(page, AddProductToCart(page.cart, name, price, img, stamp))
    case SetQty(id, delta) => UpdateQtyOp(page, id, delta)
    case RemoveLine(id) => RemoveOp(page, id)
    case Plus(id) => UpdateQtyOp(page, id, 1)
    case Minus(id) => MinusOp(page, id)
    case Delete(id) => RemoveOp(page, id)
    case EnterCoupon(code) => CouponOp(page, code)
    case Answer(step, value) => page.(wizard := OnAnswer(page.wizard, c, step, value))
    case BuyRecommended => if page.wizard.lastProduct.Some? then AddOp(page, page.wizard.lastProduct) else page
  }

  /** A sequence of user actions, first to last. */
  function Run(c: Catalog, page: Page, cmds: seq<Command>): Page
    decreases |cmds|
  {
    if |cmds| == 0 then page else Run(c, Step(c, page, cmds[0]), cmds[1..])
  }

  // ---- what the page keeps true ----

  /** Badge and view show the cart exactly. */
  predicate Synced(page: Page) {
    && page.badge == ItemCount(page.cart)
    && (page.view.Some? ==> page.view.value == Project(page.cart))
  }

  /** Badge and table rows show the cart; the total figure may carry a coupon discount. */
  predicate Consistent(page: Page) {
    && page.badge == ItemCount(page.cart)
    && (page.view.Some? ==> page.view.value.body == Project(page.cart).body)
  }

  /** The cart invariant plus a consistent display. */
  predicate Inv(page: Page) {
    Valid(page.cart) && Consistent(page)
  }

  /** The stamp a manual add would use is not yet an id in the cart. */
  predicate FreshStamp(page: Page, cmd: Command) {
    cmd.AddManual? ==> !HasId(page.cart, cmd.stamp)
  }

  /** Every manual add of a run uses a stamp that is fresh at its turn. */
  predicate FreshRun(c: Catalog, page: Page, cmds: seq<Command>)
    decreases |cmds|
  {
    |cmds| == 0 || (FreshStamp(page, cmds[0]) && FreshRun(c, Step(c, page, cmds[0]), cmds[1..]))
  }

  /** Every single action keeps the cart valid and the display consistent. */
  lemma StepKeepsInv(c: Catalog, page: Page, cmd: Command)
    requires Inv(page) && FreshStamp(page, cmd)
    ensures Inv(Step(c, page, cmd))
  {
    var cart := page.cart;
    match cmd
    case AddCard(key) => AddToCartKeepsValid(cart, Lookup(c, key));
    case AddManual(name, price, img, stamp) => AddProductToCartKeepsValid(cart, name, price, img, stamp);
    case SetQty(id, delta) => UpdateQtyKeepsValid(cart, id, delta);
    case RemoveLine(id) => RemoveKeepsValid(cart, id);
    case Plus(id) => UpdateQtyKeepsValid(cart, id, 1);
    case Minus(id) => MinusClickKeepsValid(cart, id);
    case Delete(id) => RemoveKeepsValid(cart, id);
    case EnterCoupon(code) =>
    case Answer(step, value) =>
    case BuyRecommended => AddToCartKeepsValid(cart, page.wizard.lastProduct);
  }

  /** A whole run of actions keeps the invariant: no stored quantity ever drops below 1. */
  lemma {:induction false} RunKeepsInv(c: Catalog, page: Page, cmds: seq<Command>)
    requires Inv(page) && FreshRun(c, page, cmds)
    ensures Inv(Run(c, page, cmds))
    ensures QtyPositive(Run(c, page, cmds).cart)
    decreases |cmds|
  {
    if |cmds| > 0 {
      StepKeepsInv(c, page, cmds[0]);
      RunKeepsInv(c, Step(c, page, cmds[0]), cmds[1..]);
    }
  }

  /**
   * With the catalog record staged, the wizard's buy button adds the staged
   * product exactly as that product's card would.
   */
  lemma BuyIsCardAdd(c: Catalog, page: Page, key: string)
    requires key in c.entries && page.wizard.lastProduct == Some(c.entries[key])
    ensures Step(c, page, BuyRecommended) == Step(c, page, AddCard(key))
  {
  }

  /**
   * From an empty checkout page: add product 1 (price 50) twice, take one
   * off with `updateQty(1, -1)`, then click "−" on the last unit.
   */
  lemma AddAddDecrementRemove(img: string, desc: string)
    ensures var c := Catalog(["1"], map["1" := Product(1, "X", 50, img, desc)]);
            var p3 := Run(c, Load([], true), [AddCard("1"), AddCard("1"), SetQty(1, -1)]);
            var p4 := Step(c, p3, Minus(1));
            && p3.cart == [Line(1, "X", 50, img, 1)]
            && p3.badge == 1
            && p3.view == Some(View(Rows([Row(1, "X", img, 1, 50, 50)]), 50))
            && p4.cart == [] && p4.badge == 0
            && p4.view == Some(View(EmptyNotice, 0))
  {
    var c := Catalog(["1"], map["1" := Product(1, "X", 50, img, desc)]);
    var prod := Some(Product(1, "X", 50, img, desc));
    assert Lookup(c, "1") == prod;
    var p0 := Load([], true);
    var p1 := Step(c, p0, AddCard("1"));
    assert p1.cart == [Line(1, "X", 50, img, 1)];
    var p2 := Step(c, p1, AddCard("1"));
    assert FirstWithId(p1.cart, 1) == Some(0);
    assert p2.cart == [Line(1, "X", 50, img, 2)];
    var p3 := Step(c, p2, SetQty(1, -1));
    assert FirstWithId(p2.cart, 1) == Some(0);
    assert p3.cart == [Line(1, "X", 50, img, 1)];
    assert ItemCount(p3.cart) == 1 by { SumSingle(p3.cart[0], LineQty); }
    assert GrandTotal(p3.cart) == 50 by { SumSingle(p3.cart[0], Subtotal); }
    assert p3.view == Some(Project(p3.cart));
    assert Project(p3.cart).body.rows == [Row(1, "X", img, 1, 50, 50)];
    var cmds := [AddCard("1"), AddCard("1"), SetQty(1, -1)];
    assert Run(c, p0, cmds) == p3 by {
      assert cmds[1..] == [AddCard("1"), SetQty(1, -1)];
      assert cmds[1..][1..] == [SetQty(1, -1)];
      assert cmds[1..][1..][1..] == [];
    }
    var p4 := Step(c, p3, Minus(1));
    assert FirstWithId(p3.cart, 1) == Some(0);
    assert p4.cart == Remove(p3.cart, 1);
    assert p4.cart == [] by {
      assert p3.cart[1..] == [];
    }
    assert p4.view == Some(Project([]));
    assert p4.badge == 0;
  }
}
