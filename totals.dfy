/**
  Quantities derived from a cart: the badge count, the cart and checkout
  subtotal, the total weight, the tiered shipping fee and the grand total.
  The sums are left folds, the order in which `reduce` and `forEach` visit the items.
*/
module Totals {
  import opened Options
  import opened Cart

  /** `item.price * item.qty`, one line of the cart total. */
  function LineTotal(x: Item): int {
    x.price * x.qty
  }

  /** `(item.weight || 0) * item.qty`; an absent weight is already 0 in `Item`. */
  function LineWeight(x: Item): real {
    x.weight * (x.qty as real)
  }

  /** The badge count: the sum of all quantities. */
  function Count(c: seq<Item>): int {
    if c == [] then 0 else Count(c[..|c| - 1]) + c[|c| - 1].qty
  }

  /** The cart total, also the checkout subtotal: the sum of `price * qty`. */
  function Subtotal(c: seq<Item>): int {
    if c == [] then 0 else Subtotal(c[..|c| - 1]) + LineTotal(c[|c| - 1])
  }

  /** The checkout's total weight: the sum of `weight * qty`. */
  function TotalWeight(c: seq<Item>): real {
    if c == [] then 0.0 else TotalWeight(c[..|c| - 1]) + LineWeight(c[|c| - 1])
  }

  /**
    The shipping rule: 40 up to weight 2, 70 up to 5, 120 up to 10, and 0 above 10.
    The fee never exceeds 120, and above 10 it is 0.
  */
  function Shipping(w: real): (fee: int)
    ensures fee == 40 || fee == 70 || fee == 120 || fee == 0
    ensures fee == 0 <==> w > 10.0
  {
    if w <= 2.0 then 40
    else if w <= 5.0 then 70
    else if w <= 10.0 then 120
    else 0
  }

  /** What the checkout shows as the grand total. */
  function GrandTotal(c: seq<Item>): int {
    Subtotal(c) + Shipping(TotalWeight(c))
  }

  // ---------------------------------------------------------------------
  // Sums over concatenations and single-position updates

  lemma {:induction false} CountConcat(a: seq<Item>, b: seq<Item>)
    ensures Count(a + b) == Count(a) + Count(b)
  {
    if b == [] {
      assert a + b == a;
    } else {
      assert (a + b)[..|a + b| - 1] == a + b[..|b| - 1];
      CountConcat(a, b[..|b| - 1]);
    }
  }

  lemma {:induction false} SubtotalConcat(a: seq<Item>, b: seq<Item>)
    ensures Subtotal(a + b) == Subtotal(a) + Subtotal(b)
  {
    if b == [] {
      assert a + b == a;
    } else {
      assert (a + b)[..|a + b| - 1] == a + b[..|b| - 1];
      SubtotalConcat(a, b[..|b| - 1]);
    }
  }

  /** The count split around one line. */
  lemma CountSplit(c: seq<Item>, k: nat)
    requires k < |c|
    ensures Count(c) == Count(c[..k]) + c[k].qty + Count(c[k + 1..])
  {
    var before, after := c[..k], c[k + 1..];
    assert c == before + ([c[k]] + after);
    CountConcat(before, [c[k]] + after);
    CountConcat([c[k]], after);
    assert [c[k]][..0] == [];
  }

  /** The subtotal split around one line. */
  lemma SubtotalSplit(c: seq<Item>, k: nat)
    requires k < |c|
    ensures Subtotal(c) == Subtotal(c[..k]) + LineTotal(c[k]) + Subtotal(c[k + 1..])
  {
    var before, after := c[..k], c[k + 1..];
    assert c == before + ([c[k]] + after);
    SubtotalConcat(before, [c[k]] + after);
    SubtotalConcat([c[k]], after);
    assert [c[k]][..0] == [];
  }

  /** Replacing one line changes the count by the difference of the two quantities. */
  lemma CountUpdate(c: seq<Item>, k: nat, x: Item)
    requires k < |c|
    ensures Count(c[k := x]) == Count(c) - c[k].qty + x.qty
  {
    CountSplit(c, k);
    CountSplit(c[k := x], k);
    assert c[k := x][..k] == c[..k] && c[k := x][k + 1..] == c[k + 1..];
  }

  /** Replacing one line changes the subtotal by the difference of the two line totals. */
  lemma SubtotalUpdate(c: seq<Item>, k: nat, x: Item)
    requires k < |c|
    ensures Subtotal(c[k := x]) == Subtotal(c) - LineTotal(c[k]) + LineTotal(x)
  {
    SubtotalSplit(c, k);
    SubtotalSplit(c[k := x], k);
    assert c[k := x][..k] == c[..k] && c[k := x][k + 1..] == c[k + 1..];
  }

  /** Deleting one line takes its quantity off the count. */
  lemma CountDeleteAt(c: seq<Item>, k: nat)
    requires k < |c|
    ensures Count(c[..k] + c[k + 1..]) == Count(c) - c[k].qty
  {
    CountSplit(c, k);
    CountConcat(c[..k], c[k + 1..]);
  }

  // ---------------------------------------------------------------------
  // How the operations move the badge count and the total

  /** In a valid cart the badge shows at least one unit per line, so it is 0 only for the empty cart. */
  lemma {:induction false} CountAtLeastLines(c: seq<Item>)
    requires ValidCart(c)
    ensures Count(c) >= |c|
  {
    if c != [] {
      var p := c[..|c| - 1];
      assert forall i :: 0 <= i < |p| ==> p[i] == c[i];
      CountAtLeastLines(p);
    }
  }

  /** Every click on an add-to-cart button raises the badge count by exactly 1. */
  lemma AddCount(c: seq<Item>, id: string, name: string, price: int)
    ensures Count(Add(c, id, name, price)) == Count(c) + 1
  {
    match Find(c, id)
    case Some(k) =>
      CountUpdate(c, k, c[k].(qty := c[k].qty + 1));
    case None =>
      var r := Add(c, id, name, price);
      assert r[..|r| - 1] == c;
  }

  /** One more unit adds the line's unit price. */
  lemma LineTotalOneMore(x: Item)
    ensures LineTotal(x.(qty := x.qty + 1)) == LineTotal(x) + x.price
  {
    assert x.price * (x.qty + 1) == x.price * x.qty + x.price;
  }

  /**
    A click adds one unit at the price already stored for that id; only a new
    id is charged at the button's price.
  */
  lemma AddSubtotal(c: seq<Item>, id: string, name: string, price: int)
    ensures Subtotal(Add(c, id, name, price))
         == Subtotal(c) + match Find(c, id) case Some(k) => c[k].price case None => price
  {
    match Find(c, id)
    case Some(k) =>
      assert Add(c, id, name, price) == c[k := c[k].(qty := c[k].qty + 1)];
      SubtotalUpdate(c, k, c[k].(qty := c[k].qty + 1));
      LineTotalOneMore(c[k]);
    case None =>
      var r := Add(c, id, name, price);
      assert r[..|r| - 1] == c;
  }

  /** In a valid cart, `removeItem` takes the removed line's quantity off the badge (nothing if absent). */
  lemma RemoveCount(c: seq<Item>, id: string)
    requires ValidCart(c)
    ensures Count(Remove(c, id))
         == Count(c) - match Find(c, id) case Some(k) => c[k].qty case None => 0
  {
    match Find(c, id)
    case Some(k) =>
      RemoveUnique(c, id);
      CountDeleteAt(c, k);
    case None =>
      RemoveAbsent(c, id);
  }

  /**
    In a valid cart, `changeQty(id, delta)` moves the badge by `delta`, except
    that a line driven to zero or below only takes away the units it had.
  */
  lemma ChangeQtyCount(c: seq<Item>, id: string, delta: int)
    requires ValidCart(c)
    ensures Count(ChangeQty(c, id, delta)) == Count(c) +
      match Find(c, id)
      case None => 0
      case Some(k) => if c[k].qty + delta <= 0 then -c[k].qty else delta
  {
    match Find(c, id)
    case None =>
    case Some(k) =>
      if c[k].qty + delta <= 0 {
        assert ChangeQty(c, id, delta) == Remove(c, id);
        RemoveCount(c, id);
      } else {
        assert ChangeQty(c, id, delta) == c[k := c[k].(qty := c[k].qty + delta)];
        CountUpdate(c, k, c[k].(qty := c[k].qty + delta));
      }
  }

  // ---------------------------------------------------------------------
  // Weight, shipping and the grand total

  /** A cart whose items carry no weight weighs 0. */
  lemma {:induction false} WeightlessWeighsNothing(c: seq<Item>)
    requires Weightless(c)
    ensures TotalWeight(c) == 0.0
  {
    if c != [] {
      var p := c[..|c| - 1];
      assert forall i :: 0 <= i < |p| ==> p[i] == c[i];
      WeightlessWeighsNothing(p);
    }
  }

  /** Up to weight 10 a heavier order never ships for less. */
  lemma ShippingMonotoneUpToTen(w1: real, w2: real)
    requires w1 <= w2 <= 10.0
    ensures Shipping(w1) <= Shipping(w2)
  {
  }

  /**
    For any cart the page builds through clicks, quantity changes and removals,
    the total weight is 0, shipping is the first tier (40), and the grand total
    is the subtotal plus 40.
  */
  lemma ReplayCheckout(acts: seq<Action>)
    ensures TotalWeight(Replay(acts)) == 0.0
    ensures Shipping(TotalWeight(Replay(acts))) == 40
    ensures GrandTotal(Replay(acts)) == Subtotal(Replay(acts)) + 40
  {
    ReplayInvariant(acts);
    WeightlessWeighsNothing(Replay(acts));
  }
}
