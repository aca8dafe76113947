/**
  The shopping cart as a value: an ordered sequence of line items keyed by `id`,
  and the three operations the page applies to it (add-to-cart click,
  quantity change, removal). Every operation is total: it is defined for any
  sequence, including one with repeated ids, and then keeps the first-match
  behaviour of `Array.prototype.find` and the drop-all behaviour of `filter`.
*/
module Cart {
  import opened Options

  /** One line of the cart. `weight` is 0 unless the stored data carries one. */
  datatype Item = Item(id: string, name: string, price: int, qty: int, weight: real)

  /** The cart invariant the page relies on: ids are unique and every quantity is at least 1. */
  ghost predicate ValidCart(c: seq<Item>) {
    && (forall i, j :: 0 <= i < j < |c| ==> c[i].id != c[j].id)
    && (forall i :: 0 <= i < |c| ==> c[i].qty >= 1)
  }

  /** Every item carries weight 0, as every item the add handler creates does. */
  ghost predicate Weightless(c: seq<Item>) {
    forall i :: 0 <= i < |c| ==> c[i].weight == 0.0
  }

  /** The first position holding `id`, as `cart.find(i => i.id === id)` locates it. */
  function Find(c: seq<Item>, id: string): (r: Option<nat>)
    ensures r.Some? ==> r.value < |c| && c[r.value].id == id
    ensures r.Some? ==> forall j :: 0 <= j < r.value ==> c[j].id != id
    ensures r.None? <==> forall j :: 0 <= j < |c| ==> c[j].id != id
  {
    FindFrom(c, id, 0)
  }

  /** The first position at or after `i` holding `id`: the scan `find` performs, front to back. */
  function FindFrom(c: seq<Item>, id: string, i: nat): (r: Option<nat>)
    requires i <= |c|
    ensures r.Some? ==> i <= r.value < |c| && c[r.value].id == id
    ensures r.Some? ==> forall j :: i <= j < r.value ==> c[j].id != id
    ensures r.None? ==> forall j :: i <= j < |c| ==> c[j].id != id
    decreases |c| - i
  {
    if i == |c| then None
    else if c[i].id == id then Some(i)
    else FindFrom(c, id, i + 1)
  }

  /** The item a click on an add-to-cart button creates: quantity 1, no weight. */
  function NewItem(id: string, name: string, price: int): Item {
    Item(id, name, price, 1, 0.0)
  }

  /**
    The add-to-cart click: an item already present gets one more unit (the
    button's name and price are ignored), otherwise the button's product is
    appended with quantity 1.
  */
  function Add(c: seq<Item>, id: string, name: string, price: int): (r: seq<Item>)
    ensures Find(c, id).Some? ==>
      var k := Find(c, id).value;
      && |r| == |c|
      && r[k] == c[k].(qty := c[k].qty + 1)
      && forall j :: 0 <= j < |c| && j != k ==> r[j] == c[j]
    ensures Find(c, id).None? ==> r == c + [NewItem(id, name, price)]
  {
    match Find(c, id)
    case Some(k) => c[k := c[k].(qty := c[k].qty + 1)]
    case None => c + [NewItem(id, name, price)]
  }

  /** `removeItem`: keep exactly the items whose id differs, in their original order. */
  function Remove(c: seq<Item>, id: string): (r: seq<Item>)
    ensures |r| <= |c|
  {
    if c == [] then []
    else (if c[0].id == id then [] else [c[0]]) + Remove(c[1..], id)
  }

  /**
    `changeQty`: an absent id leaves the cart alone; otherwise the first item
    with that id has `delta` added to its quantity, and if that brings it to
    zero or below every item with that id is filtered out.
  */
  function ChangeQty(c: seq<Item>, id: string, delta: int): seq<Item> {
    match Find(c, id)
    case None => c
    case Some(k) =>
      var q := c[k].qty + delta;
      if q <= 0 then Remove(c, id) else c[k := c[k].(qty := q)]
  }

  // ---------------------------------------------------------------------
  // Find

  /** In a valid cart the item holding `id` is the one `Find` reports. */
  lemma FindUnique(c: seq<Item>, id: string, j: nat)
    requires ValidCart(c) && j < |c| && c[j].id == id
    ensures Find(c, id) == Some(j)
  {
  }

  /** `Find` looks only at ids: two carts with the same ids position by position agree. */
  lemma FindSameIds(c: seq<Item>, d: seq<Item>, id: string)
    requires |c| == |d|
    requires forall j :: 0 <= j < |c| ==> c[j].id == d[j].id
    ensures Find(c, id) == Find(d, id)
  {
    if Find(c, id).Some? {
      var k := Find(c, id).value;
      assert d[k].id == id;
    }
    if Find(d, id).Some? {
      var k := Find(d, id).value;
      assert c[k].id == id;
    }
  }

  // ---------------------------------------------------------------------
  // Remove

  /** Removing an id that is absent is the identity. */
  lemma {:induction false} RemoveAbsent(c: seq<Item>, id: string)
    requires Find(c, id).None?
    ensures Remove(c, id) == c
  {
    if c != [] {
      assert forall j :: 0 <= j < |c| - 1 ==> c[1..][j] == c[j + 1];
      RemoveAbsent(c[1..], id);
    }
  }

  /** The items `removeItem` keeps are exactly those of the cart whose id differs. */
  lemma {:induction false} RemoveMembers(c: seq<Item>, id: string)
    ensures forall x :: x in Remove(c, id) <==> x in c && x.id != id
  {
    if c != [] {
      RemoveMembers(c[1..], id);
      assert c == [c[0]] + c[1..];
    }
  }

  /** After `removeItem` no item carries the id. */
  lemma RemoveGone(c: seq<Item>, id: string)
    ensures Find(Remove(c, id), id).None?
  {
    var r := Remove(c, id);
    RemoveMembers(c, id);
    assert forall j :: 0 <= j < |r| ==> r[j] in r;
  }

  /** `removeItem` is idempotent. */
  lemma RemoveIdempotent(c: seq<Item>, id: string)
    ensures Remove(Remove(c, id), id) == Remove(c, id)
  {
    RemoveGone(c, id);
    RemoveAbsent(Remove(c, id), id);
  }

  /** Filtering distributes over concatenation, which is what "keeps the order" means. */
  lemma {:induction false} RemoveConcat(a: seq<Item>, b: seq<Item>, id: string)
    ensures Remove(a + b, id) == Remove(a, id) + Remove(b, id)
  {
    if a == [] {
      assert a + b == b;
    } else {
      assert (a + b)[1..] == a[1..] + b;
      RemoveConcat(a[1..], b, id);
    }
  }

  /** The filter does not look at items it drops: changing one of them does not change the result. */
  lemma RemoveIgnoresDropped(c: seq<Item>, k: nat, x: Item, id: string)
    requires k < |c| && c[k].id == id && x.id == id
    ensures Remove(c[k := x], id) == Remove(c, id)
  {
    assert c == c[..k] + ([c[k]] + c[k + 1..]);
    assert c[k := x] == c[..k] + ([x] + c[k + 1..]);
    RemoveConcat(c[..k], [c[k]] + c[k + 1..], id);
    RemoveConcat([c[k]], c[k + 1..], id);
    RemoveConcat(c[..k], [x] + c[k + 1..], id);
    RemoveConcat([x], c[k + 1..], id);
    assert [c[k]][1..] == [] && [x][1..] == [];
  }

  /** Nothing before the position `Find` reports carries the id. */
  lemma FindPrefixAbsent(c: seq<Item>, id: string)
    requires Find(c, id).Some?
    ensures Find(c[..Find(c, id).value], id).None?
  {
    var p := c[..Find(c, id).value];
    assert forall j :: 0 <= j < |p| ==> p[j] == c[j];
  }

  /** In a valid cart nothing after the position `Find` reports carries the id. */
  lemma FindSuffixAbsent(c: seq<Item>, id: string)
    requires ValidCart(c) && Find(c, id).Some?
    ensures Find(c[Find(c, id).value + 1..], id).None?
  {
    var k := Find(c, id).value;
    var s := c[k + 1..];
    assert forall j :: 0 <= j < |s| ==> s[j] == c[k + 1 + j];
  }

  /** The filter over a cart split around position `k`. */
  lemma RemoveAround(c: seq<Item>, k: nat, id: string)
    requires k < |c|
    ensures Remove(c, id)
         == Remove(c[..k], id) + (if c[k].id == id then [] else [c[k]]) + Remove(c[k + 1..], id)
  {
    var before, after := c[..k], c[k + 1..];
    assert c == before + ([c[k]] + after);
    RemoveConcat(before, [c[k]] + after, id);
    RemoveConcat([c[k]], after, id);
    assert [c[k]][1..] == [];
  }

  /** In a valid cart, removing a present id deletes exactly that one position. */
  lemma RemoveUnique(c: seq<Item>, id: string)
    requires ValidCart(c) && Find(c, id).Some?
    ensures var k := Find(c, id).value; Remove(c, id) == c[..k] + c[k + 1..]
  {
    var k := Find(c, id).value;
    calc {
      Remove(c, id);
    == { RemoveAround(c, k, id); }
      Remove(c[..k], id) + [] + Remove(c[k + 1..], id);
    == { FindPrefixAbsent(c, id); RemoveAbsent(c[..k], id); }
      c[..k] + [] + Remove(c[k + 1..], id);
    == { FindSuffixAbsent(c, id); RemoveAbsent(c[k + 1..], id); }
      c[..k] + [] + c[k + 1..];
    == { assert c[..k] + [] == c[..k]; }
      c[..k] + c[k + 1..];
    }
  }

  /** Deleting one position of a valid cart leaves a valid cart. */
  lemma DeleteAtValid(c: seq<Item>, k: nat)
    requires ValidCart(c) && k < |c|
    ensures ValidCart(c[..k] + c[k + 1..])
  {
    var r := c[..k] + c[k + 1..];
    assert forall i :: 0 <= i < |r| ==> r[i] == c[if i < k then i else i + 1];
  }

  /** `removeItem` keeps a valid cart valid. */
  lemma RemoveValid(c: seq<Item>, id: string)
    requires ValidCart(c)
    ensures ValidCart(Remove(c, id))
  {
    if Find(c, id).None? {
      RemoveAbsent(c, id);
    } else {
      RemoveUnique(c, id);
      DeleteAtValid(c, Find(c, id).value);
    }
  }

  // ---------------------------------------------------------------------
  // Add

  /** Adding keeps ids unique and quantities at least 1; afterwards the id is present. */
  lemma AddValid(c: seq<Item>, id: string, name: string, price: int)
    requires ValidCart(c)
    ensures ValidCart(Add(c, id, name, price))
    ensures Find(Add(c, id, name, price), id).Some?
  {
    var r := Add(c, id, name, price);
    if Find(c, id).None? {
      assert r[|c|].id == id;
    } else {
      assert r[Find(c, id).value].id == id;
    }
  }

  /** Clicking the same product twice on a cart without it stores one line of quantity 2. */
  lemma AddTwice(c: seq<Item>, id: string, name: string, price: int, name': string, price': int)
    requires Find(c, id).None?
    ensures Add(Add(c, id, name, price), id, name', price') == c + [NewItem(id, name, price).(qty := 2)]
  {
    var c1 := Add(c, id, name, price);
    assert c1[|c|].id == id;
    assert Find(c1, id) == Some(|c|);
  }

  /** On an item already present, a click is `changeQty(id, 1)` (for any non-negative quantity). */
  lemma AddExistingIsChangeQty(c: seq<Item>, id: string, name: string, price: int)
    requires Find(c, id).Some? && c[Find(c, id).value].qty >= 0
    ensures Add(c, id, name, price) == ChangeQty(c, id, 1)
  {
  }

  // ---------------------------------------------------------------------
  // ChangeQty

  /** For every integer `delta`, changing a quantity keeps a valid cart valid. */
  lemma ChangeQtyValid(c: seq<Item>, id: string, delta: int)
    requires ValidCart(c)
    ensures ValidCart(ChangeQty(c, id, delta))
  {
    if Find(c, id).Some? && c[Find(c, id).value].qty + delta <= 0 {
      RemoveValid(c, id);
    }
  }

  /** A change that brings the quantity to zero or below is `removeItem`: no item with that id is left. */
  lemma ChangeQtyToZeroRemoves(c: seq<Item>, id: string, delta: int)
    requires Find(c, id).Some? && c[Find(c, id).value].qty + delta <= 0
    ensures ChangeQty(c, id, delta) == Remove(c, id)
    ensures Find(ChangeQty(c, id, delta), id).None?
  {
    RemoveGone(c, id);
  }

  /** Writing a position and then writing its old value back restores the cart. */
  lemma UpdateBack(c: seq<Item>, k: nat, x: Item)
    requires k < |c|
    ensures c[k := x][k := c[k]] == c
  {
  }

  /** `changeQty` on an id that is not in the cart changes nothing. */
  lemma ChangeQtyAbsent(c: seq<Item>, id: string, delta: int)
    requires Find(c, id).None?
    ensures ChangeQty(c, id, delta) == c
  {
  }

  /**
    A change that keeps the quantity positive rewrites that one line in place:
    same length, the line has quantity `qty + delta` and is otherwise the same,
    every other line is unchanged.
  */
  lemma ChangeQtyInPlace(c: seq<Item>, id: string, delta: int, k: nat)
    requires Find(c, id) == Some(k) && c[k].qty + delta > 0
    ensures ChangeQty(c, id, delta) == c[k := c[k].(qty := c[k].qty + delta)]
    ensures |ChangeQty(c, id, delta)| == |c|
    ensures ChangeQty(c, id, delta)[k].qty == c[k].qty + delta
    ensures forall j :: 0 <= j < |c| && j != k ==> ChangeQty(c, id, delta)[j] == c[j]
  {
  }

  /** A change that keeps the quantity positive is undone by the opposite change. */
  lemma ChangeQtyUndo(c: seq<Item>, id: string, delta: int)
    requires Find(c, id).Some?
    requires c[Find(c, id).value].qty >= 1 && c[Find(c, id).value].qty + delta >= 1
    ensures ChangeQty(ChangeQty(c, id, delta), id, -delta) == c
  {
    var k := Find(c, id).value;
    var r := c[k := c[k].(qty := c[k].qty + delta)];
    ChangeQtyInPlace(c, id, delta, k);
    ChangeQtyRestore(c, r, id, -delta, k);
  }

  /** Setting a line back to its old quantity restores the cart the line came from. */
  lemma ChangeQtyRestore(c: seq<Item>, r: seq<Item>, id: string, delta: int, k: nat)
    requires Find(c, id) == Some(k) && c[k].qty >= 1
    requires r == c[k := c[k].(qty := c[k].qty - delta)]
    ensures ChangeQty(r, id, delta) == c
  {
    FindSameIds(c, r, id);
    ChangeQtyInPlace(r, id, delta, k);
    assert r[k].(qty := r[k].qty + delta) == c[k];
    UpdateBack(c, k, r[k]);
  }

  // ---------------------------------------------------------------------
  // Sequences of page actions

  /** A user action that changes the cart. */
  datatype Action =
    | AddAction(id: string, name: string, price: int)
    | ChangeAction(id: string, delta: int)
    | RemoveAction(id: string)

  function Apply(c: seq<Item>, a: Action): seq<Item> {
    match a
    case AddAction(id, name, price) => Add(c, id, name, price)
    case ChangeAction(id, delta) => ChangeQty(c, id, delta)
    case RemoveAction(id) => Remove(c, id)
  }

  /** The cart after a session of actions, starting from an absent (empty) cart. */
  function Replay(acts: seq<Action>): seq<Item> {
    if acts == [] then [] else Apply(Replay(acts[..|acts| - 1]), acts[|acts| - 1])
  }

  /** Each action keeps the cart valid and weightless. */
  lemma ApplyInvariant(c: seq<Item>, a: Action)
    requires ValidCart(c) && Weightless(c)
    ensures ValidCart(Apply(c, a)) && Weightless(Apply(c, a))
  {
    match a
    case AddAction(id, name, price) =>
      AddValid(c, id, name, price);
    case ChangeAction(id, delta) =>
      ChangeQtyValid(c, id, delta);
      if Find(c, id).Some? && c[Find(c, id).value].qty + delta <= 0 {
        var r := Remove(c, id);
        RemoveMembers(c, id);
        assert forall i :: 0 <= i < |r| ==> r[i] in r;
      }
    case RemoveAction(id) =>
      RemoveValid(c, id);
      var r := Remove(c, id);
      RemoveMembers(c, id);
      assert forall i :: 0 <= i < |r| ==> r[i] in r;
  }

  /** Any cart the page builds by add/changeQty/remove is valid and has no weight. */
  lemma {:induction false} ReplayInvariant(acts: seq<Action>)
    ensures ValidCart(Replay(acts)) && Weightless(Replay(acts))
  {
    if acts != [] {
      ReplayInvariant(acts[..|acts| - 1]);
      ApplyInvariant(Replay(acts[..|acts| - 1]), acts[|acts| - 1]);
    }
  }
}
