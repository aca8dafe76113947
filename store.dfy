/**
  The page's cart store. The browser's storage key "cart" becomes the field
  `stored`: `None` while the key is absent, `Some(items)` once a cart has been
  saved. Each operation reads the cart, changes its own copy step by step as
  the page script does (find, replace the found line, push, filter), and
  writes the whole cart back. The page script mutates the found object
  through the array's reference; here the line is replaced in a sequence value. The render operations only read it and compute the figures
  the page displays.
*/
module Store {
  import opened Options
  import opened Cart
  import opened Totals

  /** `cart.find(i => i.id === id)`: scan from the front and stop at the first match. */
  method FindFirst(cart: seq<Item>, id: string) returns (k: Option<nat>)
    ensures k == Find(cart, id)
  {
    var i := 0;
    while i < |cart|
      invariant 0 <= i <= |cart|
      invariant forall j :: 0 <= j < i ==> cart[j].id != id
    {
      if cart[i].id == id {
        return Some(i);
      }
      i := i + 1;
    }
    return None;
  }

  class CartStore {
    var stored: Option<seq<Item>>

    /** A page with nothing saved yet. */
    constructor ()
      ensures stored == None && GetCart() == []
    {
      stored := None;
    }

    /** `getCart`: the saved cart, or the empty cart when nothing is saved. */
    function GetCart(): (cart: seq<Item>)
      reads this
      ensures stored.None? ==> cart == []
      ensures stored.Some? ==> cart == stored.value
    {
      match stored
      case None => []
      case Some(c) => c
    }

    /** `saveCart`: the given cart becomes the saved one and is what `getCart` returns next. */
    method SaveCart(cart: seq<Item>)
      modifies this
      ensures stored == Some(cart) && GetCart() == cart
    {
      stored := Some(cart);
    }

    /** The add-to-cart click handler, from reading the cart to saving it. */
    method AddToCart(id: string, name: string, price: int)
      modifies this
      ensures GetCart() == Add(old(GetCart()), id, name, price)
      ensures stored.Some?
      ensures Count(GetCart()) == Count(old(GetCart())) + 1
      ensures ValidCart(old(GetCart())) ==> ValidCart(GetCart())
    {
      var cart := GetCart();
      var existing := FindFirst(cart, id);
      if existing.Some? {
        var k := existing.value;
        cart := cart[k := cart[k].(qty := cart[k].qty + 1)];
      } else {
        cart := cart + [NewItem(id, name, price)];
      }
      SaveCart(cart);
      AddCount(old(GetCart()), id, name, price);
      if ValidCart(old(GetCart())) {
        AddValid(old(GetCart()), id, name, price);
      }
    }

    /**
      `changeQty`: on an absent id it returns before saving, so the storage is
      untouched; otherwise it saves the changed cart.
    */
    method ChangeQty(id: string, delta: int)
      modifies this
      ensures Find(old(GetCart()), id).None? ==> stored == old(stored)
      ensures Find(old(GetCart()), id).Some? ==> stored == Some(Cart.ChangeQty(old(GetCart()), id, delta))
      ensures ValidCart(old(GetCart())) ==> ValidCart(GetCart())
    {
      var cart := GetCart();
      var item := FindFirst(cart, id);
      if item.None? {
        return;
      }
      var k := item.value;
      cart := cart[k := cart[k].(qty := cart[k].qty + delta)];
      if cart[k].qty <= 0 {
        cart := Remove(cart, id);
        RemoveIgnoresDropped(old(GetCart()), k, old(GetCart())[k].(qty := old(GetCart())[k].qty + delta), id);
      }
      SaveCart(cart);
      if ValidCart(old(GetCart())) {
        ChangeQtyValid(old(GetCart()), id, delta);
      }
    }

    /** `removeItem`: save the cart filtered of every item with that id. */
    method RemoveItem(id: string)
      modifies this
      ensures stored == Some(Remove(old(GetCart()), id))
      ensures Find(GetCart(), id).None?
      ensures ValidCart(old(GetCart())) ==> ValidCart(GetCart())
    {
      var cart := Remove(GetCart(), id);
      SaveCart(cart);
      RemoveGone(old(GetCart()), id);
      if ValidCart(old(GetCart())) {
        RemoveValid(old(GetCart()), id);
      }
    }

    /** The total `renderCart` writes: 0 for the empty cart, otherwise the running sum of `price * qty`. */
    method RenderCart() returns (total: int)
      ensures total == Subtotal(GetCart())
      ensures GetCart() == [] ==> total == 0
    {
      var cart := GetCart();
      total := 0;
      if |cart| == 0 {
        return;
      }
      var i := 0;
      while i < |cart|
        invariant 0 <= i <= |cart|
        invariant total == Subtotal(cart[..i])
      {
        assert cart[..i + 1][..i] == cart[..i];
        total := total + LineTotal(cart[i]);
        i := i + 1;
      }
      assert cart[..|cart|] == cart;
    }

    /** The three figures `renderCheckout` writes: subtotal, shipping fee and grand total. */
    method RenderCheckout() returns (subtotal: int, shipping: int, grandTotal: int)
      ensures subtotal == Subtotal(GetCart())
      ensures shipping == Shipping(TotalWeight(GetCart()))
      ensures grandTotal == subtotal + shipping == GrandTotal(GetCart())
    {
      var cart := GetCart();
      subtotal := 0;
      var totalWeight := 0.0;
      var i := 0;
      while i < |cart|
        invariant 0 <= i <= |cart|
        invariant subtotal == Subtotal(cart[..i])
        invariant totalWeight == TotalWeight(cart[..i])
      {
        assert cart[..i + 1][..i] == cart[..i];
        subtotal := subtotal + LineTotal(cart[i]);
        totalWeight := totalWeight + LineWeight(cart[i]);
        i := i + 1;
      }
      assert cart[..|cart|] == cart;

      if totalWeight <= 2.0 {
        shipping := 40;
      } else if totalWeight <= 5.0 {
        shipping := 70;
      } else if totalWeight <= 10.0 {
        shipping := 120;
      } else {
        shipping := 0;
      }
      grandTotal := subtotal + shipping;
    }
  }
}
