/**
 The page state of the store front: the in-memory cart and order history and
 the two keys of the browser's key-value store they are saved under.
 */
module Storefront {
  import opened Cart

  /** What reading a key yields: an absent key reads as the empty list. */
  function Loaded<T>(stored: Option<seq<T>>): seq<T>
  {
    match stored
    case None => []
    case Some(v) => v
  }

  class Shop {
    var cart: seq<CartItem>
    var orders: seq<Order>
    /** The last value written under the key `cart` (None: never written). */
    ghost var savedCart: Option<seq<CartItem>>
    /** The last value written under the key `orders`. */
    ghost var savedOrders: Option<seq<Order>>

    /** Both collections as loaded at start; corrupt stored text is not modelled. */
    constructor (storedCart: Option<seq<CartItem>>, storedOrders: Option<seq<Order>>)
      ensures cart == Loaded(storedCart) && orders == Loaded(storedOrders)
      ensures savedCart == storedCart && savedOrders == storedOrders
    {
      cart := Loaded(storedCart);
      orders := Loaded(storedOrders);
      savedCart := storedCart;
      savedOrders := storedOrders;
    }

    /** Writes the whole cart under its key (the badge is `ItemCount(cart)`). */
    method SaveCart()
      modifies this
      ensures savedCart == Some(cart)
      ensures cart == old(cart) && orders == old(orders) && savedOrders == old(savedOrders)
    {
      savedCart := Some(cart);
    }

    /** Adds one unit of a product: merged into its line if present, else appended. */
    method AddToCart(id: int, title: string, price: int, image: string)
      modifies this
      ensures cart == AddItem(old(cart), id, title, price, image)
      ensures savedCart == Some(cart)
      ensures WellFormed(old(cart)) ==> WellFormed(cart)
      ensures ItemCount(cart) == ItemCount(old(cart)) + 1
      ensures orders == old(orders) && savedOrders == old(savedOrders)
    {
      ghost var before := cart;
      var found := Find(cart, id);
      if found.Some? {
        var i := found.value;
        var item := cart[i];
        cart := cart[i := item.(quantity := item.quantity + 1)];
      } else {
        cart := cart + [CartItem(id, title, price, image, 1)];
      }
      SaveCart();
      AddItemSums(before, id, title, price, image);
      if WellFormed(before) {
        AddItemWellFormed(before, id, title, price, image);
      }
    }

    /** Drops every line carrying `id` and saves, even when there was none. */
    method RemoveItem(id: int)
      modifies this
      ensures cart == Without(old(cart), id)
      ensures savedCart == Some(cart)
      ensures Lacks(old(cart), id) ==> cart == old(cart)
      ensures WellFormed(old(cart)) ==> WellFormed(cart)
      ensures orders == old(orders) && savedOrders == old(savedOrders)
    {
      ghost var before := cart;
      cart := FilterOut(cart, id);
      SaveCart();
      if Lacks(before, id) {
        WithoutAbsent(before, id);
      }
      if WellFormed(before) {
        WithoutWellFormed(before, id);
      }
    }

    /** Adds a signed `change` to the line with `id`; a line that reaches zero or
        below is removed. An absent id changes nothing and writes nothing. */
    method UpdateQuantity(id: int, change: int)
      modifies this
      ensures cart == ChangeQuantity(old(cart), id, change)
      ensures Lacks(old(cart), id) ==> cart == old(cart) && savedCart == old(savedCart)
      ensures !Lacks(old(cart), id) ==> savedCart == Some(cart)
      ensures WellFormed(old(cart)) ==> WellFormed(cart)
      ensures orders == old(orders) && savedOrders == old(savedOrders)
    {
      ghost var before := cart;
      var found := Find(cart, id);
      if found.Some? {
        var i := found.value;
        var item := cart[i];
        var updated := item.(quantity := item.quantity + change);
        cart := cart[i := updated];
        if updated.quantity <= 0 {
          WithoutIgnoresUpdate(before, i, updated);
          RemoveItem(id);
        } else {
          SaveCart();
        }
      }
      if WellFormed(before) {
        ChangeQuantityWellFormed(before, id, change);
      }
    }

    /** The confirmed "clear cart" button: the cart becomes empty and is saved. */
    method ClearCart()
      modifies this
      ensures cart == [] && savedCart == Some([])
      ensures orders == old(orders) && savedOrders == old(savedOrders)
    {
      cart := [];
      SaveCart();
    }

    /** Places an order from a non-empty cart: appends one snapshot with the cart's
        total, saves the history, then empties and saves the cart. An empty cart
        changes nothing and yields None. */
    method Checkout(orderId: int, date: string) returns (placed: Option<Order>)
      modifies this
      ensures old(cart) == [] ==> placed.None? && cart == old(cart) && orders == old(orders)
      ensures old(cart) == [] ==> savedCart == old(savedCart) && savedOrders == old(savedOrders)
      ensures old(cart) != [] ==> placed == Some(Order(orderId, date, old(cart), Total(old(cart))))
      ensures old(cart) != [] ==> orders == old(orders) + [placed.value]
      ensures old(cart) != [] ==> cart == [] && savedCart == Some([]) && savedOrders == Some(orders)
    {
      if |cart| == 0 {
        return None;
      }
      var order := Order(orderId, date, cart, Total(cart));
      orders := orders + [order];
      savedOrders := Some(orders);
      cart := [];
      SaveCart();
      placed := Some(order);
    }

    /** Lists the orders newest first by reversing the in-memory history in place;
        the saved history keeps its chronological order. */
    method RenderOrders() returns (listing: seq<Order>)
      modifies this`orders
      ensures orders == Reversed(old(orders)) && listing == orders
      ensures cart == old(cart) && savedCart == old(savedCart) && savedOrders == old(savedOrders)
    {
      if |orders| == 0 {
        return [];
      }
      orders := Reverse(orders);
      listing := orders;
    }
  }

  /** `Array.prototype.reverse`: swaps the two ends pairwise towards the middle. */
  method Reverse(s: seq<Order>) returns (r: seq<Order>)
    ensures r == Reversed(s)
  {
    var n, i := |s|, 0;
    r := s;
    while i < n / 2
      invariant 0 <= i <= n / 2 && |r| == n
      invariant forall k :: 0 <= k < i ==> r[k] == s[n - 1 - k]
      invariant forall k :: n - i <= k < n ==> r[k] == s[n - 1 - k]
      invariant forall k :: i <= k < n - i ==> r[k] == s[k]
    {
      var j := n - 1 - i;
      r := r[i := r[j]][j := r[i]];
      i := i + 1;
    }
    ReversedMatches(s, r);
  }
}
