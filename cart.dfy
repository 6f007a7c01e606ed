/**
 The values of the store front (cart lines and placed orders) and the pure
 functions that say how a cart changes. Prices are integer cents.
 */
module Cart {

  datatype Option<+T> = None | Some(value: T)

  /** One line of the cart. */
  datatype CartItem = CartItem(id: int, title: string, price: int, image: string, quantity: int)

  /** A placed order: a copy of the cart at checkout and its total in cents. */
  datatype Order = Order(id: int, date: string, items: seq<CartItem>, total: int)

  // ---------------------------------------------------------------------
  // Invariants of a cart
  // ---------------------------------------------------------------------

  /** No item of `c` carries `id`. */
  predicate Lacks(c: seq<CartItem>, id: int)
  {
    forall k :: 0 <= k < |c| ==> c[k].id != id
  }

  /** At most one item per product id. */
  predicate UniqueIds(c: seq<CartItem>)
  {
    forall i, j :: 0 <= i < j < |c| ==> c[i].id != c[j].id
  }

  /** Every line holds at least one unit. */
  predicate PositiveQuantities(c: seq<CartItem>)
  {
    forall k :: 0 <= k < |c| ==> c[k].quantity >= 1
  }

  predicate WellFormed(c: seq<CartItem>)
  {
    UniqueIds(c) && PositiveQuantities(c)
  }

  // ---------------------------------------------------------------------
  // Derived values (the two `reduce` expressions)
  // ---------------------------------------------------------------------

  /** The badge count: the sum of the quantities, folded from the left. */
  function ItemCount(c: seq<CartItem>): int
  {
    if c == [] then 0 else ItemCount(c[..|c| - 1]) + c[|c| - 1].quantity
  }

  /** The order total: the sum of price times quantity, folded from the left. */
  function Total(c: seq<CartItem>): int
  {
    if c == [] then 0 else Total(c[..|c| - 1]) + c[|c| - 1].price * c[|c| - 1].quantity
  }

  // ---------------------------------------------------------------------
  // Lookup and removal (Array.prototype.find and filter)
  // ---------------------------------------------------------------------

  /** The position of the first item carrying `id`, if any. */
  function IndexOf(c: seq<CartItem>, id: int): (r: Option<nat>)
    ensures r.Some? ==> r.value < |c| && c[r.value].id == id
  {
    if c == [] then None
    else if c[0].id == id then Some(0)
    else match IndexOf(c[1..], id)
      case None => None
      case Some(i) => Some(i + 1)
  }

  /** The items of `c` whose id differs from `id`, in their original order. */
  function Without(c: seq<CartItem>, id: int): (r: seq<CartItem>)
    ensures |r| <= |c|
    ensures forall k :: 0 <= k < |r| ==> r[k].id != id && r[k] in c
  {
    if c == [] then []
    else
      var rest := Without(c[..|c| - 1], id);
      if c[|c| - 1].id == id then rest else rest + [c[|c| - 1]]
  }

  /** Linear search for the first item carrying `id`, as `cart.find` does it. */
  method Find(c: seq<CartItem>, id: int) returns (r: Option<nat>)
    ensures r == IndexOf(c, id)
    ensures r.None? <==> Lacks(c, id)
  {
    var k := 0;
    while k < |c|
      invariant 0 <= k <= |c|
      invariant Lacks(c[..k], id)
    {
      if c[k].id == id {
        IndexOfFirstMatch(c, id, k);
        return Some(k);
      }
      k := k + 1;
    }
    assert c[..k] == c;
    IndexOfAbsent(c, id);
    r := None;
  }

  /** One pass that keeps every item not carrying `id`, as `cart.filter` does it. */
  method FilterOut(c: seq<CartItem>, id: int) returns (r: seq<CartItem>)
    ensures r == Without(c, id)
  {
    r := [];
    var k := 0;
    while k < |c|
      invariant 0 <= k <= |c|
      invariant r == Without(c[..k], id)
    {
      assert c[..k + 1][..k] == c[..k];
      if c[k].id != id {
        r := r + [c[k]];
      }
      k := k + 1;
    }
    assert c[..k] == c;
  }

  // ---------------------------------------------------------------------
  // The cart operations as functions of the old cart
  // ---------------------------------------------------------------------

  /** addToCart: bump the first line with `id`, or append a fresh line of one unit. */
  function AddItem(c: seq<CartItem>, id: int, title: string, price: int, image: string): seq<CartItem>
  {
    match IndexOf(c, id)
    case Some(i) => c[i := c[i].(quantity := c[i].quantity + 1)]
    case None => c + [CartItem(id, title, price, image, 1)]
  }

  /** updateQuantity: add `change` to the first line with `id`; a line that drops to
      zero or below is removed together with every other line of that id. */
  function ChangeQuantity(c: seq<CartItem>, id: int, change: int): seq<CartItem>
  {
    match IndexOf(c, id)
    case None => c
    case Some(i) =>
      if c[i].quantity + change <= 0 then Without(c, id)
      else c[i := c[i].(quantity := c[i].quantity + change)]
  }

  /** `n` successive calls of addToCart with the same product. */
  function AddRepeatedly(c: seq<CartItem>, id: int, title: string, price: int, image: string, n: nat): seq<CartItem>
  {
    if n == 0 then c else AddItem(AddRepeatedly(c, id, title, price, image, n - 1), id, title, price, image)
  }

  // ---------------------------------------------------------------------
  // Lemmas: lookup
  // ---------------------------------------------------------------------

  /** If `i` holds the first `id`, `find` lands on `i`. */
  lemma {:induction false} IndexOfFirstMatch(c: seq<CartItem>, id: int, i: nat)
    requires i < |c| && c[i].id == id && Lacks(c[..i], id)
    ensures IndexOf(c, id) == Some(i)
  {
    if i > 0 {
      assert c[0] == c[..i][0];
      assert c[1..][..i - 1] == c[..i][1..];
      IndexOfFirstMatch(c[1..], id, i - 1);
    }
  }

  /** `find` fails exactly when no item carries `id`. */
  lemma {:induction false} IndexOfAbsent(c: seq<CartItem>, id: int)
    ensures IndexOf(c, id).None? <==> Lacks(c, id)
  {
    if c != [] && c[0].id != id {
      IndexOfAbsent(c[1..], id);
      assert forall k :: 1 <= k < |c| ==> c[k] == c[1..][k - 1];
    }
  }

  /** `find` returns the first match: nothing before it carries `id`. */
  lemma {:induction false} IndexOfIsFirst(c: seq<CartItem>, id: int)
    ensures IndexOf(c, id).Some? ==> Lacks(c[..IndexOf(c, id).value], id)
  {
    if c != [] && c[0].id != id {
      IndexOfIsFirst(c[1..], id);
      match IndexOf(c[1..], id)
      case None =>
      case Some(i) =>
        assert forall k :: 1 <= k <= i ==> c[k] == c[1..][..i][k - 1];
    }
  }

  // ---------------------------------------------------------------------
  // Lemmas: removal
  // ---------------------------------------------------------------------

  /** filter is a homomorphism of concatenation. */
  lemma {:induction false} WithoutAppend(a: seq<CartItem>, b: seq<CartItem>, id: int)
    ensures Without(a + b, id) == Without(a, id) + Without(b, id)
  {
    if b == [] {
      assert a + b == a;
    } else {
      var b' := b[..|b| - 1];
      assert (a + b)[..|a + b| - 1] == a + b';
      WithoutAppend(a, b', id);
    }
  }

  /** Removing an absent id changes nothing. */
  lemma {:induction false} WithoutAbsent(c: seq<CartItem>, id: int)
    requires Lacks(c, id)
    ensures Without(c, id) == c
  {
    if c != [] {
      WithoutAbsent(c[..|c| - 1], id);
    }
  }

  /** filter on a single item. */
  lemma WithoutSingle(x: CartItem, id: int)
    ensures Without([x], id) == if x.id == id then [] else [x]
  {
    assert [x][..0] == [];
  }

  /** In a cart with unique ids, removing the id held at `i` drops exactly that line. */
  lemma WithoutUnique(c: seq<CartItem>, i: nat)
    requires UniqueIds(c) && i < |c|
    ensures Without(c, c[i].id) == c[..i] + c[i + 1..]
  {
    var id, p, q := c[i].id, c[..i], c[i + 1..];
    assert c == p + [c[i]] + q;
    assert Lacks(p, id) by {
      forall k | 0 <= k < |p| ensures p[k].id != id { assert p[k] == c[k]; }
    }
    assert Lacks(q, id) by {
      forall k | 0 <= k < |q| ensures q[k].id != id { assert q[k] == c[i + 1 + k]; }
    }
    WithoutAppend(p + [c[i]], q, id);
    WithoutAppend(p, [c[i]], id);
    WithoutSingle(c[i], id);
    WithoutAbsent(p, id);
    WithoutAbsent(q, id);
  }

  /** What was stored at a position about to be removed does not matter. */
  lemma WithoutIgnoresUpdate(c: seq<CartItem>, i: nat, x: CartItem)
    requires i < |c| && c[i].id == x.id
    ensures Without(c[i := x], x.id) == Without(c, x.id)
  {
    var id := x.id;
    var d := c[i := x];
    assert c == c[..i] + [c[i]] + c[i + 1..];
    assert d == c[..i] + [x] + c[i + 1..];
    WithoutAppend(c[..i] + [c[i]], c[i + 1..], id);
    WithoutAppend(c[..i], [c[i]], id);
    WithoutAppend(c[..i] + [x], c[i + 1..], id);
    WithoutAppend(c[..i], [x], id);
    assert [c[i]] == [] + [c[i]];
    assert [x] == [] + [x];
  }

  /** Removal keeps the cart well formed. */
  lemma {:induction false} WithoutWellFormed(c: seq<CartItem>, id: int)
    requires WellFormed(c)
    ensures WellFormed(Without(c, id))
  {
    if c != [] {
      var c' := c[..|c| - 1];
      var last := c[|c| - 1];
      WithoutWellFormed(c', id);
      var w := Without(c', id);
      forall k | 0 <= k < |w|
        ensures w[k].id != last.id
      {
        assert w[k] in c';
        var j :| 0 <= j < |c'| && c'[j] == w[k];
        assert c[j] == c'[j];
      }
    }
  }

  // ---------------------------------------------------------------------
  // Lemmas: the operations
  // ---------------------------------------------------------------------

  /** addToCart on a product already in the cart: that line (the first one
      carrying `id`) gains one unit and nothing else changes. */
  lemma AddItemMerges(c: seq<CartItem>, id: int, title: string, price: int, image: string, i: nat)
    requires i < |c| && c[i].id == id && Lacks(c[..i], id)
    ensures AddItem(c, id, title, price, image) == c[i := c[i].(quantity := c[i].quantity + 1)]
  {
    IndexOfFirstMatch(c, id, i);
  }

  /** addToCart on a new product appends one line of quantity 1 and keeps the earlier lines. */
  lemma AddItemAppends(c: seq<CartItem>, id: int, title: string, price: int, image: string)
    requires Lacks(c, id)
    ensures AddItem(c, id, title, price, image) == c + [CartItem(id, title, price, image, 1)]
  {
    IndexOfAbsent(c, id);
  }

  lemma AddItemWellFormed(c: seq<CartItem>, id: int, title: string, price: int, image: string)
    requires WellFormed(c)
    ensures WellFormed(AddItem(c, id, title, price, image))
  {
    IndexOfAbsent(c, id);
  }

  /** updateQuantity on an absent id leaves the cart as it is. */
  lemma ChangeQuantityAbsent(c: seq<CartItem>, id: int, change: int)
    requires Lacks(c, id)
    ensures ChangeQuantity(c, id, change) == c
  {
    IndexOfAbsent(c, id);
  }

  /** updateQuantity in a cart with unique ids: the line at `i` either gets
      exactly the new quantity or, at zero or below, disappears. */
  lemma ChangeQuantityAt(c: seq<CartItem>, i: nat, change: int)
    requires UniqueIds(c) && i < |c|
    ensures c[i].quantity + change > 0 ==>
      ChangeQuantity(c, c[i].id, change) == c[i := c[i].(quantity := c[i].quantity + change)]
    ensures c[i].quantity + change <= 0 ==>
      ChangeQuantity(c, c[i].id, change) == c[..i] + c[i + 1..]
  {
    IndexOfFirstMatch(c, c[i].id, i);
    WithoutUnique(c, i);
  }

  lemma ChangeQuantityWellFormed(c: seq<CartItem>, id: int, change: int)
    requires WellFormed(c)
    ensures WellFormed(ChangeQuantity(c, id, change))
  {
    WithoutWellFormed(c, id);
  }

  /** Adding the same new product `n` times gives one line holding `n` units. */
  lemma {:induction false} AddRepeatedlyMerges(c: seq<CartItem>, id: int, title: string, price: int, image: string, n: nat)
    requires Lacks(c, id) && n >= 1
    ensures AddRepeatedly(c, id, title, price, image, n) == c + [CartItem(id, title, price, image, n)]
  {
    if n == 1 {
      AddItemAppends(c, id, title, price, image);
    } else {
      AddRepeatedlyMerges(c, id, title, price, image, n - 1);
      var d := c + [CartItem(id, title, price, image, n - 1)];
      assert d[..|c|] == c;
      AddItemMerges(d, id, title, price, image, |c|);
    }
  }

  // ---------------------------------------------------------------------
  // Lemmas: badge count and total
  // ---------------------------------------------------------------------

  lemma {:induction false} SumsAppend(a: seq<CartItem>, b: seq<CartItem>)
    ensures ItemCount(a + b) == ItemCount(a) + ItemCount(b)
    ensures Total(a + b) == Total(a) + Total(b)
  {
    if b == [] {
      assert a + b == a;
    } else {
      var b' := b[..|b| - 1];
      assert (a + b)[..|a + b| - 1] == a + b';
      SumsAppend(a, b');
    }
  }

  /** The sums split around the line at `i`. */
  lemma SumsSplit(c: seq<CartItem>, i: nat)
    requires i < |c|
    ensures ItemCount(c) == ItemCount(c[..i]) + c[i].quantity + ItemCount(c[i + 1..])
    ensures Total(c) == Total(c[..i]) + c[i].price * c[i].quantity + Total(c[i + 1..])
  {
    var p, x, q := c[..i], c[i], c[i + 1..];
    assert c == (p + [x]) + q;
    SumsAppend(p + [x], q);
    assert (p + [x])[..|p + [x]| - 1] == p;
  }

  /** Replacing one line changes the sums by the difference of that line alone. */
  lemma SumsUpdate(c: seq<CartItem>, i: nat, x: CartItem)
    requires i < |c|
    ensures ItemCount(c[i := x]) == ItemCount(c) - c[i].quantity + x.quantity
    ensures Total(c[i := x]) == Total(c) - c[i].price * c[i].quantity + x.price * x.quantity
  {
    var d := c[i := x];
    assert d[..i] == c[..i] && d[i + 1..] == c[i + 1..];
    SumsSplit(c, i);
    SumsSplit(d, i);
  }

  /** Every addToCart raises the badge by one; the total rises by the price of the
      line that received the unit (the stored price for a merged line). */
  lemma AddItemSums(c: seq<CartItem>, id: int, title: string, price: int, image: string)
    ensures ItemCount(AddItem(c, id, title, price, image)) == ItemCount(c) + 1
    ensures IndexOf(c, id).Some? ==>
      Total(AddItem(c, id, title, price, image)) == Total(c) + c[IndexOf(c, id).value].price
    ensures IndexOf(c, id).None? ==>
      Total(AddItem(c, id, title, price, image)) == Total(c) + price
  {
    var found := IndexOf(c, id);
    var r := AddItem(c, id, title, price, image);
    if found.Some? {
      var i := found.value;
      var x := c[i].(quantity := c[i].quantity + 1);
      assert r == c[i := x];
      SumsUpdate(c, i, x);
      assert x.price * x.quantity == c[i].price * c[i].quantity + c[i].price;
    } else {
      var x := CartItem(id, title, price, image, 1);
      assert r == c + [x];
      assert r[..|r| - 1] == c;
    }
  }

  /** Dropping the line at `i` lowers the badge by its quantity. */
  lemma ItemCountDrop(c: seq<CartItem>, i: nat)
    requires i < |c|
    ensures ItemCount(c[..i] + c[i + 1..]) == ItemCount(c) - c[i].quantity
  {
    SumsSplit(c, i);
    SumsAppend(c[..i], c[i + 1..]);
  }

  /** updateQuantity moves the badge by `change`, or by minus the old quantity when
      the line is removed. */
  lemma ChangeQuantitySums(c: seq<CartItem>, i: nat, change: int)
    requires UniqueIds(c) && i < |c|
    ensures c[i].quantity + change > 0 ==>
      ItemCount(ChangeQuantity(c, c[i].id, change)) == ItemCount(c) + change
    ensures c[i].quantity + change <= 0 ==>
      ItemCount(ChangeQuantity(c, c[i].id, change)) == ItemCount(c) - c[i].quantity
  {
    ChangeQuantityAt(c, i, change);
    if c[i].quantity + change > 0 {
      SumsUpdate(c, i, c[i].(quantity := c[i].quantity + change));
    } else {
      ItemCountDrop(c, i);
    }
  }

  /** With every quantity at least 1 the badge is at least the number of lines,
      so it reads 0 exactly when the cart is empty. */
  lemma {:induction false} ItemCountAtLeastLength(c: seq<CartItem>)
    requires PositiveQuantities(c)
    ensures ItemCount(c) >= |c|
    ensures ItemCount(c) == 0 <==> c == []
  {
    if c != [] {
      ItemCountAtLeastLength(c[..|c| - 1]);
    }
  }

  /** With non-negative prices and positive quantities no total is negative. */
  lemma {:induction false} TotalNonNegative(c: seq<CartItem>)
    requires PositiveQuantities(c)
    requires forall k :: 0 <= k < |c| ==> c[k].price >= 0
    ensures Total(c) >= 0
  {
    if c != [] {
      TotalNonNegative(c[..|c| - 1]);
    }
  }

  // ---------------------------------------------------------------------
  // The order listing
  // ---------------------------------------------------------------------

  /** The order history read back to front. */
  function Reversed(s: seq<Order>): seq<Order>
  {
    if s == [] then [] else [s[|s| - 1]] + Reversed(s[..|s| - 1])
  }

  lemma {:induction false} ReversedAt(s: seq<Order>, k: nat)
    requires k < |s|
    ensures |Reversed(s)| == |s| && Reversed(s)[k] == s[|s| - 1 - k]
  {
    if k > 0 {
      ReversedAt(s[..|s| - 1], k - 1);
    } else if |s| > 1 {
      ReversedAt(s[..|s| - 1], 0);
    }
  }

  /** A history that agrees with the back-to-front reading at every position is that reading. */
  lemma {:induction false} ReversedMatches(s: seq<Order>, t: seq<Order>)
    requires |t| == |s|
    requires forall k :: 0 <= k < |s| ==> t[k] == s[|s| - 1 - k]
    ensures t == Reversed(s)
  {
    if s != [] {
      ReversedAt(s, 0);
    }
    assert |Reversed(s)| == |t|;
    forall k | 0 <= k < |s|
      ensures t[k] == Reversed(s)[k]
    {
      ReversedAt(s, k);
    }
  }

  /** The listing: an order placed after another is shown before it, and the
      most recent order comes first. */
  lemma ListingNewestFirst(s: seq<Order>, i: nat, j: nat)
    requires i < j < |s|
    ensures |Reversed(s)| == |s|
    ensures Reversed(s)[|s| - 1 - j] == s[j] && Reversed(s)[|s| - 1 - i] == s[i]
    ensures |s| - 1 - j < |s| - 1 - i
    ensures Reversed(s)[0] == s[|s| - 1]
  {
    ReversedAt(s, |s| - 1 - j);
    ReversedAt(s, |s| - 1 - i);
  }

  /** Reversing twice restores the chronological history. */
  lemma {:induction false} ReversedTwice(s: seq<Order>)
    ensures Reversed(Reversed(s)) == s
  {
    var r := Reversed(s);
    forall k | 0 <= k < |s|
      ensures |Reversed(r)| == |s| && Reversed(r)[k] == s[k]
    {
      ReversedAt(s, |s| - 1 - k);
      ReversedAt(r, k);
    }
    if s == [] {
    } else {
      ReversedAt(s, 0);
      ReversedAt(r, 0);
    }
  }
}
