# Store-front cart and order history

A Dafny model of the cart and order logic of a small browser store front
(`script.js`). The page keeps two module-level lists: `cart`, whose lines are
`{id, title, price, image, quantity}`, and `orders`, whose entries are
`{id, date, items, total}`. Both are written whole to the browser's key-value
store under the keys `cart` and `orders`. Four user actions change them:
add to cart, change a quantity, remove a line (or clear the cart), and
check out. The page derives three things from them: the badge count, the
order total and the newest-first order listing. Product titles are escaped
before they go into the HTML attributes of the product cards.

The model has three modules:

- `Cart` (`cart.dfy`) holds the values `CartItem` and `Order` and the pure
  functions that say how a cart changes: `AddItem`, `ChangeQuantity` and
  `Without`, plus `IndexOf`, `ItemCount`, `Total` and `Reversed`. It also
  holds `Find` and `FilterOut`, the loops behind `cart.find` and
  `cart.filter`, and the lemmas about all of these.
- `Storefront` (`storefront.dfy`) holds the class `Shop`. Its fields are
  `cart` and `orders`. Its ghost fields `savedCart` and `savedOrders` hold
  the last value written under each key, with `None` meaning the key was
  never written. Each method's `ensures` ties the new state to the `Cart`
  function of the old state, and says what was saved and what did not change.
- `TitleEscape` (`title_escape.dfy`) models the chained quote replacement
  and how the title is read back from the `data-title` attribute.

Prices are integer cents, so totals are exact. The order id and date come
from the clock in the source; here they are parameters of `Checkout`.
Lines are found with find-first and removed with filter-all, exactly as in
the source, so the functions are defined for every cart, including one
loaded from storage with duplicate ids. The invariants are unique ids and
every quantity at least 1. They are proved to be preserved by every
operation; they are not assumed.

## Model

| member | source | states |
|---|---|---|
| `Cart.ItemCount` | script.js:35 | no contract; the badge `reduce`, specified by `SumsAppend`, `SumsSplit`, `ItemCountDrop` and `ItemCountAtLeastLength` |
| `Cart.Total` | script.js:216 | no contract; the order-total `reduce`, specified by `SumsAppend`, `SumsSplit`, `SumsUpdate` and `TotalNonNegative` |
| `Cart.AddItem` | script.js:111-117 | no contract; `find`, then `quantity += 1` or `push`, specified by `AddItemMerges`, `AddItemAppends`, `AddItemWellFormed` and `AddItemSums` |
| `Cart.ChangeQuantity` | script.js:184-197 | no contract; `find`, `quantity += change`, then removal or keep, specified by `ChangeQuantityAbsent`, `ChangeQuantityAt`, `ChangeQuantityWellFormed` and `ChangeQuantitySums` |
| `Cart.AddRepeatedly` | script.js:111-117 | no contract; `n` successive adds of one product, specified by `AddRepeatedlyMerges` |
| `Cart.Reversed` | script.js:237 | no contract; the newest-first reading of the history, specified by `ReversedAt`, `ReversedMatches`, `ListingNewestFirst` and `ReversedTwice` |
| `Cart.IndexOf` | script.js:111 | a position that is found is in range and holds the id looked for |
| `Cart.IndexOfFirstMatch` | script.js:111 | when `i` holds the id and no earlier line does, find lands on `i` |
| `Cart.IndexOfAbsent` | script.js:111 | find fails exactly when no line carries the id |
| `Cart.IndexOfIsFirst` | script.js:111 | no line before the found one carries the id |
| `Cart.Find` | script.js:111 | the linear search returns the first position holding the id, and none exactly when the id is absent |
| `Cart.Without` | script.js:201 | the kept lines number no more than before, none of them carries the id, and each comes from the old cart |
| `Cart.FilterOut` | script.js:201 | the single filtering pass yields exactly `Without(c, id)` |
| `Cart.WithoutAppend` | script.js:201 | filtering distributes over concatenation, so the kept lines stay in their original relative order |
| `Cart.WithoutAbsent` | script.js:201 | removing an id that is absent leaves the cart unchanged |
| `Cart.WithoutUnique` | script.js:201 | in a cart with unique ids, removing the id at `i` drops exactly line `i` |
| `Cart.WithoutIgnoresUpdate` | script.js:190-192 | the quantity written into a line just before it is filtered out does not affect the result |
| `Cart.WithoutWellFormed` | script.js:201 | removal keeps ids unique and quantities at least 1 |
| `Cart.AddItemMerges` | script.js:111-114 | adding a product already present raises the quantity of its first line by 1; the length, the other fields and the other lines are unchanged |
| `Cart.AddItemAppends` | script.js:111-117 | adding a new product appends one line with quantity 1 after the untouched earlier lines |
| `Cart.AddItemWellFormed` | script.js:111-117 | adding keeps ids unique and quantities at least 1 |
| `Cart.AddRepeatedlyMerges` | script.js:111-117 | adding the same new product `n` times gives one line holding `n` units |
| `Cart.ChangeQuantityAbsent` | script.js:184-186 | changing the quantity of an absent id leaves the cart as it was |
| `Cart.ChangeQuantityAt` | script.js:184-197 | in a cart with unique ids, the line gets exactly old + change when that is positive; otherwise it is removed and all other lines keep their order |
| `Cart.ChangeQuantityWellFormed` | script.js:184-197 | changing a quantity keeps ids unique and quantities at least 1 |
| `Cart.SumsAppend` | script.js:35 | the badge count and the total of joined carts are the sums of the parts |
| `Cart.SumsSplit` | script.js:216 | the count and the total split into the parts before line `i`, line `i` itself and the part after it |
| `Cart.SumsUpdate` | script.js:216 | replacing one line changes the count and the total by that line's difference alone |
| `Cart.AddItemSums` | script.js:111-117 | every add raises the badge by 1; the total rises by the stored price of a merged line, or by the given price of a new line |
| `Cart.ItemCountDrop` | script.js:35 | removing line `i` lowers the badge by that line's quantity |
| `Cart.ChangeQuantitySums` | script.js:184-197 | in a cart with unique ids, a quantity change moves the badge by the change, or by minus the old quantity when the line is removed |
| `Cart.ItemCountAtLeastLength` | script.js:35 | with quantities at least 1 the badge is at least the number of lines, so it is 0 exactly when the cart is empty |
| `Cart.TotalNonNegative` | script.js:216 | with prices that are not negative and quantities at least 1, the total is not negative |
| `Cart.ReversedAt` | script.js:237 | position `k` of the listing holds the order at position n-1-k of the history |
| `Cart.ReversedMatches` | script.js:237 | a sequence that agrees with the back-to-front reading at every position is that reading |
| `Cart.ListingNewestFirst` | script.js:237 | an order placed after another is listed before it, and the newest order is listed first |
| `Cart.ReversedTwice` | script.js:237 | reversing the history twice restores the chronological order |
| `Storefront.Loaded` | script.js:5-6 | no contract; an absent key reads as the empty list, the `JSON.parse(...) or []` fallback, used by `Shop.constructor` |
| `Storefront.Shop.constructor` | script.js:5-6 | each list starts as the value stored under its key, or empty when the key is absent |
| `Storefront.Shop.SaveCart` | script.js:42-45 | the whole in-memory cart becomes the value under the key `cart`; nothing else changes |
| `Storefront.Shop.AddToCart` | script.js:104-121 | the cart becomes `AddItem` of the old cart and is saved; the badge rises by 1; well-formedness is preserved; the orders are untouched |
| `Storefront.Shop.UpdateQuantity` | script.js:184-198 | the cart becomes `ChangeQuantity` of the old cart; an absent id writes nothing; otherwise the new cart is saved; well-formedness is preserved |
| `Storefront.Shop.RemoveItem` | script.js:200-204 | the cart becomes `Without(old cart, id)` and is saved even when the id was absent; an absent id changes nothing in memory |
| `Storefront.Shop.ClearCart` | script.js:170-175 | the cart and its saved value become empty; the orders are untouched |
| `Storefront.Shop.Checkout` | script.js:206-227 | an empty cart changes nothing and places no order; otherwise exactly one order is appended whose items are the old cart and whose total is `Total(old cart)`, earlier orders are kept, both keys are saved and the cart is empty |
| `Storefront.Shop.RenderOrders` | script.js:230-237 | the in-memory history is reversed in place and returned as the listing; the saved history and the cart are untouched |
| `Storefront.Reverse` | script.js:237 | swapping the two ends pairwise towards the middle yields `Reversed` of the input |
| `TitleEscape.ReplaceAll` | script.js:71 | no contract; one global `replace` of a character, specified by `ReplaceAllAppend`, `ReplaceAllAbsent`, `ReplaceAllRemoves` and `ReplaceAllSingle` |
| `TitleEscape.EscapeTitle` | script.js:71 | no contract; the two chained replacements, specified by `EscapeTitleCharwise`, `EscapeTitleHasNoQuotes`, `EscapeTitleUnchanged` and `EscapeTitleAppend` |
| `TitleEscape.DecodeAttribute` | script.js:76-107 | no contract; the decoding of `&quot;`, `&#39;` and `&amp;` when the card's markup is parsed (76), whose result `dataset.title` reads (107), specified by `DecodeFront` |
| `TitleEscape.EscapeAttribute` | script.js:71 | no contract; the escaping with `&` handled first, specified by `EscapeAttributeCharwise`, `EscapeAttributeRoundTrip` and `EscapeAttributeHasNoQuotes` |
| `TitleEscape.ReplaceAllAppend` | script.js:71 | a global character replacement distributes over concatenation |
| `TitleEscape.ReplaceAllAbsent` | script.js:71 | a string without the character is returned unchanged |
| `TitleEscape.ReplaceAllRemoves` | script.js:71 | no occurrence of the replaced character survives when the replacement does not contain it |
| `TitleEscape.EscapeTitleSingle` | script.js:71 | a single character escapes to `&quot;`, `&#39;` or itself |
| `TitleEscape.EscapeTitleCharwise` | script.js:71 | the two chained replacements equal escaping each character on its own: `"` becomes `&quot;`, `'` becomes `&#39;`, every other character is kept in order |
| `TitleEscape.EscapeTitleHasNoQuotes` | script.js:71 | the escaped title contains no `"` and no `'` |
| `TitleEscape.EscapeTitleUnchanged` | script.js:71 | a title without quotes is returned unchanged |
| `TitleEscape.EscapeTitleAppend` | script.js:71 | escaping a joined title is joining the escaped parts |
| `TitleEscape.DecodeFront` | script.js:107 | decoding a string that starts with an escaped character yields that character followed by the decoded rest |
| `TitleEscape.EscapeTitleRoundTrip` | script.js:86-107 | a title without `&` comes back unchanged through `DecodeAttribute`, the character-reference decoding of `data-title` |
| `TitleEscape.EscapeTitleAltersReferenceText` | script.js:86-107 | the title `&quot;` is left as it is by the escaping and is read back as `"` |
| `TitleEscape.EscapeAttributeCharwise` | script.js:71 | the escaping with `&` handled first equals escaping each character on its own, with `&` becoming `&amp;` |
| `TitleEscape.EscapeAttributeRoundTrip` | script.js:86-107 | with `&` escaped first, every title comes back unchanged through `DecodeAttribute` |
| `TitleEscape.EscapeAttributeHasNoQuotes` | script.js:71 | the escaping with `&` handled first still leaves no `"` and no `'` |

## Left out

- Fetching the catalog, building the product cards and cart rows, `alert`,
  `confirm` and the redirect after checkout (script.js:48-102, 120,
  124-151, 171, 225-226). These are network and user-interface code.
  `ClearCart` models the confirmed branch of the clear button.
- The DOM event dispatch, the `parseInt`/`parseFloat` of data attributes,
  and the guard that ignores a falsy id (script.js:104-109, 153-168). The
  methods take the id, title, price and image directly.
- JSON text and the key-value store itself. A saved key is a ghost field
  holding the last value written. Loading corrupt text throws in the source
  (script.js:5-6). The model does not cover that case, and it makes no claim
  that loading tolerates bad data.
- Floating-point prices and the `toFixed(2)` display. Prices and totals
  are integer cents, and no rounding is modelled.
- The clock-derived order id and the locale date string (script.js:213-214).
  They are parameters of `Checkout`, so the model does not claim the ids
  are unique or increasing.
- The HTML built for the items of each order (script.js:238-248). It never
  uses its items, so it has nothing to model.
- `TitleEscape.DecodeAttribute` decodes only `&quot;`, `&#39;` and `&amp;`.
  Browsers decode every character reference, so the claims about reading a
  title back cover only these three.
- `TitleEscape.EscapeTitleRoundTrip` is about `DecodeAttribute` only. The HTML
  parser that `innerHTML` feeds (script.js:76) also turns CR and CR LF into LF
  and replaces U+0000 with U+FFFD, so a title containing CR or NUL does not
  read back as itself. The model does not capture this normalisation.
- `TitleEscape.EscapeAttributeRoundTrip` is weaker than "every title reads
  back" for the same reason. Even with `&` escaped first, a title containing
  CR or NUL is changed by the parser's normalisation, which is not modelled.
- The updates in place of a line object and of the `orders` array are
  modelled as reassignments of the `seq` fields. Lines are values, so a
  checked-out order cannot alias the live cart. In the source this is also
  true, because `cart` is replaced by a new empty array right after the
  order takes it (script.js:215, 222).
- `Storefront.Shop.RenderOrders` leaves the in-memory history reversed
  while the saved history stays chronological, as the source does. The only
  later writer of `orders` is `handleCheckout` (script.js:219-220). It is
  wired to a button only when the cart table `#cart-items` exists
  (script.js:24-26, 179-180). A page that renders the orders and later checks
  out would save the history in the wrong order: with stored `[o1, o2]`,
  `RenderOrders` followed by `Checkout` saves `[o2, o1, new]`, as the two
  methods' contracts give. Whether any page
  has both `#orders-list` and `#cart-items` depends on HTML that is not part
  of this model.

## Findings

| source | as written | input that shows it | evidently intended | confidence | as-written member | corrected member |
|---|---|---|---|---|---|---|
| script.js:71 | only `"` and `'` are escaped before the title is put into `data-title`; the parser decodes the attribute when the card is built (script.js:76), `dataset.title` reads the decoded text (script.js:107), and that text is saved in the cart (script.js:116) | a product titled `&quot;` is saved in the cart with the title `"` | the cart keeps the catalog's title, which needs `&` to be escaped first | medium; not executed | `TitleEscape.EscapeTitleAltersReferenceText` | `TitleEscape.EscapeAttributeRoundTrip` |
