# AgriConnect storefront core, modelled in Dafny

AgriConnect is a web shop where farmers list produce and customers order
it. This project models the parts of it that hold logic rather than
framework glue:

- **The client-side shopping cart** (`frontend/src/context/CartContext.js`):
  a list of items keyed by product id. `addToCart` merges quantities or
  appends, `removeFromCart` filters, `updateQuantity` sets a quantity or
  removes on zero or less, `clearCart` empties, and `cartCount` / `cartTotal`
  are sums. The cart never changes in place, so module `Cart` is a set of
  functions over `seq<Item>` with lemmas.
- **The product catalog** (`app.py`): the list of product records that is
  changed in place. Completing an order takes stock off the first matching
  farmer entry. A farmer's update writes the fields present in the request
  into the farmer's first matching entry. A farmer's delete pops that entry.
  Module `Catalog` holds a `ProductCatalog` class whose `products` field is
  the list. Its methods run the source's loops, and each is proved equal
  to a specification function with lemmas about it.
- **Order placement** (module `Orders`): the loop shared by the three order
  handlers (`create_order`, `verify_payment`, `place_order`). It builds one
  order-item row per cart entry and a farmer notification for every entry
  whose product belongs to a farmer. The module also builds the
  product-id-to-farmer lookup and models each handler's own checks before
  the order is written. Only `place_order` computes the total from the cart.
  The other two store the amount the client posts (see "## Findings").
- **The admin console** (module `AdminPanel`): orders grouped by pincode,
  and the number of pending orders.
- **The category listing** (module `CategoryListing`): in-stock farmer
  products grouped by category.
- **Validators** (module `Validation`): delivery details, upload file
  names and ratings, with Python's `strip`/`isdigit` written out.
- **Admin notifications** (module `AdminNotifications`): the in-memory list
  where each new entry gets id = length + 1, and its newest-first view.

File and database I/O, sessions, random order numbers, OTPs and the clock
are not modelled. The products list, the order lines, the user details,
the order id, the status and the timestamps are parameters.

## Model

| member | source | states |
|---|---|---|
| Cart.AddToCart | frontend/src/context/CartContext.js:33-47 | the product's id is in the cart afterwards; an absent product is appended as `{...product, quantity}`; a present one leaves the length unchanged; the quantity defaults to one |
| Cart.AddQuantity | frontend/src/context/CartContext.js:38-42 | the `map` keeps length, ids and prices, and adds the quantity to exactly the items with the id |
| Cart.AddToCartAbsent | frontend/src/context/CartContext.js:35-45 | with the id absent, the length grows by one, the earlier items are unchanged and the new last item is the product with the given quantity |
| Cart.AddToCartPresent | frontend/src/context/CartContext.js:37-43 | with the id present, the length is unchanged, items with other ids are identical and matching items only gain the quantity |
| Cart.AddToCartKeepsUniqueIds | frontend/src/context/CartContext.js:33-46 | pairwise-distinct ids stay pairwise distinct |
| Cart.AddToCartCount | frontend/src/context/CartContext.js:33-46 | with distinct ids, addToCart(p, q) raises cartCount by exactly q |
| Cart.AddToCartTotal | frontend/src/context/CartContext.js:71-73 | with distinct ids, cartTotal rises by q times the price already in the cart, or by q times the product's price when it is new |
| Cart.RemoveFromCart | frontend/src/context/CartContext.js:49-51 | no item with the id remains, nothing new appears, the cart does not grow |
| Cart.RemoveFromCartAppend | frontend/src/context/CartContext.js:49-51 | filtering distributes over concatenation, so the survivors keep their relative order |
| Cart.RemoveFromCartKeepsOthers | frontend/src/context/CartContext.js:49-51 | every item with another id survives |
| Cart.RemoveFromCartAbsent | frontend/src/context/CartContext.js:49-51 | removing an absent id leaves the cart unchanged |
| Cart.RemoveFromCartCount | frontend/src/context/CartContext.js:75-77 | with distinct ids, removing an item shortens the cart by one and lowers cartCount by its quantity |
| Cart.RemoveAfterAdd | frontend/src/context/CartContext.js:33-51 | adding a product and then removing its id gives the same cart as only removing it |
| Cart.SetQuantity | frontend/src/context/CartContext.js:59-63 | the `map` keeps length, ids and prices and sets the quantity of exactly the items with the id |
| Cart.UpdateQuantity | frontend/src/context/CartContext.js:53-64 | a quantity of zero or less leaves no item with the id; a positive one keeps the length and which ids are present |
| Cart.UpdateQuantityNonPositive | frontend/src/context/CartContext.js:53-57 | a quantity of zero or less gives exactly removeFromCart's result |
| Cart.UpdateQuantityPositive | frontend/src/context/CartContext.js:59-63 | a positive quantity replaces the matching item's quantity and leaves every other item identical |
| Cart.UpdateQuantityAbsent | frontend/src/context/CartContext.js:53-63 | updating an absent id leaves the cart unchanged |
| Cart.UpdateQuantityKeepsUniqueIds | frontend/src/context/CartContext.js:53-64 | pairwise-distinct ids stay pairwise distinct |
| Cart.UpdateQuantityCount | frontend/src/context/CartContext.js:75-77 | with distinct ids, cartCount moves from the item's old quantity to q, or drops by it when q is zero or less |
| Cart.UpdateQuantityIdempotent | frontend/src/context/CartContext.js:53-64 | applying the same update twice equals applying it once |
| Cart.ClearCart | frontend/src/context/CartContext.js:66-69 | the cart is empty afterwards |
| Cart.ClearCartZero | frontend/src/context/CartContext.js:66-77 | after clearCart, cartCount and cartTotal are both zero |
| Cart.CartCount | frontend/src/context/CartContext.js:75-77 | with no negative quantity cartCount is never negative, and with every quantity at least one it is at least the number of items |
| Cart.CartCountAppend | frontend/src/context/CartContext.js:75-77 | appending an item raises cartCount by its quantity |
| Cart.CartTotalAppend | frontend/src/context/CartContext.js:71-73 | appending an item raises cartTotal by its price times its quantity |
| Cart.CartTotalNonNegative | frontend/src/context/CartContext.js:71-73 | with no negative price or quantity, cartTotal is never negative |
| Catalog.FindFarmerEntry | app.py:1286-1290 | finds the first entry with the id and seller type 'farmer', or reports that none exists |
| Catalog.StockAfterLine | app.py:1286-1290 | one order line changes at most the stock of farmer entries; the length and every other field are kept |
| Catalog.StockAfterOrder | app.py:1284-1290 | the catalog keeps its length over a whole order |
| Catalog.StockAfterLineEffect | app.py:1284-1290 | one order line changes only the first matching farmer entry, and only its stock, which drops by the quantity only when the stock covers it |
| Catalog.StockAfterOrderNonNegative | app.py:1284-1290 | completing an order never drives a non-negative stock below zero |
| Catalog.StockAfterOrderOnlyStock | app.py:1284-1290 | completing an order changes nothing but the stock of farmer entries; other entries and fields are identical |
| Catalog.StockAfterOrderNeverGrows | app.py:1284-1290 | with non-negative quantities no entry's stock grows |
| Catalog.ProductCatalog.DecrementStock | app.py:1286-1290 | the scan-and-break loop leaves the list equal to the one-line specification |
| Catalog.ProductCatalog.CompleteOrder | app.py:1284-1290 | the loop over the order's lines leaves the list equal to the whole-order specification |
| Catalog.FindOwnedEntry | app.py:2055-2056 | finds the first entry with the id, the farmer's username and seller type 'farmer', or reports that none exists |
| Catalog.ApplyPatch | app.py:2057-2070 | an update never changes the entry's id, seller username or seller type |
| Catalog.ApplyPatchFields | app.py:2057-2070 | each key present in the request is copied into its field; every other field, including id and seller, is kept |
| Catalog.ApplyPatchProperties | app.py:2057-2070 | an update keeps the entry owned by the farmer, an empty request changes nothing, and applying a request twice equals once |
| Catalog.UpdatedCatalog | app.py:2054-2075 | the length is kept; not-found leaves the list unchanged |
| Catalog.UpdatedCatalogEffect | app.py:2054-2075 | found exactly when the farmer owns an entry with the id; then only the first such entry changes, it gets the request applied and stays the farmer's |
| Catalog.ProductCatalog.UpdateProduct | app.py:2054-2075 | the update loop returns the found flag and leaves the list equal to the specification |
| Catalog.DeletedCatalog | app.py:2107-2115 | not-found leaves the list unchanged; found shortens it by one |
| Catalog.DeletedCatalogEffect | app.py:2107-2115 | found exactly when the farmer owns a matching entry; then exactly the first one is removed, the rest keep their order, and one fewer match remains |
| Catalog.ProductCatalog.DeleteProduct | app.py:2107-2115 | the delete loop returns the found flag and leaves the list equal to the specification |
| Catalog.ProductCatalog.constructor | app.py:1282 | the catalog holds the products list as read |
| CategoryListing.FarmerName | app.py:2144-2150 | the display name is the stored non-empty name, or else the username |
| CategoryListing.InCategory | app.py:2137-2162 | a category's list is no longer than the catalog |
| CategoryListing.InCategoryMembers | app.py:2137-2162 | an entry is under a category exactly when it comes from a farmer product with stock > 0 of that category |
| CategoryListing.InCategoryNonEmpty | app.py:2139-2141 | a category's list is non-empty exactly when some listed product has that category |
| CategoryListing.InCategoryStep | app.py:2137-2162 | one more product extends exactly its own category's list, and only when it is listed |
| CategoryListing.ListedCategoriesStep | app.py:2139-2141 | one more product adds its category to the keys exactly when it is listed |
| CategoryListing.ListingStep | app.py:2139-2162 | one pass of the loop body (create the list on first use, then append) turns the listing of a prefix into the listing of the next longer prefix |
| CategoryListing.GroupByCategory | app.py:2136-2162 | the keys are the categories of the listed products, and each list is the catalog-order listing for its category |
| Orders.CheckCreateOrder | app.py:832-838 | a missing user is reported first and an empty cart second; the order proceeds exactly when there is a user and the cart is not empty |
| Orders.CheckPlaceOrder | app.py:1040-1047 | an empty cart is reported first and incomplete delivery details second; the order proceeds exactly when the cart is not empty and all four details are filled in |
| Orders.CheckVerifyPayment | app.py:937-964 | only an empty cart is reported; with a cart and no stored user the handler raises; the order proceeds exactly when there is a cart and a user |
| Orders.StoredDetailsPassPlaceOrder | app.py:1046-1047 | details the delivery-details form accepted always pass place_order's details check |
| Orders.FarmerIndex | app.py:864-870 | the lookup has at most one key per catalog entry |
| Orders.FarmerIndexLookup | app.py:864-870 | an id is in the lookup exactly when some farmer entry has it, and it maps to the seller of the last such entry |
| Orders.LastFarmerEntry | app.py:864-870 | finds the last farmer entry with the id, and none exists exactly when it finds nothing |
| Orders.BuildFarmerIndex | app.py:864-870 | the loop builds exactly that lookup |
| Orders.NotifiesFromCatalog | app.py:892-894 | an entry notifies a farmer exactly when the last farmer entry with its id has a non-empty seller |
| Orders.ItemRows | app.py:878-887 | exactly one order-item row per cart entry, in cart order, carrying the entry's id, name, quantity and price |
| Orders.NotificationRows | app.py:889-898 | there are at most as many notifications as cart entries |
| Orders.NotificationRowsExact | app.py:889-898 | every notifying entry yields its notification addressed to the farmer from the lookup, and every notification comes from such an entry |
| Orders.NotificationRowsAppend | app.py:878-898 | notifications follow cart order |
| Orders.BuildOrderRows | app.py:878-898 | the handler loop returns exactly those item rows and notification rows |
| Orders.OrderTotalMatchesRows | app.py:1050 | place_order's total equals the total of the order-item rows written for it |
| Orders.OrderTotalNonNegative | app.py:1050 | with no negative price or quantity, place_order's total is never negative |
| Orders.StoredTotalAsWritten | app.py:827-857 | as written, once the handler's check passes, the stored total is the posted amount |
| Orders.StoredTotal | app.py:827-857 | corrected: the order is stored exactly when the check passes and the amount equals the cart's total, which is then the stored total |
| Orders.StoredTotalMatchesRows | app.py:827-857 | with the correction, the stored total equals the total of the order-item rows |
| Orders.StoredTotalAgrees | app.py:827-857 | where the posted amount is the cart's total, the correction gives the handler's result |
| Orders.QtyAsWritten | app.py:1091 | the handler's quantity is the posted `qty`, or one when it is absent |
| Orders.CheckoutQuantityLost | app.py:1091 | whatever quantity the checkout page posts, the handler reads one |
| Orders.QtyRead | app.py:1091 | corrected: agrees with the handler whenever `qty` is posted, and reads `quantity` when only that is posted |
| Orders.EntryOf | app.py:1088-1091 | a posted entry becomes a cart entry with the same id, name and price and the corrected quantity |
| Orders.Entries | app.py:1088-1091 | one cart entry per posted entry, in order |
| Orders.CheckoutQuantityKept | frontend/src/pages/Checkout.js:70-75 | with the correction, every item the checkout page posts keeps its cart quantity |
| Orders.CheckoutTotalMatchesCart | frontend/src/pages/Checkout.js:70-75 | with the correction, the order total of what the checkout page posts is the cart's cartTotal |
| AdminPanel.InGroup | app.py:1166-1184 | a group is no longer than the order list |
| AdminPanel.GroupKey | app.py:1168 | a key is never empty, and a non-empty pincode is its own key |
| AdminPanel.InGroupMembers | app.py:1167-1171 | an order is in a group exactly when its key (pincode, or 'No Pincode' when empty) is the group's, so it lands in exactly one group |
| AdminPanel.InGroupAppend | app.py:1166-1184 | grouping keeps input order within each group |
| AdminPanel.InGroupNonEmpty | app.py:1169-1170 | a group exists exactly when some order has its key |
| AdminPanel.InGroupStep | app.py:1167-1184 | one more order extends exactly the group of its own key |
| AdminPanel.GroupKeysStep | app.py:1168-1170 | one more order adds its key to the keys |
| AdminPanel.GroupedStep | app.py:1167-1184 | one pass of the loop body (create the list on first use, then append) turns the grouping of a prefix into the grouping of the next longer prefix |
| AdminPanel.CountStatus | app.py:1187 | a status count never exceeds the number of orders |
| AdminPanel.CountStatusPositions | app.py:1187 | the count equals the number of positions holding an order with that status |
| AdminPanel.GroupByPincode | app.py:1166-1184 | the keys are exactly the orders' keys, and each group is its orders in input order |
| AdminPanel.CountPending | app.py:1187 | pending_count is the number of orders whose status is 'pending' |
| Validation.StripSlice | app.py:1373-1376 | strip keeps a contiguous middle, drops only whitespace around it and leaves none at either end |
| Validation.StripEmpty | app.py:1378-1379 | a stripped field is empty exactly when the input is all whitespace |
| Validation.StripIdempotent | app.py:1373-1376 | stripping twice equals stripping once |
| Validation.TextStart | app.py:1373-1376 | the first non-whitespace position from a start, with only whitespace before it |
| Validation.TextEnd | app.py:1373-1376 | the end of the last non-whitespace character, with only whitespace after it |
| Validation.Strip | app.py:1373-1376 | strip never lengthens the text and leaves no whitespace at either end |
| Validation.ValidateDeliveryDetails | app.py:1373-1387 | accepted iff all four stripped fields are non-empty, the pincode is 6 digits and the phone 10 digits; the first failing check decides the error; the stored values are the stripped ones |
| Validation.ValidatedDetailsStable | app.py:1373-1387 | accepted details pass the check again unchanged |
| Validation.LastDot | app.py:2287 | finds the position of the last '.', or reports that there is none |
| Validation.Lower | app.py:2287 | lower-cases character by character and keeps the length |
| Validation.AllowedFileIff | app.py:2284-2287 | a name is allowed exactly when it splits at a '.' with no later '.' and its lower-cased suffix is png, jpg, jpeg, gif or webp |
| Validation.AllowedFileWithExtension | app.py:2284-2287 | any name ending in '.' plus an allowed extension is allowed |
| Validation.NoDotNotAllowed | app.py:2287 | a name without a '.' is refused |
| Validation.AllowedFile | app.py:2286-2287 | an allowed name has a last '.' followed by three or four characters |
| Validation.FeedbackAccepted | app.py:693-701 | feedback is accepted exactly when the name and the email each hold a non-whitespace character and the rating is between 1 and 5 |
| Validation.FeedbackStripInvariant | app.py:693-701 | feedback whose name and email are already stripped gets the same verdict |
| Validation.ValidateRating | app.py:1705-1714 | a missing product id or a missing or zero rating is reported as required; otherwise the rating must be 1 to 5 and is returned |
| AdminNotifications.NewestFirst | app.py:1195 | the view is the log reversed |
| AdminNotifications.NewestFirstSorted | app.py:1195 | with the ids the log assigns, the view is a permutation of the log with strictly decreasing ids, which is what sorting by id in reverse gives |
| AdminNotifications.AdminNotificationLog.constructor | app.py:308 | the log starts empty |
| AdminNotifications.AdminNotificationLog.Count | app.py:1904 | the count reported is the newest entry's id, and no entry's id exceeds it, so the next id handed out is new |
| AdminNotifications.AdminNotificationLog.NotifyNewFarmer | app.py:310-323 | appends an unread 'new_farmer' entry with id = old length + 1 and the source's message; ids stay 1, 2, 3, ... |
| AdminNotifications.AdminNotificationLog.NotifySoilTest | app.py:325-340 | appends an unread 'soil_test' entry with id = old length + 1, booking id, test type and the source's message; ids stay 1, 2, 3, ... |

## Left out

- Flask routing, sessions, request parsing, templates and redirects; the admin and farmer authorisation checks that read the session.
- All SQLite access and the schema set-up. Orders, order items and notifications are values returned by the model, not inserted rows.
- Reading and writing `products.json`. The products list is a parameter or the `products` field. A failure while reading or writing, which the handlers catch and log, is not modelled.
- Random order numbers, OTPs, payment ids and booking ids, and the IST clock. The order id, the status ('pending' or 'paid'), the timestamp and the date/time text are parameters.
- Floating-point prices and totals. Prices are whole minor currency units, and `float(...)`/`int(...)` conversions and their exceptions are not modelled. `Catalog.ApplyPatch` takes the price and stock of an update request already converted. A conversion that raises part-way through an update, so that nothing is written back, is not modelled.
- Catalog entries without a `stock`, `id` or `category` key, and cart entries without `qty` or `price` (the handlers fall back to defaults or raise `KeyError`). Every record in the model has all its fields.
- The dummy payment gateway and the payment handlers' session-less path.
- The cart's persistence to `localStorage`, and the other fields a product carries into the cart besides id and price.
- Validation.IsDigits: accepts only ASCII '0'-'9'. Python's `isdigit` also accepts other Unicode digits, such as superscripts.
- Validation.Lower: lower-cases ASCII only. Python's `lower` is Unicode-aware, but no non-ASCII character lower-cases to an allowed extension, so `allowed_file`'s verdict is the same.
- Validation.ValidateRating: the rating is an optional whole number. A rating posted as the text "0" is truthy in Python and is reported as out of range, not as missing.
- AdminNotifications.NewestFirstSorted: states that the view is strictly decreasing by id and a permutation of the log. The uniqueness of such an ordering, which makes it equal to Python's `sorted` result, is not proved.
- AdminNotifications.AdminNotificationLog.NotifyNewFarmer and AdminNotifications.AdminNotificationLog.NotifySoilTest: two requests that append at the same time could read the same length and so get the same id. Concurrency is not modelled.
- The order totals of `create_order` and `verify_payment` are the posted `amount`. They are modelled by `Orders.StoredTotalAsWritten` only: no order-level reply or insert is built for them.
- AdminPanel.GroupByPincode and CategoryListing.GroupByCategory: the result is a Dafny `map`, which has no key order. The Python dicts keep keys in first-seen order, over orders sorted by id descending and over catalog order, and that order is not captured. The order within each group is captured.
- The second, near-duplicate storefront under `e comerce/`, the CLI database viewer, the React pages and hooks, and the network client are not part of this model.

## Findings

| source | as written | input that shows it | evidently intended | confidence | as-written member | corrected member |
|---|---|---|---|---|---|---|
| app.py:827-857 | `create_order` (and `verify_payment`, app.py:940-964) store the client's posted `amount` as the order total and never compare it with the cart | a cart of two units at 40 posted with amount 1 is stored with total 1 | the stored total is the cart's total, as `place_order` computes it at app.py:1050 | medium, not executed | Orders.PostedAmountUnchecked | Orders.StoredTotal |
| app.py:1091 | `place_order` reads each entry's quantity from `qty`, defaulting to 1, but the storefront's checkout page posts `quantity` (frontend/src/pages/Checkout.js:70-75) | a cart item with quantity 3 is ordered, stored and totalled as 1 | the quantity the customer put in the cart | medium, not executed | Orders.CheckoutQuantityLost | Orders.QtyRead |
