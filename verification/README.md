# Fish-shop storefront: cart engine, checkout and admin rules in Dafny

This project models the core of a small Hebrew-language fish shop built on
Next.js. It covers four parts.

- **The client cart engine** (`contexts/CartContext.tsx`). It derives a line
  id from the product and the cutting style, and implements addItem with
  merging, removeItem, updateQuantity (a quantity below one removes the line)
  and clearCart. It computes the item count, the subtotal, and the flat
  delivery fee of 30 below a subtotal of 200. It also restores the cart from
  storage.
- **The UI around the cart.** This covers:
  - the product card's sale rule, badges, and add/+/- handlers;
  - the cutting-style modal's state machine;
  - the cart line and the drawer with its free-delivery banner.
- **The server endpoints.**
  - checkout: validation order, the retry loop for a free order number, and the stored record;
  - the contact form;
  - the admin middleware;
  - the admin order listing with its pagination, and the orders page that drives it;
  - the admin create endpoints for products and categories, and the new-product form.
- **The utilities.**
  - `slugify`;
  - both order-number generators;
  - the Cloudinary URL builder;
  - the sidebar's and the category pills' highlighting rules.

Every operation is a pure function over immutable datatypes, except the
checkout retry loop, which is a method with a loop. The database is a set or
sequence of what is stored. The clock, `Math.random`, `parseFloat`, the cloud
name and the signed-in state are parameters. Prices are exact `real`s.
Quantities are unbounded `int`s, because the source never checks their sign.

Modules, one per source concern:

- `Wrappers`, `Seqs`, `Text` and `Fields` hold the shared vocabulary:
  - `Option`;
  - list removal and duplicate-freedom;
  - ECMAScript `trim` and white space, decimal rendering, substring;
  - JavaScript truthiness of string fields.
- `Cart`, `Storefront`, `CuttingStyles`, `CartView` and `CuttingModal` cover the client.
- `Checkout`, `OrderNumbers`, `Contact`, `Middleware`, `AdminOrders`,
  `ProductForm` and `AdminCreate` cover the server side and the admin pages.
- `Slug`, `Cloudinary` and `Navigation` cover the remaining utilities.

Behaviours of the code worth knowing:

- The line id is `productId + "-" + (cuttingStyle || "none")`, with a hyphen.
- These ids are not always unique per (product, style) pair. `Cart.LineIdCollisions`
  shows the collisions, and `Cart.LineIdInjective` gives the exact conditions
  under which ids do separate pairs.
- The category-pill pattern matches the leftmost `/category/` that is followed
  by a character other than `/`. That need not be the first `/category/` in
  the path.

## Model

| member | source | states |
|---|---|---|
| Cart.StyleKey | contexts/CartContext.tsx:43-45 | the style half of a line id is "none" exactly for a null, empty or literal "none" style, and the style itself otherwise |
| Cart.LineIdShape | contexts/CartContext.tsx:43-45 | an id is the product id, one hyphen, then the style key, at those positions |
| Cart.LineIdInjective | contexts/CartContext.tsx:43-45 | equal ids mean equal (product, style) pairs, and the converse, when product ids hold no hyphen and styles are neither "" nor "none" |
| Cart.LineIdCollisions | contexts/CartContext.tsx:43-45 | without those conditions two different pairs share an id: null, "" and "none" do, and so do hyphenated product ids |
| Cart.LineId | contexts/CartContext.tsx:43-45 | the id is the product id, a hyphen, then the style key; LineIdShape and LineIdInjective state what can be read back from it |
| Cart.FindIndex | contexts/CartContext.tsx:91 | the index found holds the id and no earlier line does; none is found exactly when no line has the id |
| Cart.AddItem | contexts/CartContext.tsx:87-105 | merging raises only the first matching line's quantity and keeps its frozen price and name; otherwise exactly one line is appended with the requested quantity |
| Cart.RemoveItem | contexts/CartContext.tsx:111-113 | the cart never grows, and a missing id changes nothing |
| Cart.RemoveConcat | contexts/CartContext.tsx:111-113 | removeItem filters each part of a cart on its own, so it keeps the order of the remaining lines even when ids repeat |
| Cart.UpdateQuantity | contexts/CartContext.tsx:115-126 | below one it is removeItem; otherwise every line of the id gets the new quantity and every other line is untouched |
| Cart.SetQuantity | contexts/CartContext.tsx:121-125 | every line with that id gets the new quantity and nothing else changes; lines of other ids are untouched; the length is kept |
| Cart.ClearCart | contexts/CartContext.tsx:128-130 | the cart is empty |
| Cart.Fee | contexts/CartContext.tsx:83 | the fee is zero exactly from a subtotal of 200 up, and the flat 30 otherwise |
| Cart.ItemCount | contexts/CartContext.tsx:81 | the item count is the left-to-right sum of the quantities, not the number of lines; AddItemCount and UpdateQuantityCount state how it moves |
| Cart.Subtotal | contexts/CartContext.tsx:82 | the subtotal is the left-to-right sum of price times quantity; AddItemSubtotal and RemoveItemSubtotal state how it moves |
| Cart.DeliveryFee | contexts/CartContext.tsx:83 | the cart's fee is zero exactly when its subtotal reaches 200, and the flat 30 otherwise |
| Cart.Total | contexts/CartContext.tsx:84 | the total is the subtotal alone from 200 up, and the subtotal plus 30 below it |
| Cart.AddItemCount | contexts/CartContext.tsx:87-105 | adding raises the item count by exactly the requested quantity, whether it merges or appends |
| Cart.AddItemSubtotal | contexts/CartContext.tsx:87-105 | adding raises the subtotal by the quantity times the price of the line it lands on: the frozen price when merging, the supplied one when appending |
| Cart.UpdateQuantityCount | contexts/CartContext.tsx:115-126 | with unique ids, setting a line's quantity moves the item count from the old quantity to the new one, or takes the line away below one |
| Cart.RemoveItemSubtotal | contexts/CartContext.tsx:111-113 | with unique ids, removing a line takes exactly its price times quantity off the subtotal |
| Cart.RemoveUniqueShape | contexts/CartContext.tsx:111-113 | with unique ids, removing a line's id deletes that one line and keeps the rest in order |
| Cart.ClearedCartTotals | contexts/CartContext.tsx:81-84 | after clearCart the count and subtotal are zero, yet the total still carries the 30 delivery fee |
| Cart.AddPreservesUnique | contexts/CartContext.tsx:87-105 | addItem keeps line ids pairwise distinct |
| Cart.RemoveItemKeeps | contexts/CartContext.tsx:111-113 | removeItem keeps exactly the lines whose id differs from the given one |
| Cart.RemovePreservesUnique | contexts/CartContext.tsx:111-113 | removeItem keeps line ids pairwise distinct |
| Cart.UpdatePreservesUnique | contexts/CartContext.tsx:115-126 | updateQuantity keeps line ids pairwise distinct |
| Cart.UniqueIdsInvariant | contexts/CartContext.tsx:87-130 | any sequence of cart operations keeps line ids pairwise distinct |
| Cart.BoundsInvariant | contexts/CartContext.tsx:87-126 | if every add asks for one unit or more, quantities stay at least one; if every add's price is at most its list price, every line's is too |
| Cart.AddAcceptsNonPositive | contexts/CartContext.tsx:104 | addItem does not reject a zero quantity: it creates a zero-quantity line |
| Cart.RepeatedAdds | contexts/CartContext.tsx:91-104 | repeated adds of one new (product, style) pair give one appended line with the summed quantity and the first add's name, image and price |
| Cart.MergeAll | contexts/CartContext.tsx:93-100 | adds that merge into an existing line only raise that line's quantity by their sum |
| Cart.LoadCart | contexts/CartContext.tsx:54-67 | a stored array is adopted as is; a missing, unparsable or non-array value gives the empty cart |
| Cart.LoadedCartInvariants | contexts/CartContext.tsx:54-67 | a fallback cart satisfies every cart invariant; an adopted array has unique ids exactly when the stored one had |
| Storefront.EffectivePrice | components/store/ProductCardActions.tsx:31-37 | the charged price never exceeds the list price and is either the list price or the sale price |
| Storefront.SaleRuleAgrees | components/store/ProductCard.tsx:26-32 | the card shows a sale exactly when the cart action charges less than the list price, and it then charges the sale price |
| Storefront.PriceDisplay | components/store/ProductCard.tsx:99-112 | a struck-through list price appears exactly on sale, above the shown price, which is always the charged one |
| Storefront.Badges | components/store/ProductCard.tsx:41-57 | the sale, featured and out-of-stock badges appear exactly under their conditions |
| Storefront.CardItem | components/store/ProductCardActions.tsx:58-66 | the item handed to addItem carries the effective price, the list price as original price, and the chosen style |
| Storefront.BoundLine | components/store/ProductCardActions.tsx:41-43 | the stepper is bound only for products without cutting options, to a cart line of that product with a null style, and to nothing if there is no such line |
| Storefront.FirstUncut | components/store/ProductCardActions.tsx:41-43 | a line found is in the cart, of that product and without a style; none found means no such line exists |
| Storefront.FirstUncutIsFirst | components/store/ProductCardActions.tsx:41-43 | the line found is the earliest one: every line before it is of another product or carries a style |
| Storefront.BoundLineIsFirst | components/store/ProductCardActions.tsx:41-43 | the bound line is the earliest uncut line of the product |
| Storefront.DirectAdd | components/store/ProductCardActions.tsx:45-69 | out of stock does nothing; a non-empty style list opens the modal; otherwise one unit at the effective price is added with a null style |
| Storefront.ModalAdd | components/store/ProductCardActions.tsx:71-84 | the modal's style and quantity reach addItem unchanged and the modal closes |
| Storefront.Increment | components/store/ProductCardActions.tsx:86-92 | with no bound line the card is unchanged; the cart never grows and the modal flag is untouched; IncrementAddsOne states the step |
| Storefront.Decrement | components/store/ProductCardActions.tsx:94-105 | with no bound line the card is unchanged; the cart never grows and the modal flag is untouched; DecrementRemovesOne and DecrementIsUpdate state the step |
| Storefront.CardUnitLabels | components/store/ProductCard.tsx:33 | kilograms are labelled "ק\"ג" and single units "יחידה", and the two labels differ |
| Storefront.UnboundStepperIsInert | components/store/ProductCardActions.tsx:86-105 | with no bound line, + and - leave the card state unchanged |
| Storefront.IncrementAddsOne | components/store/ProductCardActions.tsx:86-92 | with unique ids, + adds exactly one unit to the item count from a non-negative quantity; from a negative one it drops the line |
| Storefront.DecrementRemovesOne | components/store/ProductCardActions.tsx:94-105 | with unique ids, - at quantity one or less removes the line; above one it takes exactly one unit off |
| Storefront.DecrementIsUpdate | components/store/ProductCardActions.tsx:94-105 | the remove-or-decrement branch is exactly updateQuantity with one less |
| Storefront.CardAddsKeepPricesCapped | components/store/ProductCardActions.tsx:58-80 | adds from the card never put a line priced above its list price into the cart |
| Storefront.FreshLineSaleFlag | components/store/CartItem.tsx:24 | a line freshly added from the card is flagged on sale in the cart exactly when the card shows the sale badge |
| CuttingStyles.Lookup | components/store/CartItem.tsx:8-14 | a label found is stored under the key; none is found exactly when no entry has the key |
| CuttingStyles.Label | components/store/CartItem.tsx:47 | a missing or empty label falls back to the raw style; a non-empty one is shown |
| CuttingStyles.TablesAgreeOnCartStyles | components/store/CuttingStyleModal.tsx:10-19 | on the five styles the cart line knows, the modal shows the same label |
| CuttingStyles.ModalOnlyStyles | components/store/CuttingStyleModal.tsx:16-18 | the three modal-only styles show a Hebrew label in the modal but the raw value on the cart line |
| CuttingStyles.UnknownStyleShownRaw | components/store/CartItem.tsx:47 | a style neither table knows is shown raw in both places |
| CartView.ViewLine | components/store/CartItem.tsx:23-76 | the line shows the frozen price, a struck list price exactly when on sale, the style row exactly for a non-empty style, and price times quantity |
| CartView.LineTotalsAddUp | components/store/CartItem.tsx:69 | the line totals shown add up to the cart subtotal |
| CartView.LineButtons | components/store/CartItem.tsx:52-79 | with unique ids, minus at one equals trash; otherwise plus and minus change only that line's quantity by one; trash removes exactly that line |
| CartView.MinusMatchesCard | components/store/CartItem.tsx:53-62 | the cart line's minus and plus do what the product card's - and + do to the same line |
| CartView.Minus | components/store/CartItem.tsx:53 | the minus button is updateQuantity with one less, so at quantity one it removes the line; LineButtons states the effect |
| CartView.Plus | components/store/CartItem.tsx:62 | the plus button is updateQuantity with one more; LineButtons states the effect |
| CartView.Trash | components/store/CartItem.tsx:76 | the trash button is removeItem of the line's id; LineButtons states the effect |
| CartView.ViewFee | components/store/CartDrawer.tsx:121-122 | "free" shows exactly when the fee is zero, otherwise the amount |
| CartView.ProgressWidth | components/store/CartDrawer.tsx:98 | the bar is at most full, full exactly from the threshold, and half the subtotal as a percentage below it |
| CartView.ViewDrawer | components/store/CartDrawer.tsx:57-127 | the count badge shows exactly for a positive item count; the empty state exactly for no lines; otherwise one view per line and the cart's totals |
| CartView.BannerMatchesFee | components/store/CartDrawer.tsx:87-98 | the banner shows exactly when delivery is charged; its amount is positive and would make delivery free; the bar is then below full |
| CartView.ProgressInRange | components/store/CartDrawer.tsx:98 | for positive quantities and non-negative prices the subtotal is non-negative and the bar lies between 0 and 100 |
| CartView.EmptyDrawer | components/store/CartDrawer.tsx:72-83 | an empty cart shows no badge and the empty state |
| CuttingModal.OnOpen | components/store/CuttingStyleModal.tsx:47-52 | opening with styles selects the first and resets the quantity to one; an empty list changes nothing |
| CuttingModal.DecQuantity | components/store/CuttingStyleModal.tsx:178 | minus never goes below one and otherwise takes one off |
| CuttingModal.RunKeepsGood | components/store/CuttingStyleModal.tsx:42-52 | whatever is clicked, the quantity stays at least one and the selection is empty or an offered style |
| CuttingModal.HandleAdd | components/store/CuttingStyleModal.tsx:76-80 | the add goes through exactly when a style is selected, carrying that style and the quantity |
| CuttingModal.TotalTracksStepper | components/store/CuttingStyleModal.tsx:188 | each plus raises the shown total by the unit price; minus above one lowers it by the unit price; at one it stays one unit |
| CuttingModal.Rendered | components/store/CuttingStyleModal.tsx:84 | the modal renders exactly when open and mounted |
| CuttingModal.Step | components/store/CuttingStyleModal.tsx:45-178 | one user event: opening resets, a click picks that style, plus adds one, minus never goes below one; RunKeepsGood states the invariant it keeps |
| CuttingModal.ModalTotal | components/store/CuttingStyleModal.tsx:188 | for a quantity of at least one and a non-negative price, the total shown is at least the price; TotalTracksStepper states how it moves |
| CuttingModal.StyleCaption | components/store/CuttingStyleModal.tsx:163 | a style missing from the modal's eight-entry table is shown as written |
| CuttingModal.ModalAddKeepsBounds | components/store/ProductCardActions.tsx:148-161 | after any clicks in the modal, an add carries an offered style and a quantity of at least one, so the cart keeps positive quantities and capped prices |
| Checkout.Validate | app/api/orders/route.ts:32-50 | each 400 answer is returned exactly when its check is the first to fail, in the order name, phone, address, city, items; none when all pass |
| Checkout.PickOrderNumber | app/api/orders/route.ts:53-62 | one to ten lookups; every checked draw before the last was taken; a free last check gives that draw, and ten collisions give an eleventh draw |
| Checkout.PickedNumberIsFirstFree | app/api/orders/route.ts:53-62 | if any of the first ten draws is free the number is free; if none is, the number is the unchecked eleventh draw |
| Checkout.FirstFreeFrom | app/api/orders/route.ts:53-62 | the index found is the first free draw at or after the start among the ten checked, or ten when all of them are taken |
| Checkout.PickMatchesReference | app/api/orders/route.ts:53-62 | what the retry loop promises pins down its number and lookup count to the reference definition |
| Checkout.ToOrderItems | app/api/orders/route.ts:79-93 | one order line per request line, in order, every field passed through |
| Checkout.BuildOrder | app/api/orders/route.ts:65-99 | required fields are stored trimmed and non-empty; email and notes are trimmed or null; totals are the client's; the status is pending; the lines are non-empty |
| Checkout.PlaceOrder | app/api/orders/route.ts:32-99 | a rejected request makes no lookup and returns its error; an accepted one gets the built record whose number is the reference pick (the first free draw among the ten checked, or the eleventh draw unchecked when all ten were taken) after exactly the reference number of lookups |
| Checkout.TotalsNotRecomputed | app/api/orders/route.ts:74-76 | requests that differ only in their totals give records that differ only in their totals: the server never recomputes them |
| OrderNumbers.SuffixShape | app/api/orders/route.ts:11 | the suffix is one to four upper-case base-36 characters, or empty when the random number is zero |
| OrderNumbers.RandomSuffix | app/api/orders/route.ts:11 | the suffix has four characters when the rendering has six or more, none when it has two or fewer, and the rendering's length minus two otherwise |
| OrderNumbers.CheckoutNumber | app/api/orders/route.ts:6-13 | the number is "JF-", the year, the padded month and day, a hyphen and the suffix; CheckoutRoundTrip reads it back |
| OrderNumbers.CheckoutRoundTrip | app/api/orders/route.ts:6-13 | for four-digit years the number is 12 characters plus the suffix and reads back as its date and suffix |
| OrderNumbers.RandomFourDigits | lib/utils.ts:40 | the floored draw is below 10000 and is the integer part of the random number times 10000 |
| OrderNumbers.YearTail | lib/utils.ts:37 | the last two characters of a year of two or more digits are the year modulo 100 in two digits |
| OrderNumbers.UtilsFormat | lib/utils.ts:36-41 | the number is "JF", the year's last two characters, the padded month and day, a hyphen and the padded draw; UtilsRoundTrip reads it back |
| OrderNumbers.UtilsNumber | lib/utils.ts:35-42 | generateOrderNumber formats the floored draw of a random number in [0, 1); UtilsNumberShape states its shape |
| OrderNumbers.UtilsRoundTrip | lib/utils.ts:35-42 | the number is always 13 characters and reads back as the year modulo 100, month, day and drawn number |
| OrderNumbers.UtilsNumberShape | lib/utils.ts:35-42 | what generateOrderNumber returns for a random number has that shape, holding the floored draw |
| OrderNumbers.FormatsDisjoint | app/api/orders/route.ts:12 | no string is in both order-number formats |
| Slug.LowerChar | lib/utils.ts:27 | lower-casing one character leaves no ASCII capital, and leaves a slug character exactly for content characters |
| Slug.Slugify | lib/utils.ts:25-33 | a slug holds only lower-case ASCII letters, digits, Hebrew and hyphens, never two hyphens in a row, and no hyphen at either end |
| Slug.SlugHasNoSpace | lib/utils.ts:29 | a slug holds no white space and no underscore |
| Slug.SlugFixedPoint | lib/utils.ts:25-33 | a string already in slug shape is its own slug |
| Slug.SlugifyIdempotent | lib/utils.ts:25-33 | slugifying a slug changes nothing |
| Slug.SlugEmptyIff | lib/utils.ts:25-33 | the slug is empty exactly when the text has no ASCII letter or digit, no Hebrew character, and neither capital that lower-cases to ASCII |
| Fields.MissingIsEmptyTrim | app/api/orders/route.ts:32 | a field counts as missing exactly when it is absent or trims to the empty string, that is when it is all white space |
| Fields.TrimOrNull | app/api/orders/route.ts:70 | the result is null exactly for an absent or blank field, and otherwise the trimmed, non-empty text |
| Fields.OrNull | app/api/admin/products/route.ts:100 | the result is null exactly for an absent or empty field, and otherwise the field unchanged |
| Contact.DashesIgnored | app/api/contact/route.ts:19-20 | inserting a dash anywhere does not change whether the phone passes |
| Contact.AcceptedPhoneChars | app/api/contact/route.ts:19-20 | an accepted phone is made of ASCII digits and dashes only |
| Contact.AcceptedPhoneIsTrimmed | app/api/contact/route.ts:37 | trimming an accepted phone changes nothing |
| Contact.LeadingBlankRejected | app/api/contact/route.ts:14-20 | a phone with white space in front passes the presence check but fails the format rule, which is applied untrimmed |
| Contact.EmailMatchIff | app/api/contact/route.ts:29 | the pattern accepts exactly the addresses with no white space, exactly one `@` not in front, and a dot after it with a character on each side |
| Contact.EmailPartsAccepted | app/api/contact/route.ts:29 | every local@domain.tld of non-empty parts without white space or `@` is accepted |
| Contact.AcceptedEmailIsTrimmed | app/api/contact/route.ts:38 | trimming an accepted address changes nothing |
| Contact.StoredEmail | app/api/contact/route.ts:38 | for an e-mail that passed, trim-or-null stores the same as or-null |
| Contact.Validate | app/api/contact/route.ts:10-31 | each 400 answer is returned exactly when its check is the first to fail: name, phone, phone format, message, then e-mail when given |
| Contact.BuildRecord | app/api/contact/route.ts:34-41 | name and message are stored trimmed and non-empty; phone and a non-empty e-mail are stored exactly as sent; an empty or absent e-mail is null |
| Middleware.Decide | middleware.ts:8-29 | redirect exactly for a guarded page without a token, 401 exactly for a guarded API route without one, pass with a token |
| Middleware.PrefixesExclusive | middleware.ts:8-18 | no path is both an admin page and an admin API route |
| Middleware.Handle | middleware.ts:32-37 | paths outside the matcher always pass; matched ones get the middleware's decision |
| Middleware.AnonymousAdminPage | middleware.ts:8-14 | without a token, every page under /admin/ except those starting with the login path redirects |
| Middleware.LoginPrefixExempt | middleware.ts:8 | anything starting with /admin/login passes, token or not |
| Middleware.AuthLoginExempt | middleware.ts:18 | any admin API path that contains /auth/login anywhere passes without a token |
| Middleware.AnonymousApi | middleware.ts:18-27 | without a token, every other admin API route under the matcher answers 401 |
| Middleware.MatcherShieldsLookalikes | middleware.ts:32-37 | /administrator would be redirected by the body, but the matcher lets it pass |
| AdminOrders.DecimalDigitsValue | app/api/admin/orders/route.ts:19-20 | in radix ten the digit run parseInt reads has its decimal value |
| AdminOrders.ParseInt | app/api/admin/orders/route.ts:19-20 | parseInt is NaN exactly when no digit follows the white space, the sign and an optional 0x prefix |
| AdminOrders.ParseIntRoundTrip | app/admin/orders/page.tsx:75 | parseInt reads back every integer the page writes with toString |
| AdminOrders.ParseIntNaN | app/api/admin/orders/route.ts:19-20 | the empty string and text without digits are NaN |
| AdminOrders.OrDefault | app/api/admin/orders/route.ts:19-20 | a missing or empty query value gives the default, any other the value itself |
| AdminOrders.StatusFilter | app/api/admin/orders/route.ts:23 | orders are filtered by status exactly when one is given and it is not ALL |
| AdminOrders.ListOrders | app/api/admin/orders/route.ts:8-23 | 401 exactly when not signed in; otherwise the parsed page and limit, the status filter, and the skip offset of that page and limit |
| AdminOrders.Offset | app/api/admin/orders/route.ts:21 | skip is the number of orders on the pages before this one, (page - 1) * limit, and NaN (none) when either number is NaN |
| AdminOrders.Defaults | app/api/admin/orders/route.ts:19-21 | without page and limit the endpoint serves the first twenty orders |
| AdminOrders.Ceil | app/api/admin/orders/route.ts:50 | the ceiling is the least integer at or above the value |
| AdminOrders.TotalPages | app/api/admin/orders/route.ts:50 | the page count is undefined exactly for a zero limit |
| AdminOrders.TotalPagesIsCeilDiv | app/api/admin/orders/route.ts:50 | for a positive limit the page count is the integer ceiling of total over limit |
| AdminOrders.TotalPagesBounds | app/api/admin/orders/route.ts:50 | the pages cover the orders, the last page is not empty, and no orders means no pages |
| AdminOrders.PaginationOf | app/api/admin/orders/route.ts:44-51 | the answer echoes the parsed page and limit and the total, with the page count for a non-zero limit |
| AdminOrders.Get | app/api/admin/orders/route.ts:18-20 | a value found is stored under the key; none is found exactly when the key is absent |
| AdminOrders.FetchRoundTrip | app/admin/orders/page.tsx:74-80 | the endpoint serves what the page asks for: the current page, twenty per page from (page - 1) * 20, and the status filter exactly for a status other than ALL |
| AdminOrders.StepPage | app/admin/orders/page.tsx:93-96 | a new status goes back to page one; prev is never below one; next is never above the page count |
| AdminOrders.PageStaysInRange | app/admin/orders/page.tsx:215-225 | whatever is clicked, the page stays between one and the page count |
| AdminOrders.ControlsShown | app/admin/orders/page.tsx:126-136 | the controls show only once loading is over, the list is not empty, and there is more than one page |
| AdminOrders.ControlsIffMoreThanOnePage | app/admin/orders/page.tsx:205-206 | with a positive limit and a non-empty list on screen, the controls show exactly when the total exceeds the limit |
| AdminOrders.RangeShown | app/admin/orders/page.tsx:209-210 | the range starts after the previous pages and never ends past the total |
| AdminOrders.RangeWithinTotal | app/admin/orders/page.tsx:209-210 | on any page from one to the page count the range is a non-empty stretch of the orders, at most one page long |
| ProductForm.Toggle | app/admin/products/new/page.tsx:61-68 | the clicked style flips its membership, every other style keeps its own, an unchecked one is appended, and a duplicate-free list stays so |
| ProductForm.ToggleTwiceRestores | app/admin/products/new/page.tsx:61-68 | ticking an unchecked style and unticking it gives back the same list |
| ProductForm.ToggleTwiceMovesToEnd | app/admin/products/new/page.tsx:64-66 | unticking a checked style and ticking it again moves it to the end |
| ProductForm.ToggleAllDistinct | app/admin/products/new/page.tsx:61-68 | any clicks on the checkboxes keep a duplicate-free list duplicate-free |
| ProductForm.CategoriesLoaded | app/admin/products/new/page.tsx:53-55 | the first loaded category is preselected; an empty list leaves the form alone |
| ProductForm.Submit | app/admin/products/new/page.tsx:79-84 | the price is parsed; an empty sale price is sent as null; styles are sent only when cutting options are on; other fields pass through |
| ProductForm.SubmittedFormIsAccepted | app/admin/products/new/page.tsx:53-84 | a form submitted once categories arrived passes the endpoint's required-field check whenever a name was typed, an unreadable price going out as null; the stored row takes the first category, the typed name and unit, and keeps no styles unless cutting is offered |
| AdminCreate.SalePriceOrNull | app/api/admin/products/route.ts:102 | the sale price is dropped exactly when absent or zero |
| AdminCreate.ProductRowOf | app/api/admin/products/route.ts:95-111 | each column is the sent value or its default: empty text to null, unit KG, no styles, in stock, not featured, order 0, active |
| AdminCreate.CreateProduct | app/api/admin/products/route.ts:36-93 | each failure happens exactly when its check is the first to fail: 401, fields, category, slug; a created product's slug is new and is recorded |
| AdminCreate.CreateCategory | app/api/admin/categories/route.ts:32-72 | 401, then a falsy name, then a taken slug, each exactly when first to fail; a created category's slug is new and is recorded with the defaults |
| AdminCreate.ServeKeepsSlugsUnique | app/api/admin/products/route.ts:81-93 | one request never records a slug twice |
| AdminCreate.ServeAllKeepsSlugsUnique | app/api/admin/products/route.ts:81-93 | whatever is posted, product slugs and category slugs each stay pairwise distinct |
| AdminCreate.SymbolNamesCollide | app/api/admin/products/route.ts:81-93 | two names with no letter, digit or Hebrew share the empty slug, so the second product is refused |
| Cloudinary.Transforms | lib/cloudinary.ts:12-17 | no transform exactly when neither dimension is truthy; otherwise width, then height, then the crop, default fill, last |
| Cloudinary.SplitJoin | lib/cloudinary.ts:19 | splitting a comma join gives back parts that hold no comma |
| Cloudinary.Segment | lib/cloudinary.ts:19 | the segment is empty exactly when no dimension is given, and otherwise ends with a slash |
| Cloudinary.Url | lib/cloudinary.ts:21 | the URL is the upload base for the cloud name, then the segment, then the public id |
| Cloudinary.TransformsCommaFree | lib/cloudinary.ts:15-17 | no transform contains a comma |
| Cloudinary.SegmentRoundTrip | lib/cloudinary.ts:19 | dropping the segment's final slash and splitting on commas gives back the transforms |
| Cloudinary.ZeroAndCropAloneIgnored | lib/cloudinary.ts:12-21 | a zero width and height, or a crop alone, gives the plain URL |
| Navigation.IsActive | components/admin/Sidebar.tsx:49-50 | the dashboard is active only on its own path; every other entry is active on any path starting with its href |
| Navigation.AtMostOneActive | components/admin/Sidebar.tsx:15-20 | for any path at most one menu entry is highlighted |
| Navigation.SectionPrefix | components/admin/Sidebar.tsx:49-50 | sub-pages highlight their section, and the dashboard only its own path |
| Navigation.FindMatch | components/store/CategoryPills.tsx:37 | the index found is the leftmost match from the start position, and none means no match there |
| Navigation.ActiveSlug | components/store/CategoryPills.tsx:36-39 | no slug exactly when the pattern matches nowhere; a slug found is non-empty and holds no slash |
| Navigation.SlugRoundTrip | components/store/CategoryPills.tsx:36-39 | the slug read off a category path is the one written into it, whatever segment follows |
| Navigation.PillPageHighlightsItself | components/store/CategoryPills.tsx:61-63 | on a pill's own page exactly that pill is highlighted |
| Navigation.SlugifiedPillsWork | components/store/CategoryPills.tsx:61-63 | a category whose name has an ASCII letter or digit, a Hebrew letter or a capital that lower-cases to ASCII gets a slug that highlights its own pill |
| Navigation.BareMarkerInactive | components/store/CategoryPills.tsx:37 | the bare /category/ path highlights nothing |

## Left out

- Rendering, styling, toasts, portals, focus and keyboard handling, and the cart drawer's open flag are left out. They decide nothing about the cart's contents.
- Reading and writing `localStorage` is left out, and so is `JSON.parse`. The stored value comes in already classified as missing, unparsable, a non-array or an array.
- Database errors and the 500 answers, `include` and `orderBy` are left out. So are the order lines' product `connect`, the Prisma enum cast of a cutting style, and the listing query itself. What the database holds is a parameter.
- The internals of `getCurrentAdmin` and the token check are left out. The model gets a boolean for "signed in" and a value for "the cookie".
- `formatPrice`, `formatDate` and floating-point rounding are left out. Prices are exact reals, so a subtotal never shows rounding error.
- `parseFloat` is a parameter of `ProductForm.Submit`, because its grammar is not modelled.
- JSON values of the wrong type are not modelled: a number where a string is expected, or an object where an array is expected. Every string field is a string or absent.
- Cloudinary.Url: the width and height are integers. A fractional, negative-zero or NaN dimension, and its rendering, are not modelled.
- Slug.LowerChar: lower-casing maps the ASCII capitals, KELVIN SIGN and LATIN CAPITAL LETTER I WITH DOT ABOVE. Every other character is kept, because its real lower-case form is deleted by the later steps exactly as the character itself is. The full Unicode case table is not modelled.
- AdminOrders.ParseInt: values are unbounded integers, so the loss of precision above 2^53 is not modelled.
- Middleware.Handle: the two patterns of the route matcher are modelled as path-prefix rules ("/admin" or below it, "/api/admin" or below it). Next.js's compilation of the patterns, locales and the `_next` internals are not.
- CuttingStyles.Label: the label tables are looked up as plain association lists. In the source they are object literals, so a style named after an inherited property (`toString`, `constructor`, `hasOwnProperty`, `valueOf` and the like) finds a function, which React does not render, so the caption comes out empty where the model shows the raw style. `CartView.ViewLine` and `CuttingModal.StyleCaption` share this.
- CuttingStyles.UnknownStyleShownRaw: it holds for styles that are not names of inherited object properties, for the reason given under CuttingStyles.Label.
- Navigation.ActiveSlug: the path is taken as written in the pill's href. Whether `usePathname` hands back a non-ASCII (Hebrew) slug percent-encoded is not modelled. `Navigation.PillPageHighlightsItself` and `Navigation.SlugifiedPillsWork` assume it comes back decoded.
- Storefront.IncrementAddsOne: it states the one-unit step only from a non-negative quantity. From a negative quantity updateQuantity drops the line, and the lemma states that instead.
- Checkout.PickOrderNumber: the draw is a sequence given in advance rather than fresh randomness. The lemma states what happens for any such sequence.
- The other operations of `CartContext.tsx` (`openCart`, `closeCart`, `toggleCart`) and the `isHydrated` guard on saving only concern the drawer flag and persistence.
