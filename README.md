# A verified model of the Luxe storefront's client-side core

The storefront has no server. Its behaviour lives in a few client-side
stores and in list queries embedded in its pages. This project models
those in Dafny and proves what they promise:

- the shopping cart (add-or-merge, remove, set quantity, clear, and the
  join of the cart against the catalog with its two totals);
- the notification feed (prepend, mark read, delete, delete all, unread
  count);
- the authentication service: administrator bootstrap, registration that
  refuses a duplicate email, login with its two errors, the current-user
  pointer, and logout;
- the `{user, isLoading}` state machine of the auth context;
- the product catalog: the seed list and the lookup by id, the featured
  products and the products of a category;
- the checkout page: the totals with 8% tax, the three-step wizard,
  prefilled forms with the name split into first and last name, card
  last-4, and order placement;
- the admin orders page: the newest-first listing, search and status
  filter, status colours, and status update;
- the admin dashboard: revenue, order, product and customer counts, the
  five newest orders, the per-product sales tally, and the top five
  products;
- the shop page: category options with their labels, the search and
  category filter, and the five sort orders;
- the category overview: the grouping `reduce` with its counts, products
  and cover image, and the lowest price;
- the customer's order history.

Storage is held in fields and sequences. Ids and timestamps are
parameters. Prices and quantities are natural numbers, and the tax is
computed over reals.

Each store whose state the source replaces step by step is a class. Each
such class has methods proved against pure functions on the state:
`Cart.CartStore`, `Notifications.Feed`, `Auth.AuthService`,
`AuthContext.AuthProvider`, `Checkout.Wizard`, `Checkout.OrderStore`,
`AdminOrders.AdminOrdersPage` and `OrdersPage.OrderHistory`.

The loops of the source are methods with loop invariants:

- the in-place `Array.prototype.sort` is `Sorting.SortInPlace`, a stable
  insertion sort on an array, proved equal to the functional
  `Sorting.SortDesc`;
- the dashboard's nested `forEach` over a dictionary is
  `AdminDashboard.ProductSales`, `RecordItems` and `RecordLine`;
- the category `reduce` is `CategoriesPage.Categories` and `AddProduct`.

Every comparator the pages pass to `sort` compares one numeric key of
the two elements. So a sort is a stable sort by an integer key into
non-increasing order, and an ascending sort uses the negated key.

Modules and files:

| module | file | source |
|---|---|---|
| Wrappers | wrappers.dfy | `Option`, `Result` |
| Seqs | seqs.dfy | `filter`, `includes`, `toLowerCase`, `new Set`, `split`, `join` |
| Sorting | sorting.dfy | stable `sort(cmp)`, `slice(0, n)` |
| Catalog | catalog.dfy | lib/mock-data.ts |
| Cart | cart.dfy | contexts/cart-context.tsx |
| Notifications | notifications.dfy | contexts/notifications-context.tsx |
| Auth | auth.dfy | lib/auth.ts |
| AuthContext | auth_context.dfy | contexts/auth-context.tsx |
| Checkout | checkout.dfy | app/checkout/page.tsx |
| AdminOrders | admin_orders.dfy | app/admin/orders/page.tsx |
| AdminDashboard | admin_dashboard.dfy | app/admin/page.tsx |
| ProductsPage | products_page.dfy | app/products/page.tsx |
| CategoriesPage | categories_page.dfy | app/categories/page.tsx |
| OrdersPage | orders_page.dfy | app/orders/page.tsx |

Four behaviours of the code are easy to misread. The model follows the
code in each:

- **Order total.** The order's `total` includes the 8% tax
  (app/checkout/page.tsx:85-88, 111). It is not the bare sum of price
  times quantity.
- **Password map on bootstrap.** `initializeUsers` on an empty users list
  *replaces* the password map with the administrator's single entry
  (lib/auth.ts:46-47). Entries left from an earlier store are dropped.
- **Bootstrap inside every call.** `register`, `login` and
  `getCurrentUser` each run `initializeUsers` first. So on an empty store,
  registering the administrator's email fails as a duplicate.
- **Dashboard sort order.** The dashboard sorts the loaded `orders` array
  newest first in place (app/admin/page.tsx:37-38) before it tallies the
  sales. The tally therefore walks the orders newest first, and a
  product's snapshot comes from its first line in that order: the newest
  order that contains it.

## Model

| member | source | states |
|---|---|---|
| Sorting.SortInPlace | app/products/page.tsx:57-72 | sorting an array in place leaves exactly the stable sort of its old contents by non-increasing key |
| Sorting.SortDescSorted | app/admin/orders/page.tsx:29 | the sort result has non-increasing keys |
| Sorting.SortDescStable | app/products/page.tsx:70-71 | the elements sharing any one key keep their input order (stability) |
| Sorting.SortedCopy | app/orders/page.tsx:29 | sorting a copy gives the stable sort, ordered by non-increasing key, as a permutation of the input |
| Sorting.TopSpec | app/admin/page.tsx:56-58 | `sort(...).slice(0, n)` has min(n, length) elements, in non-increasing key order, all from the input, and nothing left out has a larger key than one kept |
| Catalog.FindProduct | lib/mock-data.ts:121-123 | the lookup is empty exactly when no product has the id; otherwise it is a product with that id, and no earlier product has it (the first match) |
| Catalog.FindProductDistinct | lib/mock-data.ts:121-123 | with distinct ids, looking up a catalog product's id returns that product |
| Catalog.FeaturedProductsExact | lib/mock-data.ts:125-127 | a product is returned iff it is in the catalog and featured, as often as in the catalog, and the filter distributes over concatenation (catalog order is kept) |
| Catalog.ProductsByCategoryExact | lib/mock-data.ts:129-131 | a product is returned iff it is in the catalog with category `c`, as often as in the catalog, in catalog order |
| Catalog.SeedWellFormed | lib/mock-data.ts:39-118 | the seed catalog has six products with pairwise distinct ids and positive prices |
| Catalog.SeedFacts | lib/mock-data.ts:39-118 | the seed products have ids 1 to 6 in order; 1 to 3 are featured, 4 to 6 are not; only product 6 is out of stock |
| Catalog.Seed1Facts | lib/mock-data.ts:40-52 | product 1 has id "1", price 44850, is featured and in stock |
| Catalog.Seed2Facts | lib/mock-data.ts:53-65 | product 2 has id "2", a positive price, is featured and in stock |
| Catalog.Seed3Facts | lib/mock-data.ts:66-78 | product 3 has id "3", a positive price, is featured and in stock |
| Catalog.Seed4Facts | lib/mock-data.ts:79-91 | product 4 has id "4", a positive price, is in stock and not featured |
| Catalog.Seed5Facts | lib/mock-data.ts:92-104 | product 5 has id "5", a positive price, is in stock and not featured |
| Catalog.Seed6Facts | lib/mock-data.ts:105-117 | product 6 has id "6", a positive price, is neither featured nor in stock |
| Catalog.SeedFeatured | lib/mock-data.ts:51-116 | the featured products of the seed are exactly its first three, ids 1, 2 and 3 |
| Catalog.SeedStock | lib/mock-data.ts:51-116 | some seed product is out of stock, and every out-of-stock one is product 6 |
| Cart.ItemsWithProducts | contexts/cart-context.tsx:60-65 | every joined line is a cart line together with the product its id looks up to; there are never more joined lines than cart lines |
| Cart.JoinKeepsResolved | contexts/cart-context.tsx:60-65 | the join keeps exactly the cart lines whose product resolves, in cart order (unresolved lines are dropped) |
| Cart.TotalPriceByLookup | contexts/cart-context.tsx:60-69 | `totalPrice` equals the per-line lookup price summed over the whole cart, with unresolved lines contributing 0 |
| Cart.TotalItemsSplit | contexts/cart-context.tsx:60-68 | `totalItems` counts unresolved lines too: it is the units of the resolved lines plus those of the dropped lines |
| Cart.TotalItemsAppend | contexts/cart-context.tsx:68 | the unit count adds up over a concatenation |
| Cart.SingleLinePrice | contexts/cart-context.tsx:69 | a one-line cart whose product resolves costs price times quantity |
| Cart.EmptyTotals | contexts/cart-context.tsx:68-69 | an empty cart has no lines, no units and costs 0 |
| Cart.AddExisting | contexts/cart-context.tsx:73-79 | adding a product already in the cart keeps the length, raises each of its lines by exactly `quantity` and changes no other line |
| Cart.AddNew | contexts/cart-context.tsx:80-89 | adding a new product appends one line with the fresh id, the product, the quantity and the time after the unchanged old lines |
| Cart.AddKeepsDistinct | contexts/cart-context.tsx:71-91 | if product ids are pairwise distinct before `addItem` they still are after it, and exactly one line holds the added product |
| Cart.BumpKeepsIds | contexts/cart-context.tsx:73-79 | the merge branch keeps product ids distinct and the product on exactly one line |
| Cart.AppendKeepsDistinct | contexts/cart-context.tsx:80-89 | the append branch keeps product ids distinct and the product on exactly one line |
| Cart.AddTotalItems | contexts/cart-context.tsx:71-91 | `addItem` raises `totalItems` by `quantity` per existing line of the product, or by `quantity` once for a new product |
| Cart.BumpTotal | contexts/cart-context.tsx:77-79 | the merge raises the unit count by `quantity` times the number of lines of the product |
| Cart.RemoveItemSpec | contexts/cart-context.tsx:93-95 | after `removeItem` no line has the id, every other line stays, order is kept (removal distributes over concatenation), and an absent id changes nothing |
| Cart.UpdateNonPositiveRemoves | contexts/cart-context.tsx:97-101 | `updateQuantity` with a quantity of at most 0 is exactly `removeItem` |
| Cart.RemoveKeepsDistinct | contexts/cart-context.tsx:93-95 | if product ids are pairwise distinct before `removeItem` they still are after it |
| Cart.UpdateKeepsDistinct | contexts/cart-context.tsx:97-104 | if product ids are pairwise distinct before `updateQuantity` they still are after it, for every quantity |
| Cart.UpdatePositiveSets | contexts/cart-context.tsx:103 | `updateQuantity` with a positive quantity sets it on the lines with the id and changes nothing else, length included |
| Cart.CartStore.constructor | contexts/cart-context.tsx:35 | the cart starts empty, so its product ids are distinct |
| Cart.CartStore.AddItem | contexts/cart-context.tsx:71-91 | the new lines are the add-or-merge of the old; distinct product ids are preserved; the unit count grows as `AddTotalItems` states |
| Cart.CartStore.RemoveItem | contexts/cart-context.tsx:93-95 | the new lines are the old ones without the id, no line has the id, and distinct product ids stay distinct |
| Cart.CartStore.UpdateQuantity | contexts/cart-context.tsx:97-104 | the new lines are the quantity update of the old; a quantity of at most 0 removes the line; distinct product ids stay distinct |
| Cart.CartStore.ClearCart | contexts/cart-context.tsx:106-108 | the cart is empty, holds no units and its product ids are distinct |
| Notifications.MarkedRead | contexts/notifications-context.tsx:57-59 | same length; entries with the id become read, all others are unchanged |
| Notifications.AddSpec | contexts/notifications-context.tsx:47-55 | the new entry is first and unread, the old list follows unchanged, and the unread count grows by exactly 1 |
| Notifications.MarkOnlyTouchesId | contexts/notifications-context.tsx:57-59 | marking read changes only the `read` flag, and only of entries with that id; length, order and the other fields are kept |
| Notifications.MarkIdempotent | contexts/notifications-context.tsx:58 | marking read twice is marking read once |
| Notifications.MarkUnreadCount | contexts/notifications-context.tsx:57-69 | marking read lowers the unread count by exactly the number of unread entries with that id |
| Notifications.ClearSpec | contexts/notifications-context.tsx:61-63 | after clearing, no entry has the id, every other entry stays, and order is kept |
| Notifications.UnreadBounded | contexts/notifications-context.tsx:69 | the unread count never exceeds the length, and is 0 iff every entry is read |
| Notifications.Feed.constructor | contexts/notifications-context.tsx:26 | the feed starts empty |
| Notifications.Feed.AddNotification | contexts/notifications-context.tsx:47-55 | the feed becomes the new unread entry followed by the old feed, and the unread count grows by 1 |
| Notifications.Feed.MarkAsRead | contexts/notifications-context.tsx:57-59 | the feed becomes the marked feed, and the unread count drops by the unread entries with the id |
| Notifications.Feed.ClearNotification | contexts/notifications-context.tsx:61-63 | the feed loses exactly the entries with the id |
| Notifications.Feed.ClearAll | contexts/notifications-context.tsx:65-67 | the feed is empty and nothing is unread |
| Notifications.Feed.Unread | contexts/notifications-context.tsx:69 | the unread count is at most the number of entries |
| Auth.FindByEmail | lib/auth.ts:84 | empty iff no user has the email; otherwise a stored user with that email, and no earlier user has it (the first match) |
| Auth.InitializeSpec | lib/auth.ts:33-49 | on an empty store exactly the administrator and its password are stored; otherwise nothing changes; the current user is never touched |
| Auth.RegisterDuplicate | lib/auth.ts:57-59 | a registered email is refused with "User already exists with this email", and users and passwords stay as the bootstrap left them |
| Auth.RegisterSuccess | lib/auth.ts:61-77 | a new email appends one customer with the given id, email, name and time, maps the email to the password, and leaves the current user unset |
| Auth.RegisterKeepsUniqueEmails | lib/auth.ts:57-70 | registration keeps the emails of the user list pairwise distinct |
| Auth.RegisterTwiceFails | lib/auth.ts:52-78 | registering the same email a second time fails with the duplicate error |
| Auth.LoginFailures | lib/auth.ts:86-94 | an unknown email gives "User not found" and a wrong or missing password gives "Invalid password"; a failure leaves the current user as it was |
| Auth.LoginSuccess | lib/auth.ts:96-97 | a successful login returns a stored user with that email and matching password, and makes it current |
| Auth.LogoutClears | lib/auth.ts:101-112 | after logout, `getCurrentUser` returns none |
| Auth.BootstrapAdminLogin | lib/auth.ts:81-98 | on an empty store the bootstrap credentials log in as the administrator |
| Auth.AuthService.constructor | lib/auth.ts:18-30 | the service holds the given users, passwords and current user |
| Auth.AuthService.InitializeUsers | lib/auth.ts:33-49 | the new storage is the bootstrap of the old |
| Auth.AuthService.Register | lib/auth.ts:52-78 | storage and result are those of `Registered` on the old storage |
| Auth.AuthService.Login | lib/auth.ts:81-98 | storage and result are those of `LoggedIn` on the old storage |
| Auth.AuthService.GetCurrentUser | lib/auth.ts:101-106 | runs the bootstrap and returns the stored current user |
| Auth.AuthService.Logout | lib/auth.ts:109-112 | the current user is removed; users and passwords are unchanged |
| AuthContext.ErrorOr | contexts/auth-context.tsx:37 | a non-empty error is reported as is; an empty one becomes the default |
| AuthContext.ServiceErrorsNonEmpty | contexts/auth-context.tsx:35-38 | every error the service returns is non-empty, so the defaults "Login failed" and "Registration failed" are never shown |
| AuthContext.SettleSuccess | contexts/auth-context.tsx:32-34 | a successful answer sets the user, ends loading and replies success |
| AuthContext.SettleFailure | contexts/auth-context.tsx:35-38 | a failed answer keeps the previous user, ends loading and replies failure with a non-empty error |
| AuthContext.RegisterShowsUserNotStored | contexts/auth-context.tsx:46-48 | after a successful registration the context shows the new user, while the stored current user is what it was |
| AuthContext.AuthProvider.constructor | contexts/auth-context.tsx:16-19 | no user and loading before mount |
| AuthContext.AuthProvider.Mount | contexts/auth-context.tsx:21-25 | the state becomes the stored current user, not loading |
| AuthContext.AuthProvider.Login | contexts/auth-context.tsx:27-39 | the service steps as `login` does, and the state and reply are the settled outcome after loading began |
| AuthContext.AuthProvider.Register | contexts/auth-context.tsx:41-53 | the service steps as `register` does, and the state and reply are the settled outcome after loading began |
| AuthContext.AuthProvider.Logout | contexts/auth-context.tsx:55-58 | the state is no user, not loading, and the service has logged out |
| Checkout.TotalSpec | app/checkout/page.tsx:85-88 | with free shipping, the total is the subtotal times 1.08, the tax is the difference, and the total is never below the subtotal |
| Checkout.NameWithoutSpace | app/checkout/page.tsx:47-48 | a name without a space is all first name, and the last name is empty |
| Checkout.NameAtFirstSpace | app/checkout/page.tsx:47-48 | with the first space at k, the first name is what precedes it, the last name is everything after it, and first + " " + last gives the name back |
| Checkout.InitialFormsFromUser | app/checkout/page.tsx:46-63 | for a signed-in user, the shipping form starts with the split name and email, and the card name is the first and last name rejoined |
| Checkout.Last4 | app/checkout/page.tsx:116 | the result is the suffix of the card number of length min(4, length) |
| Checkout.StepsCompletion | app/checkout/page.tsx:133-137 | steps are numbered 1 to 3; step k is ticked iff k is below the current step and k < 3 |
| Checkout.Wizard.constructor | app/checkout/page.tsx:43 | the wizard starts at step 1 |
| Checkout.Wizard.SubmitShipping | app/checkout/page.tsx:90-93 | submitting shipping moves to step 2, where only step 1 is ticked |
| Checkout.Wizard.SubmitPayment | app/checkout/page.tsx:95-98 | submitting payment moves to step 3, where steps 1 and 2 are ticked |
| Checkout.Wizard.BackToShipping | app/checkout/page.tsx:364 | the back button of the payment step returns to step 1, where nothing is ticked |
| Checkout.Wizard.BackToPayment | app/checkout/page.tsx:440 | the back button of the review step returns to step 2, where step 2 is not ticked |
| Checkout.NewOrderSpec | app/checkout/page.tsx:107-119 | a placed order has status "processing", the user's id, the fresh id and time, exactly the resolved cart lines in cart order, and a total of the lines' price times 1.08 |
| Checkout.SeedOrderTotal | app/checkout/page.tsx:107-119 | two units of seed product 1 make an order total of 96876 |
| Checkout.OrderStore.constructor | app/checkout/page.tsx:122 | the store holds the given orders |
| Checkout.PlaceOrder | app/checkout/page.tsx:100-131 | the order built from the old cart is appended as the one new last order, and the cart is then empty |
| AdminOrders.FilteredOrdersExact | app/admin/orders/page.tsx:32-40 | an order is listed iff it is stored, the lower-cased query occurs in its lower-cased id or "first last" name, and the status filter is "all" or its status; relative order is kept |
| AdminOrders.NoFilterListsAll | app/admin/orders/page.tsx:32-40 | an empty query with status "all" lists every order |
| AdminOrders.StatusColorSpec | app/admin/orders/page.tsx:42-55 | the four known statuses get four different colours, and a status gets the gray default iff it is not one of them |
| AdminOrders.WithStatus | app/admin/orders/page.tsx:57-58 | same length; orders with the id take the new status, and nothing else changes |
| AdminOrders.AnyStatusCanBeSet | app/admin/orders/page.tsx:57-58 | any status can be set from any status, and updating twice is updating once |
| AdminOrders.WithStatusKeepsOrder | app/admin/orders/page.tsx:57-61 | a status update keeps the listing newest first |
| AdminOrders.AdminOrdersPage.constructor | app/admin/orders/page.tsx:22-24 | no orders, empty search and status "all" |
| AdminOrders.AdminOrdersPage.Load | app/admin/orders/page.tsx:26-30 | the listing is the stored orders sorted newest first: non-increasing creation time and a permutation of the stored list |
| AdminOrders.AdminOrdersPage.UpdateOrderStatus | app/admin/orders/page.tsx:57-61 | the page list becomes the updated list and is also written back to storage; filters are kept |
| AdminDashboard.TotalRevenueAppend | app/admin/page.tsx:31 | revenue adds up over a concatenation of order lists |
| AdminDashboard.TotalRevenueNonNegative | app/admin/page.tsx:31 | revenue is never negative when no order total is |
| AdminDashboard.CustomersAndAdmins | app/admin/page.tsx:34 | customers and administrators together are all users, so the customer count never exceeds the user count |
| AdminDashboard.RecentOrdersSpec | app/admin/page.tsx:37-39 | at most 5 orders, newest first, all stored, and no stored order left out is newer than one shown |
| AdminDashboard.Tally | app/admin/page.tsx:42-54 | the tally's keys list each product once, and are exactly the products with an entry |
| AdminDashboard.TallySold | app/admin/page.tsx:42-54 | a product has an entry iff some line is for it |
| AdminDashboard.TallyQuantity | app/admin/page.tsx:42-54 | a product's quantity is the sum of the quantities of all lines for it |
| AdminDashboard.TallyFirstSnapshot | app/admin/page.tsx:45-52 | a product's snapshot is the product of its first line |
| AdminDashboard.SnapshotKept | app/admin/page.tsx:45-46 | a product already tallied keeps its snapshot and its first line |
| AdminDashboard.SnapshotNew | app/admin/page.tsx:47-52 | a product first seen on the last line takes that line's snapshot |
| AdminDashboard.RecordKeepsProduct | app/admin/page.tsx:45-46 | recording a line never replaces an existing snapshot |
| AdminDashboard.RecordLine | app/admin/page.tsx:45-52 | the dictionary update for one line is one tally step |
| AdminDashboard.RecordItems | app/admin/page.tsx:44-53 | the inner loop extends the tally by the order's items |
| AdminDashboard.ProductSales | app/admin/page.tsx:43-54 | the nested loop computes the tally of all lines of all orders in order |
| AdminDashboard.SortKeepsQuantity | app/admin/page.tsx:37-54 | sorting the orders first changes no product's quantity |
| AdminDashboard.DashboardQuantity | app/admin/page.tsx:37-54 | the dashboard's quantity for a product is the sum over every line for it in every stored order |
| AdminDashboard.Values | app/admin/page.tsx:56 | one value per key, in key order, each the entry of its key |
| AdminDashboard.TopProductsSpec | app/admin/page.tsx:56-58 | at most 5 entries, by non-increasing quantity, each an entry of the tally, and no entry left out sold more than one shown |
| AdminDashboard.ComputeStats | app/admin/page.tsx:27-67 | the stats are those of the specification: orders counted, revenue summed, customers at most the users, at most 5 recent orders and top products |
| ProductsPage.LabelIsCharwise | app/products/page.tsx:39-42 | split on "-", capitalise, join with " " equals the character-wise reference label |
| ProductsPage.LabelFromAt | app/products/page.tsx:39-42 | the reference label keeps the length, turns "-" into a space, upper-cases each word's first character, and keeps the rest |
| ProductsPage.CategoryLabelSpec | app/products/page.tsx:39-42 | position by position, a category's label is the category with hyphens as spaces and each word's first character upper-cased |
| ProductsPage.ProductCategories | app/products/page.tsx:36 | one category per product, in catalog order |
| Seqs.DistinctOrder | app/products/page.tsx:36 | `Array.from(new Set(xs))` keeps first-appearance order: of two listed elements, the earlier one occurs in `xs` before every occurrence of the later one |
| ProductsPage.CategoryOptions | app/products/page.tsx:35-44 | one option per distinct category in first-appearance order, valued by the category and labelled by its label |
| ProductsPage.CategoryOptionsSpec | app/products/page.tsx:35-44 | no category is offered twice, every option is some product's category, and every product's category is offered |
| ProductsPage.FilteredExact | app/products/page.tsx:48-54 | a product is kept iff the lower-cased query occurs in its lower-cased name or description and the category is "all" or its own; the result is a sub-multiset of the catalog, so "Showing n of m" has n ≤ m |
| ProductsPage.FilteredProducts | app/products/page.tsx:47-75 | the list is the filtered products stably sorted by the chosen comparator, and a permutation of them |
| ProductsPage.SortOrders | app/products/page.tsx:57-69 | "price-low" gives non-decreasing prices, "price-high" non-increasing prices, "rating" non-increasing ratings, "name" non-decreasing rank |
| ProductsPage.FeaturedSort | app/products/page.tsx:70-71 | the default sort puts every featured product before every other, keeping catalog order within each group |
| CategoriesPage.Grouping | app/categories/page.tsx:12-31 | the keys are exactly the categories grouped; each group counts its products, holds at least one, is labelled, and shows its first product's image |
| CategoriesPage.GroupingKeys | app/categories/page.tsx:12-31 | categories are listed once each, in order of first appearance |
| CategoriesPage.GroupingProducts | app/categories/page.tsx:12-28 | a category's products are exactly the catalog's products of that category, in catalog order; a category with none has no entry |
| CategoriesPage.CountsSumToCatalog | app/categories/page.tsx:26 | the counts over all categories sum to the catalog size |
| CategoriesPage.AddProduct | app/categories/page.tsx:13-29 | the in-place dictionary update is one fold step |
| CategoriesPage.Categories | app/categories/page.tsx:12-31 | the loop computes the grouping of the whole catalog |
| CategoriesPage.CategoryList | app/categories/page.tsx:33-36 | one card per key in key order, carrying the key as slug and its group's fields |
| CategoriesPage.MinPrice | app/categories/page.tsx:76 | "Starting from" is the price of one of the products and at most every price |
| CategoriesPage.CategoryListSpec | app/categories/page.tsx:12-36 | each card counts and lists exactly its category's catalog products in order, shows the first one's image and the category's label, and its minimum is at most every price |
| OrdersPage.UserOrders | app/orders/page.tsx:28-29 | every listed order is the user's, each of the user's stored orders is listed as often as stored, and the list is newest first |
| OrdersPage.NoUserNoOrders | app/orders/page.tsx:33-51 | without a user no orders are shown, and the page is blank exactly when it redirects to login |
| OrdersPage.OrderHistory.constructor | app/orders/page.tsx:16 | the history starts empty |
| OrdersPage.OrderHistory.Load | app/orders/page.tsx:24-31 | with a user, the history is the user's stored orders sorted newest first; without one, nothing is loaded |

## Left out

- Browser storage (`localStorage`, `JSON.parse`/`JSON.stringify`, the `typeof window` guards, the try/catch around a corrupt cart): stores are plain fields, sequences and maps.
- Clocks (`Date.now()`, `new Date()`): ids and times are caller-supplied parameters, and times are integers.
- `async`/`await`, the 2000 ms delay before an order is placed, React effect scheduling and state batching: each handler is one sequential step.
- The checkout `isProcessing` flag only disables the button; it is not modelled.
- Router redirects are not performed. The conditions under which the checkout and order-history pages render or redirect are the predicates `Checkout.Renders` and `OrdersPage.RedirectsToLogin`.
- The real-time hooks (`Math.random`, timers), currency formatting (`toLocaleString`, `toFixed`), `formatDistanceToNow` and all JSX rendering.
- Floating point: order totals and revenue are reals, and the tax is an exact 8%.
- Ratings such as 4.9 are kept in tenths (49), so the rating sort compares integers in the same order.
- `localeCompare` is not modelled. The "name" sort takes a caller-supplied rank function as the order it follows.
- Case mapping covers ASCII letters only; `toLowerCase`/`toUpperCase` on other characters are the identity.
- The seed catalog's text fields are written as concatenations of shorter literals; they spell the same strings.
- AdminDashboard.TopProducts: `Object.values` lists integer-like keys (the product ids "1" to "6") in ascending numeric order, not insertion order. The model lists entries in order of first sale, so among products with equal quantities the model's order may differ from the page's. `TopProductsSpec` does not depend on that order.
- CategoriesPage.CategoryList: `Object.entries` likewise lists integer-like keys first, in ascending numeric order. The model lists categories in order of first appearance in the catalog, so for a catalog with a category named like an integer the card order may differ from the page's. The seed catalog has no such category. `CategoryListSpec` does not depend on that order.
- The shop page's initial category from the `category` query parameter and the category page's "product"/"products" noun are display details and are not modelled.
- The cart page, profile page, success page, header and dropdown components are presentation over the stores above and are not part of this model.
