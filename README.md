# Saldo Móvil: a verified model of the app's rules

Saldo Móvil is a React Native app for buying mobile top-up packages for Cuban phone numbers,
with an administrator area for packages, orders and users. This project models its logic in
Dafny and proves what that logic guarantees. Screens, dialogs, navigation and the hosted
backend are not modelled. The parts that are modelled:

- the purchase flow: the package catalogue with its search, filters, sort and discount badge;
  the featured package on the home screen; the purchase modal's phone check; the order record
  written on purchase and the buyer's new total;
- the favourite numbers: stored as `label:number` strings, added and removed, and offered in
  the purchase modal;
- the profile editor, the customer's order list (status badge, age of an order in words,
  completed count) and the order service's payloads and answers;
- the administrator's screens: the order and user lists with their searches, the revenue of
  the orders shown, the package editor and its save, the dashboard ranking and the grouping
  the administrator service does for it;
- the session store (`user`, `profile`, `session`, `loading`, `isAdmin`) and its transitions;
- the password-reset checks and strength indicator, and the forgotten-password e-mail check.

Money is integer cents. A number typed into a form is read by a model of `parseFloat` /
`parseInt` into an exact `real` / `int`. Every backend request is a parameter of the model:
the data it returned, or its error message. JavaScript dictionaries that the code builds in
insertion order are association lists `seq<(string, int)>`, because the dashboard depends
on that order. A screen's state that is changed step by step is a class whose methods say
what they change. Rules that only compute a value are functions.

Shared modules: `Wrappers` (Option), `Backend` (a backend answer and a service result),
`Text` (JavaScript whitespace, `trim`, `replace(/\s+/g, '')`, `toLowerCase`, `includes`,
number to text), `Numbers` (`parseInt`, `parseFloat`), `Prices` (a price in cents as the text
`toString` gives and back), `Seqs` (filter, count, sum, stable sort), `Entities` (the
backend's rows).

## Model

| member | source | states |
|---|---|---|
| Backend.ToServiceResult | src/services/adminService.js:43-46 | a thrown error becomes a failure carrying its message; data becomes a success carrying it |
| Orders.CreateOrderPayload | src/services/ordersService.js:10-16 | the new order is `pending`, has no completion time, and carries user, package, phone and amount unchanged |
| Orders.CreateOrder | src/services/ordersService.js:21-26 | success exactly when the insert returned data; a failure carries the error's message |
| Orders.DirectPurchaseRecord | src/screens/Compras/ComprasScreen.js:171-181 | the purchase screens insert a `completed` order at `now`, charged the package price |
| Orders.UpdateStatusPayload | src/services/ordersService.js:55-58 | the status is copied as given; a completion time is written exactly for `completed` |
| Orders.ApplyUpdate | src/services/ordersService.js:62-64 | the patch replaces status and, when present, the completion time; every other column is kept |
| Orders.InterpretStatusUpdate | src/services/ordersService.js:66-88 | an error fails with its message; zero rows updated still succeeds, with the separately fetched order; otherwise succeeds with the first row |
| Orders.ProcessPayment | src/services/ordersService.js:92-98 | always succeeds |
| Orders.CreatedAndDirectDiffer | src/services/ordersService.js:10-16 | `createOrder` and a direct purchase write the same row except for status and completion time, and never the same row |
| Orders.CompletingCreatedOrder | src/services/ordersService.js:55-58 | completing a created order at `now` yields the row a direct purchase at `now` writes |
| Orders.OtherStatusKeepsCompletion | src/services/ordersService.js:55-58 | a status other than `completed` keeps the completion time and sets the status verbatim |
| AdminService.StatsRevenue | src/services/adminService.js:18-23 | the sum of the fetched amounts, 0 when no rows came back |
| AdminService.AddTo | src/services/adminService.js:108 | `t[k] = (t[k] \|\| 0) + v`: the key's entry grows by `v` (or is added), every other key is unchanged, the total grows by `v` |
| AdminService.AddToKeepsUnique | src/services/adminService.js:108 | adding to a table without duplicate keys keeps it without duplicates |
| AdminService.AddToKeepsPositive | src/services/adminService.js:120 | adding a positive value keeps every counter at least 1 |
| AdminService.GroupedUnique | src/services/adminService.js:105-109 | grouping builds one entry per key |
| AdminService.GroupedSum | src/services/adminService.js:105-109 | the buckets add up to the total of the rows |
| AdminService.GroupedLookup | src/services/adminService.js:105-109 | a key's bucket holds the total of the rows with that key, and exists only if such a row does |
| AdminService.RevenueByDay | src/services/adminService.js:105-109 | the `forEach` loop builds exactly the grouping of the rows by day |
| AdminService.DayPairs | src/services/adminService.js:106 | no rows fetched is an empty list; one pair per row otherwise |
| AdminService.RevenueByDayTotals | src/services/adminService.js:105-109 | one bucket per day, and the buckets add up to the amounts fetched |
| AdminService.PackageName | src/services/adminService.js:119 | a missing or empty package name is counted as `Desconocido`; a present one as itself |
| AdminService.SalePairs | src/services/adminService.js:118-121 | one row worth 1 per sale |
| AdminService.PackageCount | src/services/adminService.js:117-121 | the `forEach` loop builds exactly the grouping of the sales by package name |
| AdminService.GroupedOnesPositive | src/services/adminService.js:117-121 | counters built from sales are all at least 1 |
| AdminService.SumOfOnes | src/services/adminService.js:117-121 | a sum of ones is the number of sales |
| AdminService.PackageCountTotals | src/services/adminService.js:117-121 | one counter per name, each at least 1, adding up to the number of sales |
| AdminService.DeletePackage | src/services/adminService.js:172-179 | deleting sets `is_active` to false on the package with that id; no row is removed and nothing else changes |
| AdminService.DeletedIsInactive | src/services/adminService.js:176 | the deleted package is inactive and keeps every other column |
| Dashboard.DisplayCount | src/screens/Admin/DashboardScreen.js:94 | a missing figure shows as 0, a present one as itself |
| Dashboard.TopPackages | src/screens/Admin/DashboardScreen.js:167-173 | the first five counters by count: ranked 1..n by position, in non-increasing count, each counter of the table shown at most once, and all of them when there are five or fewer |
| Dashboard.TopPackagesAreTheBest | src/screens/Admin/DashboardScreen.js:167-170 | the first line is the best seller, and no counter left out of the ranking sold more than the last line shown |
| Dashboard.BarPercentAsWritten | src/screens/Admin/DashboardScreen.js:184 | the bar as written divides by the first counter inserted; it is non-negative for a non-negative count |
| Dashboard.BarOverflowsTrack | src/screens/Admin/DashboardScreen.js:184 | with one sale of `A` then three of `B`, `B` is ranked and its bar is 300% |
| Dashboard.MaxCount | src/screens/Admin/DashboardScreen.js:184 | the largest counter value, attained by some counter |
| Dashboard.BarWithinTrack | src/screens/Admin/DashboardScreen.js:184 | dividing by the largest counter, every bar lies in (0, 100] and the best seller fills the track |
| AdminOrders.OrderViewMembers | src/screens/Admin/AdminOrdersScreen.js:46-66 | the list shown holds fetched orders passing the status filter and the search, every such order as often as it was fetched, in the fetched order, and only orders of the chosen status unless it is `all` |
| AdminOrders.OrderViewIdempotent | src/screens/Admin/AdminOrdersScreen.js:46-66 | filtering the shown list again changes nothing |
| AdminOrders.MissingFieldsNeverMatch | src/screens/Admin/AdminOrdersScreen.js:59-61 | an order without buyer name, e-mail or phone is found by no search |
| AdminOrders.RevenueZeroForOtherStatus | src/screens/Admin/AdminOrdersScreen.js:178-180 | under the `pending` or `failed` filter the revenue is 0 |
| AdminOrders.TotalRevenue | src/screens/Admin/AdminOrdersScreen.js:178-180 | the revenue of the orders shown, never negative when no amount is |
| AdminOrders.RevenueAdditive | src/screens/Admin/AdminOrdersScreen.js:178-180 | the revenue of two lists together is the sum of their revenues |
| AdminOrders.RevenueCountsCompleted | src/screens/Admin/AdminOrdersScreen.js:178-180 | the revenue is the sum, over every order shown, of its amount when it is completed and 0 otherwise |
| AdminOrders.RevenueOfCompletedView | src/screens/Admin/AdminOrdersScreen.js:178-180 | with the status filter on `completed`, the revenue is the sum of every amount shown |
| AdminOrders.RevenueOfCompletedOnly | src/screens/Admin/AdminOrdersScreen.js:178-180 | a list without completed orders has revenue 0 |
| AdminOrders.AdminOrdersScreen.constructor | src/screens/Admin/AdminOrdersScreen.js:46-47 | no orders, empty search, status `all` |
| AdminOrders.AdminOrdersScreen.FilterOrders | src/screens/Admin/AdminOrdersScreen.js:46-66 | the two-stage narrowing sets the shown list to exactly the orders passing both filters, in fetched order, and changes nothing else |
| AdminUsers.FilterUsers | src/screens/Admin/AdminUsersScreen.js:45-59 | a blank query shows every user; otherwise exactly the users the search finds, each as often as listed, in their listed order |
| AdminUsers.FilterUsersIdempotent | src/screens/Admin/AdminUsersScreen.js:45-59 | searching the found users again finds them all again |
| AdminUsers.MissingFieldsNeverMatch | src/screens/Admin/AdminUsersScreen.js:54-56 | a user without name, e-mail or phone is found by no search |
| AdminUsers.AdminCount | src/screens/Admin/AdminUsersScreen.js:138-141 | the admin count is the number of shown users with role `admin`, at most the users shown |
| AdminPackages.EditForm | src/screens/Admin/AdminPackagesScreen.js:67-76 | the prefill copies name and flags, writes amount and price as text, and leaves original price and description empty exactly when absent |
| AdminPackages.OriginalPriceText | src/screens/Admin/AdminPackagesScreen.js:71 | the original-price field is empty exactly when the package has none |
| AdminPackages.OriginalPriceField | src/screens/Admin/AdminPackagesScreen.js:100 | `original_price` is null exactly when its field is empty |
| AdminPackages.Payload | src/screens/Admin/AdminPackagesScreen.js:96-104 | the payload copies name, description and flags, reads amount and price with `parseInt`/`parseFloat`, and sends null for an empty original price |
| AdminPackages.SaveRequestFor | src/screens/Admin/AdminPackagesScreen.js:89-114 | rejected exactly when name, amount or price is empty; otherwise an update of the edited package's id, or a create when none is edited, with the form's payload |
| AdminPackages.OriginalPriceReadsBack | src/screens/Admin/AdminPackagesScreen.js:71 | an original price written into the form is sent back unchanged |
| AdminPackages.EditAmountParses | src/screens/Admin/AdminPackagesScreen.js:69 | the prefilled amount parses back to the package's amount |
| AdminPackages.EditPriceParses | src/screens/Admin/AdminPackagesScreen.js:70 | the prefilled price parses back to the package's price |
| AdminPackages.EditFormReadsBack | src/screens/Admin/AdminPackagesScreen.js:67-104 | the payload built from the prefilled form is the package's own values |
| AdminPackages.UntouchedEditKeepsValues | src/screens/Admin/AdminPackagesScreen.js:89-114 | opening a named package and saving it untouched sends an update of that package with its own values |
| AdminPackages.BlankFormRejected | src/screens/Admin/AdminPackagesScreen.js:91-94 | a reset form is never saved |
| AdminPackages.PackageEditor.ResetForm | src/screens/Admin/AdminPackagesScreen.js:79-87 | every text field empty, not featured, active; modal and edited package untouched |
| AdminPackages.PackageEditor.OpenCreateModal | src/screens/Admin/AdminPackagesScreen.js:61-65 | no package edited, a blank form, the modal open |
| AdminPackages.PackageEditor.OpenEditModal | src/screens/Admin/AdminPackagesScreen.js:67-77 | the package remembered, the form prefilled from it, the modal open |
| AdminPackages.PackageEditor.HandleSave | src/screens/Admin/AdminPackagesScreen.js:89-130 | the request is the one the form decides; only a successful create or update closes the modal and resets the form |
| Catalog.SortFor | src/screens/Compras/ComprasScreen.js:128-147 | the sort is a permutation of the filtered list |
| Catalog.ApplyFilters | src/screens/Compras/ComprasScreen.js:78-150 | the six stages and the sort, run step by step, give the catalogue view |
| Catalog.CatalogViewSelects | src/screens/Compras/ComprasScreen.js:78-150 | the list shown holds exactly the packages passing every stage, each as often as fetched, no more than fetched; an unknown sort key keeps their order |
| Catalog.PipelineSelects | src/screens/Compras/ComprasScreen.js:81-125 | the six stages in a row keep exactly the packages passing them all |
| Catalog.SearchStageFilters | src/screens/Compras/ComprasScreen.js:82-90 | the search applies only to a non-blank query and matches the lower-cased name, description or amount text |
| Catalog.CategoryStageFilters | src/screens/Compras/ComprasScreen.js:93-97 | `popular` keeps featured packages, `discount` those whose original price beats the price, anything else keeps all |
| Catalog.MinPriceStageFilters | src/screens/Compras/ComprasScreen.js:100-104 | a set minimum price keeps prices at or above it |
| Catalog.MaxPriceStageFilters | src/screens/Compras/ComprasScreen.js:107-111 | a set maximum price keeps prices at or below it |
| Catalog.MinAmountStageFilters | src/screens/Compras/ComprasScreen.js:114-118 | a set minimum amount keeps amounts at or above it |
| Catalog.MaxAmountStageFilters | src/screens/Compras/ComprasScreen.js:121-125 | a set maximum amount keeps amounts at or below it |
| Catalog.SortedMeaning | src/screens/Compras/ComprasScreen.js:128-147 | each sort key orders the result by its key, descending or ascending as named; `discount` by original price minus price, largest first |
| Catalog.CountActiveFilters | src/screens/Compras/ComprasScreen.js:67-76 | the badge counts the filled range fields, a category other than `all` and an order other than `amount_desc` (`ActiveFilterCount`); it lies in 0..6 and is 0 exactly for the defaults |
| Catalog.ClearFilters | src/screens/Compras/ComprasScreen.js:152-160 | every field back to its initial value, the search included |
| Catalog.ClearedShowsAll | src/screens/Compras/ComprasScreen.js:152-160 | after clearing, every package is shown, largest amount first |
| Catalog.SearchNotCounted | src/screens/Compras/ComprasScreen.js:67-76 | changing only the search text leaves the badge's count unchanged |
| Catalog.PopularIsFeatured | src/screens/Compras/ComprasScreen.js:93-94 | `popular` alone shows exactly the featured packages, each as often as fetched (as a multiset: the sort decides the order) |
| Catalog.RoundHalfUp | src/screens/Compras/ComprasScreen.js:220-222 | `Math.round` of a quotient: the integer within half of it, halves rounding up |
| Catalog.GetDiscount | src/screens/Compras/ComprasScreen.js:218-223 | no badge exactly when the original price is absent, zero or not above the price; otherwise the rounded percentage saved, within 0..100 for a non-negative price |
| Catalog.DiscountInRange | src/screens/Compras/ComprasScreen.js:220-222 | the rounded saving lies in 0..100 for a non-negative price below the original |
| Purchase.FeaturedIndex | src/screens/Home/HomeScreen.js:41 | the first featured package's index, none exactly when no package is featured |
| Purchase.FeaturedPackage | src/screens/Home/HomeScreen.js:41-42 | the first featured package, else the first package, and nothing exactly for no packages |
| Purchase.HeroHiddenIffEmpty | src/screens/Home/HomeScreen.js:121 | the hero section is hidden exactly when there are no packages |
| Purchase.NewTotal | src/screens/Home/HomeScreen.js:79-80 | the buyer's total plus the price, the price alone when there is no total |
| Purchase.ErrorText | src/screens/Home/HomeScreen.js:102-104 | the error's message, or the default text when it is empty |
| Purchase.PurchaseEffects | src/screens/Home/HomeScreen.js:57-104 | the completed order is inserted first; a failed insert only shows the error; otherwise total, notification, closing and success message follow, in that order |
| Purchase.TotalOnlyAfterInsert | src/screens/Home/HomeScreen.js:74-81 | the total is written and the buyer notified exactly when the insert succeeded |
| Purchase.TotalBeforeNotifyBeforeClose | src/screens/Home/HomeScreen.js:79-89 | the total is written before the notification and before the modal closes |
| Purchase.PurchaseChargesPrice | src/screens/Compras/ComprasScreen.js:169-191 | the order charges the package price to the confirmed number, and the total grows by that price |
| Purchase.PurchaseScreen.BuyPackage | src/screens/Home/HomeScreen.js:51-54 | the package remembered and the modal opened |
| Purchase.PurchaseScreen.ConfirmPurchase | src/screens/Home/HomeScreen.js:57-104 | the handler performs exactly the effects above, and the modal closes exactly on success |
| PurchaseModal.CheckPhone | src/components/modals/PurchaseModal.js:21-36 | an empty input is refused first; then a cleaned number that is not eight digits; otherwise the cleaned number is confirmed |
| PurchaseModal.ValidNumberConfirmed | src/components/modals/PurchaseModal.js:29-36 | an eight-digit number is confirmed as it is |
| PurchaseModal.SpacedNumberConfirmed | src/components/modals/PurchaseModal.js:29-36 | a number typed with a space is confirmed without it |
| PurchaseModal.ModalFavorites | src/components/modals/PurchaseModal.js:60-66 | the modal offers the parsed stored strings that have both a label and a number, each as often as stored and in stored order, and none when nothing is stored |
| PurchaseModal.ExtraFieldsIgnored | src/components/modals/PurchaseModal.js:62 | `a:b:c` is read as label `a`, number `b` |
| PurchaseModal.NoColonNotShown | src/components/modals/PurchaseModal.js:61-66 | a string without `':'` is not offered |
| PurchaseModal.ModalShowsSaved | src/components/modals/PurchaseModal.js:60-66 | the favourites the favourites screen saves are offered back exactly |
| PurchaseModal.PurchaseModal.HandleConfirm | src/components/modals/PurchaseModal.js:21-39 | the outcome is the phone check; after a confirmation the field is empty and loading is over; a refusal changes nothing |
| PurchaseModal.PurchaseModal.HandleClose | src/components/modals/PurchaseModal.js:41-44 | the field is cleared |
| PurchaseModal.PurchaseModal.SelectFavoriteNumber | src/components/modals/PurchaseModal.js:46-48 | the field takes the favourite's number |
| Phone.CleanNumber | src/components/modals/PurchaseModal.js:29 | the cleaned number has no whitespace and is no longer than the input |
| Phone.ValidNumberDigits | src/components/modals/PurchaseModal.js:30 | a valid number is eight ASCII digits |
| Phone.CleanIdempotent | src/components/modals/PurchaseModal.js:29 | cleaning twice is cleaning once |
| Phone.FormatPhoneNumber | src/components/modals/PurchaseModal.js:50-55 | eight characters become `+53 XXXX XXXX`; anything else is shown unchanged |
| Phone.FormattedCleansBack | src/components/modals/PurchaseModal.js:50-55 | a formatted valid number cleans to `+53` followed by the number |
| Phone.FormatInjective | src/components/modals/PurchaseModal.js:50-55 | two eight-character numbers with the same display are equal |
| Phone.FormatCollision | src/components/modals/PurchaseModal.js:50-55 | formatting is idempotent, so an eight-character number and the different 13-character text of its display are shown alike |
| Favorites.ParseEntry | src/screens/Perfil/FavoriteNumbersScreen.js:27-28 | the label is the text before the first `':'`, the number the next field, absent exactly without `':'` |
| Favorites.Parse | src/screens/Perfil/FavoriteNumbersScreen.js:25-33 | a non-array loads as empty; otherwise one favourite per string, in order |
| Favorites.Serialise | src/screens/Perfil/FavoriteNumbersScreen.js:71-73 | one `label:number` string per favourite, in order |
| Favorites.EntryRoundTrip | src/screens/Perfil/FavoriteNumbersScreen.js:71-73 | a favourite without `':'` in its fields is read back as itself |
| Favorites.ListRoundTrip | src/screens/Perfil/FavoriteNumbersScreen.js:25-29 | reading back a written list gives it again |
| Favorites.ReloadAfterSave | src/screens/Perfil/FavoriteNumbersScreen.js:22-34 | after a successful save the store's new profile re-runs the load effect; the list settles at the parse of what was written, which equals the saved list exactly when no label or number holds `:` and every number is present |
| Favorites.ColonInCaption | src/screens/Perfil/FavoriteNumbersScreen.js:27 | a label `a:b` comes back as label `a` with number `b` |
| Favorites.LabelWithColon | src/screens/Perfil/FavoriteNumbersScreen.js:27 | the label `Casa:Mamá` of 52345678 comes back as label `Casa` of number `Mamá` |
| Favorites.MissingNumberWrittenAsUndefined | src/screens/Perfil/FavoriteNumbersScreen.js:72 | `Parse` reads a string without `':'` as an entry with no number, and `Serialise` writes that entry with the number `undefined` |
| Favorites.CheckNewFavorite | src/screens/Perfil/FavoriteNumbersScreen.js:36-66 | an accepted favourite is the typed label with the cleaned number |
| Favorites.CheckOrder | src/screens/Perfil/FavoriteNumbersScreen.js:37-61 | the checks run in order (empty number, invalid number, empty label, duplicate) and the first failure decides |
| Favorites.AcceptedIsNew | src/screens/Perfil/FavoriteNumbersScreen.js:54-61 | an accepted favourite has a label, a valid number, and a number not yet listed |
| Favorites.AddKeepsDistinct | src/screens/Perfil/FavoriteNumbersScreen.js:54-68 | adding keeps the numbers pairwise distinct |
| Favorites.Without | src/screens/Perfil/FavoriteNumbersScreen.js:101-103 | no entry with the removed number is left; every other entry stays, as often as it was there, in its order |
| Favorites.RemoveKeepsOthers | src/screens/Perfil/FavoriteNumbersScreen.js:101-103 | every other entry is kept and distinct numbers stay distinct; with distinct numbers, removing entry `k`'s number leaves exactly the entries before and after it |
| Favorites.FavoriteNumbersScreen.LoadFavorites | src/screens/Perfil/FavoriteNumbersScreen.js:22-34 | the list is the parse of the profile's stored strings; the fields are untouched |
| Favorites.FavoriteNumbersScreen.AddFavoriteNumber | src/screens/Perfil/FavoriteNumbersScreen.js:36-89 | the check decides; an accepted favourite is sent with the list; the list grows by it and the fields clear only when the update succeeds |
| Favorites.FavoriteNumbersScreen.RemoveFavoriteNumber | src/screens/Perfil/FavoriteNumbersScreen.js:91-126 | the list without that number is sent, and becomes the list only when the update succeeds |
| EditProfile.InitialForm | src/screens/Perfil/EditProfileScreen.js:20-21 | the fields start as the profile's name and phone, empty when absent |
| EditProfile.HandleSave | src/screens/Perfil/EditProfileScreen.js:24-43 | a blank name is refused, then a typed phone not cleaning to eight digits; otherwise the trimmed name and cleaned phone, and nothing else, are sent |
| EditProfile.SaveIdempotent | src/screens/Perfil/EditProfileScreen.js:40-43 | saving the saved values sends the same update |
| EditProfile.ReopenAndSave | src/screens/Perfil/EditProfileScreen.js:20-43 | a profile reopened after a save is saved unchanged |
| OrderDisplay.GetStatusInfo | src/screens/Pedidos/PedidosScreen.js:48-79 | `completed`, `pending`, `failed` get their badges; every other status `Desconocido` |
| OrderDisplay.UnknownStatusesLookAlike | src/screens/Admin/AdminOrdersScreen.js:73-104 | any two unknown statuses share one badge |
| OrderDisplay.AgeOf | src/screens/Pedidos/PedidosScreen.js:84-96 | the bucket of an age in seconds; minutes in 1..59, hours in 1..23, days in 1..6, each the floor of the age |
| OrderDisplay.FormatDate | src/screens/Pedidos/PedidosScreen.js:81-104 | under a minute, future included, `Hace un momento`; under an hour, a day or a week, `Hace N` and the unit, N the whole minutes, hours or days elapsed and the unit singular exactly for N = 1; else the calendar date |
| OrderDisplay.SingularMinute | src/screens/Pedidos/PedidosScreen.js:88-90 | `Hace 1 minuto` exactly in the first minute |
| OrderDisplay.SingularHour | src/screens/Pedidos/PedidosScreen.js:91-93 | `Hace 1 hora` exactly in the first hour |
| OrderDisplay.SingularDay | src/screens/Pedidos/PedidosScreen.js:94-96 | `Hace 1 día` exactly on the first day |
| OrderDisplay.CompletedCount | src/screens/Pedidos/PedidosScreen.js:157-158 | the completed count is the number of times `completed` occurs among the orders' statuses, at most the number of orders |
| OrderDisplay.CompletedCountMatchesFooters | src/screens/Pedidos/PedidosScreen.js:244 | the completed count is the number of cards with the success footer |
| Numbers.ParseIntOfIntToString | src/screens/Admin/AdminPackagesScreen.js:98 | `parseInt` reads back the text of any integer |
| Prices.CentsToString | src/screens/Admin/AdminPackagesScreen.js:70 | a price's text is non-empty and starts with `-` exactly for a negative price |
| Prices.ParseFloatOfCentsToString | src/screens/Admin/AdminPackagesScreen.js:99 | `parseFloat` reads back the text of any price as its value |
| Text.Trim | src/screens/Compras/ComprasScreen.js:82 | a trimmed text has no whitespace at either end, and is empty exactly for a blank text |
| Text.StripWhitespace | src/components/modals/PurchaseModal.js:29 | removing whitespace leaves none, keeps whitespace-free text as it is, and empties exactly a blank text |
| Text.ToLower | src/screens/Compras/ComprasScreen.js:83 | lower-casing works character by character and keeps the length |
| AuthStore.NormaliseFavorites | src/stores/authStore.js:24-26 | a fetched profile always has a favourites array; an existing array and every other field are kept |
| AuthStore.NormaliseKeepsRole | src/stores/authStore.js:24-32 | the repair keeps the administrator flag and is idempotent |
| AuthStore.RepairedFavoritesLoad | src/stores/authStore.js:24-26 | after the repair the favourites screen loads the stored numbers, or none |
| AuthStore.AuthState.constructor | src/stores/authStore.js:5-9 | nobody signed in, loading, not an administrator |
| AuthStore.AuthState.Initialize | src/stores/authStore.js:12-42 | with a session, its user, the repaired profile and the session are stored; without one or on an error nothing else changes; loading ends in every case; the administrator flag follows the profile |
| AuthStore.AuthState.SignUp | src/stores/authStore.js:45-79 | an error fails and changes nothing; a user returned is stored with the unrepaired profile and the session; `loading` is untouched |
| AuthStore.AuthState.SignIn | src/stores/authStore.js:82-109 | an error, or an answer without a user, fails and changes nothing; otherwise user, profile and session are stored; `loading` is untouched |
| AuthStore.AuthState.SignOut | src/stores/authStore.js:112-125 | unless the call throws, user, profile and session are cleared and the flag dropped; `loading` is untouched |
| AuthStore.AuthState.UpdateProfile | src/stores/authStore.js:128-147 | without a signed-in user or on an error it fails and changes nothing; otherwise only profile and administrator flag change |
| AuthStore.SignInThenOut | src/stores/authStore.js:82-125 | signing in then out leaves nobody signed in and no administrator flag |
| ResetPassword.CheckReset | src/screens/Auth/ResetPasswordScreen.js:24-42 | an empty field is refused first, then a mismatch, then a password under six characters; the update is sent exactly for two equal passwords of six or more |
| ResetPassword.MismatchBeforeLength | src/screens/Auth/ResetPasswordScreen.js:30-38 | two different short passwords are reported as a mismatch |
| ResetPassword.ResetSuccessAfter | src/screens/Auth/ResetPasswordScreen.js:40-55 | the success flag turns on only for a request the guards allow that the backend answers without an error |
| ResetPassword.SuccessNeedsValidPassword | src/screens/Auth/ResetPasswordScreen.js:40-48 | the confirmation view needs a confirmed password of six or more characters |
| ResetPassword.LitBars | src/screens/Auth/ResetPasswordScreen.js:152-168 | three bars, lit from the left, the first lit exactly for a non-empty password |
| ResetPassword.StrengthBars | src/screens/Auth/ResetPasswordScreen.js:152-168 | the number of lit bars, at most three |
| ResetPassword.StrengthText | src/screens/Auth/ResetPasswordScreen.js:171-178 | the minimum-length hint exactly for an empty password; medium or strong exactly from six characters on |
| ResetPassword.StrengthBarsCountThresholds | src/screens/Auth/ResetPasswordScreen.js:152-168 | the lit bars are the thresholds 1, 6 and 10 reached, lit from the left |
| ResetPassword.StrengthBarsMonotone | src/screens/Auth/ResetPasswordScreen.js:152-168 | a longer password never lights fewer bars |
| ResetPassword.StrengthTextMatchesBars | src/screens/Auth/ResetPasswordScreen.js:171-178 | the caption names the lit bars: none, weak, medium or strong |
| ResetPassword.AcceptedPasswordNotWeak | src/screens/Auth/ResetPasswordScreen.js:35-38 | a password the guards allow shows two bars or more and is called medium or strong |
| ForgotPassword.EmailCheckMatchesPattern | src/screens/Auth/ForgotPasswordScreen.js:28-29 | splitting at the first `@` and looking for a `.` inside the domain accepts exactly what the pattern matches |
| ForgotPassword.CheckEmail | src/screens/Auth/ForgotPasswordScreen.js:21-33 | a blank e-mail is refused first, then one the pattern does not match; the request is sent exactly for a match |
| ForgotPassword.PaddedEmailRejected | src/screens/Auth/ForgotPasswordScreen.js:28-29 | whitespace at either end is not trimmed away, so the e-mail is refused |
| ForgotPassword.TwoAtSignsRejected | src/screens/Auth/ForgotPasswordScreen.js:28-29 | an e-mail with two `@` is refused as malformed |
| ForgotPassword.GoodAddressAccepted | src/screens/Auth/ForgotPasswordScreen.js:28-29 | `ana@correo.cu` is sent |
| ForgotPassword.EmailSentAfter | src/screens/Auth/ForgotPasswordScreen.js:35-50 | the sent flag turns on only for a matching e-mail answered without an error |
| ForgotPassword.Resend | src/screens/Auth/ForgotPasswordScreen.js:74-77 | after a resend the confirmation view shows exactly when the e-mail matches the pattern and the backend answered without an error |
| ForgotPassword.ResendAfterSuccess | src/screens/Auth/ForgotPasswordScreen.js:74-77 | after a first request went through, a resend keeps the confirmation view exactly when it succeeds too |

## Left out

- The backend itself: queries, joins, server-side ordering, row-level security. Each request is a parameter holding what it returned.
- Floating point: prices are integer cents and typed numbers are read into exact rationals. Rounding of doubles, `toFixed` display of revenue and prices, `Infinity`, and `toString` of numbers of 1e21 and more are not modelled.
- Numbers.ParseFloat: reads optional whitespace, a sign, digits and a decimal fraction, and stops there. An exponent is ignored, where `parseFloat` applies it: `1e3` typed as a catalogue price bound or as a package price reads as 1, not 1000. `Infinity` reads as not-a-number here.
- AdminService.PackageCount: treats every package name as a key of its own. In the source `packageCount` is a plain object, so a package named after an inherited `Object.prototype` property behaves differently. A name like `constructor` or `toString` reads the inherited function, and its counter becomes a string. A name `__proto__` is not stored, and its sales are lost. The model's one counter per name, each at least 1, summing to the sales, holds only for names that are not such properties. AdminService.PackageCountTotals and Dashboard.TopPackages are read with the same caveat.
- Numbers.ParseInt: reads optional whitespace, a sign and decimal digits; a `0x` prefix is not modelled.
- Text.ToLower: lower-cases ASCII and Latin-1 capitals only; the other Unicode case mappings are not modelled.
- String lengths are counted in characters, not UTF-16 code units, so a password or phone number with characters outside the Basic Multilingual Plane counts differently.
- Dates: `new Date()`, `toLocaleDateString` and the midnight of today. The age of an order in seconds, the day of a revenue row and the calendar text are inputs.
- Notifications (`notificationService`), `Alert` dialogs, navigation, `Promise.all` and the two-second delay of `processPayment`.
- Favorites.MissingNumberWrittenAsUndefined: speaks of `Parse` and `Serialise` only. On the screen, such an entry never gets written back: rendering it calls `formatPhoneNumber` on the missing number, and reading its `length` throws before an add or a remove can run. Rendering is not modelled.
- Dashboard.TopPackages: `Array.prototype.sort` is stable, so tied counters keep their insertion order. The model's sort is stable too, but no contract states it; the ranking's contracts hold for any order of ties.
- Favourites stored as objects rather than strings: the purchase modal passes them through and `split` would fail on them in the favourites screen. Only strings are modelled.
- Numeric-looking keys of a JavaScript object enumerate before the others; the dictionaries here keep plain insertion order.
- Package rows read `is_featured` as a boolean; a null there, which the editor shows as false, is not a separate case.
- The `updated_at` time written by `updateProfile` is not modelled.
- Purchase.PurchaseScreen.ConfirmPurchase: requires a selected package; without one the source throws a `TypeError` that the handler's `catch` shows as an error.
- AuthStore.AuthState.SignIn: an answer without a user fails with the fixed message `TypeError`; the engine's exact message text is not modelled. UpdateProfile without a signed-in user does the same.
- AuthStore.AuthState.Initialize: states the store's fields after the call; that `initialize` repairs the profile object in place (shared with whoever else holds it) is not modelled.
- PurchaseModal.ModalFavorites: a `favorite_numbers` that is set but is not an array (sign-in and sign-up store the profile without repairing it) makes the source's `.map` throw; the model reads it like a missing column and offers nothing.
- Numbers.DigitValue: gives 0 for a non-digit; it is only ever applied to digits.

## Findings

| source | as written | input that shows it | evidently intended | confidence | as-written member | corrected member |
|---|---|---|---|---|---|---|
| src/screens/Admin/DashboardScreen.js:184 | a bar's width is its count over `Object.values(packageCount)[0]`, the first package sold, not the best seller | one sale of `A`, then three of `B`: `B` is ranked first and its bar is 300% wide | widths relative to the largest count, so every bar fits the track and the best seller fills it | not executed | Dashboard.BarOverflowsTrack | Dashboard.BarWithinTrack |
