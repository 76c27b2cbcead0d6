# Farm-produce tracker: products page, employee guard and navbar in Dafny

This project models the three pieces of client-side logic in a small
farm-produce tracking web application and proves properties of them:

- **The Products page** (`src/pages/Products.jsx`). It has a list filter:
  a case-insensitive substring search on the product name, plus an optional
  exact category match. It extracts the distinct categories of the fetched
  list in first-occurrence order. Its handlers (fetch, add, edit, cancel,
  submit, delete) update the page's state fields and write to the remote
  `products` table. Updates and deletes are scoped by `id` AND
  `farmer_id = user.id`.
- **The employee route guard** (`src/components/EmployeeRoute.jsx`). A mount
  effect fills in `user`, `userRole` and `loading`. The render decision over
  those fields is one of three: a spinner, a redirect to `/dashboard`, or the
  children.
- **The navigation bar** (`src/components/Navbar.jsx`). It has a mount
  effect that stores the user and a role label. It derives the active link,
  the avatar initial and the displayed role.

Layout:

| file | module | contents |
|---|---|---|
| `wrappers.dfy` | `Wrappers` | `Option`, the model of `null` |
| `auth.dfy` | `Auth` | users, replies of the session and profile calls, JavaScript truthiness of a string |
| `strings.dfy` | `Strings` | ASCII `toLowerCase` / `toUpperCase`, `includes` |
| `seqs.dfy` | `Seqs` | `filter` (`Keep`) and `[...new Set(s)]` (`Distinct`) with their laws |
| `product_records.dfy` | `ProductRecords` | product rows, the list filter, category extraction, the three table writes |
| `products_page.dfy` | `Products` | class `ProductsPage`: the page's state and handlers |
| `employee_route.dfy` | `EmployeeRoute` | the render decision and class `EmployeeGate` |
| `navbar.dfy` | `Navbar` | display derivations and class `NavbarState` |

The hosted backend is not modelled as a service. Each call becomes the reply
it gives, and that reply is passed in as a parameter:

- `Reply` is `Ok` or `Failed(message)` for a `products` query.
- `Session` is `Threw` or `Resolved(user)` for `auth.getUser()`.
- `ProfileReply` is `ProfileFailed` or `ProfileRow(role)` for the profile lookup.

The `products` table is a field of the page, `table`, a sequence of rows.
Rows are kept in the order the page's query returns them: newest
`created_at` first. So an insert puts the new row at the front, and a
successful fetch returns `table`. The store's id sequence is the field
`nextId`. Notifications (toasts) are appended to `toasts`. Clock values
(`updated_at`) come in as the opaque parameter `now`. The delete confirmation
dialog is the boolean `confirmed`.

Behaviour worth knowing, all of it modelled as the code has it:

- **Delete with no signed-in user.** `handleDelete` reads `user.id` inside
  its `try`. With no signed-in user, that throws a TypeError. The `catch`
  turns it into an error toast, and nothing is deleted. The toast text is
  the engine's TypeError message; the model uses V8's wording.
- **Success when no row matches.** Update and delete report success even
  when the scoped query matched no row. This happens, for example, when the
  row is owned by someone else or was already deleted. In that case the
  table is left unchanged (`UpdateForeignIsNoop`, `DeleteForeignIsNoop`).
- **Cancel keeps the form text.** "Cancel" closes the modal and forgets the
  product being edited, but `formData` keeps its text. "Add Product" clears
  it.
- **Thrown session call.** If `auth.getUser()` throws, only the guard's
  effect catches it, and it still ends loading. The navbar and the Products
  page do not catch it, so their effects set nothing.

The page's query (`src/pages/Products.jsx:34-37`) selects every row, with no
farmer filter. Any narrowing by the backend's row-level policy is not
modelled, so a successful fetch returns the whole table.

## Model

| member | source | states |
|---|---|---|
| `Strings.LowerChar` | src/pages/Products.jsx:62-63 | an upper-case ASCII letter becomes the lower-case letter at the same place in the alphabet; every other character is unchanged; the result is never upper-case |
| `Strings.UpperChar` | src/components/Navbar.jsx:80 | a lower-case ASCII letter becomes the upper-case letter at the same place in the alphabet; every other character is unchanged; the result agrees with the original up to case |
| `Strings.Lower` | src/pages/Products.jsx:62-63 | `toLowerCase` keeps the length, leaves no upper-case ASCII letter, and turns each upper-case letter into the lower-case letter at the same place in the alphabet, changing nothing else |
| `Strings.Contains` | src/pages/Products.jsx:63 | `includes` never finds a term longer than the name, and finds every prefix of it |
| `Strings.LowerIdempotent` | src/pages/Products.jsx:61-63 | lower-casing twice is lower-casing once |
| `Strings.ContainsEmpty` | src/pages/Products.jsx:61-63 | `includes("")` holds for every name |
| `Strings.ContainsAt` | src/pages/Products.jsx:61-63 | `includes` holds exactly when the term occurs at some offset of the name |
| `ProductRecords.Matches` | src/pages/Products.jsx:61-66 | a matching product is in the selected category (or none is selected), and with an empty search term the category test alone decides |
| `ProductRecords.Filter` | src/pages/Products.jsx:60-67 | `filteredProducts` is no longer than the list, and a product is in it iff it is in the list and matches |
| `Seqs.Keep` | src/pages/Products.jsx:60 | `filter` returns no more elements than it is given, and an element is in the result iff it is in the input and passes the test |
| `Seqs.Distinct` | src/pages/Products.jsx:43-45 | `[...new Set(s)]` has no duplicates and holds exactly the elements of `s` |
| `Seqs.DistinctInFirstOccurrenceOrder` | src/pages/Products.jsx:43-45 | `[...new Set(s)]` lists elements in the order of their first occurrence in `s` |
| `ProductRecords.FilterKeepsExactlyMatches` | src/pages/Products.jsx:60-67 | a product is shown iff it is in the list, its lower-cased name contains the lower-cased term, and the selected category is "" or equals its category; every copy of a shown product is kept, and the result is an order-preserving subsequence of the list |
| `ProductRecords.FilterUnfilteredIsIdentity` | src/pages/Products.jsx:60-67 | with an empty search term and no category selected, the whole list is shown |
| `ProductRecords.FilterIdempotent` | src/pages/Products.jsx:60-67 | filtering the filtered list again with the same inputs changes nothing |
| `ProductRecords.FilterIgnoresSearchCase` | src/pages/Products.jsx:61-63 | a search term and its lower-cased form show the same list |
| `ProductRecords.FilterCaseInsensitive` | src/pages/Products.jsx:61-63 | any two search terms that agree up to ASCII case show the same list |
| `ProductRecords.CategoriesOf` | src/pages/Products.jsx:44 | mapping products to categories gives entry i the category of product i, so the list follows the products' order and holds exactly their categories |
| `ProductRecords.UniqueCategories` | src/pages/Products.jsx:43-46 | the category list has no duplicates and names exactly the categories occurring in the products |
| `ProductRecords.UniqueCategoriesInFirstOccurrenceOrder` | src/pages/Products.jsx:43-46 | the category list is in the order in which the categories first occur in the products |
| `ProductRecords.NewRow` | src/pages/Products.jsx:95-102 | an inserted row carries the form's name, category and production date, the signed-in user as `farmer_id`, and the id the store assigns |
| `ProductRecords.InsertPreservesUniqueIds` | src/pages/Products.jsx:95-102 | inserting under the next id of the sequence keeps ids a key of the table |
| `ProductRecords.Revised` | src/pages/Products.jsx:82-87 | an updated row carries the form's three fields and the new timestamp, and keeps its id and `farmer_id` |
| `ProductRecords.UpdateOwned` | src/pages/Products.jsx:80-89 | an update keeps the table's length, never changes any row's id or `farmer_id`, changes only rows whose id and `farmer_id` both match, and turns each of those into the revised row: the form's fields and the new timestamp |
| `ProductRecords.UpdateForeignIsNoop` | src/pages/Products.jsx:80-89 | an update aimed at a product the user does not own affects no row |
| `ProductRecords.UpdatePreservesUniqueIds` | src/pages/Products.jsx:80-89 | an update keeps ids a key of the table |
| `ProductRecords.DeleteOwned` | src/pages/Products.jsx:123-127 | a delete leaves no more rows than before, and a row remains iff it was in the table and its id and `farmer_id` do not both match |
| `ProductRecords.DeleteRemovesOnlyTargets` | src/pages/Products.jsx:123-127 | a delete removes exactly the rows whose id and `farmer_id` both match, keeps every copy of every other row, and keeps the remaining rows in order |
| `ProductRecords.DeleteForeignIsNoop` | src/pages/Products.jsx:123-127 | a delete aimed at a product the user does not own affects no row |
| `ProductRecords.DeleteRemovesAtMostOne` | src/pages/Products.jsx:123-127 | with ids a key, a delete removes at most one row |
| `ProductRecords.DeletePreservesUniqueIds` | src/pages/Products.jsx:123-127 | a delete keeps ids a key of the table |
| `Products.Owns` | src/pages/Products.jsx:140 | with no signed-in user, no product is owned |
| `Products.ProductsPage.Visible` | src/pages/Products.jsx:60-67 | the rows shown are no more than the fetched list, and a product is shown iff it is in the list and matches the current search term and category |
| `Products.ProductsPage.constructor` | src/pages/Products.jsx:6-18 | the page starts loading, with empty lists, filters and form, the modal closed, no product being edited and no user |
| `Products.ProductsPage.LoadUser` | src/pages/Products.jsx:21-29 | the signed-in user is stored; a thrown session call changes nothing |
| `Products.ProductsPage.FetchProducts` | src/pages/Products.jsx:32-53 | a successful fetch sets the list to the table and the categories to its distinct categories; a failed one keeps both and shows "Error fetching products"; loading is false either way and nothing else changes |
| `Products.ProductsPage.SetSearchTerm` | src/pages/Products.jsx:171-177 | typing in the search box changes only the search term |
| `Products.ProductsPage.SetSelectedCategory` | src/pages/Products.jsx:178-182 | choosing a category changes only the selected category |
| `Products.ProductsPage.SetFormData` | src/pages/Products.jsx:255-294 | typing in the modal changes only the form |
| `Products.ProductsPage.OpenAddModal` | src/pages/Products.jsx:157-162 | "Add Product" opens the modal with an empty form and no product being edited, and changes nothing else |
| `Products.ProductsPage.CancelModal` | src/pages/Products.jsx:300-303 | "Cancel" closes the modal and clears the product being edited, and keeps the form |
| `Products.ProductsPage.HandleEdit` | src/pages/Products.jsx:138-151 | editing a product the user does not own (any product when no user is signed in) shows an error and changes no state; otherwise the product becomes the one being edited, its three fields fill the form and the modal opens |
| `Products.ProductsPage.SaveForm` | src/pages/Products.jsx:78-106 | an accepted write either applies the owner-scoped update of the product being edited, keeping the id sequence, or puts one new row in front, owned by the user, carrying the form and the next id; a success toast follows and no other state changes |
| `Products.ProductsPage.CloseAndRefetch` | src/pages/Products.jsx:108-111 | after a successful write the modal is closed, the product being edited is cleared and the form emptied, and the list is fetched again with the fetch's outcome; nothing else changes |
| `Products.ProductsPage.HandleSubmit` | src/pages/Products.jsx:70-115 | with no user: an error toast and no other change; a failed write: its message and no other change; a successful update changes the table as the owner-scoped update does; a successful create adds exactly one row, in front, owned by the user and carrying the form; after success the modal closes, the product being edited is cleared, the form is emptied and the list is fetched again |
| `Products.ProductsPage.HandleDelete` | src/pages/Products.jsx:118-135 | a declined confirmation changes nothing; with no user only an error is shown; a failed delete shows its message and changes nothing else; a successful one applies the owner-scoped delete to the table, shows a success toast and fetches the list again, and changes no other state |
| `EmployeeRoute.Decide` | src/components/EmployeeRoute.jsx:41-53 | a spinner exactly while loading; the children exactly when loading is over, a user is signed in and the role is exactly "employee"; otherwise a redirect, always to `/dashboard` |
| `EmployeeRoute.IsEmployee` | src/components/EmployeeRoute.jsx:49 | without a user or without a role, nobody passes the employee test |
| `EmployeeRoute.EmployeeGate.Render` | src/components/EmployeeRoute.jsx:41-53 | the guard shows the spinner exactly while loading, the children exactly when loading is over and the user passes the employee test, and otherwise a redirect to /dashboard |
| `EmployeeRoute.EmployeeGate.constructor` | src/components/EmployeeRoute.jsx:6-8 | the guard starts with no user, no role, loading, and so renders a spinner |
| `EmployeeRoute.EmployeeGate.GetUser` | src/components/EmployeeRoute.jsx:10-39 | loading ends whatever happens; the user is stored when the session call resolves; the profile is looked up only for a signed-in user, by that user's id; the role is set only from a successful lookup with a truthy role; a failed lookup or no user leaves a redirect |
| `Navbar.RoleLabel` | src/components/Navbar.jsx:29 | the label is "Employee" iff the role is exactly "employee", and "Farmer" otherwise |
| `Navbar.RoleShown` | src/components/Navbar.jsx:93 | a truthy stored role is shown as it is; a missing or empty one is shown as "Farmer" |
| `Navbar.OneActiveLink` | src/components/Navbar.jsx:54-69 | the dashboard and products links are never highlighted together |
| `Navbar.AvatarInitial` | src/components/Navbar.jsx:80 | the avatar is one character, never a lower-case letter: the email's first character up to case, or "U" when there is no user, no email or an empty email |
| `Navbar.NavbarState.constructor` | src/components/Navbar.jsx:6-10 | the bar starts with no user, no role and the menu closed |
| `Navbar.NavbarState.Avatar` | src/components/Navbar.jsx:80 | the avatar shows one character: "U" with no user, no email or an empty email, and otherwise the upper-cased first character of the email |
| `Navbar.NavbarState.DisplayedRole` | src/components/Navbar.jsx:93 | the role shown is always "Employee" or "Farmer", it is the stored label when one is stored, and "Farmer" while none is |
| `Navbar.NavbarState.GetUser` | src/components/Navbar.jsx:12-35 | a thrown session call changes nothing; otherwise the user is stored, the profile is looked up only for a signed-in user, and only a successful lookup with a truthy role stores that role's label; starting without a role, a failed lookup, a missing role or no user leaves "Farmer" displayed |
| `Navbar.NavbarState.ToggleProfile` | src/components/Navbar.jsx:76 | clicking the avatar flips the profile menu and nothing else |
| `Navbar.NavbarState.HandleSignOut` | src/components/Navbar.jsx:37-40 | signing out lands on `/login`, where neither navigation link is highlighted |

## Left out

- The hosted backend and its auth SDK: network, async timing, query builder, row-level policies. Each call is an input reply, and the `products` table is an in-memory sequence.
- Row ids: the store's generator is modelled as a serial counter (`nextId`). The real id scheme is not part of this model.
- `created_at` ordering: the model keeps the table newest first and puts inserts in front, assuming the store's clock increases.
- The server-side columns `created_at`, and `updated_at` on insert. The update's `updated_at` (`new Date().toISOString()`) is the opaque input `now`, and an insert is given `now` too.
- Full Unicode case mapping. `toLowerCase` / `toUpperCase` are ASCII-only here, and `email[0]` is one character, not a UTF-16 code unit.
- Rendering, toasts' display, console logging, `window.confirm` (the boolean `confirmed`), `e.preventDefault()`, and `toLocaleDateString` on the production date.
- Async interleavings. The fetch after a write is not awaited in the source; the model runs it right after the write. Overlapping fetches and updates after unmount are not modelled.
- A thrown profile query: the model assumes the profile lookup reports errors rather than throwing.
- Sign-out itself (`supabase.auth.signOut()`): the session provider clears the session, so `HandleSignOut` models only the navigation to `/login`.
- `src/pages/Login.jsx`, `src/pages/Dashboard.jsx`, `src/pages/UserManagement.jsx` and `src/App.jsx` are not part of this model: they are sign-in, display, an administrative passthrough and router configuration. The `ProtectedRoute` guard that `src/App.jsx` imports is not part of this model; its source is not available.
- Form requiredness (the HTML `required` attributes) is enforced by the browser, so `HandleSubmit` accepts any form contents.
