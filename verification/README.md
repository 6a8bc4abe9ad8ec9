# IndústriaDireta — a Dafny model of the marketplace's client-side core

IndústriaDireta is a B2B marketplace front end (React) where buyers find
industrial suppliers. This project models, as pure Dafny functions over
immutable values, the parts of it that hold logic:

- the mock persistence layer over browser storage: getters with fall-back
  defaults, setters, first-run initialisation, backup / restore / reset to
  defaults (`MockStore`, with the records in `Entities`);
- the category admin screen: category and product forms, add / edit /
  delete, the count recomputation, and the default slug (`CategoryAdmin`);
- the supplier admin screen: the comma-separated specialties field, the
  image fall-back, add / edit / delete (`SupplierAdmin`);
- the user admin screen: loading behind the admin flag, delete written to
  both screen and storage, the type label and badge (`UserAdmin`);
- the public supplier listing: search / location / rating filters, the
  location choices, six-per-page pagination and its controls
  (`SupplierListing`);
- the breadcrumb trail built from the path (`Breadcrumbs`);
- the category card's slug and link, and the category page's slug lookup
  (`Slugs`);
- the chat page's send action (`Chat`);
- the favourites hook over the `favorite_suppliers` table (`Favorites`).

The string and list primitives the code relies on — `toLowerCase`, `trim`,
`split`, `join`, `includes`, `filter`, `/\s+/g` replacement — are written
out in `Text` and `Seqs` with JavaScript's semantics (the `\s` class is
JavaScript's set of whitespace code points; lower-casing covers ASCII and
Latin-1). Prices and ratings are held as integer hundredths (4.8 is 480).
`confirm()` answers, `Date.now()` ids, clock readings and the success of
remote writes are explicit arguments.

## Model

| member | source | states |
|---|---|---|
| MockStore.GetSuppliers | src/data/mockData.ts:189-192 | the stored supplier list when the key is present, the five built-in suppliers otherwise |
| MockStore.GetCategories | src/data/mockData.ts:198-201 | the stored category list when present, the six built-in categories otherwise |
| MockStore.GetUsers | src/data/mockData.ts:207-210 | the stored user list when present, the built-in user otherwise |
| MockStore.SetSuppliers | src/data/mockData.ts:194-196 | afterwards the getter returns exactly the list written; no other key changes |
| MockStore.SetCategories | src/data/mockData.ts:203-205 | afterwards the getter returns exactly the list written; no other key changes |
| MockStore.SetUsers | src/data/mockData.ts:212-214 | afterwards the getter returns exactly the list written; no other key changes |
| MockStore.DefaultCountsMatch | src/data/mockData.ts:112-171 | every built-in category's count equals its number of products |
| MockStore.InitializeData | src/data/mockData.ts:217-227 | a present key is never overwritten, every absent collection key is filled, and no getter's answer changes |
| MockStore.InitializeIdempotent | src/data/mockData.ts:217-227 | initialising twice is initialising once |
| MockStore.CreateBackup | src/data/mockData.ts:238-249 | the snapshot holds what the three getters return, the given timestamp and version "1.0", and is stored in the backup slot without touching the collections |
| MockStore.RestoreBackup | src/data/mockData.ts:251-270 | answers true exactly when a readable backup exists; then the getters return the snapshot's lists; otherwise nothing changes; the backup itself is kept |
| MockStore.RestoreIdempotent | src/data/mockData.ts:251-270 | restoring twice is restoring once |
| MockStore.BackupInfo | src/data/mockData.ts:272-280 | the stored backup exactly when the backup slot holds a readable one, and nothing when the slot is empty or unreadable |
| MockStore.RestoreToDefaults | src/data/mockData.ts:282-286 | all three getters return the built-in data afterwards; backup and admin flag are kept |
| MockStore.WritesKeepBackup | src/data/mockData.ts:194-227 | no sequence of setter, initialise, reset or admin-flag writes changes the backup slot |
| MockStore.BackupRestoreRoundTrip | src/data/mockData.ts:238-270 | backup, any writes, restore: every getter answers what it answered when the backup was taken |
| Slugs.DashRunsNoSpace | src/components/CategoryCard.tsx:15 | the `/\s+/g` replacement leaves a string without whitespace unchanged |
| Slugs.DashRuns | src/components/CategoryCard.tsx:15 | no whitespace is left and the text does not grow; ReplaceMaximalRun and DashRunsNoSpace pin down which characters it produces |
| Slugs.ReplaceMaximalRun | src/components/CategoryCard.tsx:15 | a maximal whitespace run becomes exactly one '-' and the text on each side is replaced independently |
| Slugs.DashRunsOneBlank | src/components/CategoryCard.tsx:15 | two blank-free words around one blank become the words joined by '-' |
| Slugs.Slugify | src/components/CategoryCard.tsx:15 | the slug has no whitespace and is no longer than the name |
| Slugs.SlugifyIdempotent | src/components/CategoryCard.tsx:15 | deriving a slug from a slug gives it back |
| Slugs.CardLink | src/components/CategoryCard.tsx:15-19 | the link is exactly "/categorias/" followed by the name's slug, which holds no whitespace |
| Slugs.FindBySlug | src/pages/Categories.tsx:61 | finds a listed category with that slug, and finds nothing exactly when no category has it |
| Slugs.AccentedCardLinkIsDead | src/components/CategoryCard.tsx:15-19 | the card for "Matérias-Primas" links to "matérias-primas", which no category of the category page has |
| Slugs.FoldedCardLinksResolve | src/pages/Categories.tsx:14-21 | with diacritics folded, every listed category's card slug finds that same category |
| Slugs.FoldedCardLink | src/components/CategoryCard.tsx:15-19 | the corrected link is "/categorias/" followed by the folded slug |
| Slugs.FoldedSlug | src/pages/Categories.tsx:14-21 | the corrected slug, lower-cased with Latin-1 diacritics removed, holds no whitespace and is no longer than the name |
| CategoryAdmin.SeedBreaksCountInvariant | src/pages/AdminCategories.tsx:27-86 | the screen's initial categories do not satisfy count == number of products |
| CategoryAdmin.StoredSlug | src/pages/AdminCategories.tsx:123 | the slug field when non-empty, otherwise the name's derived slug |
| CategoryAdmin.SubmitCategory | src/pages/AdminCategories.tsx:116-137 | adding appends one category with the fresh id, count 0 and no products; editing replaces only entries with the edited id, keeping that id, count and products and taking name, icon and slug from the form |
| CategoryAdmin.SubmitProduct | src/pages/AdminCategories.tsx:139-174 | only categories with the form's category id change, each getting count = number of products; adding appends the product, editing replaces products with the edited id in that category only |
| CategoryAdmin.DeleteCategory | src/pages/AdminCategories.tsx:176-181 | when confirmed the result is the list without the categories that have the id, every other category kept in order and as often as before; when declined the list is unchanged |
| CategoryAdmin.DeleteProduct | src/pages/AdminCategories.tsx:183-198 | when confirmed the named category keeps, in order and as often as before, exactly its products without the id, and its count becomes its product count; other categories are unchanged; declined changes nothing |
| CategoryAdmin.WithoutProduct | src/pages/AdminCategories.tsx:186-192 | the category keeps, in order and as often as before, exactly its products without the id; its count becomes its product count and nothing else changes |
| CategoryAdmin.SubmitProductWithoutTarget | src/pages/AdminCategories.tsx:153-168 | a product submit whose category id names no category (the placeholder 0) leaves the list unchanged |
| CategoryAdmin.EditIntoOtherCategory | src/pages/AdminCategories.tsx:153-168 | editing a product with another category chosen leaves its old category untouched and adds nothing to the new one |
| CategoryAdmin.HandlersKeepCountsMatching | src/pages/AdminCategories.tsx:116-198 | every handler preserves count == number of products for all categories |
| CategoryAdmin.AddThenDeleteCategory | src/pages/AdminCategories.tsx:131-181 | adding a category with a fresh id and deleting that id restores the list |
| CategoryAdmin.AddThenDeleteProduct | src/pages/AdminCategories.tsx:157-198 | adding a product with a fresh id and deleting it restores every product list, and the whole list when counts matched |
| CategoryAdmin.ResetCategoryForm | src/pages/AdminCategories.tsx:200-204 | blank category form, no edit target, form hidden, rest of the screen unchanged |
| CategoryAdmin.ResetProductForm | src/pages/AdminCategories.tsx:206-210 | blank product form (minimum 1, price 0, category 0), no edit target, form hidden, rest unchanged |
| CategoryAdmin.StartEditCategory | src/pages/AdminCategories.tsx:410-418 | remembers the category and loads its name, icon and slug into the form |
| CategoryAdmin.StartEditProduct | src/pages/AdminCategories.tsx:445-456 | remembers the product and loads a form from which submitting rebuilds exactly that product |
| CategoryAdmin.OnCategorySubmit | src/pages/AdminCategories.tsx:116-137 | the list after the submit, with the category form reset and the product form untouched |
| CategoryAdmin.OnProductSubmit | src/pages/AdminCategories.tsx:139-174 | the list after the submit, with the product form reset and the category form untouched |
| CategoryAdmin.EditUnchangedIsIdentity | src/pages/AdminCategories.tsx:410-418 | opening a listed category for editing and saving it unchanged leaves the list as it was, when ids are unique and it has a slug |
| SupplierAdmin.Specialties | src/pages/AdminSuppliers.tsx:89 | one entry per comma plus one, entry i being the i-th comma-separated piece with surrounding whitespace trimmed, so each is trimmed and comma-free |
| SupplierAdmin.FromForm | src/pages/AdminSuppliers.tsx:84-95 | the edited id or the fresh id, the placeholder image when the field is empty, and description, phone and e-mail always present |
| SupplierAdmin.Submit | src/pages/AdminSuppliers.tsx:97-103 | adding appends the new supplier; editing replaces exactly the entries with the edited id |
| SupplierAdmin.Delete | src/pages/AdminSuppliers.tsx:124-129 | when confirmed the result is the list without the suppliers that have the id, every other supplier kept in order and as often as before; declined changes nothing |
| SupplierAdmin.FormOf | src/pages/AdminSuppliers.tsx:108-122 | the form shows the supplier's name, location, rating, image and verified flag, its specialties joined by ", ", and missing description, phone and e-mail as "" |
| SupplierAdmin.StartEdit | src/pages/AdminSuppliers.tsx:108-122 | remembers the supplier, loads its form and shows it |
| SupplierAdmin.ResetForm | src/pages/AdminSuppliers.tsx:131-145 | blank form with rating 5 and verified set, no edit target, form hidden |
| SupplierAdmin.OnSubmit | src/pages/AdminSuppliers.tsx:81-106 | the list after the submit, with the form reset |
| SupplierAdmin.OnDelete | src/pages/AdminSuppliers.tsx:124-129 | the list after the delete; form and edit target unchanged |
| SupplierAdmin.SpecialtiesRoundTrip | src/pages/AdminSuppliers.tsx:114 | specialties joined with ", " and read back by split and trim give the same list, when it is non-empty and its entries are trimmed and comma-free |
| SupplierAdmin.NoSpecialtiesComeBackAsOneBlank | src/pages/AdminSuppliers.tsx:89 | an empty specialty list comes back from the form as one empty specialty |
| SupplierAdmin.FormRoundTrip | src/pages/AdminSuppliers.tsx:84-120 | a fully filled supplier with representable specialties is rebuilt exactly from its own form |
| SupplierAdmin.EditUnchangedIsIdentity | src/pages/AdminSuppliers.tsx:97-122 | opening a listed supplier and saving it unchanged leaves the list as it was, when ids are unique |
| SupplierAdmin.AddThenDelete | src/pages/AdminSuppliers.tsx:101-126 | adding a supplier with a fresh id and deleting that id restores the list |
| UserAdmin.Load | src/pages/AdminUsers.tsx:11-21 | without a truthy admin flag the visitor is redirected and sees no users; otherwise the stored users |
| UserAdmin.UpdateUsers | src/pages/AdminUsers.tsx:23-26 | screen list and stored list both become the new list; nothing else in storage changes |
| UserAdmin.DeleteUser | src/pages/AdminUsers.tsx:28-34 | when confirmed screen and storage both hold the shown list without the users that have the id, every other user kept in order and as often as before; declined changes nothing |
| UserAdmin.DeleteSurvivesReload | src/pages/AdminUsers.tsx:11-34 | after a confirmed delete, reopening the screen shows exactly the remaining users |
| UserAdmin.DeleteAbsentIdStoresShown | src/pages/AdminUsers.tsx:28-34 | deleting an id nobody has rewrites storage with the list as shown |
| UserAdmin.TypeLabel | src/pages/AdminUsers.tsx:36-38 | "Comprador" exactly for 'buyer', "Fornecedor" for every other type |
| UserAdmin.TypeBadge | src/pages/AdminUsers.tsx:40-46 | the base classes, then blue colours exactly for 'buyer' and green ones otherwise |
| UserAdmin.LabelMatchesBadge | src/pages/AdminUsers.tsx:36-46 | the label is "Comprador" exactly when the badge is blue |
| SupplierListing.VisibleIsOneFilter | src/pages/Suppliers.tsx:45-71 | the shown list is an order-preserving sublist of all suppliers holding exactly those that pass every active filter, each as often as in the full list |
| SupplierListing.Visible | src/pages/Suppliers.tsx:45-69 | the search, location and rating steps, each skipped when its input is empty, amount to one filter by "passes every active filter" |
| SupplierListing.MatchesSearch | src/pages/Suppliers.tsx:48-56 | definition: the lower-cased term occurs in the lower-cased name, location or one of the specialties |
| SupplierListing.MatchesLocation | src/pages/Suppliers.tsx:58-62 | definition: the lower-cased chosen location occurs in the lower-cased supplier location |
| SupplierListing.Passes | src/pages/Suppliers.tsx:45-67 | definition: each filter that is switched on accepts the supplier, the rating one when the rating is at least the chosen minimum |
| SupplierListing.NoFiltersShowAll | src/pages/Suppliers.tsx:45-69 | with every filter input empty the whole list is shown |
| SupplierListing.EmptySearchMatchesAll | src/pages/Suppliers.tsx:48-56 | an empty search term matches every supplier, so skipping it is harmless |
| SupplierListing.SearchIgnoresTermCase | src/pages/Suppliers.tsx:49-55 | the search result does not depend on the case of the term |
| SupplierListing.TotalPages | src/pages/Suppliers.tsx:79 | the least number of six-item pages that hold the list; zero exactly for an empty list |
| SupplierListing.Slice | src/pages/Suppliers.tsx:78 | for non-negative bounds, the entries between the bounds clamped to the list |
| SupplierListing.PageItems | src/pages/Suppliers.tsx:76-78 | at most six entries; non-empty for pages 1..totalPages, empty beyond |
| SupplierListing.PagesCoverList | src/pages/Suppliers.tsx:76-79 | pages 1..totalPages laid end to end are exactly the filtered list |
| SupplierListing.FirstPagesArePrefix | src/pages/Suppliers.tsx:76-78 | the first k pages together are the first 6k entries |
| SupplierListing.Prev | src/pages/Suppliers.tsx:178 | one page back, never below 1 |
| SupplierListing.Next | src/pages/Suppliers.tsx:197 | one page on, never past the last page |
| SupplierListing.NextThenPrev | src/pages/Suppliers.tsx:178-197 | from a page before the last, next then previous returns to it |
| SupplierListing.PrevThenNext | src/pages/Suppliers.tsx:178-197 | from a page after the first, previous then next returns to it |
| SupplierListing.Step | src/pages/Suppliers.tsx:70-201 | setting the filters to new values goes back to page 1 and setting them to their current values changes nothing; with more than one page, previous, next and a numbered button k in 1..totalPages move to Prev, Next and k; page controls change nothing when only one page exists |
| SupplierListing.StepKeepsPageInRange | src/pages/Suppliers.tsx:173-201 | every event keeps the page between 1 and the number of pages (or 1 when nothing is shown) |
| SupplierListing.RunKeepsPageInRange | src/pages/Suppliers.tsx:173-201 | any sequence of events keeps the page in range |
| SupplierListing.Load | src/pages/Suppliers.tsx:29-43 | the listing starts unfiltered on page 1 with the stored suppliers, and loading changes no getter's answer |
| SupplierListing.Dedup | src/pages/Suppliers.tsx:73 | no value twice, and exactly the values of the input |
| SupplierListing.Locations | src/pages/Suppliers.tsx:73 | every supplier's location offered once, and nothing else |
| Breadcrumbs.Segments | src/components/Breadcrumbs.tsx:16 | the path's segments are non-empty and slash-free |
| Breadcrumbs.Label | src/components/Breadcrumbs.tsx:53 | the table's name for a known segment, otherwise the segment with its first letter upper-cased |
| Breadcrumbs.RouteTo | src/components/Breadcrumbs.tsx:51 | the route of the first index+1 segments starts with "/"; RoutesExtend and LastRouteJoinsAll state its content |
| Breadcrumbs.Capitalize | src/components/Breadcrumbs.tsx:53 | the first character is replaced by its upper-case form and the rest of the segment is kept; a first character below U+00B5 that is not a-z is kept as is, so such a segment is unchanged |
| Breadcrumbs.Crumbs | src/components/Breadcrumbs.tsx:32-75 | no trail exactly for "/"; otherwise one crumb per segment, crumb i showing the segment's label and linking to the route of the first i+1 segments, and only the last is the current page |
| Breadcrumbs.RoutesExtend | src/components/Breadcrumbs.tsx:51 | each crumb's route is the previous crumb's route plus "/" and its own segment |
| Breadcrumbs.LastRouteJoinsAll | src/components/Breadcrumbs.tsx:51-52 | the last crumb's route is "/" followed by all segments joined by "/" |
| Breadcrumbs.SegmentsOfRoute | src/components/Breadcrumbs.tsx:16-51 | splitting a route built from proper segments gives the segments back |
| Breadcrumbs.SegmentsAppend | src/components/Breadcrumbs.tsx:16 | a slash splits the path's segments into those before and after it |
| Breadcrumbs.TrailingSlashIgnored | src/components/Breadcrumbs.tsx:16 | a trailing slash adds no crumb |
| Breadcrumbs.DoubleSlashIgnored | src/components/Breadcrumbs.tsx:16 | a doubled slash acts as one |
| Chat.Send | src/pages/Chat.tsx:26-37 | a blank input changes nothing; otherwise exactly one message is appended after the unchanged earlier ones: a user message holding the untrimmed input, numbered with the new length, and the input is cleared |
| Chat.Type | src/pages/Chat.tsx:84 | typing replaces the input line and leaves the messages as they are |
| Chat.Blank | src/pages/Chat.tsx:27 | definition: the input trimmed of JavaScript whitespace is empty |
| Chat.BlankIffAllSpace | src/pages/Chat.tsx:27 | an input is ignored exactly when it is all whitespace |
| Chat.SeedIdsArePositions | src/pages/Chat.tsx:11-24 | the two initial messages are numbered 1 and 2 |
| Chat.SendKeepsIdsPositions | src/pages/Chat.tsx:29 | sending keeps every message's id equal to its position from 1 |
| Chat.PositionIdsAreDistinct | src/pages/Chat.tsx:64 | ids equal to positions are distinct, so they are valid list keys |
| Chat.SendTwiceIsSendOnce | src/pages/Chat.tsx:34-35 | a second send right after a send does nothing |
| Chat.ConversationAppends | src/pages/Chat.tsx:26-37 | typing and sending non-blank texts appends exactly those texts in order as numbered user messages |
| Favorites.Fetch | src/hooks/useFavorites.ts:16-34 | exactly the user's rows, in table order and each as often as in the table |
| Favorites.FindRow | src/hooks/useFavorites.ts:47 | the first row naming the supplier, found exactly when the supplier is a favourite |
| Favorites.IsFavorite | src/hooks/useFavorites.ts:84-86 | definition: some fetched row names the supplier |
| Favorites.Decide | src/hooks/useFavorites.ts:47-72 | a delete exactly when the supplier is a favourite, of the id of the first fetched row naming it; otherwise an insert for that supplier |
| Favorites.ApplyWrite | src/hooks/useFavorites.ts:49-64 | a delete leaves exactly the rows with another id, in order and as often as before; an insert puts the new row first |
| Favorites.Toggle | src/hooks/useFavorites.ts:36-82 | without a user nothing but the log-in message; a failed write changes nothing; a successful one is followed by a refetch and reports removed or added |
| Favorites.FavoriteIffRow | src/hooks/useFavorites.ts:84-86 | after a fetch the supplier is a favourite exactly when the user has a row for it |
| Favorites.ToggleFlips | src/hooks/useFavorites.ts:36-86 | with at most one row per supplier, a successful toggle flips the favourite status and leaves the hook in sync |
| Favorites.ToggleKeepsInvariants | src/hooks/useFavorites.ts:36-82 | a successful toggle whose possible new row gets a fresh id keeps row ids unique, at most one row per supplier and the hook in sync |
| Favorites.ToggleTwiceRestoresStatus | src/hooks/useFavorites.ts:36-86 | two successful toggles give the supplier back its original favourite status, whether it started as a favourite or not |
| Favorites.ToggleLeavesOthers | src/hooks/useFavorites.ts:36-86 | a toggle leaves every other supplier's status unchanged |
| Favorites.AddThenRemoveRestoresTable | src/hooks/useFavorites.ts:36-82 | favouriting and then unfavouriting restores the table and the fetched list |
| Favorites.DuplicateStaysFavorite | src/hooks/useFavorites.ts:47-55 | with two rows for the supplier a toggle removes one and the supplier stays a favourite |

## Left out

- Rendering, styling, routing, toasts, the loading spinner and the one-second simulated delay of the listing are not modelled; only the state they show is.
- JSON parsing of storage: a present collection key is assumed to hold a well-formed list (only the setters write it), and the backup slot is either absent, unparseable, or a backup; text that parses to something other than a backup object is not modelled.
- The `stored ? … : default` test in the getters also treats an empty stored string as absent; no code path writes one, so the model has no such state.
- Favorites.Fetch: the refetch after a successful write is assumed to succeed; the hook's behaviour on a failed fetch (keep the previous list) is not modelled.
- Favorites.Toggle: whether the remote delete actually removed a row (row-level security can make it a no-op) is outside the model; the table is assumed to follow the write.
- The `supabase` client, the joined `suppliers (*)` columns of the fetch and the `created_at` clock are not modelled; the table is kept newest first instead.
- Breadcrumbs.Label: a segment that names an inherited property of a JavaScript object (`constructor`, say) would be looked up on the prototype; the table is modelled as a plain map.
- BackupInfo: a backup slot whose text parses as JSON but is not a backup object would be returned as is; the model has no such state, as for the restore.
- Prices, ratings and minimum quantities are integers (prices and ratings in hundredths): values with more than two decimals, and the NaN that `parseFloat`/`parseInt` give for a cleared number field (src/pages/AdminCategories.tsx:353,363; src/pages/AdminSuppliers.tsx:225), are not represented.
- Text.Lower / Text.Upper: case mapping covers ASCII and Latin-1 only; other scripts are left unchanged.
- Text.Upper: `charAt(0)` works on a UTF-16 code unit, the model on a code point.
- The admin login page, dashboard, registration, search history and conversations are not part of this model.

## Findings

| source | as written | input that shows it | evidently intended | confidence | as-written member | corrected member |
|---|---|---|---|---|---|---|
| src/components/CategoryCard.tsx:15 | the card's slug is the lower-cased name with whitespace runs replaced by '-', keeping diacritics | the card for "Matérias-Primas" links to /categorias/matérias-primas, while the category page looks up "materias-primas" (also "Componentes Eletrônicos" and "Segurança Industrial") | diacritics removed so the link matches the hand-written slug | not executed | Slugs.AccentedCardLinkIsDead | Slugs.FoldedCardLinksResolve |
