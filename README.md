# fixMobile shop and admin core, modelled in Dafny

fixMobile is a Next.js shop for phone repairs and accessories, with an admin area, that stores its data in Firebase. This project models the logic it keeps in memory and proves properties of that model. Remote reads and writes are not modelled. Each one appears as a parameter holding its outcome: the documents a `getDocs` yields, or the error a call throws. Prices are whole numbers of the smallest currency unit.

The model covers:

- **The device taxonomy.**
  - Brands, series and models in the "Devices" collection (`Taxonomy`).
  - Three tree builders:
    - `NestedList`: the shared `buildNestedListStructure`, with its depth cut-off.
    - `CategoriesManager`: an unbounded builder.
    - `ProductTypesManager`: a strict two-level builder.
  - Drag-and-drop reordering within a sibling group, and the order given to a new entry (`CategoriesManager`).
  - The per-parent order assignment script (`AssignCategoryOrder`).
- **Product filtering.**
  - The model > series > brand precedence of `useFilteredProducts` (`ProductFilter`).
  - The dependent dropdowns and the 25-per-page slicing of the admin product list (`ProductsManager`).
  - The product editor's ancestor lookup, model list, submit validation and submission record (`ProductEditor`).
- **The Redux slices, as classes whose reducers update fields in place.**
  - The cart, with its quantity and price totals (`Cart`).
  - Products, categories, auth and the product modal (`Slices`).
- **Normalisers.**
  - `validateDocuments` and the argument guards of the CRUD helpers (`FirebaseUtils`).
  - The admin list hooks `useDevices` and `useCategories` (`ListHooks`, on top of `DocLists`).
  - The hand-written `slugify` of the device import (`ImportDevices`, on top of `Text`).
  - The two export scripts (`ExportScripts`).
- **Small UI state machines.**
  - The image slider (`ImageSlider.Slider`).
  - Checkout (`Checkout.CheckoutPage`).
  - The orders list (`OrdersManager`).
  - The profile form of both user pages (`ProfileForm`).
  - The shop's "Load More" (`ShopPage`).
  - The admin guard (`AuthGuard`).

The values documents and state hold live in `Js`: undefined, null, booleans, integers, strings, arrays and objects. `Js` also defines JavaScript truthiness, `||`, `===` and object spread. `Seqs` holds the array operations the source uses: `filter`, `find`, `findIndex`, a stable sort by an integer key, and `arrayMove`.

Two behaviours of the code that the model keeps as written:

- `validateDocuments` gives a "Products" document exactly the seven fields listed at src/lib/firebaseUtils.js:33-42 and drops every other field.
- A node at the maximum depth of `buildNestedListStructure` is returned as placed (src/utils/buildNestedListStructure.js:19-22): its children and everything below them stay in input order, unsorted.

## Model

| member | source | states |
|---|---|---|
| FirebaseUtils.NormalizeDevice | src/lib/firebaseUtils.js:24-31 | a "Devices" document keeps every stored field, a falsy one included; `id` "", `name` "Unnamed Category", `type` "unknown" and `parent` null are added only where the field is absent |
| FirebaseUtils.NormalizeProduct | src/lib/firebaseUtils.js:33-42 | a "Products" document has exactly the seven listed fields; a falsy value takes its default, a non-array `imageUrls` becomes `[]`, an array one is kept; every other field is dropped |
| FirebaseUtils.ValidateDocuments | src/lib/firebaseUtils.js:22-47 | the output has the input's length and holds the normalised document at each index for "Devices" and "Products"; any other collection is returned unchanged |
| FirebaseUtils.NormalizeDeviceIdempotent | src/lib/firebaseUtils.js:24-31 | normalising a normalised "Devices" document changes nothing |
| FirebaseUtils.NormalizeProductIdempotent | src/lib/firebaseUtils.js:33-42 | normalising a normalised "Products" document changes nothing |
| FirebaseUtils.ValidateDocumentsIdempotent | src/lib/firebaseUtils.js:22-47 | validating validated documents of the same collection changes nothing |
| FirebaseUtils.AddDocument | src/lib/firebaseUtils.js:55-64 | a missing collection name or data gives the guard's error whatever the remote does; a remote error is rethrown; on success the record holds every field of the data plus `id`, which is the generated id unless the data carries its own |
| FirebaseUtils.UpdateDocument | src/lib/firebaseUtils.js:73-83 | a missing collection name, id or data gives the guard's error; a remote error is rethrown; on success the record is the data plus `id`, the given id unless the data carries its own |
| FirebaseUtils.DeleteDocument | src/lib/firebaseUtils.js:91-101 | a missing collection name or id gives the guard's error; a remote error is rethrown; on success it resolves to the id |
| FirebaseUtils.Raw | src/lib/firebaseUtils.js:112 | a fetched document is its data plus `id`, and a stored `id` field overrides the snapshot id |
| FirebaseUtils.RawAll | src/lib/firebaseUtils.js:112 | one record per snapshot, in order |
| FirebaseUtils.FetchDocuments | src/lib/firebaseUtils.js:108-123 | no collection name gives the guard's error; a remote error is rethrown; otherwise the validated records of the snapshots |
| FirebaseUtils.FetchPaginatedDocuments | src/lib/firebaseUtils.js:133-162 | the same guard and rethrow; a page holds the validated records, and `lastVisible` is the last snapshot, absent exactly when the page is empty |
| FirebaseUtils.GuardsPrecedeRemote | src/lib/firebaseUtils.js:56 | with a missing argument each helper's outcome does not depend on the remote outcome (also lines 74, 92, 109 and 134) |
| ImageSlider.NextIndex | src/app/admin/components/ImageSlider.jsx:34-36 | "next" moves one slide on and stays on the upload tile once there; from a slide in range it lands in range |
| ImageSlider.PrevIndex | src/app/admin/components/ImageSlider.jsx:38-40 | "previous" moves one slide back and stays on the first slide; it never goes below zero |
| ImageSlider.NextThenPrev | src/app/admin/components/ImageSlider.jsx:34-40 | "previous" undoes a "next" that moved, and "next" undoes a "previous" that moved |
| ImageSlider.SlideAt | src/app/admin/components/ImageSlider.jsx:11-23 | slide `i` is the stored image `imageUrls[i]` below the stored count, then the preview of the new file at `i - imageUrls.length`, and the upload tile exactly at the last slide |
| ImageSlider.PickedFileShown | src/app/admin/components/ImageSlider.jsx:25-32 | after a file is added, the slot that was the upload tile shows that file and every earlier slide is unchanged |
| ImageSlider.Slider.Content | src/app/admin/components/ImageSlider.jsx:12-23 | the slide shown is the upload tile exactly when `isUploadSlide` holds |
| ImageSlider.Slider.constructor | src/app/admin/components/ImageSlider.jsx:6-8 | no new images and the first slide, so the slider holds the stored images plus the upload tile |
| ImageSlider.Slider.HandleNext | src/app/admin/components/ImageSlider.jsx:34-36 | the index becomes `NextIndex` of the old one and stays in range; the images are unchanged |
| ImageSlider.Slider.HandlePrev | src/app/admin/components/ImageSlider.jsx:38-40 | the index becomes `PrevIndex` of the old one and stays in range; the images are unchanged |
| ImageSlider.Slider.HandleImageSelect | src/app/admin/components/ImageSlider.jsx:25-32 | no file changes nothing; a file is appended to the new images and passed to `onAddImage`, and the slider moves to the old last slot, which now previews that file |
| Checkout.WithField | src/app/shop/checkout/page.jsx:27-29 | only the field named by the input changes, to the typed text |
| Checkout.Validate | src/app/shop/checkout/page.jsx:33-41 | the form is let through exactly when all four fields are non-empty and the cart is not empty; an unfilled field is reported before an empty cart |
| Checkout.UnfilledIgnoresCart | src/app/shop/checkout/page.jsx:33-36 | with a field unfilled the error is the same whatever the cart holds |
| Checkout.FormFilling | src/app/shop/checkout/page.jsx:27-33 | after typing into the four inputs, starting from any form, the form is filled exactly when every text typed is non-empty |
| Checkout.ClearingBlocks | src/app/shop/checkout/page.jsx:27-33 | clearing any of the four inputs makes the form unfilled, whatever the others hold |
| Checkout.CheckoutPage.constructor | src/app/shop/checkout/page.jsx:17-25 | the empty form, no error, not submitting |
| Checkout.CheckoutPage.HandleChange | src/app/shop/checkout/page.jsx:27-29 | the form becomes `WithField` of the old one; error and submitting are unchanged |
| Checkout.CheckoutPage.HandleSubmit | src/app/shop/checkout/page.jsx:31-62 | a validation error is shown and nothing is written; otherwise the order (form, items, total, "pending") is written, the cart cleared and /shop pushed, or on a failed write the retry message is shown and the cart kept; submitting ends false |
| OrdersManager.Loaded | src/app/admin/OrdersManager.jsx:12-25 | the fetched "orders" replace the list, a failure keeps it, and loading ends in both cases |
| OrdersManager.ToggleExpand | src/app/admin/OrdersManager.jsx:27-29 | the open order collapses, any other id opens |
| OrdersManager.AtMostOneExpanded | src/app/admin/OrdersManager.jsx:27-29 | with distinct ids at most one order is open after a toggle; toggling an id twice leaves it open if it was open and nothing open otherwise (also lines 9 and 53-64) |
| OrdersManager.HandleStatusChange | src/app/admin/OrdersManager.jsx:31-42 | the list keeps its length; on a failed write (or no id) nothing changes; on success every order with that id takes the new status and keeps its other fields, and every other order is unchanged |
| OrdersManager.StatusChangeKeepsOffered | src/app/admin/OrdersManager.jsx:31-42 | picking one of the offered statuses keeps every order on an offered status (also lines 71-78) |
| OrdersManager.CheckoutStatusOffered | src/app/admin/OrdersManager.jsx:75-77 | the status checkout writes, "pending", is the first option of the select, and the three options differ |
| ProfileForm.Fields | src/app/user/UserProfile.jsx:64 | spreading an object copies its fields; spreading no object copies none |
| ProfileForm.HandleChange | src/app/user/UserProfile.jsx:59-74 | with a section only that field of that section changes; without one only the named top-level field changes |
| ProfileForm.ToggleSameAsLegal | src/app/user/UserProfile.jsx:76-82 | the switch flips; switching on copies legal into delivery, switching off empties delivery; nothing else changes |
| ProfileForm.ToggleTwice | src/app/user/UserProfile.jsx:76-82 | two toggles restore the switch and legal; delivery then mirrors legal or is empty, as the switch was |
| ProfileForm.Payload | src/app/user/UserProfile.jsx:84-93 | nothing is saved without a user; the payload has name, phone, legal and delivery, and delivery is legal while the switch is on |
| ProfileForm.LegalEditSavedAsDelivery | src/app/user/UserProfile.jsx:59-67 | with the switch on, an edit of the legal address is what gets saved as delivery, although the delivery field kept its old value (also lines 88-93) |
| ProfileForm.LoadedForm | src/app/user/UserProfile.jsx:40-50 | a loaded form has the five fields; missing or falsy stored fields take the empty form's defaults |
| ProfileForm.ProfileLoaded | src/app/user/UserProfile.jsx:38-51 | no stored document keeps the form; otherwise the loaded form is on exactly when no delivery is stored or both addresses have the same JSON text |
| ProfileForm.PageLoaded | src/app/user/page.jsx:37-46 | the older page loads the same fields but always with the switch off |
| ProfileForm.LoadRulesDiffer | src/app/user/UserProfile.jsx:38-51 | for a profile with no stored delivery, saving right after loading writes legal as delivery on the profile page but the empty address on the older page (src/app/user/page.jsx:37-46) |
| ProfileForm.SameAddressesRoundTrip | src/app/user/UserProfile.jsx:38-51 | a profile whose delivery equals its legal address loads with the switch on and saves its delivery unchanged, on both pages (also lines 84-93) |
| ShopPage.PageDocs | src/lib/firebaseUtils.js:151 | one validated product per snapshot of the page |
| ShopPage.PageDocsAppend | src/app/shop/page.jsx:25 | appending the products of a page is the same as validating the joined run of snapshots |
| ShopPage.Started | src/app/shop/page.jsx:16 | a fetch starts loading and hides "Load More"; nothing else changes (also line 66) |
| ShopPage.Fetched | src/app/shop/page.jsx:15-35 | the query is asked with `lastDoc` for a next page and with no cursor for the first; its page replaces the list on the first fetch and is appended on later ones; its last snapshot becomes `lastDoc`; `hasMore` holds exactly when it held and the page was full; a failure only sets the error; loading ends |
| ShopPage.Start | src/lib/firebaseUtils.js:143-145 | `startAfter(cursor)` resumes just after the cursor's snapshot, and at the start without a cursor |
| ShopPage.StartAfterIndex | src/lib/firebaseUtils.js:140-148 | in a collection without repeated snapshots, the cursor `store[i]` resumes at `i + 1` |
| ShopPage.SessionShowsPrefix | src/app/shop/page.jsx:15-39 | after the first fetch and `n` clicks on "Load More", the list is the products of the first `Asked(n)` snapshots in `price` order (all of them when there are fewer), each once; "Load More" stays exactly while that many exist, and `lastDoc` is the last one shown (also lines 66-68) |
| ShopPage.AskedPages | src/app/shop/page.jsx:13-22 | each fetch asks for `pageSize`, five, snapshots, so the first fetch and `n` clicks ask for `5 * (n + 1)` |
| ShopPage.SessionShowsAll | src/app/shop/page.jsx:28 | once `hasMore` is off, every product of the collection is listed in order |
| ShopPage.SessionEnds | src/app/shop/page.jsx:28 | enough clicks always reach a short page and turn `hasMore` off |
| ShopPage.FailureStops | src/app/shop/page.jsx:29-31 | a failed fetch sets the error, keeps the list and `lastDoc`, and hides "Load More", so no further click happens (also line 42) |
| AuthGuard.UseAuthStatus | src/hooks/useAuthStatus.js:3-10 | the hook returns the user, `isLoggedIn` as the user's truthiness and `isAdmin` as role "admin", and no `loading`; an admin is always logged in |
| AuthGuard.UseAuthStatusWithLoading | src/hooks/useAuthStatus.js:3-10 | the hook as the guard reads it: the same three fields plus the slice's `loading` |
| AuthGuard.Guard | src/hooks/AuthGuard.jsx:9-25 | while loading it neither redirects nor renders; otherwise a signed-out user goes to /login and a non-admin to /shop; the children render exactly for a loaded admin |
| AuthGuard.GuardNeverWaits | src/hooks/AuthGuard.jsx:9-25 | with the hook as written the guard decides on the first render: admins are let in, signed-in users sent to /shop, everyone else to /login |
| AuthGuard.RedirectsBeforeAuthResolves | src/hooks/AuthGuard.jsx:12-15 | while the slice is still resolving (user null), the guard as written sends the visitor to /login |
| AuthGuard.GuardWaitsWhileLoading | src/hooks/AuthGuard.jsx:12 | with `loading` passed on, the guard waits while loading and afterwards decides exactly as before |
| Seqs.Filter | src/app/admin/CategoriesManager.jsx:71 | the filter keeps exactly the elements satisfying the predicate and is no longer than the list |
| Seqs.FilterIsSubsequence | src/hooks/useFilteredProducts.js:18-20 | a filter is the list with some elements left out and the rest in order |
| Seqs.FindIndex | src/app/admin/CategoriesManager.jsx:119-120 | the index found is the first one satisfying the predicate; none is found exactly when no element satisfies it |
| Seqs.Find | src/app/admin/CategoriesManager.jsx:111 | an element is found exactly when some element satisfies the predicate, and the one found is the first such element: it sits at a position before which no element satisfies it |
| Seqs.SortBy | src/app/admin/CategoriesManager.jsx:101-117 | the stable sort by `order ?? 0` is a permutation, sorted by the key, and keeps the relative order of equal keys |
| Seqs.InsertBySorted | src/app/admin/CategoriesManager.jsx:117 | inserting into a list sorted by the key keeps it sorted |
| Seqs.ArrayMove | src/app/admin/CategoriesManager.jsx:124 | `arrayMove` puts the element from `from` at `to`, the other elements keep their order, and the result is a permutation |
| Taxonomy.ParentKey | src/app/admin/CategoriesManager.jsx:71 | `parent ?? ''` is the parent id for a string parent and `''` otherwise, and it is non-empty exactly when the parent is truthy (also line 114) |
| Taxonomy.SiblingsSpec | src/app/admin/CategoriesManager.jsx:71 | the sibling group holds exactly the entries with that parent key, at most as often as the list does (also lines 115-116) |
| Taxonomy.SiblingsAppend | src/app/admin/CategoriesManager.jsx:71 | the sibling group of a concatenation is the concatenation of the groups |
| Taxonomy.FindById | src/app/admin/CategoriesManager.jsx:111 | the entry found is the first entry with the id (no earlier entry has it); nothing is found exactly when no entry has it |
| Taxonomy.IndexById | src/app/admin/CategoriesManager.jsx:119-120 | the index found is the first with the id; none is found exactly when no entry has it |
| Taxonomy.SameId | src/app/admin/CategoriesManager.jsx:87 | in a list with unique ids two entries with the same id are the same entry |
| Taxonomy.UniqueIdsDistinct | src/app/admin/CategoriesManager.jsx:87 | unique ids mean no entry occurs twice |
| CategoriesManager.ToggleExpand | src/app/admin/CategoriesManager.jsx:66-67 | the flag of the id flips (an id never toggled reads as collapsed) and every other flag is kept |
| CategoriesManager.ToggleExpandTwice | src/app/admin/CategoriesManager.jsx:66-67 | toggling an id twice restores every flag |
| CategoriesManager.NewEntry | src/app/admin/CategoriesManager.jsx:69-74 | the new entry keeps the given name and type, its id is the lower-case slug of its name, its parent key is the given parent and its order is the size of its sibling group |
| CategoriesManager.NewEntryKeepsDense | src/app/admin/CategoriesManager.jsx:69-74 | the stored entry goes last in its group, and a group numbered 0..k-1 is numbered 0..k afterwards |
| CategoriesManager.BuildNestedStructure | src/app/admin/CategoriesManager.jsx:84-105 | for a list with unique ids, the method's loops build the placement of the unbounded nested-list builder with every level sorted |
| CategoriesManager.ShapedSortedEverywhere | src/app/admin/CategoriesManager.jsx:99-102 | in a well-shaped subtree each node's children are a stable sort of all its children |
| CategoriesManager.EveryLevelSorted | src/app/admin/CategoriesManager.jsx:99-104 | the top level is a stable sort of the root entries, and every node's children are a stable sort of its children |
| CategoriesManager.PushedIds | src/app/admin/CategoriesManager.jsx:91-93 | the nodes pushed into the node of an id are named by the ids of exactly the entries whose parent is that id, and nothing is pushed when no entry has that id |
| CategoriesManager.SelfPushed | src/app/admin/CategoriesManager.jsx:87-93 | an entry whose id equals its parent's id has its node pushed into that same node |
| CategoriesManager.SameSlugUnderItself | src/app/admin/CategoriesManager.jsx:69-102 | a brand "Apple", a series "iPad" and a model "iPad" under that series, added through `handleAddEntry`, leave the "ipad" node among its own children, so `sortRecursive` meets branches of every depth and recurses until the call stack overflows with a `RangeError` |
| CategoriesManager.DropOf | src/app/admin/CategoriesManager.jsx:107-122 | no target, a drop on itself, an unknown dragged id or a target outside the sibling group returns early; otherwise the sorted sibling group and both positions are found |
| CategoriesManager.DropNeedsSibling | src/app/admin/CategoriesManager.jsx:114-122 | a drop goes through exactly when the target is an entry of the dragged entry's sibling group |
| CategoriesManager.Renumber | src/app/admin/CategoriesManager.jsx:126-129 | each entry of the reordered group gets its position as `order` and nothing else changes |
| CategoriesManager.Rebuild | src/app/admin/CategoriesManager.jsx:131-134 | the rebuilt list has the old length; entries of the group are replaced by their renumbered copy |
| CategoriesManager.RenumberGroup | src/app/admin/CategoriesManager.jsx:126-129 | the loop renumbers the group and fires one order write per entry, in order, with its position |
| CategoriesManager.HandleDragEnd | src/app/admin/CategoriesManager.jsx:107-137 | an early return changes nothing and writes nothing; otherwise the list is rebuilt from the renumbered `arrayMove` and one write per sibling is fired |
| CategoriesManager.DropMoves | src/app/admin/CategoriesManager.jsx:124 | the dragged entry lands at the target position, the other siblings keep their order, and the group is a permutation of the sibling group |
| CategoriesManager.RenumberedEntry | src/app/admin/CategoriesManager.jsx:131-134 | the lookup finds an entry exactly when it is a sibling, and then finds its renumbered copy |
| CategoriesManager.RegroupEntries | src/app/admin/CategoriesManager.jsx:131-134 | every entry keeps its id and parent; entries outside the group are untouched; group entries become their renumbered copy |
| CategoriesManager.RegroupDistinct | src/app/admin/CategoriesManager.jsx:115-117 | the reordered group holds each entry once |
| CategoriesManager.RegroupGroupDistinct | src/app/admin/CategoriesManager.jsx:131-136 | the rebuilt list's sibling group has no repeats |
| CategoriesManager.GroupWithinRenumbered | src/app/admin/CategoriesManager.jsx:131-136 | every member of the rebuilt sibling group is one of the renumbered entries |
| CategoriesManager.RenumberedInGroup | src/app/admin/CategoriesManager.jsx:131-136 | a given renumbered entry is in the rebuilt sibling group |
| CategoriesManager.RenumberedWithinGroup | src/app/admin/CategoriesManager.jsx:131-136 | every renumbered entry is in the rebuilt sibling group |
| CategoriesManager.RegroupDense | src/app/admin/CategoriesManager.jsx:126-136 | the rebuilt sibling group is numbered 0..k-1, each order used once |
| CategoriesManager.DropRenumbers | src/app/admin/CategoriesManager.jsx:107-137 | after a drop every entry keeps its id, parent and position, entries outside the group are untouched, and each sibling's `order` is its place in the new sequence |
| CategoriesManager.DropNumbersDensely | src/app/admin/CategoriesManager.jsx:107-137 | after a drop the sibling group is numbered 0..k-1, so the next drag sorts by distinct orders |
| NestedList.RootsSpec | src/utils/buildNestedListStructure.js:8-14 | `nested` holds exactly the entries with a falsy parent, at most as often as the list does |
| NestedList.ChildrenOfSpec | src/utils/buildNestedListStructure.js:9-10 | a node's children are exactly the entries whose parent is its id, at most as often as the list does |
| NestedList.Placement | src/utils/buildNestedListStructure.js:2-14 | the node map after both passes has one node per id holding that entry's children in list order |
| NestedList.PrefixStep | src/utils/buildNestedListStructure.js:3-14 | one more entry of the list adds its id, and adds it to the roots or to its parent's children as its parent says |
| NestedList.PushStep | src/utils/buildNestedListStructure.js:9-10 | one push keeps the ids of the map and extends exactly the children of the entry's parent |
| NestedList.Place | src/utils/buildNestedListStructure.js:2-14 | the two `forEach` loops leave the roots in `nested` and the placement in the map |
| NestedList.ChainNoRepeat | src/utils/buildNestedListStructure.js:9-10 | with unique ids two positions of a chain of parents hold different entries |
| NestedList.ChainDistinct | src/utils/buildNestedListStructure.js:9-10 | with unique ids no chain of parents visits an entry twice |
| NestedList.ChainBound | src/utils/buildNestedListStructure.js:16-23 | a chain of parents is never longer than the list, so the walk ends |
| NestedList.ChainUnique | src/utils/buildNestedListStructure.js:9-10 | two chains of parents ending at the same entry are the same chain |
| NestedList.ChainParent | src/utils/buildNestedListStructure.js:9-10 | dropping the last entry of a chain leaves the chain to its parent, which is in the list |
| NestedList.ChainExtend | src/utils/buildNestedListStructure.js:10-21 | a child of the last entry extends a chain |
| NestedList.Level | src/utils/buildNestedListStructure.js:17-22 | a children list is sorted at depths below the maximum and kept in placement order otherwise; either way it is a permutation |
| NestedList.Subtrees | src/utils/buildNestedListStructure.js:19-23 | one node per child, in order |
| NestedList.SubtreesAt | src/utils/buildNestedListStructure.js:19-23 | the `i`-th node is the node walked from the `i`-th child, whose chain extends the parent's |
| NestedList.BuildNestedListStructure | src/utils/buildNestedListStructure.js:1-26 | the method builds the forest: the sorted roots, each walked from depth 0 up to `maxDepth` |
| NestedList.Items | src/utils/buildNestedListStructure.js:4 | the entries of a node list, one per node |
| NestedList.SubtreeShape | src/utils/buildNestedListStructure.js:16-23 | the node for a chain holds all children of its entry, stably sorted while the depth is below the maximum and in list order at the maximum, and so does every node below |
| NestedList.LevelShape | src/utils/buildNestedListStructure.js:17-22 | below the maximum depth a children list is a stable sort of the children; at it, the list is kept |
| NestedList.SubtreeLinked | src/utils/buildNestedListStructure.js:9-10 | every node below a node is a child of the node above it |
| NestedList.ForestShape | src/utils/buildNestedListStructure.js:16-25 | the top level is a stable sort of the roots; every top node is a root, linked and shaped at depth 0 |
| NestedList.FlattenHas | src/utils/buildNestedListStructure.js:25 | every entry under a top node is in the depth-first flatten of the forest |
| NestedList.NodeChains | src/utils/buildNestedListStructure.js:9-23 | every entry under the node for a chain ends a chain extending it |
| NestedList.ChainEndUnder | src/utils/buildNestedListStructure.js:9-23 | the end of every chain extending a node's chain is under that node |
| NestedList.ForestChains | src/utils/buildNestedListStructure.js:1-26 | every entry in the forest is linked to a root by a chain of parents |
| NestedList.ChainInForest | src/utils/buildNestedListStructure.js:1-26 | every entry so linked is in the forest |
| NestedList.RootIndex | src/utils/buildNestedListStructure.js:12-25 | each root has its node at the top of the forest |
| NestedList.ForestMembers | src/utils/buildNestedListStructure.js:1-26 | the forest holds exactly the entries that a chain of parents links to a root |
| NestedList.LevelDistinct | src/utils/buildNestedListStructure.js:10 | with unique ids a children list has no repeats |
| NestedList.NodeDistinct | src/utils/buildNestedListStructure.js:16-23 | no entry appears twice under one node |
| NestedList.ForestDistinct | src/utils/buildNestedListStructure.js:1-26 | no entry appears twice in the forest |
| NestedList.ForestPermutation | src/utils/buildNestedListStructure.js:1-26 | when every entry is linked to a root, the forest holds each entry exactly once |
| NestedList.DanglingDropped | src/utils/buildNestedListStructure.js:10 | an entry whose truthy parent names no entry is left out of the forest, as `map[item.parent]?.children.push` does nothing |
| NestedList.ChainAvoidsClosed | src/utils/buildNestedListStructure.js:9-12 | no chain from a root reaches a group closed under parents |
| NestedList.CycleDropped | src/utils/buildNestedListStructure.js:9-12 | an entry on a cycle of parents, or below one, is left out of the forest |
| NestedList.Ungrounded | src/utils/buildNestedListStructure.js:9-12 | the entries of a list that no chain links to a root |
| NestedList.WellFormedGrounded | src/utils/buildNestedListStructure.js:9-12 | with unique ids, parents that resolve and no cycle, every entry is linked to a root |
| NestedList.ForestExactlyOnce | src/utils/buildNestedListStructure.js:1-26 | in a well-formed taxonomy the depth-first flatten of the forest is a permutation of the list |
| ProductsManager.ToOptions | src/app/admin/ProductsManager.jsx:74-94 | one `{ value: id, label: name }` option per category, in order |
| ProductsManager.Values | src/app/admin/ProductsManager.jsx:109-143 | the values of a list of options, in order |
| ProductsManager.BrandOptions | src/app/admin/ProductsManager.jsx:72-74 | the brand dropdown offers exactly the brands' options |
| ProductsManager.ValuesOfOptions | src/app/admin/ProductsManager.jsx:74-94 | the values offered are the ids of the categories, in order |
| ProductsManager.SeriesOptionsExact | src/app/admin/ProductsManager.jsx:76-80 | the series dropdown offers exactly the series under the selected brand, or every series without one |
| ProductsManager.ModelOptionsUnderSeries | src/app/admin/ProductsManager.jsx:82-85 | under a selected series the model dropdown offers exactly the models the product filter accepts for that series |
| ProductsManager.ModelOptionsUnderBrand | src/app/admin/ProductsManager.jsx:86-91 | under a brand and no series the model dropdown offers exactly the models of the brand's series, as the product filter does |
| ProductsManager.ModelOptionsUnfiltered | src/app/admin/ProductsManager.jsx:92 | with neither series nor brand every model is offered |
| ProductsManager.SliceIndex | src/app/admin/ProductsManager.jsx:100 | a `slice` bound is clamped into the list, a negative one counted from the end |
| ProductsManager.Slice | src/app/admin/ProductsManager.jsx:100 | a slice is never longer than the list |
| ProductsManager.TotalPages | src/app/admin/ProductsManager.jsx:172 | `Math.ceil(n / 25)`: the least number of pages of 25 that hold `n` products |
| ProductsManager.PageBound | src/app/admin/ProductsManager.jsx:98-100 | a page holds at most 25 products, whatever the page number |
| ProductsManager.PageContents | src/app/admin/ProductsManager.jsx:98-100 | page `p` is the `p`-th run of 25 products, cut at the end of the list |
| ProductsManager.PastLastPage | src/app/admin/ProductsManager.jsx:98-100 | a page past the last one is empty (also line 172) |
| ProductsManager.FirstPagesPrefix | src/app/admin/ProductsManager.jsx:98-100 | the first `k` pages one after the other are the first `25k` products |
| ProductsManager.PagesPartition | src/app/admin/ProductsManager.jsx:98-100 | the pages `1..totalPages` partition the filtered list, in order (also line 172) |
| ProductsManager.ProductsView.constructor | src/app/admin/ProductsManager.jsx:33-39 | no selection and page 1 |
| ProductsManager.ProductsView.Rekey | src/app/admin/ProductsManager.jsx:57-61 | the page goes back to 1 exactly when a selected value changed |
| ProductsManager.ProductsView.SelectType | src/app/admin/ProductsManager.jsx:112 | only the type changes, and the page resets if it did |
| ProductsManager.ProductsView.SelectBrand | src/app/admin/ProductsManager.jsx:119-123 | the brand changes and series and model are cleared; the page resets if the selection changed |
| ProductsManager.ProductsView.SelectSeries | src/app/admin/ProductsManager.jsx:130-133 | the series changes and the model is cleared; the page resets if the selection changed |
| ProductsManager.ProductsView.SelectModel | src/app/admin/ProductsManager.jsx:140 | only the model changes, and the page resets if it did |
| ProductsManager.ProductsView.ChangePage | src/app/admin/ProductsManager.jsx:173 | the page becomes the one chosen; the selection is kept |
| ProductsManager.ProductsView.SubmitNew | src/app/admin/ProductsManager.jsx:183-186 | adding a new product puts the page back to 1; the selection is kept |
| ProductFilter.IdsOf | src/hooks/useFilteredProducts.js:32-44 | the ids of a list of documents, in order |
| ProductFilter.IdsUnder | src/hooks/useFilteredProducts.js:30-41 | exactly the ids of the categories of that type whose parent is the given id |
| ProductFilter.ModelsOfBrand | src/hooks/useFilteredProducts.js:39-44 | exactly the ids of the models whose parent is a series of the brand |
| ProductFilter.ModelsOfBrandExact | src/hooks/useFilteredProducts.js:39-44 | an id is among the brand's models exactly when it names a model two levels below the brand |
| ProductFilter.FilterProducts | src/hooks/useFilteredProducts.js:14-52 | the effect's narrowing steps keep exactly the products that pass the type filter and the hierarchy rule that fires, in order |
| ProductFilter.FilterIsSubsequence | src/hooks/useFilteredProducts.js:15-50 | the filtered list is the product list with some products left out and the rest in order |
| ProductFilter.NoSelectionKeepsAll | src/hooks/useFilteredProducts.js:15-50 | with nothing selected every product is kept |
| ProductFilter.Precedence | src/hooks/useFilteredProducts.js:23-50 | a selected model overrides series and brand, and a selected series overrides the brand |
| ProductFilter.ModelRule | src/hooks/useFilteredProducts.js:23-28 | with a model selected a product is kept exactly when its `modelIds` is an array holding the model |
| ProductFilter.SeriesRule | src/hooks/useFilteredProducts.js:29-37 | with a series and no model, a product is kept exactly when one of its `modelIds` names a model of that series |
| ProductFilter.BrandRule | src/hooks/useFilteredProducts.js:38-49 | with only a brand, a product is kept exactly when one of its `modelIds` names a model two levels below the brand |
| ProductFilter.TypeAlwaysApplies | src/hooks/useFilteredProducts.js:17-21 | with a type selected only products of that type are kept, whatever hierarchy rule fires |
| ProductFilter.NonArrayExcluded | src/hooks/useFilteredProducts.js:26-47 | once a hierarchy select is set, a product without a `modelIds` array is dropped |
| ProductTypesManager.WithParent | src/app/admin/ProductTypesManager.jsx:74 | exactly the types whose `parent` is strictly equal to the given id |
| ProductTypesManager.Items | src/app/admin/ProductTypesManager.jsx:75-78 | the types of a node list, one per node |
| ProductTypesManager.Build | src/app/admin/ProductTypesManager.jsx:71-79 | past depth 1 there are no nodes; otherwise one node per type whose `parent` is `parentId`, in list order, an undefined `parentId` standing for its default `null` |
| ProductTypesManager.ForestShape | src/app/admin/ProductTypesManager.jsx:71-79 | the roots are the types whose `parent` is exactly `null`, in order; below each root are the types whose `parent` is its id (`null` for a root without an id), in order; those have no children |
| ProductTypesManager.NoIdListsRoots | src/app/admin/ProductTypesManager.jsx:71 | below a root without an id the default `parentId = null` lists the root types again |
| ProductTypesManager.FlattenMember | src/app/admin/ProductTypesManager.jsx:81-126 | a type is shown exactly when it is some node's type or shown below that node |
| ProductTypesManager.FlattenLeaves | src/app/admin/ProductTypesManager.jsx:72 | nodes without children show just their types |
| ProductTypesManager.RootChildren | src/app/admin/ProductTypesManager.jsx:74-77 | below a root sit exactly the types whose `parent` is its id |
| ProductTypesManager.RootNode | src/app/admin/ProductTypesManager.jsx:71-74 | every type whose `parent` is exactly `null` has a root node |
| ProductTypesManager.ShownIsPlaced | src/app/admin/ProductTypesManager.jsx:71-79 | a shown type is in the list and is a root or the child of a root |
| ProductTypesManager.PlacedIsShown | src/app/admin/ProductTypesManager.jsx:71-79 | a root or a child of a root is shown |
| ProductTypesManager.ForestMembers | src/app/admin/ProductTypesManager.jsx:71-79 | a type is shown exactly when its `parent` is `null` or the id of a type whose `parent` is `null`; a missing, `""`, dangling or deeper parent is never shown |
| ProductTypesManager.HandleAddType | src/app/admin/ProductTypesManager.jsx:40-44 | a failed write is rethrown; otherwise the list gains, at its end, the record `{ id, name, parent }` with `parent` defaulting to `null` |
| ProductTypesManager.HandleUpdateType | src/app/admin/ProductTypesManager.jsx:46-51 | the list changes only after a successful write, and then `updatedData` is merged into exactly the types with that id |
| ProductTypesManager.DropType | src/app/admin/ProductTypesManager.jsx:63-65 | the kept types are exactly those whose id and parent both differ from the target, in order |
| ProductTypesManager.HandleDeleteType | src/app/admin/ProductTypesManager.jsx:53-66 | an error from a child's delete is rethrown first; then an empty id fails `deleteDocument`'s guard and a rejected delete of the type is rethrown, each keeping the list; the list changes exactly when every delete succeeds, and then the type and its direct children are dropped (also lines src/lib/firebaseUtils.js:91-101) |
| ProductTypesManager.TwoLevelsAllShown | src/app/admin/ProductTypesManager.jsx:71-79 | when every type is a root or the child of a root, the tree shows every type |
| ProductTypesManager.AddKeepsTwoLevels | src/app/admin/ProductTypesManager.jsx:130-144 | adding at the top or under a root, the only places the screen offers, keeps every type within two levels (also line 163) |
| ProductTypesManager.RenameKeepsTwoLevels | src/app/admin/ProductTypesManager.jsx:100-101 | renaming keeps every type within two levels |
| ProductTypesManager.DeleteKeepsTwoLevels | src/app/admin/ProductTypesManager.jsx:63-65 | deleting a type with its direct children keeps every type within two levels |
| ProductEditor.FindById | src/app/admin/components/ProductEditor.jsx:32-34 | the category found is the first whose id strictly equals the one looked up (no earlier category's does); nothing is found exactly when no category has it |
| ProductEditor.FirstOf | src/app/admin/components/ProductEditor.jsx:32 | `modelIds?.[0]` is the first element of a non-empty array, the first character of a non-empty string, an object's property `"0"`, and `undefined` for empty arrays and strings and for every other value |
| ProductEditor.Ancestors | src/app/admin/components/ProductEditor.jsx:32-34 | the first model is the category whose id is `modelIds?.[0]`, or `""` when that is falsy (so a string `modelIds` looks up its first character), its series the category whose id is the model's parent, and the brand the one whose id is the series' parent; each is missing exactly when no category has that id, and whenever the link above it is missing |
| ProductEditor.Load | src/app/admin/components/ProductEditor.jsx:29-47 | the form takes the product's model list, and the ids of the series and brand that `Ancestors` finds from `modelIds?.[0]`, `""` where a link is missing |
| ProductEditor.LoadMissingLinks | src/app/admin/components/ProductEditor.jsx:32-44 | a missing first model leaves series and brand `""`; a missing series leaves the brand `""` |
| ProductEditor.LoadResolvesChain | src/app/admin/components/ProductEditor.jsx:32-44 | with unique truthy ids, a product whose first model sits under a series under a brand loads with exactly that series and brand |
| ProductEditor.OptionsUnder | src/app/admin/components/ProductEditor.jsx:50-51 | the series and model choices are exactly the categories of that type under the selected parent, in order |
| ProductEditor.ChangeBrand | src/app/admin/components/ProductEditor.jsx:120 | the brand is set, series and models are cleared, nothing else changes |
| ProductEditor.ChangeSeries | src/app/admin/components/ProductEditor.jsx:128 | the series is set, models are cleared, nothing else changes |
| ProductEditor.AddModel | src/app/admin/components/ProductEditor.jsx:138-142 | `""` and a listed id are ignored; any other id is appended; nothing else changes |
| ProductEditor.RemoveModel | src/app/admin/components/ProductEditor.jsx:154-159 | the model list loses exactly that id and keeps the rest in order; nothing else changes |
| ProductEditor.AddModelDistinct | src/app/admin/components/ProductEditor.jsx:138-142 | adding keeps the model list free of repeats |
| ProductEditor.RemoveModelDistinct | src/app/admin/components/ProductEditor.jsx:154-159 | removing keeps the model list free of repeats |
| ProductEditor.UploadedPaths | src/app/admin/components/ProductEditor.jsx:62-78 | the paths of the uploads that succeeded, never more than the files |
| ProductEditor.UploadedPathsSpec | src/app/admin/components/ProductEditor.jsx:62-78 | every successful upload's path `products/<brand>/<model>/<file>` is listed, no path of a failed one is, and with no failure there is one path per file |
| ProductEditor.Strs | src/app/admin/components/ProductEditor.jsx:86 | the paths as string values, in order |
| Js.ArraySpread | src/app/admin/components/ProductEditor.jsx:86 | `[...v]` gives an array's elements, a string's characters as one-character strings, and throws a `TypeError` for every other value |
| ProductEditor.Submission | src/app/admin/components/ProductEditor.jsx:80-90 | the stored `imageUrls` (`[]` when it is falsy) is spread before the uploaded paths: a stored array contributes its elements, a stored string contributes one entry per character before them, nothing stored gives the paths alone, and any other truthy stored value throws a `TypeError`; a record that is built has the nine listed fields, the form's name, description and product type, the parsed price and quantity, `modelIds` the model list, `brandIds` `[brand]` or `[]`, and `id` the stored id or `undefined` |
| ProductEditor.UploadAll | src/app/admin/components/ProductEditor.jsx:62-78 | the loop appends the path of each successful upload, in upload order |
| ProductEditor.HandleSubmit | src/app/admin/components/ProductEditor.jsx:53-93 | an incomplete form (no name, price, model or product type) stops at the alert; otherwise, after the uploads, the record with the uploaded paths is passed to `onSave`, or, when building it throws, the handler throws and `onSave` is not called |
| Cart.LineIndex | src/store/slices/cartSlice.js:19 | the position found is the first line for the product; none is found exactly when no line is for it (also lines 39, 50 and 61) |
| Cart.Without | src/store/slices/cartSlice.js:44 | the kept lines are exactly those of other products, in order |
| Cart.NewLine | src/store/slices/cartSlice.js:24-30 | a new line carries the product's id, name and price, quantity 1, and its first image or `''` |
| Cart.Bump | src/store/slices/cartSlice.js:22 | only the quantity of that one line moves, by the given amount (also lines 53 and 64) |
| Cart.TotalsAppend | src/store/slices/cartSlice.js:24-34 | appending a line adds its quantity and its value to the sums |
| Cart.TotalsBump | src/store/slices/cartSlice.js:22 | moving a line's quantity moves the quantity sum by the same amount and the value sum by price times it (also lines 53-55 and 64-66) |
| Cart.TotalsWithout | src/store/slices/cartSlice.js:41-44 | with unique products, filtering a line out subtracts exactly its quantity and its value |
| Cart.WithoutWellFormed | src/store/slices/cartSlice.js:44 | removing a product's lines keeps the lines well formed |
| Cart.UniqueWithout | src/store/slices/cartSlice.js:44 | removing a product's lines keeps one line per product |
| Cart.Add | src/store/slices/cartSlice.js:17-35 | the totals grow by one and by the price; a held product's line gains one and the others are untouched; a new product's line is appended |
| Cart.Remove | src/store/slices/cartSlice.js:37-46 | an unknown id changes nothing; otherwise the totals drop by the line's quantity and value, and the kept lines are exactly the other products' lines, in order |
| Cart.Increase | src/store/slices/cartSlice.js:48-57 | an unknown id changes nothing; otherwise that line gains one and the totals grow by one and by its price |
| Cart.Decrease | src/store/slices/cartSlice.js:59-70 | a line above 1 loses one and the totals drop by one and by its price; a line at 1, or an unknown id, is handled as `removeFromCart` |
| Cart.AddKeepsValid | src/store/slices/cartSlice.js:17-35 | with the catalogue price on the line, adding keeps the totals equal to the sums of the lines, one line per product and every quantity at least 1 |
| Cart.RemoveKeepsValid | src/store/slices/cartSlice.js:37-46 | removing keeps the totals exact and the lines well formed |
| Cart.IncreaseKeepsValid | src/store/slices/cartSlice.js:48-57 | increasing keeps the totals exact and the lines well formed |
| Cart.DecreaseKeepsValid | src/store/slices/cartSlice.js:59-70 | decreasing keeps the totals exact and no line at quantity 0 |
| Cart.RemoveLeavesNoLine | src/store/slices/cartSlice.js:44 | after a remove no line is for that product, even if several were |
| Cart.AddThenRemove | src/store/slices/cartSlice.js:17-46 | adding a product the cart does not hold and removing it restores the state |
| Cart.IncreaseThenDecrease | src/store/slices/cartSlice.js:48-70 | one more and then one fewer of a held product restores the state |
| Cart.AddedTwiceOneLine | src/store/slices/cartSlice.js:19-31 | adding a product twice leaves well-formed lines with exactly one line for it |
| Cart.AddWellFormed | src/store/slices/cartSlice.js:17-31 | adding keeps one line per product with quantities at least 1, and puts the product on a line |
| Cart.CartSlice.constructor | src/store/slices/cartSlice.js:3-7 | the empty cart with both totals 0, which satisfies the invariant |
| Cart.CartSlice.SetCart | src/store/slices/cartSlice.js:13-15 | the payload becomes the state, unchecked |
| Cart.CartSlice.AddToCart | src/store/slices/cartSlice.js:17-35 | the state becomes `Add` of the old one |
| Cart.CartSlice.RemoveFromCart | src/store/slices/cartSlice.js:37-46 | the state becomes `Remove` of the old one |
| Cart.CartSlice.IncreaseQuantity | src/store/slices/cartSlice.js:48-57 | the state becomes `Increase` of the old one |
| Cart.CartSlice.DecreaseQuantity | src/store/slices/cartSlice.js:59-70 | the state becomes `Decrease` of the old one |
| Cart.CartSlice.ClearCart | src/store/slices/cartSlice.js:72-76 | no lines and both totals 0 |
| DocLists.ReplaceFirst | src/store/slices/productsSlice.js:93-96 | the length never changes; with no item of the payload's id nothing changes; otherwise the first such item becomes the payload and every other item stays |
| DocLists.DropId | src/store/slices/productsSlice.js:97-99 | the kept items are exactly those whose id differs, in order |
| DocLists.ReplaceFirstKeepsIds | src/store/slices/productsSlice.js:93-96 | an update never changes which ids the list holds |
| DocLists.MergeInto | src/hooks/useDevices.js:52-54 | the length never changes; items with another id are unchanged; items with the id keep their fields and take every field of the update |
| DocLists.DropIdAppended | src/hooks/useDevices.js:41-64 | deleting the id of an item just appended, when no earlier item has it, restores the list |
| Slices.FetchAll | src/store/slices/productsSlice.js:6-11 | a failed read is rejected; otherwise one record per snapshot, holding its data plus `id`, the snapshot id unless the data has its own |
| Slices.CleanProduct | src/store/slices/productsSlice.js:17-18 | what is written is the product without its `id` field, every other field kept |
| Slices.AddProduct | src/store/slices/productsSlice.js:13-30 | a failed write rejects with its message; otherwise the record holds every written field and the generated id |
| Slices.UpdateProduct | src/store/slices/productsSlice.js:32-46 | a failed write rejects with its message; otherwise it resolves to the product as given |
| Slices.DeleteProduct | src/store/slices/productsSlice.js:48-61 | a failed delete rejects with its message; otherwise it resolves to the id |
| Slices.ProductsSlice.constructor | src/store/slices/productsSlice.js:65-69 | no items, not loading, no error |
| Slices.ProductsSlice.FetchPending | src/store/slices/productsSlice.js:73-76 | loading starts and the error is cleared; the items are kept |
| Slices.ProductsSlice.FetchFulfilled | src/store/slices/productsSlice.js:77-80 | the payload replaces the items and loading ends; the error is kept |
| Slices.ProductsSlice.FetchRejected | src/store/slices/productsSlice.js:81-84 | loading ends and the error is set; the items are kept |
| Slices.ProductsSlice.AddFulfilled | src/store/slices/productsSlice.js:85-88 | the payload is appended; nothing else changes |
| Slices.ProductsSlice.AddRejected | src/store/slices/productsSlice.js:89-92 | the error is the rejected value or else the error message; nothing else changes |
| Slices.ProductsSlice.UpdateFulfilled | src/store/slices/productsSlice.js:93-96 | the items become `ReplaceFirst` of the old ones; nothing else changes |
| Slices.ProductsSlice.DeleteFulfilled | src/store/slices/productsSlice.js:97-99 | the items become `DropId` of the old ones; nothing else changes |
| Slices.CategoriesSlice.constructor | src/store/slices/categoriesSlice.js:13-17 | no items, not loading, no error |
| Slices.CategoriesSlice.FetchPending | src/store/slices/categoriesSlice.js:21-24 | loading starts and the error is cleared; the items are kept |
| Slices.CategoriesSlice.FetchFulfilled | src/store/slices/categoriesSlice.js:25-28 | the payload replaces the items and loading ends; the error is kept |
| Slices.CategoriesSlice.FetchRejected | src/store/slices/categoriesSlice.js:29-32 | loading ends and the error is set; the items are kept |
| Slices.RequestedMode | src/store/slices/authSlice.js:16 | the payload when truthy, else "login" |
| Slices.ToggledMode | src/store/slices/authSlice.js:21-23 | always "login" or "signup", and "signup" exactly from "login" |
| Slices.ToggleTwice | src/store/slices/authSlice.js:21-23 | toggling twice is the identity on "login" and "signup"; any other mode lands on "signup" |
| Slices.AuthSlice.constructor | src/store/slices/authSlice.js:3-8 | modal closed, mode "login", no user, loading |
| Slices.AuthSlice.OpenAuthModal | src/store/slices/authSlice.js:14-17 | the modal opens in the requested mode; user and loading are kept |
| Slices.AuthSlice.CloseAuthModal | src/store/slices/authSlice.js:18-20 | only the modal closes |
| Slices.AuthSlice.ToggleAuthMode | src/store/slices/authSlice.js:21-23 | only the mode toggles |
| Slices.AuthSlice.SetUser | src/store/slices/authSlice.js:24-27 | the user is stored and loading ends; the modal is kept |
| Slices.AuthSlice.ClearUser | src/store/slices/authSlice.js:28-31 | the user is cleared and loading ends; the modal is kept |
| Slices.EditingOf | src/store/slices/uiSlice.js:13 | the payload when truthy, else `null` |
| Slices.UiSlice.constructor | src/store/slices/uiSlice.js:6-9 | modal closed, nothing being edited |
| Slices.UiSlice.OpenModal | src/store/slices/uiSlice.js:11-14 | the modal opens on the payload, or on nothing for a falsy payload |
| Slices.UiSlice.CloseModal | src/store/slices/uiSlice.js:15-18 | the initial state, from any state |
| ListHooks.Fetch | src/hooks/useDevices.js:16-32 | loading ends; the fetched documents replace the list and the error is cleared, or on failure the list stays and the hook's message is set (same in src/hooks/useCategories.js:14-30) |
| ListHooks.NameGuard | src/hooks/useDevices.js:35 | a name passes exactly when it is a string with a non-blank character; otherwise the hook's message is thrown |
| ListHooks.AddDevice | src/hooks/useDevices.js:34-47 | a blank or missing name, or a missing type, throws and keeps the list; a failed write is rethrown; otherwise the device with `id` set to the slug of its name is appended |
| ListHooks.Update | src/hooks/useDevices.js:49-59 | the list changes only after a successful write, and then the update is merged into exactly the items with that id (same in src/hooks/useCategories.js:49-59) |
| ListHooks.Delete | src/hooks/useDevices.js:61-69 | the list changes only after a successful delete, and then exactly the items with that id are dropped (same in src/hooks/useCategories.js:61-69) |
| ListHooks.AddDeviceThenDelete | src/hooks/useDevices.js:34-69 | deleting the id of a device just added, when no other item had it, restores the list |
| ListHooks.CategoryRecord | src/hooks/useCategories.js:38-41 | the record written has exactly a name and `parent: null` |
| ListHooks.AddCategory | src/hooks/useCategories.js:32-47 | a blank or missing name throws and keeps the list; a failed write is rethrown; otherwise `{ id, name: trimmed, parent: null }` is appended, whatever else the argument held |
| ListHooks.AddedCategoryName | src/hooks/useCategories.js:33-41 | the written name is not empty and has no white space at either end |
| Text.TrimStart | src/import/ImportDevices.js:26 | the result is a suffix of the string that starts with a non-space, and everything cut off is white space |
| Text.TrimEnd | src/import/ImportDevices.js:26 | the result is a prefix of the string that ends with a non-space, and everything cut off is white space |
| Text.Trim | src/import/ImportDevices.js:26 | `trim()`: the result neither starts nor ends with white space |
| Text.TrimBlank | src/hooks/useCategories.js:33 | a string trims to the empty string exactly when every character of it is white space, so `name?.trim()` is falsy exactly for blank names |
| Text.TrimFilter | src/import/ImportDevices.js:26 | trimming removes only white space: any filter that keeps no white space sees the same characters before and after |
| Text.TrimNoSpace | src/import/ImportDevices.js:26 | a string without white space trims to itself |
| Text.LowerChar | src/import/ImportDevices.js:27 | a lower-cased character is not an upper-case letter, and is white space exactly when the original was |
| Text.ToLower | src/import/ImportDevices.js:27 | `toLowerCase()` keeps the length and lower-cases each character in place |
| Text.LowerTrim | src/import/ImportDevices.js:26-27 | lower-casing and trimming commute |
| ImportDevices.DropRun | src/import/ImportDevices.js:28-30 | the leading run of a character class is cut off: the rest is a suffix that does not start with that class and holds only characters of the string |
| ImportDevices.CollapseRuns | src/import/ImportDevices.js:28-30 | `replace(/p+/g, rep)`: empty exactly for the empty string, no longer than the input, and the first character is kept or replaced by `rep` as it is outside or inside a run |
| ImportDevices.CollapseNoRun | src/import/ImportDevices.js:28-30 | a string with no character of the run class is left unchanged |
| ImportDevices.CollapseSingleUnderscores | src/import/ImportDevices.js:30 | a string without `__` is left unchanged by the underscore collapse |
| ImportDevices.CollapseSeparates | src/import/ImportDevices.js:28-30 | once runs are collapsed into one of their own characters, no two such characters stand side by side |
| ImportDevices.CollapseChars | src/import/ImportDevices.js:28-30 | every character of the collapsed string is the replacement or a character of the input outside the runs |
| ImportDevices.CollapseFilter | src/import/ImportDevices.js:28-30 | a filter that keeps neither the replacement nor run characters sees the same characters before and after collapsing |
| ImportDevices.DropRunPrefix | src/import/ImportDevices.js:28-30 | every character the leading run cut off belongs to the class |
| ImportDevices.SlugChars | src/import/ImportDevices.js:24-30 | a slug holds only `a`-`z`, `0`-`9`, `_` and `-`, in particular no white space |
| ImportDevices.SlugNoDoubleUnderscore | src/import/ImportDevices.js:24-30 | no slug contains two underscores side by side |
| ImportDevices.SlugKeepsAlnum | src/import/ImportDevices.js:24-30 | every ASCII letter, digit and hyphen of the name survives, lower-cased and in order; anything else the slug holds is an underscore |
| ImportDevices.SlugIdempotent | src/import/ImportDevices.js:24-30 | slugifying a slug changes nothing |
| ImportDevices.ImportItem | src/import/ImportDevices.js:33-41 | an item is written unchanged under the slug of its `id` exactly when that `id` is a string with a non-empty slug and the `setDoc` is not rejected; a non-string `id` fails with the `TypeError`, an empty slug with the error `doc(db, "Devices", "")` throws, and a rejected write with its error, each for that item alone |
| ImportDevices.ImportedIdValid | src/import/ImportDevices.js:35-36 | every document id written is non-empty, holds only a-z, 0-9, `_` and `-`, and has no `__` |
| ImportDevices.DroppedOnlySlugEmpty | src/import/ImportDevices.js:24-30 | a string of characters that are neither `[\w\-]` nor white space (such as "!!!" or "ü") slugs to the empty string |
| ImportDevices.DroppedOnlyIdFails | src/import/ImportDevices.js:33-41 | an item whose string `id` has only such characters fails with the empty-reference error even though its `id` is a string |
| AssignCategoryOrder.GroupKey | src/scripts/AssignCategoryOrder.mjs:16 | a truthy parent id is the key; a falsy parent, and the literal id "root", go under "root"; no key is empty |
| AssignCategoryOrder.GroupKeysSpec | src/scripts/AssignCategoryOrder.mjs:14-19 | the keys are distinct, every category's key is among them, and every key is some category's key |
| AssignCategoryOrder.GroupByParent | src/scripts/AssignCategoryOrder.mjs:14-19 | the grouping loop creates exactly those keys in first-seen order, and each group holds, in snapshot order, the categories with that key |
| AssignCategoryOrder.GroupingFacts | src/scripts/AssignCategoryOrder.mjs:14-19 | the loop invariant of the grouping yields the keys and groups stated for `GroupByParent` |
| AssignCategoryOrder.GroupStepExisting | src/scripts/AssignCategoryOrder.mjs:16-18 | a category whose key already exists is pushed onto that group, which keeps the loop invariant with the same keys |
| AssignCategoryOrder.GroupStepNew | src/scripts/AssignCategoryOrder.mjs:16-18 | a category with a new key creates that key last, with an empty group, and is pushed onto it, which keeps the loop invariant |
| AssignCategoryOrder.GroupsAfter | src/scripts/AssignCategoryOrder.mjs:18 | pushing a category onto its own group keeps every group equal to the categories seen with that key, in order |
| AssignCategoryOrder.GroupKeysSnoc | src/scripts/AssignCategoryOrder.mjs:17 | a new key is appended exactly when the category's key was not yet present |
| AssignCategoryOrder.GroupSnoc | src/scripts/AssignCategoryOrder.mjs:18 | a category is pushed onto its own group and no other |
| AssignCategoryOrder.EmptyGroup | src/scripts/AssignCategoryOrder.mjs:17 | a key no category carries has no members |
| AssignCategoryOrder.SortedGroup | src/scripts/AssignCategoryOrder.mjs:24 | a sorted group is a permutation of the group, ordered by the collation key of the names |
| AssignCategoryOrder.Blocks | src/scripts/AssignCategoryOrder.mjs:23-24 | one sorted group per key, in key order |
| AssignCategoryOrder.SortedBlocks | src/scripts/AssignCategoryOrder.mjs:23-24 | one block per key |
| AssignCategoryOrder.Numbered | src/scripts/AssignCategoryOrder.mjs:26-30 | member `i` of a group is written order `i`, one write per member |
| AssignCategoryOrder.WriteGroup | src/scripts/AssignCategoryOrder.mjs:26-33 | the inner loop issues the numbered writes of the group in order, member `i` getting order `i`, up to the rejected `setDoc` when that call falls in the group; `totalUpdates` grows by the writes that landed, and the rejection's error is passed on |
| AssignCategoryOrder.WriteGroups | src/scripts/AssignCategoryOrder.mjs:21-34 | the outer loop issues the writes of every sorted group in key order and stops at the rejected `setDoc`: the writes that land are those before it, `totalUpdates` counts them, and the error comes out only when the rejected call is one the run makes |
| AssignCategoryOrder.WriteBlock | src/scripts/AssignCategoryOrder.mjs:23-33 | one turn of the outer loop sorts the group and runs the inner loop: a rejection inside the group ends the run with the writes before it, otherwise the group's writes all land and the later groups remain |
| AssignCategoryOrder.GroupStep | src/scripts/AssignCategoryOrder.mjs:26-33 | a rejection inside a group leaves the earlier groups' writes and the part of this group before it; without one, the group's writes follow the earlier ones and no call so far was rejected |
| AssignCategoryOrder.AssignOrder | src/scripts/AssignCategoryOrder.mjs:6-41 | a rejected `getDocs` issues no write and is caught; otherwise the writes land in the specified order up to the first rejected `setDoc`, whose error is caught and logged without a total, and a run with no rejection makes every write and logs a total equal to the number of categories |
| AssignCategoryOrder.WritesTarget | src/scripts/AssignCategoryOrder.mjs:26-30 | there is one write per written category, and write `t` goes to the `t`-th of them |
| AssignCategoryOrder.WritesOfFrom | src/scripts/AssignCategoryOrder.mjs:23-33 | the writes from group `j` on are group `j`'s numbered writes followed by the rest |
| AssignCategoryOrder.FlattenGroups | src/scripts/AssignCategoryOrder.mjs:14-24 | groups under distinct keys hold, with multiplicity, just the categories whose key is one of them |
| AssignCategoryOrder.DropAll | src/scripts/AssignCategoryOrder.mjs:14-19 | a filter that holds for no element keeps nothing |
| AssignCategoryOrder.WritesCount | src/scripts/AssignCategoryOrder.mjs:21-36 | the written categories are a permutation of the snapshot, so there are as many writes as categories and `totalUpdates` is the snapshot's size |
| AssignCategoryOrder.WrittenOnce | src/scripts/AssignCategoryOrder.mjs:15-33 | with unique ids, every category gets a write and no two writes go to the same document |
| AssignCategoryOrder.PermutedWrites | src/scripts/AssignCategoryOrder.mjs:26-30 | writes aimed one each at a permutation of categories with unique ids reach every category exactly once |
| AssignCategoryOrder.GroupBlock | src/scripts/AssignCategoryOrder.mjs:23-33 | group `j`'s writes lie in one block at its offset, member `i` getting order `i` |
| AssignCategoryOrder.OffsetTail | src/scripts/AssignCategoryOrder.mjs:23-33 | the offset of group `j` is the size of the first group plus the offset of `j - 1` in the rest |
| AssignCategoryOrder.GroupMembers | src/scripts/AssignCategoryOrder.mjs:14-24 | the `j`-th group holds exactly the categories filed under its key, sorted by name |
| AssignCategoryOrder.GroupWrites | src/scripts/AssignCategoryOrder.mjs:23-33 | the writes for the `j`-th sorted group form one block, so the orders within a sibling group are exactly 0 to its size minus one |
| ExportScripts.NormalizeField | src/scripts/exportProducts.js:21-29 | a string becomes a one-element array, an array is kept, anything else becomes the empty array; the result is always an array (same in src/scripts/exportAndNormalise.js:20-28) |
| ExportScripts.NormalizeIdempotent | src/scripts/exportProducts.js:21-29 | normalising a normalised field changes nothing |
| ExportScripts.FieldOr | src/scripts/exportProducts.js:50-57 | a truthy field is copied and a falsy one is replaced by the default |
| ExportScripts.ProductRecord | src/scripts/exportProducts.js:48-58 | every exported record has exactly the nine fields, whatever the document holds |
| ExportScripts.ProductRecordScalars | src/scripts/exportProducts.js:49-57 | the record carries the document id; name, description, product type and price are copied when truthy and otherwise default to "Unnamed Product", "", "Unknown Type" and 0 |
| ExportScripts.ProductRecordLists | src/scripts/exportProducts.js:51-55 | brand, series, model and image URLs are the document's fields normalised to arrays |
| ExportScripts.ProductRecordShape | src/scripts/exportProducts.js:48-58 | an exported record has a non-empty name and product type and four array fields |
| ExportScripts.ProductRecordIdempotent | src/scripts/exportProducts.js:44-58 | exporting an exported record again yields the same record |
| ExportScripts.ExportProducts | src/scripts/exportProducts.js:34-67 | a failed read writes nothing and keeps the error; an empty collection writes nothing; otherwise one record per document, in order, is written to `./products.json` |
| ExportScripts.NormalizedRecord | src/scripts/exportAndNormalise.js:46-54 | every normalised record has exactly the seven fields, whatever the document holds |
| ExportScripts.NormalizedRecordScalars | src/scripts/exportAndNormalise.js:47-53 | the record carries the document id; name, description and price are copied when truthy and otherwise default to "Unnamed Product", "" and 0 |
| ExportScripts.NormalizedRecordLists | src/scripts/exportAndNormalise.js:49-51 | brands, models and series are the document's fields normalised to arrays |
| ExportScripts.NormalizedRecordIdempotent | src/scripts/exportAndNormalise.js:43-54 | normalising a normalised record again yields the same record |
| ExportScripts.ExportAndNormalize | src/scripts/exportAndNormalise.js:33-64 | a failed read writes nothing and keeps the error; an empty collection writes nothing; otherwise one record per document, in order, is written to `./NormalizedProducts.json` |

## Left out

- **Remote I/O.** Firestore, Storage and Auth calls are not modelled: `getDocs`, `addDoc`, `setDoc`, `updateDoc`, `deleteDoc`, `uploadBytes`, `getDownloadURL` and `onAuthStateChanged`. Each outcome is a parameter; for the order script it is the first rejected `setDoc` (`AssignCategoryOrder.Rejection`), because a rejection ends the run. Console logging is dropped.
- **Query building.** `FirebaseUtils.FetchPaginatedDocuments` takes the page `getDocs` yields as a parameter; how the query is built (src/lib/firebaseUtils.js:139-145) is modelled only in `ShopPage`, where the query is a function of the cursor. There the collection is a fixed sequence of snapshots already in `price` order (`ShopPage.StoreQuery`): the `where` filters (the shop passes none), Firestore's ordering of equal prices, and writes to the collection between two clicks are not modelled.
- ShopPage.Start: a cursor whose snapshot is not in the collection resumes past its end. Firestore would resume after that snapshot's `price`; the shop only ever passes a snapshot it was given.
- **The `slugify` npm package.** The add-entry handler, `useDevices` and the editor's upload path call it.
  - It is a parameter `slugLower`.
  - So the id `addDevice` gives a device is whatever that parameter returns.
  - Only the hand-written `slugify` of src/import/ImportDevices.js is modelled.
- **Floating point.**
  - Prices and totals are integers.
  - `toFixed` display is not modelled.
  - `parseFloat` and `parseInt` of the editor's price and quantity are parameters (`ProductEditor.Submission`).
- **`localeCompare`.** It is a caller-supplied integer collation key, and sorting is a stable insertion sort on that key. Locale rules are not modelled.
- **Unicode.**
  - `toLowerCase` is modelled for ASCII letters only.
  - `\s` and `trim` use the ECMAScript white-space and line-terminator code points.
  - Other Unicode case mappings are not modelled.
- **Key order.**
  - `Object.entries(grouped)` is taken to visit the groups in key-creation order. That is JavaScript's order for keys that are not array indices.
  - Keys that look like array indices, and keys that clash with `Object.prototype` members, are not modelled.
- **`JSON.stringify`.** Its output depends on the order fields were written in, which is not modelled. The profile load rule takes it as a parameter `stringify`. The export scripts return the records, not the JSON text.
- **Document ids.** `{ id: docSnap.id, ...docSnap.data() }` lets a stored `id` field override the document id. The model reads the category's `id` as one given value.
- **Duplicate ids.** Two categories can share an id. `addDevice` stores `{ ...device, id }` with `id` the lower-case slug of the name (src/hooks/useDevices.js:39-40). `addDocument` keeps that field in the stored data (src/lib/firebaseUtils.js:58-59), and the fetch lets the stored `id` override the document id (src/lib/firebaseUtils.js:112). So two entries with the same name get the same id. The sorted trees and the drag handler are modelled for unique ids only. For the unbounded builder, what repeated ids lead to is recorded under Findings (`CategoriesManager.SameSlugUnderItself`).
- NestedList.BuildNestedListStructure: requires unique ids. With repeated ids the source still returns, because the depth bound stops the recursion. The node placed under a parent is then the last entry with the child's id, and one node object can sit in several places. The model does not describe that result.
- CategoriesManager.DropRenumbers and CategoriesManager.DropNumbersDensely: require unique ids. `DropOf` and `HandleDragEnd` follow the source with repeated ids too: `find` and `findIndex` stop at the first entry with the id, and the rebuild gives every entry with that id the same renumbered copy. What a drop then does to the sibling orders is not stated.
- AssignCategoryOrder.WrittenOnce: requires unique ids. The script reads `cat.id` after spreading the document data over the document id (src/scripts/AssignCategoryOrder.mjs:8-10). So an entry added from the admin screen is written under its stored slug, which need not be unique.
- **File system.** `fs.writeFileSync` errors are not modelled.
- **Timestamps.** The `createdAt` server timestamp of an order is not modelled.
- **Asynchronous hooks and effects.**
  - `useImageUrl`, which resolves a storage path to a URL, is not modelled.
  - The slider's reaction to a changed `imageUrls` prop is not modelled.
  - Concurrency and the interleaving of async effects are not modelled. In particular, the `updateCategory` writes fired without `await` in `handleDragEnd` are returned as a list.
- **Storage and spreading.**
  - localStorage persistence of the cart is not modelled.
  - Spreading a string or array section in the profile form is not modelled. A section that is not an object spreads no fields.
- **Event bubbling.** The click on the OrdersManager status select also reaches the row's `toggleExpand`. That interaction is not modelled.
- **`===` on objects and arrays** compares references. References are not tracked, so `StrictEq` treats two objects or two arrays as never equal.
- **Presentational components, auth wrappers, configuration and the I/O-only import scripts** are not part of this model.
- **Duplicate and unreachable code.**
  - The `onFiltersChange` path (src/hooks/useFilteredProducts.js:54-69) is never set, so it is dead code.
  - ProductTypesManager's `toggleExpand` (src/app/admin/ProductTypesManager.jsx:68-69) is the same as `CategoriesManager.ToggleExpand`.
  - Its fetch (src/app/admin/ProductTypesManager.jsx:22-38) is `FirebaseUtils.FetchDocuments`.
  - The ProductEditor `if (productData)` guard is not modelled; `ProductEditor.Load` takes the product as given.
- **Update and delete rejections.** `updateProduct.rejected` and `deleteProduct.rejected` have no reducer in src/store/slices/productsSlice.js, so the state is unchanged and no method stands for them.
- CategoriesManager.HandleDragEnd: the source changes the `order` of the reordered category objects in place before it rebuilds the list. The model returns the new list and does not model that aliasing.
- ProductTypesManager.HandleDeleteType: the sequential deletes of the direct children are reduced to the first error one of them throws, if any, whether from `deleteDocument`'s guard on a child's id or from the remote call; which child failed is not modelled.
- ProductEditor.ModelList: a truthy `modelIds` that is not an array is read as the empty list. The source keeps that value itself as `models`.
- ProductEditor.Load: the `models` field is a list, so a truthy `modelIds` that is not an array (a string, say) loads as no models, where the source keeps that value itself; the series and brand are still looked up from that value's `[0]`.
- ProductsManager.ProductsView.Rekey: the source compares the template string of the four selected values. The model compares the selected values themselves, so it does not model two distinct selections whose strings coincide.

## Findings

| source | as written | input that shows it | evidently intended | confidence | as-written member | corrected member |
|---|---|---|---|---|---|---|
| src/hooks/AuthGuard.jsx:9,12 with src/hooks/useAuthStatus.js:9 | the guard destructures `loading` from `useAuthStatus()`, which returns only `user`, `isLoggedIn` and `isAdmin`, so `loading` is always undefined | the auth slice's initial state, `user: null, loading: true`, while the sign-in state is still being resolved: the guard sends even an admin to /login | wait, neither redirecting nor rendering, while the slice's `loading` is set | not executed | AuthGuard.UseAuthStatus, AuthGuard.RedirectsBeforeAuthResolves | AuthGuard.UseAuthStatusWithLoading, AuthGuard.GuardWaitsWhileLoading |
| src/app/admin/CategoriesManager.jsx:91-102 | the second pass pushes `map[cat.id]` into `map[cat.parent].children`, and `sortRecursive` has no depth bound; when an entry's slug equals its parent's id, the node made for it is pushed into its own `children` | add brand "Apple", series "iPad" under it and model "iPad" under the series: the model's id is "ipad" with parent "ipad", so `sortRecursive` follows "ipad" inside "ipad" until the call stack overflows with a `RangeError`, and the admin screen does not render the tree | ids that are unique within the collection (a slug already in use refused or made distinct), so that each level is a stable sort of that entry's children and the walk ends | not executed | CategoriesManager.SameSlugUnderItself | CategoriesManager.BuildNestedStructure, CategoriesManager.EveryLevelSorted |
