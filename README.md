# Eco-Dharma dashboard pages in Dafny

A Dafny model of the logic behind four dashboard pages of the Eco-Dharma web app, with
proofs of what each page promises.

- **EcoMap** (`ecomap.dfy`) is a catalog of recycling and community locations. The user can:
  - search it by name or address and filter it by type;
  - select a location;
  - find the location nearest to their position;
  - open directions to the selection.

  The page's state is the class `EcoMapPage`. Each handler, together with the effects its
  state change triggers, is one method. `Valid()` is the state the effects settle to:
  - the list is the filtered catalog;
  - the selection is visible;
  - the map shows what the selection and the list call for.

  Each static map image is modelled by the parameters it is drawn from: centre, zoom and the
  marker list (`MapView`).
- **Rewards** (`rewards.dfy`) is an Eco Dharma points balance, spent on coupons and donations.
  The catalog is split into a coupon tab and a donation tab.
- **EcoMarket** (`ecomarket.dfy`) is a product catalog. It is filtered by search term and
  category, then copied into a fresh array that is sorted in place by price. The sort is an
  insertion sort, proved to equal a pure stable sort (`SortByPrice`). `StableSortIsSortByPrice`
  proves that any stable sort by price gives the same list, so the built-in stable `sort` is
  modelled exactly.
- **Community** (`community.dfy`) is a feed of posts with a draft box and a search. Posting
  happens in two steps:
  - the submit handler refuses blank drafts and otherwise marks the page as posting;
  - a one-second timer then prepends the captured draft as a new post.

Shared modules:
- `seqs.dfy` holds `Array.prototype.filter` and its laws: membership, order, concatenation,
  idempotence and partition.
- `text.dfy` holds `toLowerCase`, `includes` and `trim`.
- `wrappers.dfy` holds `Option`, which stands for `null` and `undefined`.

Modelling choices:
- Coordinates and prices are `real`.
- The haversine distance is a function value, `distance`, given to the EcoMap page's
  constructor. Only argmin facts are proved about it.
- The EcoMap and EcoMarket pages take their catalog as a constructor parameter, so an empty
  catalog can be reasoned about; their shipped catalogs are the constants `InitialLocations`
  and `InitialProducts`. `RewardsPage` holds only the balance, and `CommunityPage` starts
  from the constant `InitialPosts`; the facts about reward tabs and feed searches are lemmas
  over any sequence of rewards or posts. The shipped `AvailableRewards` are used in
  `StartingBalanceScenario`.
- JavaScript truthiness is kept where the code relies on it:
  - a user coordinate of exactly 0 counts as absent when directions are drawn (`Truthy`);
  - an overview mean of exactly 0 falls back to the default centre (`OrIfZero`).

## Model

| member | source | states |
|---|---|---|
| EcoMap.MarkerIconName | src/app/dashboard/ecomap/page.tsx:38-47 | every type maps to one of the five pins, and the pin is "redpin" exactly when the type is none of Recycler, NGO, Drop-off Point, SHG |
| EcoMap.MarkerIconTable | src/app/dashboard/ecomap/page.tsx:38-47 | the full pin table: blue, green, orange and purple for the four named types, red for Campaign and for any other type |
| EcoMap.MarkersFor | src/app/dashboard/ecomap/page.tsx:99-101 | one marker per location, in list order, carrying the location's coordinates and its type's pin |
| EcoMap.VisibleIsOneFilter | src/app/dashboard/ecomap/page.tsx:77-85 | the search-then-type chain, always run on the full catalog, equals a single filter by the conjunction of both tests, so the list keeps catalog order |
| EcoMap.VisibleMembership | src/app/dashboard/ecomap/page.tsx:78-84 | a location is visible iff it is in the catalog and (the term is empty or its lower-cased name or present address contains the lower-cased term) and (the type is "All" or matches) |
| EcoMap.VisibleWithoutFilters | src/app/dashboard/ecomap/page.tsx:78-84 | an empty term with the type "All" lists the whole catalog in order |
| EcoMap.VisibleIdempotent | src/app/dashboard/ecomap/page.tsx:77-85 | filtering the visible list again with the same criteria changes nothing |
| EcoMap.HasIdOfMember | src/app/dashboard/ecomap/page.tsx:86 | `find` by id succeeds for any member of the list |
| EcoMap.ReconcileSelection | src/app/dashboard/ecomap/page.tsx:86-90 | afterwards the selection is null or its id is visible; it survives exactly when it was present and its id is visible, so an empty list always clears it |
| EcoMap.ReconcileKeepsVisible | src/app/dashboard/ecomap/page.tsx:86-90 | a selection taken from the visible list is kept |
| EcoMap.ReconcileIdempotent | src/app/dashboard/ecomap/page.tsx:77-91 | re-running the reconciliation on its own result changes nothing, so the effect settles |
| EcoMap.OverviewZoom | src/app/dashboard/ecomap/page.tsx:106-116 | the overview zoom lies in [9, 13], so the clamp at 8 never changes it |
| EcoMap.OverviewZoomTable | src/app/dashboard/ecomap/page.tsx:106-116 | 1 location gives 13, 2-3 give 11, 4-7 give 10, 8 or more give 9 |
| EcoMap.OverviewZoomMonotone | src/app/dashboard/ecomap/page.tsx:106-116 | more visible locations never zoom the overview in |
| EcoMap.SumOfBounds | src/app/dashboard/ecomap/page.tsx:103-104 | the `reduce` sum of n coordinates lies between n times their lower bound and n times their upper bound |
| EcoMap.MeanWithinBounds | src/app/dashboard/ecomap/page.tsx:103-104 | the mean of the coordinates lies within their range |
| EcoMap.MapViewFor | src/app/dashboard/ecomap/page.tsx:93-122 | zoom 15 exactly when there is a selection, below 15 otherwise, never below 9; with no selection and a non-empty list, the zoom is `OverviewZoom` of the list's length, the markers are `MarkersFor` the list, and each centre axis is the list's mean coordinate, or the default centre when that mean is exactly 0; with no selection and an empty list, the view is the default: (12.9716, 77.5946) at zoom 10 with no markers |
| EcoMap.SelectedViewShowsOnlySelection | src/app/dashboard/ecomap/page.tsx:94-97 | with a selection the map is centred on it and shows one marker: it, with its type's pin |
| EcoMap.OverviewMarkersAreVisibleLocations | src/app/dashboard/ecomap/page.tsx:98-101 | without a selection there is one marker per visible location in list order, and every marker belongs to a visible location |
| EcoMap.OverviewCentreInBoundingBox | src/app/dashboard/ecomap/page.tsx:103-104 | each axis of the overview centre lies in the visible locations' range, or is the default centre when the mean is exactly 0 |
| EcoMap.ShippedCatalogScenario | src/app/dashboard/ecomap/page.tsx:13-21 | the shipped seven-entry catalog gives an overview at zoom 10 with 7 markers (the Campaign red), and the type "Recycler" lists entries 1 and 6 in order |
| EcoMap.DirectionsView | src/app/dashboard/ecomap/page.tsx:185-201 | the destination marker comes first; with both user coordinates truthy the zoom is 12, the user is a second red marker, and the centre is equidistant from both on each axis; otherwise zoom 15, one marker, centred on the destination |
| EcoMap.DirectionsWithoutOriginIsSelectedView | src/app/dashboard/ecomap/page.tsx:188-201 | without a usable position the directions map is the same picture as the selection's view |
| EcoMap.FirstNearestIsUnique | src/app/dashboard/ecomap/page.tsx:144-154 | at most one index is at minimal distance with no earlier index as close, so the search result is determined |
| EcoMap.NearestIndex | src/app/dashboard/ecomap/page.tsx:144-154 | the scan over the whole catalog returns an index whose distance is at most every entry's, with every earlier entry strictly farther, and its distance |
| EcoMap.EcoMapPage.constructor | src/app/dashboard/ecomap/page.tsx:67-74 | the page mounts with no search, type "All", the full catalog listed, no selection, no position, no directions map, and the overview of the catalog |
| EcoMap.EcoMapPage.RunEffects | src/app/dashboard/ecomap/page.tsx:77-122 | the list is recomputed from the catalog, the selection is reconciled against it, and the map is redrawn |
| EcoMap.EcoMapPage.SetSearchTerm | src/app/dashboard/ecomap/page.tsx:77-91 | a new term refilters from the full catalog and drops a selection that is no longer visible |
| EcoMap.EcoMapPage.SetFilterType | src/app/dashboard/ecomap/page.tsx:77-91 | a new type refilters from the full catalog and drops a selection that is no longer visible |
| EcoMap.EcoMapPage.SelectLocation | src/app/dashboard/ecomap/page.tsx:257 | clicking a listed location selects it and leaves the list unchanged |
| EcoMap.EcoMapPage.HandleFindNearest | src/app/dashboard/ecomap/page.tsx:124-177 | no geolocation changes nothing; an error clears the position; a position is stored, then with an empty catalog nothing else changes, and otherwise the first nearest entry is selected and the filters are reset exactly when it was not visible |
| EcoMap.EcoMapPage.SelectNearest | src/app/dashboard/ecomap/page.tsx:133-161 | the success callback stores the position and selects the first nearest catalog entry, reporting it and its distance |
| EcoMap.EcoMapPage.ShowLocation | src/app/dashboard/ecomap/page.tsx:156-160 | the found entry becomes the selection; the term and type are reset to "" and "All" exactly when it was not in the visible list, so it is visible afterwards |
| EcoMap.EcoMapPage.HandleGetDirections | src/app/dashboard/ecomap/page.tsx:179-208 | without a selection nothing changes; otherwise the route goes to the selection, with the user's latitude and longitude as origin when both are truthy and no origin otherwise, and the directions map is drawn |
| EcoMap.EcoMapPage.HandleHideDirectionsOverview | src/app/dashboard/ecomap/page.tsx:210-212 | the directions map is removed |
| Rewards.Redeem | src/app/dashboard/rewards/page.tsx:36-51 | a redemption succeeds iff the balance covers the price, which is exactly when the button is enabled; success takes exactly the price and leaves a non-negative balance; failure keeps the balance and reports a strictly positive shortfall that would make it up |
| Rewards.RedeemAllKeepsBalance | src/app/dashboard/rewards/page.tsx:36-51 | any run of redemptions keeps a non-negative balance non-negative, and never raises it when prices are non-negative |
| Rewards.TabsPartitionCatalog | src/app/dashboard/rewards/page.tsx:81-114 | the coupon and donation tabs together hold every reward exactly once, each reward on the tab of its kind |
| Rewards.StartingBalanceScenario | src/app/dashboard/rewards/page.tsx:23-34 | the starting 1250 points enable every button; after the 1000-point donation the 500-point coupon is 250 short; the coupon tab is c1, c2, c3 |
| Rewards.RewardsPage.constructor | src/app/dashboard/rewards/page.tsx:34 | the balance starts at 1250 |
| Rewards.RewardsPage.HandleRedeem | src/app/dashboard/rewards/page.tsx:36-51 | the outcome and the new balance are those of `Redeem` on the old balance, and the balance stays non-negative |
| EcoMarket.FilteredIsOneFilter | src/app/dashboard/ecomarket/page.tsx:30-36 | the search-then-category chain, always run on the full catalog, equals a single filter by both tests, so it keeps catalog order |
| EcoMarket.FilteredMembership | src/app/dashboard/ecomarket/page.tsx:31-36 | a product is listed iff it is in the catalog and (the term is empty or its lower-cased name or description contains the lower-cased term) and (the category is "All" or matches) |
| EcoMarket.FilteredWithoutFilters | src/app/dashboard/ecomarket/page.tsx:30-36 | no term and "All" list the whole catalog in order |
| EcoMarket.Comparator | src/app/dashboard/ecomarket/page.tsx:41-43 | the comparators `a.price - b.price` and `b.price - a.price` are negative exactly when `a`'s key (price ascending, negated price descending) is smaller, positive exactly when it is larger, and zero exactly when the prices are equal |
| EcoMarket.SortedByComparator | src/app/dashboard/ecomarket/page.tsx:41-43 | a list is ordered by the key iff the comparator puts no pair of it out of order |
| EcoMarket.InsertPermutes | src/app/dashboard/ecomarket/page.tsx:41-43 | inserting adds exactly the inserted product |
| EcoMarket.SortByPricePermutes | src/app/dashboard/ecomarket/page.tsx:39-44 | the sorted list is a permutation of the filtered list |
| EcoMarket.InsertSorted | src/app/dashboard/ecomarket/page.tsx:41-43 | inserting into an ordered list keeps it ordered |
| EcoMarket.SortByPriceSorted | src/app/dashboard/ecomarket/page.tsx:41-43 | the result is ordered by the key: prices non-decreasing ascending, non-increasing descending |
| EcoMarket.InsertStable | src/app/dashboard/ecomarket/page.tsx:41-43 | an inserted product goes after every product of the same price |
| EcoMarket.SortByPriceStable | src/app/dashboard/ecomarket/page.tsx:41-43 | products of equal price keep their input order |
| EcoMarket.SortedStableUnique | src/app/dashboard/ecomarket/page.tsx:41-43 | two lists ordered by price with the same products of each price, in the same order, are equal |
| EcoMarket.StableSortIsSortByPrice | src/app/dashboard/ecomarket/page.tsx:41-43 | any ordered list that keeps each price's products in input order is exactly the model's sort, so every stable `sort` agrees with it |
| EcoMarket.InsertAt | src/app/dashboard/ecomarket/page.tsx:41-43 | insertion puts the product behind the last key that is not greater, all later keys being greater |
| EcoMarket.InsertInPlace | src/app/dashboard/ecomarket/page.tsx:41-43 | shifting right every element the comparator puts after the new one, and dropping it into the gap, turns the array prefix into the insertion of that element, leaving the rest untouched |
| EcoMarket.SortInPlace | src/app/dashboard/ecomarket/page.tsx:39-44 | the in-place sort of the fresh copy leaves the array holding the stable sort of its contents |
| EcoMarket.DisplayedProperties | src/app/dashboard/ecomarket/page.tsx:29-46 | the list is a permutation of the filtered catalog; prices ascend for "price_asc" and descend for "price_desc"; equal prices, and the whole list under any other order, keep catalog order |
| EcoMarket.CategoryScenario | src/app/dashboard/ecomarket/page.tsx:12-19 | the "Home Decor" category of the shipped catalog lists products 3 and 6 in catalog order |
| EcoMarket.EcoMarketPage.RunEffect | src/app/dashboard/ecomarket/page.tsx:29-46 | the effect filters the full catalog, copies the result into a fresh array, sorts the copy in place by price when the order is "price_asc" or "price_desc", and lists it: the listed products are `Displayed` for the current term, category and order |
| EcoMarket.EcoMarketPage.constructor | src/app/dashboard/ecomarket/page.tsx:24-27 | the page mounts with no search, "All", the default order and the whole catalog listed |
| EcoMarket.EcoMarketPage.SetSearchTerm | src/app/dashboard/ecomarket/page.tsx:29-46 | a new term recomputes the list from the full catalog with the current category and order |
| EcoMarket.EcoMarketPage.SetFilterCategory | src/app/dashboard/ecomarket/page.tsx:29-46 | a new category recomputes the list from the full catalog with the current term and order |
| EcoMarket.EcoMarketPage.SetSortOrder | src/app/dashboard/ecomarket/page.tsx:29-46 | a new order recomputes the list from the full catalog with the current term and category |
| Community.FilteredPostsMembership | src/app/dashboard/community/page.tsx:78-81 | a post is listed iff it is in the feed and its lower-cased content or author contains the lower-cased term |
| Community.EmptySearchListsAll | src/app/dashboard/community/page.tsx:78-81 | an empty search lists every post, in order |
| Community.FilteredAfterPrepend | src/app/dashboard/community/page.tsx:71-81 | after a post is prepended, the results are that post, if it matches, followed by the previous results in order |
| Community.PrependKeepsIdsUnique | src/app/dashboard/community/page.tsx:61-71 | prepending a post with a fresh id keeps ids unique |
| Community.AcceptedPostHasText | src/app/dashboard/community/page.tsx:55 | a draft that passes the blank check has a character that is not whitespace |
| Community.CommunityPage.constructor | src/app/dashboard/community/page.tsx:47-51 | the feed starts with the seed posts, an empty draft, no search, and nothing posting |
| Community.CommunityPage.SubmitPost | src/app/dashboard/community/page.tsx:53-60 | the submit is refused iff the draft is only whitespace, leaving posts and `isPosting` unchanged; otherwise `isPosting` is set and the draft is captured |
| Community.CommunityPage.FinishPost | src/app/dashboard/community/page.tsx:61-75 | the new post is at index 0 with author CurrentUser, 0 likes, 0 comments and the untrimmed captured draft, followed by the previous posts in order; the draft is emptied and `isPosting` cleared |
| Community.CommunityPage.SetSearchTerm | src/app/dashboard/community/page.tsx:123 | typing in the search box replaces the search term and changes nothing else (the feed shown is `FilteredPosts` of the posts for that term, computed when rendering) |
| Community.CommunityPage.SetNewPostContent | src/app/dashboard/community/page.tsx:109 | typing replaces the draft, also while a post is pending |
| Text.BlankIffAllWhitespace | src/app/dashboard/community/page.tsx:55 | `!s.trim()` holds exactly when every character is whitespace, the empty string included |
| Text.ToLower | src/app/dashboard/ecomap/page.tsx:80 | lower-casing keeps the length and maps each character on its own: `A`-`Z` to the letter 32 code points up, every other character to itself |
| Text.ContainsFacts | src/app/dashboard/community/page.tsx:79-80 | every string includes "" and itself, and no needle longer than the string |

## Left out

- The haversine distance and `deg2rad` are floating-point trigonometry. The model takes the
  distance as a function value and proves only argmin facts about it.
- URL building is not modelled: the static-map URLs, the Google Maps link, `window.open`,
  `MAP_IMAGE_SIZE` and `toFixed`. Each map is modelled by its centre, zoom and markers.
- Toast titles and texts are left out. Each handler returns the outcome the toast reports.
- Browser geolocation, the community timer and `crypto.randomUUID` are inputs.
  - A geolocation answer is a `GeoResponse` parameter.
  - The timer is the separate step `FinishPost`.
  - The post id is a parameter that must be fresh.
- React scheduling and batching are left out. Each handler and its effects run as one step.
  - EcoMap.EcoMapPage.HandleFindNearest: the position request is asynchronous, and the
    search box and type select stay live while it is pending. Line 157 of
    `ecomap/page.tsx` tests the nearest entry against the `locations` list of the render in
    which the button was clicked. If the filters changed meanwhile, the page can skip the
    filter reset for an entry that is no longer visible (the effect at lines 86-90 then
    clears the selection again), or reset filters it did not need to. The model runs the
    whole handler as one step against the current list, so it always selects the entry and
    resets exactly when it is not visible; that window is not captured.
  - The community timer prepends to the `posts` captured at submit. The model prepends to the
    current posts, which are the same because only `FinishPost` changes them.
- EcoMap.MeanWithinBounds: real arithmetic, not floating point. The bound holds exactly over
  the reals; rounding is not modelled.
- Text.ToLower: ASCII letters only. Unicode case mapping is not modelled.
- `Text.Contains` does not model UTF-16 code units. It compares Dafny characters, which are
  Unicode scalar values.
- Community.CommunityPage.SubmitPost: requires that no post is pending. The submit button is
  disabled while posting, and a second submit during the timer is not modelled.
- Rewards.RewardsPage.HandleRedeem: the guard reads the rendered balance while the update
  subtracts from the latest one. The model treats the click as atomic, so the two are the same.
- NaN and infinite coordinates or prices are not modelled.
- Rewards.Redeem: points and prices are whole numbers (`int`). The source types them as `number`,
  which admits fractions; the shipped rewards and balance are all whole.
- The community challenges list, the tab layout, images, avatars, and the auth context carry
  no logic and are left out.
- `take-action/page.tsx` only checks for a blank address before a timer, so it is not part of
  this model.
