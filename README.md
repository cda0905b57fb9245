# Pack order calculator: a verified model

This project models the computational core of the Go service
`pack-order-calculator`, which fills an order of `itemsCount` items with
packs from a catalog of pack sizes. For `itemsCount < 2^31 - 1`, it shows, in order of preference:
1. never fewer items than ordered;
2. then as few items as possible;
3. then as few packs as possible.

The model covers four parts:

- **The pack-combination optimiser** (`src/internal/services/orders.go`).
  - `BuildDPAndParent` fills the two tables bottom-up, as the Go code does: `dp[i]` is the fewest packs summing to exactly `i`, and `parent[i]` is the size that attains it.
  - `FindBestTarget` scans for the first reachable sum in `[itemsCount, itemsCount + last size]`.
  - `Backtrack` walks the parents back to 0, counting packs per size.
  - `CalculatePackCombination` ties these together.

  Each method is proved against specification functions:
  - `MinPacks`/`Relax`/`Parent` restate the recurrence, including the `math.MaxInt32` sentinel (`Unreachable`) and its strict `<`.
  - `FirstReachable`/`BestTarget` state the search.
  - `Trace` is the walk and `Tally` the map it builds.

  Lemmas give those functions their meaning:
  - the table is sound (`TraceSound`) and optimal among combinations of fewer than `2^31 - 1` packs (`MinPacksOptimal`, `MinPacksIsMinimum`);
  - ties go to the first catalog entry (`ParentIsFirstMinimiser`);
  - for `itemsCount < 2^31 - 1`, the fallback branch cannot be taken (`FallbackUnreachable`); at `itemsCount = 2^31 - 1` it can (`FallbackTakenAtSentinel`);
  - the result ships `bestTarget >= itemsCount` items in `dp[bestTarget]` packs (`CombinationSound`), for `itemsCount < 2^31 - 1` the fewest items of any covering combination (`MinimalOvershoot`) and the fewest packs for that many items (`MinimalPackCount`).

  The result is `PackCombinationResult` (orders.go:15-18): a map from pack size to count, and `totalPacks`.

  The cases of the service's test table are proved exactly for the catalog `[250, 500, 1000, 2000, 5000]`, the constant `DefaultCatalog` (`defaultPackSizes`, orders_test.go:11).
- **The in-memory orders repository** (`src/mocks/repositories/orders.go`): a class whose `orders` field is a `map` from the text of an order ID to the order.
- **The in-memory pack-size catalog** (`src/mocks/repositories/pack_sizes.go`): a class over a `map` from ID text to pack size. Create and update are the same upsert.
- **The masking rule** (`src/config/mask.go`), applied to the concrete `Config` record of `src/config/config.go`, where `Database.Password` is the only field tagged sensitive.

Files:
- `pack_spec.dfy`: the table recurrence and its meaning.
- `pack_tally.dfy`: the result map and its totals.
- `orders_service.dfy`: the Go functions.
- `orders_cases.dfy`: the test table.
- `orders_repository.dfy` and `pack_sizes_repository.dfy`: the mocks.
- `config_mask.dfy`: the masking rule.
- `models.dfy`: the records.

Points where the model follows the code rather than its comments:

- **The catalog need not be sorted.** The search ceiling `itemsCount + packSizes[len-1]` uses the *last* entry, whatever its size. For any positive last entry `p`, some multiple of `p` lies in `[itemsCount, itemsCount + p)`, so for `itemsCount < 2^31 - 1` the ceiling is always large enough. Nothing in the proofs assumes a sorted catalog. The catalog comes from a Go map in the tests and from an unordered SQL query (`SELECT * FROM pack_sizes`, no `ORDER BY`) in the running service, so its order is unspecified.
- **The result map is keyed by pack size, and each value is a count of packs.** The field comment at orders.go:16 says the reverse. The line-114 comment mentions a "- 1" that the code on line 115 does not have.
- **`TotalPacks` is never set to anything but 0**: only the fallback writes it, as `TotalPacks: 0`, so it is 0 in every result.
- **A table minimum of `2^31 - 1` or more packs counts as unreachable**, because that count equals the sentinel. The table-level statements `MinPacksOptimal` and `MinPacksIsMinimum` are therefore conditioned on fewer than `2^31 - 1` packs. The statements about the result are not: its pack count is always below the sentinel, and a longer covering combination can be cut to its first `itemsCount` packs.

## Model

| member | source | states |
|---|---|---|
| PackSpec.MinPacks | src/internal/services/orders.go:145-162 | every table entry lies between 0 and the sentinel MaxInt32 |
| PackSpec.Relax | src/internal/services/orders.go:154-160 | (dp[i], parent[i]) after the inner loop has scanned k entries: dp[i] lies in [0, MaxInt32], and parent[i] is -1 or a size p with 0 < p <= i |
| PackSpec.Parent | src/internal/services/orders.go:143-158 | the final parent[i]: -1 for i == 0, otherwise -1 or a size p with 0 < p <= i |
| PackSpec.Candidate | src/internal/services/orders.go:155-157 | what entry j offers for sum i: the sentinel, or one more than the reachable dp[i - sizes[j]] with sizes[j] <= i; always in [1, MaxInt32] |
| PackSpec.RelaxIsFirstMinimum | src/internal/services/orders.go:154-160 | after scanning k entries, dp[i] is the least candidate, capped at the sentinel; when reachable, the recorded size is that of the first entry attaining it, and all earlier entries offer strictly more |
| PackSpec.ParentStep | src/internal/services/orders.go:155-158 | for a reachable i > 0, parent[i] is a catalog size p with 0 < p <= i, dp[i-p] reachable and dp[i-p] + 1 == dp[i] |
| PackSpec.UnreachableIffNoParent | src/internal/services/orders.go:145-160 | for i > 0, dp[i] is the sentinel exactly when parent[i] == -1 |
| PackSpec.ParentIsFirstMinimiser | src/internal/services/orders.go:154-159 | tie-break: parent[i] is the first catalog entry whose candidate equals dp[i]; earlier entries offer more, and no entry offers less |
| PackSpec.Trace | src/internal/services/orders.go:127-133 | the packs the backtrack walks from a reachable sum i, at most i of them |
| PackSpec.TraceSound | src/internal/services/orders.go:126-133 | the walk from a reachable sum i uses only catalog sizes, sums to exactly i, and has dp[i] packs |
| PackSpec.TraceStep | src/internal/services/orders.go:129-132 | unfolding helper for one backtrack iteration: the walk from a reachable i > 0 is parent[i] followed by the walk from i - parent[i], which is smaller and still reachable |
| PackSpec.PrefixSum | src/internal/services/orders.go:106-108 | the first n packs of a combination of positive sizes ship at least n items and no more than the whole |
| PackSpec.MinPacksOptimal | src/internal/services/orders.go:141-162 | any combination of fewer than MaxInt32 catalog packs has a reachable sum, and dp at that sum is at most its pack count |
| PackSpec.MinPacksIsMinimum | src/internal/services/orders.go:141-162 | dp[i] is reachable iff some combination of fewer than MaxInt32 packs sums to i, and it is then the fewest packs of any such combination, attained by the walk |
| PackSpec.PositiveSumNeedsAPack | src/internal/services/orders.go:150-160 | dp[i] >= 1 for every i > 0 |
| PackSpec.CatalogSizeIsOnePack | src/internal/services/orders.go:153-160 | a sum equal to a catalog size takes one pack, and that size is recorded as its parent |
| PackSpec.OnePackIsCatalogSize | src/internal/services/orders.go:153-160 | a sum that takes exactly one pack is a catalog size |
| PackSpec.MinPacksLowerBound | src/internal/services/orders.go:141-162 | when no size exceeds m, a sum above m*k needs more than k packs |
| PackSpec.SumOfMultiples | src/internal/services/orders_test.go:11 | helper of the default-catalog cases: when every size is a multiple of d, so is every combination's sum |
| PackTally.Tally | src/internal/services/orders.go:127-133 | the `packs` map built by the backtrack from the walked packs: empty for no packs, and the first pack walked is a key with count at least 1 |
| PackTally.Increment | src/internal/services/orders.go:131 | `packs[size]++`: size becomes a key whose count is its old count (0 when missing) plus 1, and every other key of the old map keeps its count |
| PackTally.TotalItems | src/internal/services/orders_test.go:120-123 | the items a result ships, Σ size × count: 0 for the empty map, non-negative when keys and counts are |
| PackTally.TotalCount | src/internal/services/orders.go:106-108 | the packs a result uses, Σ count: 0 for the empty map, non-negative when counts are |
| PackTally.TallyKeys | src/internal/services/orders.go:127-133 | the keys of the built map are exactly the sizes walked, each with its multiplicity, at least 1 |
| PackTally.TallyAppend | src/internal/services/orders.go:131 | walking one more pack increments its entry, a missing key counting as 0 |
| PackTally.IncrementTotals | src/internal/services/orders.go:131 | one `packs[size]++` adds size items and one pack to the map's totals |
| PackTally.TallyTotals | src/internal/services/orders_test.go:119-126 | the map's sum of size × count is the sum of the packs walked, and its sum of counts is their number |
| OrdersService.FormatPackSizes | src/internal/services/orders.go:83-90 | same length as the records, element i is record i's size |
| OrdersService.BuildDPAndParent | src/internal/services/orders.go:140-165 | fresh tables of length maxTarget + 1 whose entries agree with dp and parent at every index in [0, maxTarget] |
| OrdersService.FirstReachable | src/internal/services/orders.go:167-179 | -1 when the whole range is unreachable; otherwise a reachable t in range with every earlier sum in range unreachable |
| OrdersService.MaxTarget | src/internal/services/orders.go:115 | maxTarget = itemsCount + the last catalog entry, above itemsCount when sizes are positive |
| OrdersService.BestTarget | src/internal/services/orders.go:119 | bestTarget: -1, or a reachable sum in [itemsCount, maxTarget] |
| OrdersService.FindBestTarget | src/internal/services/orders.go:167-179 | the least t in [start, end] with dp[t] reachable, all earlier sums unreachable, or -1 when none is |
| OrdersService.Backtrack | src/internal/services/orders.go:126-133 | the loop builds exactly the tally of the walk from bestTarget, so it ends at current == 0 |
| OrdersService.Combination | src/internal/services/orders.go:109-138 | the value calculatePackCombination returns: TotalPacks is always 0, and the map is empty for itemsCount <= 0 |
| OrdersService.CalculatePackCombination | src/internal/services/orders.go:109-138 | itemsCount <= 0 gives the empty map and TotalPacks 0; otherwise the result is the tally of the walk from bestTarget, or empty on the fallback |
| OrdersService.FallbackTakenAtSentinel | src/internal/services/orders.go:119-124 | with the catalog [1] and itemsCount = MaxInt32, bestTarget is -1 and the result map is empty |
| OrdersService.LeastMultipleAtLeast | src/internal/services/orders.go:114-115 | some multiple k*p of any positive size p lies in [n, n + p), with k <= n |
| OrdersService.FallbackUnreachable | src/internal/services/orders.go:119-124 | for 0 < itemsCount < MaxInt32 and a non-empty catalog of positive sizes, bestTarget is found and the map is non-empty |
| OrdersService.CombinationSound | src/internal/services/orders.go:126-137 | TotalPacks is 0; the map is empty iff bestTarget is -1; otherwise its items total bestTarget >= itemsCount, its count totals dp[bestTarget], and every key is a catalog size held at least once |
| OrdersService.CombinationFromBest | src/internal/services/orders.go:126-137 | unfolding helper: once bestTarget is known and not -1, the result's map is the tally of the walk from it |
| OrdersService.MinimalOvershoot | src/internal/services/orders.go:106-108 | for 0 < itemsCount < MaxInt32, no combination of catalog sizes that covers itemsCount ships fewer items than the result |
| OrdersService.MinimalPackCount | src/internal/services/orders.go:106-108 | any combination of catalog sizes shipping as many items as the result uses at least as many packs |
| OrdersServiceCases.OffGrid | src/internal/services/orders_test.go:11 | with the default catalog, every sum that is not a multiple of 250 is unreachable |
| OrdersServiceCases.BestTargetIsRoundedUp | src/internal/services/orders.go:167-179 | with the default catalog, bestTarget is itemsCount rounded up to a reachable multiple of 250 |
| OrdersServiceCases.OnePackOrder | src/internal/services/orders_test.go:19-39 | an order that rounds up to a catalog size ships as one pack of that size |
| OrdersServiceCases.SingleItem | src/internal/services/orders_test.go:19-25 | 1 item gives {250: 1} |
| OrdersServiceCases.ExactMatch250 | src/internal/services/orders_test.go:26-32 | 250 items give {250: 1} |
| OrdersServiceCases.Order251 | src/internal/services/orders_test.go:33-39 | 251 items give {500: 1}, not two 250 packs |
| OrdersServiceCases.Order501 | src/internal/services/orders_test.go:40-47 | 501 items give {250: 1, 500: 1} |
| OrdersServiceCases.Order12001 | src/internal/services/orders_test.go:48-56 | 12001 items give {250: 1, 2000: 1, 5000: 2} |
| OrdersServiceCases.ExactMatch5000 | src/internal/services/orders_test.go:57-63 | 5000 items give {5000: 1} |
| OrdersServiceCases.Order751 | src/internal/services/orders_test.go:64-70 | 751 items give {1000: 1}, not 500 + 250 + 250 |
| OrdersServiceCases.Table750 | src/internal/services/orders.go:153-160 | dp[750] is 2 and the walk from 750 is 250 then 500, the tie going to the first size |
| OrdersServiceCases.Table12000 | src/internal/services/orders.go:153-160 | dp[12000] is 3 and the walk is 2000, 5000, 5000 |
| OrdersServiceCases.Table12250 | src/internal/services/orders.go:153-160 | dp[12250] is 4 and the walk is 250, 2000, 5000, 5000 |
| MockOrdersRepository.InMemoryOrdersRepository.constructor | src/mocks/repositories/orders.go:15-19 | a new repository is empty |
| MockOrdersRepository.InMemoryOrdersRepository.GetAllOrders | src/mocks/repositories/orders.go:21-31 | no error; one element per stored entry, each stored under its ID, no ID twice, every stored order listed, length equal to the count |
| MockOrdersRepository.InMemoryOrdersRepository.SaveOrder | src/mocks/repositories/orders.go:33-39 | the table becomes the old one with the order's ID mapped to it and nothing else changed; the order comes back unchanged and the count grows only for a new ID |
| MockOrdersRepository.InMemoryOrdersRepository.FetchOrder | src/mocks/repositories/orders.go:41-51 | a stored ID gives its order with no error; an absent ID gives the zero order and "order not found" |
| MockOrdersRepository.InMemoryOrdersRepository.Clear | src/mocks/repositories/orders.go:54-59 | the table becomes empty |
| MockOrdersRepository.InMemoryOrdersRepository.Count | src/mocks/repositories/orders.go:62-67 | the number of stored orders |
| MockOrdersRepository.NewRepositoryIsEmpty | src/internal/services/orders_test.go:138-145 | a new repository counts 0 and lists nothing |
| MockOrdersRepository.SaveThenFetch | src/internal/services/orders_test.go:95-103 | a saved order is returned unchanged and fetched back by its ID |
| MockOrdersRepository.FetchMissing | src/internal/services/orders_test.go:192-197 | fetching an absent ID fails with the zero order |
| MockOrdersRepository.ThreeOrders | src/internal/services/orders_test.go:147-163 | three orders with distinct IDs are counted and listed as exactly those three |
| MockOrdersRepository.OverwriteKeepsOthers | src/mocks/repositories/orders.go:37 | saving under an existing ID replaces that order, keeps the other and leaves the count at 2 |
| MockOrdersRepository.FetchAfterClear | src/mocks/repositories/orders.go:54-67 | after Clear the count is 0 and a previously saved order cannot be fetched |
| MockPackSizesRepository.InMemoryPackSizesRepository.constructor | src/mocks/repositories/pack_sizes.go:14-18 | a new catalog is empty |
| MockPackSizesRepository.InMemoryPackSizesRepository.CreatePackSize | src/mocks/repositories/pack_sizes.go:20-26 | the record is stored under its ID, replacing only that ID, and returned unchanged |
| MockPackSizesRepository.InMemoryPackSizesRepository.GetAllPackSizes | src/mocks/repositories/pack_sizes.go:28-38 | no error; each stored record exactly once, each under its ID, length equal to the number of IDs stored |
| MockPackSizesRepository.InMemoryPackSizesRepository.UpdatePackSize | src/mocks/repositories/pack_sizes.go:40-46 | the same upsert as create: an absent ID is inserted, a present one replaced, nothing else changed |
| MockPackSizesRepository.InMemoryPackSizesRepository.Clear | src/mocks/repositories/pack_sizes.go:49-54 | the catalog becomes empty |
| MockPackSizesRepository.NewCatalogIsEmpty | src/internal/services/pack_sizes_test.go:15-22 | a new catalog lists nothing |
| MockPackSizesRepository.CreateThenList | src/internal/services/pack_sizes_test.go:97-125 | a created record is returned unchanged and then listed |
| MockPackSizesRepository.CreateThree | src/internal/services/pack_sizes_test.go:183-231 | records with distinct IDs are all listed, one entry each |
| MockPackSizesRepository.UpdateExisting | src/internal/services/pack_sizes_test.go:130-180 | updating a stored ID leaves as many entries, lists the new record, drops the old one and keeps the other record |
| MockPackSizesRepository.UpdateAbsentInserts | src/internal/services/pack_sizes_test.go:234-270 | updating an ID that is not stored inserts it |
| MockPackSizesRepository.ListAfterClear | src/mocks/repositories/pack_sizes.go:49-54 | after Clear nothing is listed |
| ConfigMask.Stars | src/config/mask.go:33-35 | n characters, all asterisks |
| ConfigMask.Mask | src/config/mask.go:30-36 | a string longer than 4 becomes six asterisks and its last two characters (length 8); a shorter one becomes as many asterisks as it has characters |
| ConfigMask.MaskRevealsAtMostLastTwo | src/config/mask.go:32-35 | every character of a masked string is an asterisk except possibly the last two of a string longer than 4, which come from the original |
| ConfigMask.MaskIdempotent | src/config/mask.go:32-36 | masking a masked string gives it back unchanged |
| ConfigMask.MaskSensitive | src/config/mask.go:9-13 | the result carries the masked password and every other field of the argument unchanged |
| ConfigMask.MaskSensitiveIdempotent | src/config/mask.go:9-13 | masking a configuration twice is masking it once |

## Left out

- The model of `CalculatePackCombination` requires a non-empty catalog only when `itemsCount > 0`. That is the only case where the Go code indexes the last entry; an empty catalog there makes the Go code panic.
- Every pack size is required to be positive. This is the optimiser's own input contract: the table loops only make sense for positive sizes. Nothing upstream enforces it. The `gt=0` tags on the pack-size payloads are never checked, because the request decoder only calls `json.Unmarshal` and the validator runs only on the configuration. So a stored size of 0 or less reaches the optimiser through order creation.
- CalculatePackCombination, BuildDPAndParent: catalogs with a size of 0 or less are not modelled. For such a catalog Go does the following:
  - With a negative size, what Go does depends on `maxTarget = itemsCount + last`:
    - `maxTarget + 1 < 0`: `make` panics.
    - `maxTarget == -1`: `make` gives an empty slice, and `dp[0] = 0` panics.
    - `maxTarget == 0`, e.g. `[-5]` with 5 items: the fill loop does not run, `findBestTarget(dp, itemsCount, 0)` returns -1, and the result is the empty fallback map, with no panic.
    - `maxTarget >= 1`: the read `dp[i-pack]` goes out of range once `i - pack > maxTarget`, at the latest when `i == maxTarget`, and panics.
  - A zero size never improves an entry, because `dp[i-0] + 1 < dp[i]` is false.
  - A zero size in the last position makes `maxTarget == itemsCount`, so the fallback becomes reachable. For example, `[250, 0]` with 1 item leaves `dp[1]` at `MaxInt32`, `findBestTarget` returns -1, and the result is the empty map, a shortfall.
- CalculatePackCombination, BuildDPAndParent: Go's 64-bit `int` is modelled as an unbounded integer. Sums near 2^63 overflow in Go but not in the model.
- FallbackUnreachable, MinimalOvershoot: stated for `itemsCount < 2^31 - 1`. At that bound and above, Go can take the fallback and ship nothing for a positive order. With the catalog `[1]` and `itemsCount = 2^31 - 1`, both sums in range need at least `MaxInt32` packs, so `dp` keeps the sentinel (`dp[i-pack] + 1 < dp[i]` is false), `findBestTarget` returns -1, and the result is the empty map. `FallbackTakenAtSentinel` proves this case.
- MinPacksOptimal, MinPacksIsMinimum: stated only for combinations of fewer than `2^31 - 1` packs. A count equal to the sentinel reads as "unreachable".
- The test case of 500000 items with sizes `[23, 31, 53]` is not proved: its table has `maxTarget + 1 = 500054` entries, too many to evaluate in a proof. The general lemmas give that the result ships the fewest items of any covering combination, which is exactly 500000 because the expected combination sums to 500000, and the fewest packs for that total. They do not give the expected map `{23: 2, 31: 7, 53: 9429}`.
- `formatPackSetup` (orders.go:94-104) is not modelled. It ranges over a Go map, so its output order is unspecified.
- The service's `CreateOrder`, `GetOrder` and `GetAllOrders` are not modelled. They call `uuid.New()` for a random ID and translate database errors. They also set a `PackSetup` field that `models.Order` (which has `PackCount`) does not declare.
- The reflection walk in `mask` (mask.go:15-28) is replaced by field-by-field masking of the concrete `Config`.
- Mask: strings are sequences of characters. Go's `len` and slicing count bytes, so a password with multi-byte characters is masked by bytes in Go and by characters here.
- The `sync.RWMutex` locking of both repositories is not modelled. The operations are modelled as sequential updates of the map.
- Map iteration order in `GetAllOrders` and `GetAllPackSizes` is unspecified in Go, and the model picks keys arbitrarily. The contracts state the listed set and its size, not an order.
- UUIDs are modelled as their canonical text, `ID.String()`, which is the key the repositories use.
- The HTTP handlers, PostgreSQL repositories, database setup and configuration loading are I/O and third-party calls, and are not part of this model.
