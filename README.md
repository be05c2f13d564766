# WorldCities: paging envelope and seed import, modelled in Dafny

This project models two pieces of the WorldCities ASP.NET API and proves properties of them.

**`ApiResult<T>`** (module `Paging`) is the paging and sorting envelope the API returns. `CreateAsync` does four things:
- counts the whole query;
- when a sort column is given, checks that the column is a public property of the entity type, ignoring case;
- sorts by that column, "ASC" or "DESC";
- skips `pageIndex * pageSize` items and takes `pageSize` of them.

The envelope carries `TotalPages`, `HasPreviousPage` and `HasNextPage`. Supporting modules:
- `Int32`: the unchecked `int` arithmetic of the source (wrap-around).
- `Casing`: `OrdinalIgnoreCase`.
- `Fields`: reflection over the entity's properties, and the order of column values.
- `Ordering`: the key sort that `OrderBy("<column> ASC|DESC")` performs.
- `Models`: the `City` and `Country` entities and their property lists.
- `SortColumns`: which column names `IsValidProperty` accepts and refuses for the two entities.

**`SeedController.Import`** (modules `ImportSpec` and `Controllers`) seeds the database from a worksheet.
- It runs only in the Development environment.
- Phase A walks the rows. It keeps a case-insensitive `countriesByName` lookup and stages a country for every name the lookup does not hold yet. It saves when at least one country was staged.
- Phase B reads the stored cities into a lookup keyed by (Name, Lat, Lon, CountryId). It resolves each row's country id through the phase A lookup and stages every city whose key is not stored. It saves when at least one city was staged.
- It returns both counters.

`ImportSpec` states what one call computes as the pure function `ImportOutcome`: the result, or the exception, and the store left behind. It proves the import's properties about that function. `Controllers` holds two classes:
- `ApplicationDbContext`: tables and change tracker, updated in place.
- `SeedController`: its `Import` runs the two loops over the worksheet and is proved to compute exactly `ImportOutcome`.

The model follows the code where the code does something unexpected:
- **Last row.** The city loop stops one row before the country loop, so the last row never yields a city.
- **Same-batch duplicates.** Staged cities are not added to the city lookup, so two identical rows in one batch are both saved. A second run then fails when `ToDictionary` meets the repeated key.
- **Unknown sort column.** `CreateAsync` calls `IsValidProperty` with `throwExceptionIfNotFound` left at `true`, so a non-empty sort column that is not a property raises `NotSupportedException`. It is not silently ignored, as a description of the endpoint might suggest; the model follows the code.

Country ids resolve through a lookup whose entries are of two kinds:
- `Persisted(id)`: a country read from the store.
- `Staged(index)`: a country staged by this run. The store gives it its id on save, and the city loop reads that id through the same object (`countriesByName[countryName].Id`).

## Model

| member | source | states |
|---|---|---|
| Int32.Wrap | WorldCities.API/Data/ApiResult.cs:58 | an unchecked `int` result differs from the mathematical one by a multiple of 2^32 and equals it when in range |
| Paging.CeilDiv | WorldCities.API/Data/ApiResult.cs:20 | the page count is the least number of pages of the given size that hold all items, and at most the item count |
| Paging.NewApiResult | WorldCities.API/Data/ApiResult.cs:12-21 | the constructor stores its arguments and sets `TotalPages` to the ceiling of count over page size |
| Paging.ApiResult.HasPreviousPage | WorldCities.API/Data/ApiResult.cs:54 | `PageIndex > 0`; its meaning, a page that does not start at the first item, is stated by `HasPreviousPageIffOffset` |
| Paging.ApiResult.HasNextPage | WorldCities.API/Data/ApiResult.cs:58 | the unchecked `PageIndex + 1 < TotalPages`; its meaning is stated by `HasNextPageIffMoreData` and `HasNextPageAtLastIndex` |
| Paging.HasNextPageIffMoreData | WorldCities.API/Data/ApiResult.cs:58 | for page indexes below `int.MaxValue`, `HasNextPage` holds exactly when the next page starts before the end of the data; so for an empty source it is false at page indexes 0 to `int.MaxValue - 1` (a negative index such as -2 gives `-1 < 0` and reports a next page) |
| Paging.HasNextPageAtLastIndex | WorldCities.API/Data/ApiResult.cs:58 | at `PageIndex == int.MaxValue` the addition wraps and `HasNextPage` holds whatever the data |
| Paging.HasPreviousPageIffOffset | WorldCities.API/Data/ApiResult.cs:54 | `HasPreviousPage` holds exactly when the page does not start at the first item (offset not overflowing) |
| Paging.Skip | WorldCities.API/Data/ApiResult.cs:77 | `Queryable.Skip`: a count of zero or less skips nothing; with `Take` it yields the slice stated by `PageIsSlice` and `WindowIsSlice` |
| Paging.Take | WorldCities.API/Data/ApiResult.cs:77 | `Queryable.Take`: a count of zero or less takes nothing; with `Skip` it yields the slice stated by `PageIsSlice` and `WindowIsSlice` |
| Paging.PageOffset | WorldCities.API/Data/ApiResult.cs:77 | the unchecked `pageIndex * pageSize`; equal to the product when in range (`Int32.Wrap`), `int.MinValue` for the overflowing 65536 × 32768 of `OverflowServesFirstPage` |
| Paging.PageIsSlice | WorldCities.API/Data/ApiResult.cs:77 | skip then take yields the slice at the offset, of length min(size, max(0, count - offset)) |
| Paging.OverflowServesFirstPage | WorldCities.API/Data/ApiResult.cs:77 | an offset that overflows to a negative `int` skips nothing and serves the first page |
| Paging.PageOfQuery | WorldCities.API/Data/ApiResult.cs:77-78 | the page has at most `pageSize` items and, without overflow, is the slice of the query at `pageIndex * pageSize` |
| Paging.PageOfSorted | WorldCities.API/Data/ApiResult.cs:75-78 | a page of the sorted query is sorted and draws its items from the source |
| Paging.IsValidProperty | WorldCities.API/Data/ApiResult.cs:87-92 | fails with `NotSupported(name)` exactly when throwing is requested and no property matches ignoring case; otherwise reports whether one matches |
| Paging.NormalizeSortOrder | WorldCities.API/Data/ApiResult.cs:74 | the order is "ASC" exactly when "ASC" was given ignoring case, else "DESC" |
| Paging.CreateAsync | WorldCities.API/Data/ApiResult.cs:69-80 | fails exactly on an unknown non-empty sort column; the count is the whole source; the page is the skip/take window of the source, or of the source sorted by the column in the normalised order, so it is sorted and drawn from the source; at most `pageSize` items |
| Fields.FindProperty | WorldCities.API/Data/ApiResult.cs:89 | the first property whose name matches ignoring case, and none exactly when no property matches |
| Fields.ValueLeqTotalOrder | WorldCities.API/Data/ApiResult.cs:75 | the column order the sort uses is total, transitive and antisymmetric |
| Ordering.SortBy | WorldCities.API/Data/ApiResult.cs:75 | `OrderBy("<column> ASC|DESC")` as a sort by the column's value; proved a permutation (`SortByPermutes`) that is sorted (`SortBySorted`), unique without ties (`SortedPermutationUnique`) |
| Ordering.SortByPermutes | WorldCities.API/Data/ApiResult.cs:75 | ordering by a column is a permutation of the query |
| Ordering.SortBySorted | WorldCities.API/Data/ApiResult.cs:75 | ordering by a column yields a sequence sorted by that column in the requested direction |
| Ordering.SortedPermutationUnique | WorldCities.API/Data/ApiResult.cs:75 | without ties there is exactly one sorted permutation, so the page contents do not depend on the sort algorithm |
| Ordering.DescendingIsReversedAscending | WorldCities.API/Data/ApiResult.cs:74-75 | without ties "DESC" yields the "ASC" order reversed |
| Casing.EqualsIgnoreCase | WorldCities.API/Data/ApiResult.cs:74 | `OrdinalIgnoreCase` equality: equal after upper-casing each character; used by `NormalizeSortOrder`, `FindProperty` and the country lookup of `Import` |
| Models.CityProperties | WorldCities.API/Data/ApiResult.cs:89 | the public instance properties `GetProperty` searches for `City`: `Id`, `Name`, `Lat`, `Lon`, `CountryId`; accepted and refused names are stated by `SortColumnMatchedIgnoringCase` and `InjectedSortColumnRefused` |
| Models.CountryProperties | WorldCities.API/Data/ApiResult.cs:89 | the public instance properties `GetProperty` searches for `Country`: `Id`, `Name`, `ISO2`, `ISO3`; stated by the same two lemmas |
| SortColumns.SortColumnMatchedIgnoringCase | WorldCities.API/Data/ApiResult.cs:87-91 | "name", "COUNTRYID" and "iso3" are accepted as sort columns |
| SortColumns.InjectedSortColumnRefused | WorldCities.API/Data/ApiResult.cs:82-91 | a sort column holding SQL text is refused with `NotSupported`, and an unknown name reports false when not throwing |
| SortColumns.NavigationColumnRefused | WorldCities.API/Data/ApiResult.cs:87-91 | "Country" is refused with `NotSupported`, because the model lists only the scalar properties of `City` (see Left out) |
| ImportSpec.Saved | WorldCities.API/Controllers/SeedController.cs:79 | `SaveChangesAsync` on the store: staged entities appended with consecutive ids from the identity seeds; `SavedKeepsInvariant` states what it keeps, `SavedNothing` that an empty save changes nothing |
| ImportSpec.SavedKeepsInvariant | WorldCities.API/Controllers/SeedController.cs:79 | saving keeps every stored entity and keeps ids unique and every city's country stored |
| ImportSpec.CountriesByName | WorldCities.API/Controllers/SeedController.cs:46 | the country lookup exists exactly when stored names are distinct ignoring case; it maps each name to its stored id |
| ImportSpec.CitiesByKey | WorldCities.API/Controllers/SeedController.cs:82-87 | the city lookup exists exactly when stored keys are distinct, and then holds exactly the stored keys |
| ImportSpec.ScanCountries | WorldCities.API/Controllers/SeedController.cs:49-76 | the country loop as a function of the lookup and the rows; characterised by `ScanCountriesKeys`, `ScanCountriesStaged`, `ScanCountriesFromRows`, `ScanCountriesCount` and `KnownCountriesAddNothing` |
| ImportSpec.ScanCountriesKeys | WorldCities.API/Controllers/SeedController.cs:49-76 | after the country loop the lookup keeps every entry it had and holds every row's country name |
| ImportSpec.ScanCountriesStaged | WorldCities.API/Controllers/SeedController.cs:58-72 | each staged country has a name new to the lookup, registered at once; each new name maps to its staged country |
| ImportSpec.ScanCountriesFromRows | WorldCities.API/Controllers/SeedController.cs:61-69 | every staged country is built from the name, ISO2 and ISO3 of some row |
| ImportSpec.ScanCountriesCount | WorldCities.API/Controllers/SeedController.cs:57-75 | the number of countries staged is the number of distinct row country names, ignoring case, not in the lookup |
| ImportSpec.KnownCountriesAddNothing | WorldCities.API/Controllers/SeedController.cs:58 | rows whose country names are all known stage no country and leave the lookup unchanged |
| ImportSpec.ScanCities | WorldCities.API/Controllers/SeedController.cs:90-124 | the city loop as a function of the stored keys, the resolved country ids and the rows; characterised by `ScanCitiesRowwise`, `ScanCitiesFromRows`, `ScanCitiesCovers` and `KnownCitiesAddNothing` |
| ImportSpec.ScanCitiesRowwise | WorldCities.API/Controllers/SeedController.cs:104-123 | each row is checked against the stored cities only, so a batch stages what its parts stage |
| ImportSpec.ScanCitiesFromRows | WorldCities.API/Controllers/SeedController.cs:101-120 | every staged city has a key absent from the stored cities and is some row's city with that row's resolved country id |
| ImportSpec.ScanCitiesCovers | WorldCities.API/Controllers/SeedController.cs:104-120 | every row's key is the key of a stored or a staged city |
| ImportSpec.KnownCitiesAddNothing | WorldCities.API/Controllers/SeedController.cs:104-108 | rows whose keys are all stored stage no city |
| ImportSpec.LookupAfterCountriesSaved | WorldCities.API/Controllers/SeedController.cs:72-101 | after the first save, the countries read back give the phase A lookup with each staged entry replaced by its assigned id |
| ImportSpec.ImportOutcome | WorldCities.API/Controllers/SeedController.cs:27-134 | the result or exception of one `Import` and the store it leaves; its properties are the lemmas `ImportFailures` to `IdenticalRowsBreakRerun` below, and `SeedController.Import` is proved to compute it |
| ImportSpec.ImportFailures | WorldCities.API/Controllers/SeedController.cs:29-87 | fails with `NotAllowed` exactly outside Development, with `DuplicateKey` exactly when stored names or city keys repeat; early failures leave the store unchanged |
| ImportSpec.ImportKeepsStoreValid | WorldCities.API/Controllers/SeedController.cs:27-134 | an import keeps every stored entity, keeps ids unique, and every city's country id is a stored country's |
| ImportSpec.CountriesAddedAreNewNames | WorldCities.API/Controllers/SeedController.cs:49-79 | the country counter equals the number of new distinct names and the number of countries saved; stored names become the old plus the rows', still distinct |
| ImportSpec.CitiesAddedAreNew | WorldCities.API/Controllers/SeedController.cs:90-131 | the city counter equals the number of cities saved, appended after the stored ones, none with a stored key |
| ImportSpec.EveryCityRowStored | WorldCities.API/Controllers/SeedController.cs:90-127 | after an import, every row the city loop read has its country stored under that name and its key, with that country's id, stored; for coordinates with at most four decimals, which the model's rows hold |
| ImportSpec.RerunAddsNothing | WorldCities.API/Controllers/SeedController.cs:45-134 | running again on the same worksheet adds no country and no city, unless the stored cities now repeat a key; this rests on every coordinate of the worksheet having at most four decimals, since the model stores rows' coordinates exactly |
| ImportSpec.SingleRowAddsNoCity | WorldCities.API/Controllers/SeedController.cs:90 | a worksheet with one row imports its country if new but never its city |
| ImportSpec.IdenticalRowsStagedTwice | WorldCities.API/Controllers/SeedController.cs:104-123 | three identical rows on an empty store yield one country and two cities with the same key |
| ImportSpec.IdenticalRowsBreakRerun | WorldCities.API/Controllers/SeedController.cs:82-87 | after such an import, running again fails when the cities are read into the key lookup |
| Controllers.ApplicationDbContext.constructor | WorldCities.API/Data/ApplicationDbContext.cs:6-16 | a context over the given tables with nothing pending |
| Controllers.ApplicationDbContext.AddCountry | WorldCities.API/Controllers/SeedController.cs:69 | the country is tracked as added; the tables are unchanged |
| Controllers.ApplicationDbContext.AddCity | WorldCities.API/Controllers/SeedController.cs:120 | the city is tracked as added; the tables are unchanged |
| Controllers.ApplicationDbContext.SaveChanges | WorldCities.API/Controllers/SeedController.cs:79 | tracked entities are appended with consecutive fresh ids and the tracker is emptied |
| Controllers.IdsReadableAfterSave | WorldCities.API/Controllers/SeedController.cs:101 | after the first save, reading `Id` through each lookup entry gives the resolved id, for stored and staged countries alike |
| Controllers.SeedController.constructor | WorldCities.API/Controllers/SeedController.cs:18-24 | the controller keeps its context and environment |
| Controllers.SeedController.StageCountries | WorldCities.API/Controllers/SeedController.cs:49-76 | the country loop over rows 2..nEndRow yields the lookup and staged countries of `ScanCountries`, and counts them |
| Controllers.SeedController.StageCities | WorldCities.API/Controllers/SeedController.cs:90-124 | the city loop over rows 2..nEndRow-1 stages exactly the cities of `ScanCities`, and counts them |
| Controllers.SeedController.Import | WorldCities.API/Controllers/SeedController.cs:27-134 | the result and the store left are those of `ImportOutcome`; a consistent store stays consistent and keeps its entities; nothing is left pending |

## Left out

- The environment, the worksheet file and its parsing (EPPlus, file paths) are outside the model. The environment is a boolean. The worksheet is the sequence of typed rows below the header, so `nEndRow` is the number of rows plus one.
- An empty worksheet, where `Dimension` is null, and null or mistyped cells are not modelled; every cell holds a value of its column's type.
- `Lat` and `Lon` are `decimal(7,4)` values, held as integers in ten-thousandths, in the rows as in the store. The rounding of more precise worksheet values to four places on save is not modelled.
- ImportSpec.RerunAddsNothing and ImportSpec.EveryCityRowStored hold for worksheets whose coordinates have at most four decimals. With a coordinate such as 40.71278 the source stores 40.7128, the row's exact key is then never found in `cities`, and every run adds that city again; the model's rows cannot hold such a coordinate.
- Async/await, `CountAsync`, `ToListAsync` and `SaveChangesAsync` suspension points, and concurrent requests, are left out: each operation runs to completion alone.
- The JSON result and HTTP routing are not modelled; `Import` returns the two counters or the exception as a `Result`.
- `Country.cs` is not part of this model. Its fields are those `Import` reads and writes, and navigation properties are left out.
- The database is two sequences with identity seeds. Database constraints, collations and the SQL that `Skip`, `Take` and `OrderBy` produce are not modelled. In particular the provider's behaviour on a negative offset is not modelled; LINQ to Objects semantics (skip nothing) are used.
- `OrdinalIgnoreCase` folds ASCII letters only; other Unicode case pairs are compared as distinct.
- Models.CityProperties lists the scalar properties of `City` only. The source's `GetProperty` also finds the navigation property `Country` (City.cs line 49), so `IsValidProperty` accepts "Country" and `CreateAsync` hands `Country ASC|DESC` to `OrderBy`; the model refuses "Country" with `NotSupported`, as `SortColumns.NavigationColumnRefused` states. Ordering by a whole entity has no column value to compare, so the model does not say what the provider would do with it. Navigation properties of `Country.cs` are left out likewise.
- Reflection (`GetProperty`) is a lookup in a fixed list of properties. An ambiguous match (`AmbiguousMatchException`) cannot occur, because the lists have distinct names.
- Dynamic LINQ's `OrderBy` is an insertion sort by one column. The order it gives to rows with equal keys is not constrained.
- `TotalPages` uses floating-point division and `Math.Ceiling`; it is modelled as integer ceiling division. `CreateAsync` requires `pageSize > 0` (the source's 0 gives an undefined result) and a source of at most `int.MaxValue` items (`CountAsync` returns an `int`).
- Paging.CreateAsync: the slice and length promises are stated for offsets `pageIndex * pageSize` that do not overflow `int`; an overflowing offset is covered by `OverflowServesFirstPage` and by the bound of at most `pageSize` items.
- Controllers.SeedController.Import: the two loops of the source body are the helper methods `StageCountries` and `StageCities`, to keep each proof small; they read and update the same state.
