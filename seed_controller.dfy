/**
 * The seed endpoint as the program runs it: a database context whose tables
 * and change tracker change in place, and `SeedController.Import`, which
 * walks the worksheet twice, stages entities, saves them, and is proved to
 * compute exactly `ImportSpec.ImportOutcome`.
 */
module Controllers {
  import opened Wrappers
  import opened Casing
  import opened Models
  import opened ImportSpec

  /**
   * `ApplicationDbContext`: the `Countries` and `Cities` tables, the next
   * value of each identity column, and the entities added since the last
   * `SaveChangesAsync`.
   */
  class ApplicationDbContext {
    var countries: seq<Country>
    var cities: seq<City>
    var nextCountryId: int
    var nextCityId: int
    var addedCountries: seq<Country>
    var addedCities: seq<City>

    /** The persisted tables, as the queries of `Import` see them. */
    function Snapshot(): Store
      reads this
    {
      Store(countries, cities, nextCountryId, nextCityId)
    }

    predicate NothingPending()
      reads this
    {
      addedCountries == [] && addedCities == []
    }

    constructor (s: Store)
      ensures Snapshot() == s && NothingPending()
    {
      countries := s.countries;
      cities := s.cities;
      nextCountryId := s.nextCountryId;
      nextCityId := s.nextCityId;
      addedCountries := [];
      addedCities := [];
    }

    /** `Countries.AddAsync`: the country is tracked as added; nothing is written yet. */
    method AddCountry(c: Country)
      modifies this
      ensures addedCountries == old(addedCountries) + [c]
      ensures addedCities == old(addedCities) && Snapshot() == old(Snapshot())
    {
      addedCountries := addedCountries + [c];
    }

    /** `Cities.Add`: the city is tracked as added; nothing is written yet. */
    method AddCity(c: City)
      modifies this
      ensures addedCities == old(addedCities) + [c]
      ensures addedCountries == old(addedCountries) && Snapshot() == old(Snapshot())
    {
      addedCities := addedCities + [c];
    }

    /**
     * `SaveChangesAsync`: the tracked entities are inserted in the order they
     * were added, the identity columns give them consecutive ids, and the
     * change tracker is emptied.
     */
    method SaveChanges()
      modifies this
      ensures Snapshot() == Saved(old(Snapshot()), old(addedCountries), old(addedCities))
      ensures NothingPending()
    {
      countries := countries + NumberCountries(addedCountries, nextCountryId);
      cities := cities + NumberCities(addedCities, nextCityId);
      nextCountryId := nextCountryId + |addedCountries|;
      nextCityId := nextCityId + |addedCities|;
      addedCountries := [];
      addedCities := [];
    }
  }

  /** An entry of the country lookup that is staged refers to one of the staged countries. */
  lemma StagedEntrySaved(s: Store, sheet: seq<Row>, k: string)
    requires NamesDistinct(s.countries)
    requires k in ScanCountries(CountriesByName(s.countries).value, sheet).lookup
    ensures var scan := ScanCountries(CountriesByName(s.countries).value, sheet);
      scan.lookup[k].Staged? ==> scan.lookup[k].index < |scan.added|
  {
    var byName := CountriesByName(s.countries).value;
    ScanCountriesKeys(byName, sheet);
    if k in byName {
      var i := NameAt(s.countries, k);
    } else {
      ScanCountriesStaged(byName, sheet);
    }
  }

  /** One more row of the country loop. */
  lemma ScanCountriesStep(lookup: map<string, Ref>, rows: seq<Row>, i: nat)
    requires i < |rows|
    ensures var prev := ScanCountries(lookup, rows[..i]);
      var k := Upper(rows[i].country);
      ScanCountries(lookup, rows[..i + 1]) ==
        if k in prev.lookup then prev
        else CountryScan(prev.lookup[k := Staged(|prev.added|)], prev.added + [NewCountry(rows[i])])
  {
    assert rows[..i + 1][..i] == rows[..i];
  }

  /** One more row of the city loop, row `i + 2` of the worksheet, whose country resolves to `ids`' entry. */
  lemma ScanCitiesStep(existing: set<CityKey>, ids: map<string, int>, sheet: seq<Row>, i: nat)
    requires Resolvable(ids, CityRows(sheet))
    requires i < |CityRows(sheet)|
    ensures Resolvable(ids, CityRows(sheet)[..i]) && Resolvable(ids, CityRows(sheet)[..i + 1])
    ensures Upper(sheet[i].country) in ids && Upper(sheet[i].country) in RowCountries(CityRows(sheet))
    ensures ScanCities(existing, ids, CityRows(sheet)[..i + 1]) ==
      ScanCities(existing, ids, CityRows(sheet)[..i]) +
        if RowKey(sheet[i], ids[Upper(sheet[i].country)]) in existing then []
        else [NewCity(sheet[i], ids[Upper(sheet[i].country)])]
  {
    var rows := CityRows(sheet);
    assert rows[i] == sheet[i] && rows[i] in rows;
    assert forall r | r in rows[..i + 1] :: r in rows;
    assert rows[..i + 1][..i] == rows[..i];
  }

  /**
   * What the city loop needs of the country lookup once the staged countries
   * are saved: the entry for `k` gives the id `ids` resolves `k` to, read
   * directly for a stored country and from the saved table, at position
   * `firstStaged + j`, for the `j`-th staged one.
   */
  predicate IdReadable(lookup: map<string, Ref>, countries: seq<Country>, firstStaged: int, ids: map<string, int>, k: string)
    requires k in lookup
  {
    k in ids &&
    match lookup[k]
    case Persisted(p) => p == ids[k]
    case Staged(j) => 0 <= firstStaged + j < |countries| && countries[firstStaged + j].id == ids[k]
  }

  predicate IdsReadable(lookup: map<string, Ref>, countries: seq<Country>, firstStaged: int, ids: map<string, int>) {
    forall k | k in lookup :: IdReadable(lookup, countries, firstStaged, ids, k)
  }

  /**
   * The id `Import` reads for a lookup entry once the staged countries
   * `added` are saved after `before` with ids from `firstId` on: the stored
   * id of a country read from the store, or the id the store gave the staged
   * country, at its position after the stored ones.
   */
  lemma EntryReadableAfterSave(lookup: map<string, Ref>, before: seq<Country>, added: seq<Country>, firstId: int, k: string)
    requires k in lookup
    requires lookup[k].Staged? ==> lookup[k].index < |added|
    ensures IdReadable(lookup, before + NumberCountries(added, firstId), |before|, ResolveIds(lookup, firstId), k)
  {
    match lookup[k]
    case Persisted(p) =>
    case Staged(j) =>
      assert (before + NumberCountries(added, firstId))[|before| + j] == NumberCountries(added, firstId)[j];
  }

  /**
   * After the first save, `countriesByName[countryName].Id` reads, for every
   * name of the lookup, the id the resolved lookup gives it.
   */
  lemma IdsReadableAfterSave(s: Store, sheet: seq<Row>)
    requires NamesDistinct(s.countries)
    ensures var scan := ScanCountries(CountriesByName(s.countries).value, sheet);
      IdsReadable(scan.lookup, AfterCountries(s, scan).countries, |s.countries|, ResolveIds(scan.lookup, s.nextCountryId))
  {
    var scan := ScanCountries(CountriesByName(s.countries).value, sheet);
    AfterCountriesKeepsCities(s, scan);
    forall k | k in scan.lookup
      ensures IdReadable(scan.lookup, s.countries + NumberCountries(scan.added, s.nextCountryId), |s.countries|,
                         ResolveIds(scan.lookup, s.nextCountryId), k)
    {
      StagedEntrySaved(s, sheet, k);
      EntryReadableAfterSave(scan.lookup, s.countries, scan.added, s.nextCountryId, k);
    }
  }

  /** `SeedController`, with the hosting environment reduced to whether it is Development. */
  class SeedController {
    const context: ApplicationDbContext
    const isDevelopment: bool

    constructor (context: ApplicationDbContext, isDevelopment: bool)
      ensures this.context == context && this.isDevelopment == isDevelopment
    {
      this.context := context;
      this.isDevelopment := isDevelopment;
    }

    /**
     * `GET api/Seed/Import` on a worksheet whose rows below the header are
     * `sheet` (so `nEndRow` is `|sheet| + 1`): the result, or the exception,
     * and the store it leaves are those of `ImportOutcome`; a consistent
     * store stays consistent and keeps every entity it held.
     */
    method Import(sheet: seq<Row>) returns (r: Result<ImportCounts, ImportError>)
      requires context.NothingPending()
      modifies context
      ensures ImportOutcome(isDevelopment, old(context.Snapshot()), sheet) == Outcome(r, context.Snapshot())
      ensures old(StoreInvariant(context.Snapshot())) ==>
        StoreInvariant(context.Snapshot()) &&
        old(context.countries) <= context.countries && old(context.cities) <= context.cities
      ensures context.NothingPending()
    {
      ghost var s0 := context.Snapshot();
      if StoreInvariant(s0) {
        ImportKeepsStoreValid(isDevelopment, s0, sheet);
      }
      if !isDevelopment {
        return Failure(NotAllowed);
      }

      var byName := CountriesByName(context.countries);
      if byName.None? {
        return Failure(DuplicateKey);
      }
      var countriesByName, numberOfCountriesAdded := StageCountries(sheet, byName.value);
      ghost var scan := ScanCountries(byName.value, sheet);
      ghost var rows := CityRows(sheet);
      ghost var countries := context.countries;
      ImportIsCityStage(s0, sheet);

      var firstStaged := |context.countries|;
      if numberOfCountriesAdded > 0 {
        context.SaveChanges();
      }
      assert context.Snapshot() == AfterCountries(s0, scan);
      AfterCountriesKeepsCities(s0, scan);

      var existing := CitiesByKey(context.cities);
      if existing.None? {
        CityStageFails(s0, scan, rows);
        return Failure(DuplicateKey);
      }
      IdsReadableAfterSave(s0, sheet);
      var numberOfCitiesAdded := StageCities(sheet, countriesByName, firstStaged, existing.value,
                                             ResolveIds(scan.lookup, s0.nextCountryId));
      ghost var added := context.addedCities;
      CityStageSucceeds(s0, scan, rows);

      if numberOfCitiesAdded > 0 {
        context.SaveChanges();
      }
      assert context.Snapshot() == AfterCities(AfterCountries(s0, scan), added);
      r := Success(ImportCounts(numberOfCitiesAdded, numberOfCountriesAdded));
    }

    /**
     * The country loop, rows 2 to `nEndRow`: a country whose name the lookup
     * holds, ignoring case, is skipped; any other is added to the context
     * and to the lookup.
     */
    method StageCountries(sheet: seq<Row>, byName: map<string, Ref>)
      returns (countriesByName: map<string, Ref>, numberOfCountriesAdded: nat)
      requires context.addedCountries == []
      modifies context
      ensures ScanCountries(byName, sheet) == CountryScan(countriesByName, context.addedCountries)
      ensures numberOfCountriesAdded == |context.addedCountries|
      ensures context.Snapshot() == old(context.Snapshot()) && context.addedCities == old(context.addedCities)
    {
      var nEndRow := |sheet| + 1;
      countriesByName := byName;
      numberOfCountriesAdded := 0;
      var nRow := 2;
      while nRow <= nEndRow
        invariant 2 <= nRow <= nEndRow + 1
        invariant ScanCountries(byName, sheet[..nRow - 2]) == CountryScan(countriesByName, context.addedCountries)
        invariant numberOfCountriesAdded == |context.addedCountries|
        invariant context.Snapshot() == old(context.Snapshot()) && context.addedCities == old(context.addedCities)
      {
        ScanCountriesStep(byName, sheet, nRow - 2);
        var row := sheet[nRow - 2];
        var countryName := row.country;
        if Upper(countryName) !in countriesByName {
          var country := Country(0, countryName, row.iso2, row.iso3);
          context.AddCountry(country);
          countriesByName := countriesByName[Upper(countryName) := Staged(numberOfCountriesAdded)];
          numberOfCountriesAdded := numberOfCountriesAdded + 1;
        }
        nRow := nRow + 1;
      }
      assert sheet[..nRow - 2] == sheet;
    }

    /**
     * The city loop, rows 2 to `nEndRow - 1`: the row's country id is read
     * through the country lookup, a city whose key is among `cities` is
     * skipped, and any other is added to the context.
     */
    method StageCities(sheet: seq<Row>, countriesByName: map<string, Ref>, firstStaged: nat,
                       cities: set<CityKey>, ghost ids: map<string, int>)
      returns (numberOfCitiesAdded: nat)
      requires Resolvable(ids, CityRows(sheet))
      requires RowCountries(CityRows(sheet)) <= countriesByName.Keys
      requires IdsReadable(countriesByName, context.countries, firstStaged, ids)
      requires context.addedCities == []
      modifies context
      ensures context.addedCities == ScanCities(cities, ids, CityRows(sheet))
      ensures numberOfCitiesAdded == |context.addedCities|
      ensures context.Snapshot() == old(context.Snapshot()) && context.addedCountries == old(context.addedCountries)
    {
      ghost var rows := CityRows(sheet);
      ghost var countries := context.countries;
      var nEndRow := |sheet| + 1;
      numberOfCitiesAdded := 0;
      var nRow := 2;
      while nRow < nEndRow
        invariant 2 <= nRow && nRow - 2 <= |rows| && Resolvable(ids, rows[..nRow - 2])
        invariant ScanCities(cities, ids, rows[..nRow - 2]) == context.addedCities
        invariant numberOfCitiesAdded == |context.addedCities|
        invariant context.Snapshot() == old(context.Snapshot()) && context.addedCountries == old(context.addedCountries)
        invariant context.countries == countries
      {
        ScanCitiesStep(cities, ids, sheet, nRow - 2);
        var row := sheet[nRow - 2];
        var name := row.name;
        var countryName := row.country;
        // `countriesByName[countryName]` would throw if the name were missing; it never is.
        assert IdReadable(countriesByName, countries, firstStaged, ids, Upper(countryName));
        var countryId := match countriesByName[Upper(countryName)]
          case Persisted(id) => id
          case Staged(j) => context.countries[firstStaged + j].id;
        if CityKey(name, row.lat, row.lon, countryId) !in cities {
          var city := City(0, name, row.lat, row.lon, countryId);
          context.AddCity(city);
          numberOfCitiesAdded := numberOfCitiesAdded + 1;
        }
        nRow := nRow + 1;
      }
      assert rows[..nRow - 2] == rows;
    }
  }
}
