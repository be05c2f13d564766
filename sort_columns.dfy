/**
 * The sort-column check of `CreateAsync` applied to the entities of the
 * store: which column names `IsValidProperty` accepts for `City` and
 * `Country`.
 */
module SortColumns {
  import opened Wrappers
  import opened Casing
  import opened Fields
  import opened Paging
  import opened Models

  /** A column name is accepted whatever its case. */
  lemma SortColumnMatchedIgnoringCase()
    ensures IsValidProperty(CityProperties(), "name", true) == Success(true)
    ensures IsValidProperty(CityProperties(), "COUNTRYID", true) == Success(true)
    ensures IsValidProperty(CountryProperties(), "iso3", true) == Success(true)
  {
    assert EqualsIgnoreCase(CityProperties()[1].name, "name");
    assert EqualsIgnoreCase(CityProperties()[4].name, "COUNTRYID");
    assert EqualsIgnoreCase(CountryProperties()[3].name, "iso3");
  }

  /**
   * Text that is not a property name, such as a piece of SQL, is refused
   * before any query is built from it.
   */
  lemma InjectedSortColumnRefused()
    ensures IsValidProperty(CityProperties(), "Name; DROP TABLE Cities", true)
      == Failure(NotSupported("Name; DROP TABLE Cities"))
    ensures IsValidProperty(CountryProperties(), "Population", false) == Success(false)
  {
    var injected := "Name; DROP TABLE Cities";
    assert |Upper(injected)| == 23;
    forall i | 0 <= i < |CityProperties()|
      ensures !EqualsIgnoreCase(CityProperties()[i].name, injected)
    {
      assert |Upper(CityProperties()[i].name)| <= 9;
    }
    assert |Upper("Population")| == 10;
    forall i | 0 <= i < |CountryProperties()|
      ensures !EqualsIgnoreCase(CountryProperties()[i].name, "Population")
    {
      assert |Upper(CountryProperties()[i].name)| <= 4;
    }
  }

  /**
   * The navigation property `City.Country` is not among the listed
   * properties, so the model refuses it as a sort column.
   */
  lemma NavigationColumnRefused()
    ensures IsValidProperty(CityProperties(), "Country", true)
      == Failure(NotSupported("Country"))
  {
    assert |Upper("Country")| == 7;
    forall i | 0 <= i < |CityProperties()|
      ensures !EqualsIgnoreCase(CityProperties()[i].name, "Country")
    {
      assert |Upper(CityProperties()[i].name)| != 7;
    }
  }
}
