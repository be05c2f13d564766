/**
 * The entities of the store. `Country` comes from a file that is not part of
 * this model; its fields here are the ones the import reads and writes.
 */
module Models {
  import opened Fields

  datatype Country = Country(id: int, name: string, iso2: string, iso3: string)

  /** `City`; `Lat` and `Lon` are `decimal(7,4)` columns, held here in ten-thousandths. */
  datatype City = City(id: int, name: string, lat: int, lon: int, countryId: int)

  /** The scalar public instance properties of `City`, in declaration order; the navigation property `Country` is not listed. */
  function CityProperties(): seq<Property<City>> {
    [ Property("Id", (c: City) => Num(c.id)),
      Property("Name", (c: City) => Text(c.name)),
      Property("Lat", (c: City) => Num(c.lat)),
      Property("Lon", (c: City) => Num(c.lon)),
      Property("CountryId", (c: City) => Num(c.countryId)) ]
  }

  /** The public instance properties of `Country`. */
  function CountryProperties(): seq<Property<Country>> {
    [ Property("Id", (c: Country) => Num(c.id)),
      Property("Name", (c: Country) => Text(c.name)),
      Property("ISO2", (c: Country) => Text(c.iso2)),
      Property("ISO3", (c: Country) => Text(c.iso3)) ]
  }
}
