/**
 * A listing of the catalog, with the fields the core reads. The catalog's
 * descriptions, pictures, floor plan and coordinates are only displayed and
 * are not part of this record.
 */
module Listing {

  /** The `added` field: an English month name, a day of the month and a year, as stored. */
  datatype AddedDate = AddedDate(month: string, day: int, year: int)

  datatype Property = Property(
    id: string,
    propertyType: string,   // "House" or "Flat" in the catalog
    price: int,             // whole pounds
    bedrooms: int,
    tenure: string,
    location: string,       // free text that ends in a postcode area, e.g. "... Orpington BR5"
    added: AddedDate)
}
