/** The shape of a registry entry, apart from the table itself. */
module Nations {

  /** One registry entry: a two-letter country code and its display name. */
  datatype Country = Country(code: string, name: string)
}
