/**
  The search request that the search box hands to its listeners: a query and
  an optional filter object. Every filter field is optional and may hold a
  string, a number or NaN (the year typed into a number input).
 */
module Payload {
  import opened Common

  datatype Filters = Filters(
    kind: Option<Value>,       // `filters.type`
    year: Option<Value>,
    sortBy: Option<Value>,
    minRating: Option<Value>,
    genre: Option<Value>)

  datatype SearchPayload = SearchPayload(query: string, filters: Option<Filters>)

  datatype FilterField = TypeField | YearField | SortByField | MinRatingField | GenreField

  /** A filter field read through `filters?.field`. */
  function Field(filters: Option<Filters>, field: FilterField): Option<Value> {
    match filters
    case None => None
    case Some(f) =>
      match field
      case TypeField => f.kind
      case YearField => f.year
      case SortByField => f.sortBy
      case MinRatingField => f.minRating
      case GenreField => f.genre
  }
}
