/** The History record. */
module HistoryModel {
  import opened Wrappers
  import opened Docs

  const CATEGORIES: seq<string> := ["Fort", "Palace", "Monument", "Temple", "Museum", "Memorial", "Other"]
  const DEFAULT_CATEGORY: string := "Other"

  datatype History = History(
    placeName: string,
    era: string,
    category: string,
    shortDescription: string,
    builtBy: string,
    yearBuilt: string,
    historyDescription: string,
    address: string,
    mapLink: string,
    images: seq<string>,
    videoLink: string,
    instagramLink: string,
    state: string,
    city: string,
    rating: real,
    totalRatings: int,
    geometry: Coord,
    user: Option<Id>,
    isApproved: bool)

  /** The schema's validators: seven required fields, the category enum and the rating bounds. */
  predicate Valid(h: History) {
    && h.placeName != "" && h.category in CATEGORIES && h.shortDescription != ""
    && h.historyDescription != "" && h.address != "" && h.state != "" && h.city != ""
    && h.user.Some? && 0.0 <= h.rating <= 5.0
  }

  /** A new document with the schema's defaults: category "Other" when the request has
      none (`None`; an empty string is kept and fails the enum), rating and rating count 0,
      not approved. */
  function New(placeName: string, era: string, category: Option<string>, shortDescription: string,
               builtBy: string, yearBuilt: string, historyDescription: string, address: string,
               mapLink: string, images: seq<string>, videoLink: string, instagramLink: string,
               state: string, city: string, geometry: Coord, user: Id): (h: History)
    ensures h.category == (if category.None? then DEFAULT_CATEGORY else category.value)
    ensures h.rating == 0.0 && h.totalRatings == 0 && !h.isApproved
    ensures h.user == Some(user) && h.geometry == geometry
    ensures Valid(h) <==>
      && placeName != "" && (category.None? || category.value in CATEGORIES) && shortDescription != ""
      && historyDescription != "" && address != "" && state != "" && city != ""
  {
    History(placeName, era, if category.None? then DEFAULT_CATEGORY else category.value, shortDescription,
            builtBy, yearBuilt, historyDescription, address, mapLink, images, videoLink, instagramLink,
            state, city, 0.0, 0, geometry, Some(user), false)
  }

  function UserOf(h: History): Option<Id> { h.user }
}
