/** The HiddenSpot record. */
module HiddenSpotModel {
  import opened Wrappers
  import opened Docs

  const CATEGORIES: seq<string> := ["Historical", "Religious", "Natural", "Entertainment", "Food", "Shopping"]

  datatype HiddenSpot = HiddenSpot(
    spotName: string,
    category: string,
    address: string,
    description: string,
    images: seq<string>,
    videoLink: string,
    instagramLink: string,
    openingHours: string,
    entryFee: string,
    bestTime: string,
    state: string,
    city: string,
    rating: real,
    totalRatings: int,
    geometry: Coord,
    user: Option<Id>,
    isApproved: bool)

  /** The schema's validators: required fields, the category enum and the rating bounds. */
  predicate Valid(h: HiddenSpot) {
    && h.spotName != "" && h.category in CATEGORIES && h.address != ""
    && h.state != "" && h.city != "" && h.user.Some?
    && 0.0 <= h.rating <= 5.0
  }

  /** A new document with the schema's defaults for the fields it is not given:
      empty description and images, rating and rating count 0, not approved. */
  function New(spotName: string, category: string, address: string, description: string,
               state: string, city: string, openingHours: string, entryFee: string,
               bestTime: string, images: seq<string>, videoLink: string, instagramLink: string,
               user: Id, geometry: Coord): (h: HiddenSpot)
    ensures h.rating == 0.0 && h.totalRatings == 0 && !h.isApproved
    ensures h.user == Some(user) && h.geometry == geometry
    ensures Valid(h) <==> spotName != "" && category in CATEGORIES && address != "" && state != "" && city != ""
  {
    HiddenSpot(spotName, category, address, description, images, videoLink, instagramLink,
               openingHours, entryFee, bestTime, state, city, 0.0, 0, geometry, Some(user), false)
  }

  function UserOf(h: HiddenSpot): Option<Id> { h.user }
}
