/**
  The Handicraft record. The schema declares `originCity` and `createdBy` (both
  required) and no `user`, `state`, `city`, `localMarkets` or `geometry`; the submission
  route writes the latter fields anyway, so a stored document carries them too.
 */
module HandicraftModel {
  import opened Wrappers
  import opened Docs

  const CATEGORIES: seq<string> := ["Textile", "Metalwork", "Woodcraft", "Pottery", "Jewelry", "Painting", "Other"]
  const DEFAULT_CATEGORY: string := "Other"
  const DEFAULT_PRICE_RANGE: string := "Varies"

  /** A local market where the handicraft is sold. */
  datatype Market = Market(name: string, address: string)

  datatype Handicraft = Handicraft(
    name: string,
    category: string,
    description: string,
    originCity: string,
    culturalSignificance: string,
    materialsUsed: seq<string>,
    priceRange: string,
    images: seq<string>,
    videoLink: string,
    instagramLink: string,
    createdBy: Option<Id>,
    isApproved: bool,
    // written by the submission route, not declared by the schema
    state: string,
    city: string,
    localMarkets: seq<Market>,
    user: Option<Id>,
    geometry: Coord)

  /** The schema's validators: four required fields, the category enum and at least one image. */
  predicate Valid(h: Handicraft) {
    && h.name != "" && h.category in CATEGORIES && h.description != ""
    && h.originCity != "" && h.createdBy.Some? && |h.images| > 0
  }

  /** A path with a schema default: the default when the value is absent, the value
      (even an empty one) otherwise. */
  function OrDefault(v: Option<string>, default: string): string {
    if v.None? then default else v.value
  }

  /** The document `new Handicraft({...})` builds from what the submission route passes:
      it never sets `originCity` or `createdBy`. */
  function FromSubmission(name: string, category: Option<string>, description: string, state: string, city: string,
                          priceRange: Option<string>, localMarkets: seq<Market>, images: seq<string>,
                          videoLink: string, instagramLink: string, user: Id, geometry: Coord): (h: Handicraft)
    ensures h.category == (if category.None? then DEFAULT_CATEGORY else category.value)
    ensures h.priceRange == (if priceRange.None? then DEFAULT_PRICE_RANGE else priceRange.value)
    ensures h.user == Some(user) && h.geometry == geometry && !h.isApproved
    ensures h.originCity == "" && h.createdBy.None?
  {
    Handicraft(name, OrDefault(category, DEFAULT_CATEGORY), description, "", "", [],
               OrDefault(priceRange, DEFAULT_PRICE_RANGE), images, videoLink, instagramLink,
               None, false, state, city, localMarkets, Some(user), geometry)
  }

  /** Whatever the submission says, the document it builds fails validation, because the
      required `originCity` and `createdBy` are never set. */
  lemma SubmissionNeverValid(name: string, category: Option<string>, description: string, state: string, city: string,
                             priceRange: Option<string>, localMarkets: seq<Market>, images: seq<string>,
                             videoLink: string, instagramLink: string, user: Id, geometry: Coord)
    ensures !Valid(FromSubmission(name, category, description, state, city, priceRange, localMarkets,
                                  images, videoLink, instagramLink, user, geometry))
  {
  }

  function UserOf(h: Handicraft): Option<Id> { h.user }
}
