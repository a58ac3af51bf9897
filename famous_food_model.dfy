/** The FamousFood record and the place sub-document it embeds. */
module FamousFoodModel {
  import opened Wrappers
  import opened Docs

  const CATEGORIES: seq<string> := ["Street Food", "Sweet", "Beverage", "Snack", "Main Course"]

  /** One place where the food is sold; its coordinates are required. */
  datatype FoodPlace = FoodPlace(placeName: string, address: string, price: string, specialNote: string, coordinates: Coord)

  datatype FamousFood = FamousFood(
    foodName: string,
    category: string,
    description: string,
    places: seq<FoodPlace>,
    images: seq<string>,
    videoLink: string,
    instagramLink: string,
    state: string,
    city: string,
    rating: real,
    totalRatings: int,
    user: Option<Id>,
    isApproved: bool)

  predicate ValidPlace(p: FoodPlace) {
    p.placeName != "" && p.address != ""
  }

  /** The schema's validators, including the non-empty `places` validator. */
  predicate Valid(f: FamousFood) {
    && f.foodName != "" && f.category in CATEGORIES
    && |f.places| > 0 && (forall p :: p in f.places ==> ValidPlace(p))
    && f.state != "" && f.city != "" && f.user.Some?
    && 0.0 <= f.rating <= 5.0
  }

  /** A new document with the schema's defaults: empty images, rating and rating count 0,
      not approved. */
  function New(foodName: string, category: string, description: string, state: string, city: string,
               places: seq<FoodPlace>, images: seq<string>, videoLink: string, instagramLink: string,
               user: Id): (f: FamousFood)
    ensures f.places == places && f.user == Some(user)
    ensures f.rating == 0.0 && f.totalRatings == 0 && !f.isApproved
    ensures Valid(f) <==> foodName != "" && category in CATEGORIES && |places| > 0
                          && (forall p :: p in places ==> ValidPlace(p)) && state != "" && city != ""
  {
    FamousFood(foodName, category, description, places, images, videoLink, instagramLink,
               state, city, 0.0, 0, Some(user), false)
  }

  function UserOf(f: FamousFood): Option<Id> { f.user }
}
