/**
  The FamousSpot record. The schema has no `user`, `state`, `city` or `geometry`
  field: its only owner field is the optional `createdBy`.
 */
module FamousSpotModel {
  import opened Wrappers
  import opened Docs

  const CATEGORIES: seq<string> := ["Historical", "Religious", "Natural", "Entertainment", "Food", "Shopping"]

  datatype FamousSpot = FamousSpot(
    spotName: string,
    category: string,
    address: string,
    description: string,
    images: seq<string>,
    videoLink: string,
    instagramLink: string,
    openingHours: string,
    entryFee: string,
    bestTime: string,
    createdBy: Option<Id>)

  /** The schema's validators: the three required fields, and the category enum. */
  predicate Valid(f: FamousSpot) {
    f.spotName != "" && f.category in CATEGORIES && f.address != ""
  }

  /** The `user` path a `countDocuments({ user })` or `find({ user })` reads: a FamousSpot
      never has one. */
  function UserOf(f: FamousSpot): Option<Id> { None }

  /** The `state` and `city` paths the city queries read: a FamousSpot has neither. */
  function StateOf(f: FamousSpot): Option<string> { None }
  function CityOf(f: FamousSpot): Option<string> { None }

  /** No FamousSpot ever counts towards anyone's items. */
  lemma {:induction false} NeverOwned(s: seq<Doc<FamousSpot>>, u: Id)
    ensures CountOwned(s, UserOf, u) == 0
    ensures Owned(s, UserOf, u) == []
  {
    if |s| > 0 {
      NeverOwned(s[1..], u);
    }
  }
}
