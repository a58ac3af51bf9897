/**
  The Contribution record: a user's suggestion for a place that already exists. Its
  `placeId` reference is declared against FamousSpot whatever the contribution's type.
 */
module ContributionModel {
  import opened Wrappers
  import opened Docs
  import HandicraftModel
  import FamousFoodModel

  /** The `type` enum. */
  datatype Kind = FamousSpotKind | HistoryKind | FoodKind | HandicraftKind | HiddenSpotKind

  const DEFAULT_KIND: Kind := FamousSpotKind

  /** The string stored for each kind. */
  function KindName(k: Kind): string {
    match k
    case FamousSpotKind => "famousSpot"
    case HistoryKind => "history"
    case FoodKind => "food"
    case HandicraftKind => "handicraft"
    case HiddenSpotKind => "hidden-spot"
  }

  const KIND_NAMES: seq<string> := ["famousSpot", "history", "food", "handicraft", "hidden-spot"]

  /** The kinds are exactly the enum's five strings, each named once; in particular no
      contribution has type "spot". */
  lemma KindNamesAreTheEnum()
    ensures forall k: Kind :: KindName(k) in KIND_NAMES
    ensures forall k1: Kind, k2: Kind :: KindName(k1) == KindName(k2) ==> k1 == k2
    ensures forall k: Kind :: KindName(k) != "spot"
  {
  }

  /** The `status` enum. */
  datatype Status = Pending | Approved | Rejected

  /** `suggestedChanges`, whose shape depends on the route that wrote it; `NoChanges` is
      the schema's `null` default. */
  datatype SuggestedChanges =
    | NoChanges
    | HandicraftChanges(priceRange: Option<string>, localMarkets: seq<HandicraftModel.Market>)
    | HistoryChanges(era: string, builtBy: string, yearBuilt: string)
    | FoodChanges(places: seq<FamousFoodModel.FoodPlace>, category: string)
    | HiddenSpotChanges(openingHours: string, entryFee: string, bestTime: string, address: string)

  datatype Contribution = Contribution(
    placeId: Id,
    userId: Id,
    kind: Kind,
    content: string,
    images: seq<string>,
    videoLink: string,
    instagramLink: string,
    status: Status,
    suggestedChanges: SuggestedChanges)

  /** `Contribution.create({...})` as the routes call it: the status takes its default. Every
      field the schema constrains is either given or defaulted, so creation never fails
      validation. */
  function New(placeId: Id, userId: Id, kind: Kind, content: string, images: seq<string>,
               videoLink: string, instagramLink: string, changes: SuggestedChanges): (c: Contribution)
    ensures c.status == Pending
    ensures c.placeId == placeId && c.userId == userId && c.kind == kind && c.suggestedChanges == changes
  {
    Contribution(placeId, userId, kind, content, images, videoLink, instagramLink, Pending, changes)
  }

  /** The owner path `userId` that `countDocuments({ userId })` reads. */
  function UserIdOf(c: Contribution): Option<Id> { Some(c.userId) }
}
