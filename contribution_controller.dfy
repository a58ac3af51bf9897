/**
  The caller's own items: `getContributions` lists the caller's Contributions and the
  places they created, newest first; `deleteContribution` removes one of them after an
  ownership check, recounts the owner's items over six collections and sets the role
  back to `"user"` when none are left.
 */
module ContributionController {
  import opened Wrappers
  import opened Docs
  import opened Http
  import opened Db
  import opened Sorting
  import FS = FamousSpotModel
  import HS = HiddenSpotModel
  import FF = FamousFoodModel
  import HC = HandicraftModel
  import HI = HistoryModel
  import CM = ContributionModel

  // ===========================================================================
  // deleteContribution
  // ===========================================================================

  /** `:id`, `?model=` and `?isContribution=` (absent is `""`). */
  datatype DeleteRequest = DeleteRequest(id: Id, model: string, isContribution: string)

  /** The catch-all answer. */
  const SERVER_ERROR: string := "Server Error"

  /** `{ id, totalItems, roleUpdated }`. */
  datatype DeleteBody = DeleteBody(id: Id, totalItems: nat, roleUpdated: bool)

  /** The own keys of the delete handler's `modelMap`, one per place model. */
  const MODEL_NAMES: seq<string> := ["FamousSpot", "HiddenSpot", "FamousFood", "Handicraft", "History"]

  /** The keys a plain object inherits from `Object.prototype` (`__proto__` reads the
      prototype itself). */
  const OBJECT_PROTOTYPE_KEYS: seq<string> := [
    "constructor", "__proto__", "hasOwnProperty", "isPrototypeOf", "propertyIsEnumerable",
    "toLocaleString", "toString", "valueOf",
    "__defineGetter__", "__defineSetter__", "__lookupGetter__", "__lookupSetter__"]

  /** What `modelMap[model]` yields: a place model, nothing (the 400 branch), or an
      inherited value, which is truthy but has no `findById`. */
  datatype ModelEntry = PlaceModel(collection: PlaceCollection) | NoEntry | Inherited

  /** The key under which `modelMap` holds a place model. */
  function ModelName(k: PlaceCollection): string {
    match k
    case FamousSpots => "FamousSpot"
    case HiddenSpots => "HiddenSpot"
    case Foods => "FamousFood"
    case Handicrafts => "Handicraft"
    case Histories => "History"
  }

  /** `modelMap[model]`. */
  function ParseModel(model: string): (r: ModelEntry)
    ensures r.PlaceModel? <==> model in MODEL_NAMES
    ensures r.PlaceModel? ==> ModelName(r.collection) == model
    ensures r.Inherited? <==> model in OBJECT_PROTOTYPE_KEYS
  {
    if model == "FamousSpot" then PlaceModel(FamousSpots)
    else if model == "HiddenSpot" then PlaceModel(HiddenSpots)
    else if model == "FamousFood" then PlaceModel(Foods)
    else if model == "Handicraft" then PlaceModel(Handicrafts)
    else if model == "History" then PlaceModel(Histories)
    else if model in OBJECT_PROTOTYPE_KEYS then Inherited
    else NoEntry
  }

  /** Every place model is found under its own name. */
  lemma ParseModelName(k: PlaceCollection)
    ensures ParseModel(ModelName(k)) == PlaceModel(k)
  {
  }

  /** The recount after the delete, and the downgrade when it is 0. */
  function Recount(st: State, owner: Id, id: Id): (o: Outcome<DeleteBody>)
    requires WellFormedState(st)
    ensures WellFormedState(o.st)
  {
    var total := TotalItems(st, owner);
    Outcome(if total == 0 then SetRole(st, owner, ROLE_USER) else st, Ok(200, DeleteBody(id, total, total == 0)))
  }

  /** Case 1, `isContribution === "true"`: the Contribution must exist and be the caller's. */
  function DeleteOwnContribution(st: State, caller: Caller, id: Id): (o: Outcome<DeleteBody>)
    requires WellFormedState(st)
    ensures WellFormedState(o.st)
  {
    match FindById(st.contributions, id)
    case None => Outcome(st, Err(404, "Contribution not found"))
    case Some(c) =>
      if c.body.userId != caller.id then Outcome(st, Err(401, "Not authorized to delete this contribution"))
      else Recount(RemoveContribution(st, id), c.body.userId, id)
  }

  /** Case 2: the model must be known, the item must exist, record a creator and be the
      caller's. An inherited key passes the `!Model` test, and calling its missing
      `findById` throws a TypeError, which the catch answers with 500. */
  function DeleteCreatedItem(st: State, caller: Caller, model: string, id: Id): (o: Outcome<DeleteBody>)
    requires WellFormedState(st)
    ensures WellFormedState(o.st)
  {
    match ParseModel(model)
    case NoEntry => Outcome(st, Err(400, "Invalid model"))
    case Inherited => Outcome(st, Err(500, SERVER_ERROR))
    case PlaceModel(k) =>
      match PlaceOwner(st, k, id)
      case None => Outcome(st, Err(404, "Item not found"))
      case Some(owner) =>
        if owner.None? then Outcome(st, Err(400, "Item is not a created item"))
        else if owner.value != caller.id then Outcome(st, Err(401, "Not authorized to delete this item"))
        else Recount(RemovePlace(st, k, id), owner.value, id)
  }

  /** The handler's effect. */
  function Delete(st: State, caller: Caller, req: DeleteRequest): (o: Outcome<DeleteBody>)
    requires WellFormedState(st)
    ensures WellFormedState(o.st)
  {
    if req.isContribution == "true" then DeleteOwnContribution(st, caller, req.id)
    else DeleteCreatedItem(st, caller, req.model, req.id)
  }

  /** The handler. */
  method DeleteContribution(db: Store, caller: Caller, req: DeleteRequest) returns (resp: Response<DeleteBody>)
    requires db.Valid()
    modifies db
    ensures db.Valid()
    ensures Outcome(db.Snapshot(), resp) == Delete(old(db.Snapshot()), caller, req)
  {
    var ownerId: Id;
    if req.isContribution == "true" {
      var contribution := FindById(db.contributions, req.id);
      if contribution.None? {
        return Err(404, "Contribution not found");
      }
      if contribution.value.body.userId != caller.id {
        return Err(401, "Not authorized to delete this contribution");
      }
      ownerId := contribution.value.body.userId;
      db.DeleteContribution(req.id);
    } else {
      var model := ParseModel(req.model);
      if model.NoEntry? {
        return Err(400, "Invalid model");
      }
      if model.Inherited? {
        return Err(500, SERVER_ERROR);
      }
      var item := PlaceOwner(db.Snapshot(), model.collection, req.id);
      if item.None? {
        return Err(404, "Item not found");
      }
      if item.value.None? {
        return Err(400, "Item is not a created item");
      }
      if item.value.value != caller.id {
        return Err(401, "Not authorized to delete this item");
      }
      ownerId := item.value.value;
      db.DeletePlace(model.collection, req.id);
    }

    var totalItems := TotalItems(db.Snapshot(), ownerId);
    if totalItems == 0 {
      db.SetUserRole(ownerId, ROLE_USER);
    }
    resp := Ok(200, DeleteBody(req.id, totalItems, totalItems == 0));
  }

  // ---------------------------------------------------------------------------
  // Properties of the delete
  // ---------------------------------------------------------------------------

  /** The caller owns the document the request names: a Contribution with that `_id` and
      the caller as `userId`, or a document of the named place model with that `_id` and
      the caller as `user`. */
  predicate OwnsTarget(st: State, caller: Caller, req: DeleteRequest) {
    if req.isContribution == "true" then
      exists c :: c in st.contributions && c.id == req.id && c.body.userId == caller.id
    else
      ParseModel(req.model).PlaceModel? && PlaceOwner(st, ParseModel(req.model).collection, req.id) == Some(Some(caller.id))
  }

  /** The delete succeeds exactly when the caller owns the target; every refusal (400, 401,
      404, and 500 for an inherited `modelMap` key) leaves the store as it was. */
  lemma DeleteOkIffOwner(st: State, caller: Caller, req: DeleteRequest)
    requires WellFormedState(st)
    ensures var o := Delete(st, caller, req);
      && (o.resp.Ok? <==> OwnsTarget(st, caller, req))
      && (o.resp.Err? ==> o.st == st && o.resp.status in {400, 401, 404, 500})
      && (o.resp.Err? && o.resp.status == 500 <==>
            req.isContribution != "true" && req.model in OBJECT_PROTOTYPE_KEYS)
  {
    if req.isContribution == "true" {
      OwnContributionOkIffOwner(st, caller, req.id);
    } else {
      CreatedItemOkIffOwner(st, caller, req.model, req.id);
    }
  }

  lemma OwnContributionOkIffOwner(st: State, caller: Caller, id: Id)
    requires WellFormedState(st)
    ensures var o := DeleteOwnContribution(st, caller, id);
      && (o.resp.Ok? <==> exists c :: c in st.contributions && c.id == id && c.body.userId == caller.id)
      && (o.resp.Err? ==> o.st == st && o.resp.status in {401, 404})
  {
    if c' :| c' in st.contributions && c'.id == id && c'.body.userId == caller.id {
      var i :| 0 <= i < |st.contributions| && st.contributions[i] == c';
      FindByIdUnique(st.contributions, i);
    }
  }

  /** Case 2's answers: 400 for a name `modelMap` does not hold, 500 for an inherited key,
      success exactly for the creator of an existing document of a place model, and no
      write on any refusal. */
  lemma CreatedItemOkIffOwner(st: State, caller: Caller, model: string, id: Id)
    requires WellFormedState(st)
    ensures var o := DeleteCreatedItem(st, caller, model, id);
      && (o.resp.Ok? <==> model in MODEL_NAMES && PlaceOwner(st, ParseModel(model).collection, id) == Some(Some(caller.id)))
      && (o.resp.Err? ==> o.st == st && o.resp.status in {400, 401, 404, 500})
      && (model !in MODEL_NAMES && model !in OBJECT_PROTOTYPE_KEYS ==> o.resp == Err(400, "Invalid model"))
      && (model in OBJECT_PROTOTYPE_KEYS ==> o.resp == Err(500, SERVER_ERROR))
      && (o.resp.Err? && o.resp.status == 500 ==> model in OBJECT_PROTOTYPE_KEYS)
  {
    match ParseModel(model)
    case NoEntry =>
    case Inherited =>
    case PlaceModel(k) =>
      match PlaceOwner(st, k, id)
      case None =>
      case Some(owner) =>
        if owner.Some? && owner.value == caller.id {
          var st1 := RemovePlace(st, k, id);
          RecountFacts(st1, owner.value, id);
          SameUsersSameRoles(st, st1);
          assert DeleteCreatedItem(st, caller, model, id) == Recount(st1, caller.id, id);
        }
  }

  /** A famous spot is never deletable here: it has no `user` field, so the request is
      refused with 400 (or 404 when there is no such spot) and nothing changes. */
  lemma FamousSpotNeverDeleted(st: State, caller: Caller, req: DeleteRequest)
    requires WellFormedState(st) && req.isContribution != "true" && req.model == "FamousSpot"
    ensures var o := Delete(st, caller, req);
      o.st == st && o.resp.Err? && o.resp.status in {400, 404}
  {
  }

  /** A successful delete of a Contribution removes exactly that one document and keeps
      the others in order; no place collection changes. */
  lemma ContributionDeleteRemovesOne(st: State, caller: Caller, req: DeleteRequest)
    requires WellFormedState(st) && req.isContribution == "true"
    requires Delete(st, caller, req).resp.Ok?
    ensures var o := Delete(st, caller, req);
      && (exists i :: 0 <= i < |st.contributions| && st.contributions[i].id == req.id
            && multiset(o.st.contributions) == multiset(st.contributions) - multiset{st.contributions[i]})
      && |o.st.contributions| == |st.contributions| - 1
      && CutOut(st.contributions, o.st.contributions, req.id)
      && o.st.famousSpots == st.famousSpots && o.st.hiddenSpots == st.hiddenSpots && o.st.foods == st.foods
      && o.st.handicrafts == st.handicrafts && o.st.histories == st.histories
  {
    var c := FindById(st.contributions, req.id).value;
    var st1 := RemoveContribution(st, req.id);
    var o := Recount(st1, c.body.userId, req.id);
    assert Delete(st, caller, req) == o;
    assert o.st == st1 || o.st == SetRole(st1, c.body.userId, ROLE_USER);
    assert o.st.contributions == RemoveById(st.contributions, req.id) && o.st.famousSpots == st.famousSpots
      && o.st.hiddenSpots == st.hiddenSpots && o.st.foods == st.foods
      && o.st.handicrafts == st.handicrafts && o.st.histories == st.histories;
    var i :| 0 <= i < |st.contributions| && st.contributions[i] == c;
    RemoveByIdRemovesOne(st.contributions, i);
    RemovesOne(st.contributions, req.id);
  }

  /** `after` is `before` with the one document whose `_id` is `id` cut out, the others
      kept in order. */
  ghost predicate CutOut<T>(before: seq<Doc<T>>, after: seq<Doc<T>>, id: Id) {
    exists i :: 0 <= i < |before| && before[i].id == id && after == before[..i] + before[i + 1..]
  }

  /** A delete of a created place the caller owns (the requests that succeed, by
      `DeleteOkIffOwner`) removes from its collection exactly the document with the requested `_id`, and nothing else; the other collections, the
      famous spots and the Contributions that point at it stay. */
  lemma PlaceDeleteRemovesOne(st: State, caller: Caller, req: DeleteRequest)
    requires WellFormedState(st) && req.isContribution != "true"
    requires OwnsTarget(st, caller, req)
    ensures var o := Delete(st, caller, req);
      && o.st.contributions == st.contributions && o.st.famousSpots == st.famousSpots
      && match ParseModel(req.model).collection
         case FamousSpots => false
         case HiddenSpots => CutOut(st.hiddenSpots, o.st.hiddenSpots, req.id) && o.st.foods == st.foods
                             && o.st.handicrafts == st.handicrafts && o.st.histories == st.histories
         case Foods => CutOut(st.foods, o.st.foods, req.id) && o.st.hiddenSpots == st.hiddenSpots
                       && o.st.handicrafts == st.handicrafts && o.st.histories == st.histories
         case Handicrafts => CutOut(st.handicrafts, o.st.handicrafts, req.id) && o.st.hiddenSpots == st.hiddenSpots
                             && o.st.foods == st.foods && o.st.histories == st.histories
         case Histories => CutOut(st.histories, o.st.histories, req.id) && o.st.hiddenSpots == st.hiddenSpots
                           && o.st.foods == st.foods && o.st.handicrafts == st.handicrafts
  {
    var k := ParseModel(req.model).collection;
    var owner := PlaceOwner(st, k, req.id).value.value;
    var st1 := RemovePlace(st, k, req.id);
    var o := Recount(st1, owner, req.id);
    assert Delete(st, caller, req) == o;
    assert o.st == st1.(users := o.st.users);
    match k
    case FamousSpots =>
    case HiddenSpots =>
      assert st1 == st.(hiddenSpots := RemoveById(st.hiddenSpots, req.id));
      RemovesOne(st.hiddenSpots, req.id);
    case Foods =>
      assert st1 == st.(foods := RemoveById(st.foods, req.id));
      RemovesOne(st.foods, req.id);
    case Handicrafts =>
      assert st1 == st.(handicrafts := RemoveById(st.handicrafts, req.id));
      RemovesOne(st.handicrafts, req.id);
    case Histories =>
      assert st1 == st.(histories := RemoveById(st.histories, req.id));
      RemovesOne(st.histories, req.id);
  }

  lemma RemovesOne<T(!new)>(s: seq<Doc<T>>, id: Id)
    requires UniqueIds(s) && FindById(s, id).Some?
    ensures CutOut(s, RemoveById(s, id), id)
  {
    var i :| 0 <= i < |s| && s[i] == FindById(s, id).value;
    RemoveByIdSplit(s, i);
  }

  /** What a successful delete promises about roles: `totalItems` is the owner's
      six-collection total in the new store, `roleUpdated` is `totalItems == 0`, the stored
      role is `"user"` when it is 0 (whatever it was) and unchanged otherwise, and no other
      user's role changes. */
  ghost predicate RoleRule(st: State, o: Outcome<DeleteBody>, u: Id, id: Id) {
    o.resp.Ok? ==>
      && o.resp.body.id == id
      && o.resp.body.totalItems == TotalItems(o.st, u)
      && o.resp.body.roleUpdated == (o.resp.body.totalItems == 0)
      && (o.resp.body.roleUpdated && FindUser(st, u).Some? ==> RoleOf(o.st, u) == Some(ROLE_USER))
      && (!o.resp.body.roleUpdated ==> RoleOf(o.st, u) == RoleOf(st, u))
      && (forall v :: v != u ==> RoleOf(o.st, v) == RoleOf(st, v))
  }

  /** The downgrade rule holds after every successful delete. */
  lemma DowngradeIffNoItems(st: State, caller: Caller, req: DeleteRequest)
    requires WellFormedState(st)
    ensures RoleRule(st, Delete(st, caller, req), caller.id, req.id)
  {
    if req.isContribution == "true" {
      OwnContributionRoleRule(st, caller, req.id);
    } else {
      CreatedItemRoleRule(st, caller, req.model, req.id);
    }
  }

  lemma OwnContributionRoleRule(st: State, caller: Caller, id: Id)
    requires WellFormedState(st)
    ensures RoleRule(st, DeleteOwnContribution(st, caller, id), caller.id, id)
  {
    match FindById(st.contributions, id)
    case None =>
    case Some(c) =>
      if c.body.userId == caller.id {
        var st1 := RemoveContribution(st, id);
        RecountFacts(st1, c.body.userId, id);
        SameUsersSameRoles(st, st1);
        assert DeleteOwnContribution(st, caller, id) == Recount(st1, caller.id, id);
      }
  }

  lemma CreatedItemRoleRule(st: State, caller: Caller, model: string, id: Id)
    requires WellFormedState(st)
    ensures RoleRule(st, DeleteCreatedItem(st, caller, model, id), caller.id, id)
  {
    match ParseModel(model)
    case NoEntry =>
    case Inherited =>
    case PlaceModel(k) =>
      match PlaceOwner(st, k, id)
      case None =>
      case Some(owner) =>
        if owner.Some? && owner.value == caller.id {
          RecountFacts(RemovePlace(st, k, id), owner.value, id);
        }
  }

  lemma RecountFacts(st: State, owner: Id, id: Id)
    requires WellFormedState(st)
    ensures var o := Recount(st, owner, id);
      && o.resp.Ok? && o.resp.body.id == id
      && o.resp.body.totalItems == TotalItems(o.st, owner)
      && o.resp.body.roleUpdated == (o.resp.body.totalItems == 0)
      && (o.resp.body.roleUpdated && FindUser(st, owner).Some? ==> RoleOf(o.st, owner) == Some(ROLE_USER))
      && (!o.resp.body.roleUpdated ==> o.st == st)
      && (forall v :: v != owner ==> RoleOf(o.st, v) == RoleOf(st, v))
  {
    SetRoleEffect(st, owner, ROLE_USER, owner);
    forall v | v != owner ensures RoleOf(Recount(st, owner, id).st, v) == RoleOf(st, v) {
      SetRoleEffect(st, owner, ROLE_USER, v);
    }
  }

  // ===========================================================================
  // getContributions
  // ===========================================================================

  /** One entry of the listing; `None` is an absent (`undefined`) field. Created items
      have no `isNewPlace`. */
  datatype ListItem = ListItem(id: Id, placeType: string, model: string, title: Option<string>,
                               city: Option<string>, image: Option<string>, createdAt: int,
                               isNewPlace: Option<bool>, isContribution: bool)

  /** What a listed contribution shows of the place it points at. */
  datatype PlaceInfo = PlaceInfo(title: string, city: Option<string>, images: seq<string>)

  /** `images?.[0]`. */
  function FirstImage(images: seq<string>): Option<string> {
    if |images| > 0 then Some(images[0]) else None
  }

  /** The model, label and title field for each contribution type. */
  function KindModel(k: CM.Kind): string {
    match k
    case FamousSpotKind => "FamousSpot"
    case HiddenSpotKind => "HiddenSpot"
    case FoodKind => "FamousFood"
    case HandicraftKind => "Handicraft"
    case HistoryKind => "History"
  }

  function KindLabel(k: CM.Kind): string {
    match k
    case FamousSpotKind => "Famous Spot"
    case HiddenSpotKind => "Hidden Spot"
    case FoodKind => "Food"
    case HandicraftKind => "Handicraft"
    case HistoryKind => "History"
  }

  /** `modelMap[c.type].findById(c.placeId)`, reduced to the title (`spotName`,
      `spotName`, `foodName`, `name` or `placeName`), the city and the images. */
  function PlaceOf(st: State, k: CM.Kind, id: Id): Option<PlaceInfo> {
    match k
    case FamousSpotKind =>
      (match FindById(st.famousSpots, id) case None => None case Some(d) => Some(PlaceInfo(d.body.spotName, None, d.body.images)))
    case HiddenSpotKind =>
      (match FindById(st.hiddenSpots, id) case None => None case Some(d) => Some(PlaceInfo(d.body.spotName, Some(d.body.city), d.body.images)))
    case FoodKind =>
      (match FindById(st.foods, id) case None => None case Some(d) => Some(PlaceInfo(d.body.foodName, Some(d.body.city), d.body.images)))
    case HandicraftKind =>
      (match FindById(st.handicrafts, id) case None => None case Some(d) => Some(PlaceInfo(d.body.name, Some(d.body.city), d.body.images)))
    case HistoryKind =>
      (match FindById(st.histories, id) case None => None case Some(d) => Some(PlaceInfo(d.body.placeName, Some(d.body.city), d.body.images)))
  }

  /** One formatted contribution. `isNewPlace` first compares the type with `"spot"`,
      which no contribution type equals (`ContributionModel.KindNamesAreTheEnum`), so it
      is always false. */
  function FormatContribution(st: State, c: Doc<CM.Contribution>): ListItem {
    var k := c.body.kind;
    var p := PlaceOf(st, k, c.body.placeId);
    ListItem(c.id, KindLabel(k), KindModel(k),
             if p.Some? then Some(p.value.title) else None,
             if p.Some? then p.value.city else None,
             if p.Some? then FirstImage(p.value.images) else None,
             c.createdAt, Some(false),
             true)
  }

  function CreatedFamousSpot(d: Doc<FS.FamousSpot>): ListItem {
    ListItem(d.id, "Famous Spot", "FamousSpot", Some(d.body.spotName), None, FirstImage(d.body.images), d.createdAt, None, false)
  }

  function CreatedHiddenSpot(d: Doc<HS.HiddenSpot>): ListItem {
    ListItem(d.id, "Hidden Spot", "HiddenSpot", Some(d.body.spotName), Some(d.body.city), FirstImage(d.body.images), d.createdAt, None, false)
  }

  function CreatedFood(d: Doc<FF.FamousFood>): ListItem {
    ListItem(d.id, "Food", "FamousFood", Some(d.body.foodName), Some(d.body.city), FirstImage(d.body.images), d.createdAt, None, false)
  }

  function CreatedHandicraft(d: Doc<HC.Handicraft>): ListItem {
    ListItem(d.id, "Handicraft", "Handicraft", Some(d.body.name), Some(d.body.city), FirstImage(d.body.images), d.createdAt, None, false)
  }

  function CreatedHistory(d: Doc<HI.History>): ListItem {
    ListItem(d.id, "History", "History", Some(d.body.placeName), Some(d.body.city), FirstImage(d.body.images), d.createdAt, None, false)
  }

  /** Sort keys for "newest first". */
  function ContributionNewestFirst(d: Doc<CM.Contribution>): int { -d.createdAt }
  function NewestFirst(x: ListItem): int { -x.createdAt }

  /** `Contribution.find({ userId }).sort({ createdAt: -1 })`. */
  function CallerContributions(st: State, u: Id): seq<Doc<CM.Contribution>> {
    SortBy(Owned(st.contributions, CM.UserIdOf, u), ContributionNewestFirst)
  }

  function Formatted(st: State, u: Id): seq<ListItem> {
    MapSeq(CallerContributions(st, u), c => FormatContribution(st, c))
  }

  /** The five `find({ user })` results, formatted, in collection order. */
  function CreatedItems(st: State, u: Id): seq<ListItem> {
    MapSeq(Owned(st.famousSpots, FS.UserOf, u), CreatedFamousSpot)
    + MapSeq(Owned(st.hiddenSpots, HS.UserOf, u), CreatedHiddenSpot)
    + MapSeq(Owned(st.foods, FF.UserOf, u), CreatedFood)
    + MapSeq(Owned(st.handicrafts, HC.UserOf, u), CreatedHandicraft)
    + MapSeq(Owned(st.histories, HI.UserOf, u), CreatedHistory)
  }

  /** The response's `data`. */
  function Listing(st: State, u: Id): seq<ListItem> {
    SortBy(Formatted(st, u) + CreatedItems(st, u), NewestFirst)
  }

  /** `docs.forEach(d => items.push(format(d)))`. */
  method PushAll<T>(items: seq<ListItem>, docs: seq<T>, format: T -> ListItem) returns (r: seq<ListItem>)
    ensures r == items + MapSeq(docs, format)
  {
    r := items;
    for i := 0 to |docs|
      invariant |r| == |items| + i
      invariant r[..|items|] == items
      invariant forall j :: 0 <= j < i ==> r[|items| + j] == format(docs[j])
    {
      r := r + [format(docs[i])];
    }
  }

  /** The handler: a map over the contributions, five push loops, then the sort. */
  method GetContributions(db: Store, caller: Caller) returns (allItems: seq<ListItem>)
    ensures allItems == Listing(db.Snapshot(), caller.id)
  {
    var st := db.Snapshot();
    var userId := caller.id;
    var contributions := CallerContributions(st, userId);
    var formatted: seq<ListItem> := [];
    for i := 0 to |contributions|
      invariant |formatted| == i
      invariant forall j :: 0 <= j < i ==> formatted[j] == FormatContribution(st, contributions[j])
    {
      formatted := formatted + [FormatContribution(st, contributions[i])];
    }
    assert formatted == Formatted(st, userId);

    var createdItems: seq<ListItem> := [];
    createdItems := PushAll(createdItems, Owned(st.famousSpots, FS.UserOf, userId), CreatedFamousSpot);
    assert createdItems == MapSeq(Owned(st.famousSpots, FS.UserOf, userId), CreatedFamousSpot);
    createdItems := PushAll(createdItems, Owned(st.hiddenSpots, HS.UserOf, userId), CreatedHiddenSpot);
    createdItems := PushAll(createdItems, Owned(st.foods, FF.UserOf, userId), CreatedFood);
    createdItems := PushAll(createdItems, Owned(st.handicrafts, HC.UserOf, userId), CreatedHandicraft);
    createdItems := PushAll(createdItems, Owned(st.histories, HI.UserOf, userId), CreatedHistory);
    assert createdItems == CreatedItems(st, userId);

    allItems := SortBy(formatted + createdItems, NewestFirst);
  }

  // ---------------------------------------------------------------------------
  // Properties of the listing
  // ---------------------------------------------------------------------------

  lemma MapSeqMembership<A, B>(s: seq<A>, f: A -> B, y: B)
    ensures y in MapSeq(s, f) <==> exists x :: x in s && y == f(x)
  {
    if exists x :: x in s && y == f(x) {
      var x :| x in s && y == f(x);
      var i :| 0 <= i < |s| && s[i] == x;
      assert MapSeq(s, f)[i] == y;
    }
  }

  /** The listing is ordered newest first and has one entry per item the caller owns
      across the six collections. */
  lemma ListingSortedAndCounted(st: State, u: Id)
    ensures SortedBy(Listing(st, u), NewestFirst)
    ensures |Listing(st, u)| == TotalItems(st, u)
  {
    SortBySorted(Formatted(st, u) + CreatedItems(st, u), NewestFirst);
  }

  /** Every one of the caller's Contributions is listed, flagged as a contribution and
      not as a new place; every place the caller created (of the four kinds that record a
      creator) is listed, flagged as created. */
  lemma ListingContainsEverything(st: State, u: Id)
    ensures forall c :: c in st.contributions && c.body.userId == u ==>
      var x := FormatContribution(st, c);
      x in Listing(st, u) && x.isContribution && x.isNewPlace == Some(false)
    ensures forall d :: d in st.hiddenSpots && d.body.user == Some(u) ==> CreatedHiddenSpot(d) in Listing(st, u)
    ensures forall d :: d in st.foods && d.body.user == Some(u) ==> CreatedFood(d) in Listing(st, u)
    ensures forall d :: d in st.handicrafts && d.body.user == Some(u) ==> CreatedHandicraft(d) in Listing(st, u)
    ensures forall d :: d in st.histories && d.body.user == Some(u) ==> CreatedHistory(d) in Listing(st, u)
  {
    var all := Formatted(st, u) + CreatedItems(st, u);
    CM.KindNamesAreTheEnum();
    forall c | c in st.contributions && c.body.userId == u
      ensures FormatContribution(st, c) in Listing(st, u)
    {
      SortByMembership(Owned(st.contributions, CM.UserIdOf, u), ContributionNewestFirst, c);
      MapSeqMembership(CallerContributions(st, u), c' => FormatContribution(st, c'), FormatContribution(st, c));
      SortByMembership(all, NewestFirst, FormatContribution(st, c));
    }
    forall d | d in st.hiddenSpots && d.body.user == Some(u) ensures CreatedHiddenSpot(d) in Listing(st, u) {
      MapSeqMembership(Owned(st.hiddenSpots, HS.UserOf, u), CreatedHiddenSpot, CreatedHiddenSpot(d));
      SortByMembership(all, NewestFirst, CreatedHiddenSpot(d));
    }
    forall d | d in st.foods && d.body.user == Some(u) ensures CreatedFood(d) in Listing(st, u) {
      MapSeqMembership(Owned(st.foods, FF.UserOf, u), CreatedFood, CreatedFood(d));
      SortByMembership(all, NewestFirst, CreatedFood(d));
    }
    forall d | d in st.handicrafts && d.body.user == Some(u) ensures CreatedHandicraft(d) in Listing(st, u) {
      MapSeqMembership(Owned(st.handicrafts, HC.UserOf, u), CreatedHandicraft, CreatedHandicraft(d));
      SortByMembership(all, NewestFirst, CreatedHandicraft(d));
    }
    forall d | d in st.histories && d.body.user == Some(u) ensures CreatedHistory(d) in Listing(st, u) {
      MapSeqMembership(Owned(st.histories, HI.UserOf, u), CreatedHistory, CreatedHistory(d));
      SortByMembership(all, NewestFirst, CreatedHistory(d));
    }
  }

  /** The listing has no other entries: each is one of the caller's Contributions, or a
      place of one of the four creator-recording kinds that the caller created. No famous
      spot is ever listed as created, since famous spots record no `user`. */
  lemma ListingHasNothingElse(st: State, u: Id, x: ListItem)
    requires x in Listing(st, u)
    ensures || (exists c :: c in st.contributions && c.body.userId == u && x == FormatContribution(st, c))
            || (exists d :: d in st.hiddenSpots && d.body.user == Some(u) && x == CreatedHiddenSpot(d))
            || (exists d :: d in st.foods && d.body.user == Some(u) && x == CreatedFood(d))
            || (exists d :: d in st.handicrafts && d.body.user == Some(u) && x == CreatedHandicraft(d))
            || (exists d :: d in st.histories && d.body.user == Some(u) && x == CreatedHistory(d))
  {
    var all := Formatted(st, u) + CreatedItems(st, u);
    SortByMembership(all, NewestFirst, x);
    MapSeqMembership(CallerContributions(st, u), c' => FormatContribution(st, c'), x);
    MapSeqMembership(Owned(st.famousSpots, FS.UserOf, u), CreatedFamousSpot, x);
    MapSeqMembership(Owned(st.hiddenSpots, HS.UserOf, u), CreatedHiddenSpot, x);
    MapSeqMembership(Owned(st.foods, FF.UserOf, u), CreatedFood, x);
    MapSeqMembership(Owned(st.handicrafts, HC.UserOf, u), CreatedHandicraft, x);
    MapSeqMembership(Owned(st.histories, HI.UserOf, u), CreatedHistory, x);
    if x in Formatted(st, u) {
      var c :| c in CallerContributions(st, u) && x == FormatContribution(st, c);
      SortByMembership(Owned(st.contributions, CM.UserIdOf, u), ContributionNewestFirst, c);
    }
  }
}
