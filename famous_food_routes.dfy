/**
  `POST /famous-food`: require at least one place, geocode every place, then contribute
  to an existing food with the same name (case-insensitively), city and state, or save a
  new one; finally run the promotion step with the six-collection total. A food has no
  geometry of its own: only its places do.
 */
module FamousFoodRoutes {
  import opened Wrappers
  import opened Docs
  import opened Http
  import opened Db
  import opened Submission
  import Text
  import Geocode
  import FF = FamousFoodModel
  import CM = ContributionModel

  /** One entry of the request's `places`. */
  datatype PlaceInput = PlaceInput(placeName: string, address: string, price: string, specialNote: string,
                                   latitude: Geocode.JsValue, longitude: Geocode.JsValue)

  /** The request body; an absent string is `""`, except `foodName`, which the lookup
      interpolates (`None` when absent), and absent `places` is `[]`. */
  datatype Request = Request(
    foodName: Option<string>, category: string, description: string, state: string, city: string,
    places: seq<PlaceInput>, images: seq<string>, videoLink: string, instagramLink: string)

  const NO_PLACES: string := "At least one place is required"

  /** The geocoder's arguments for one place: its own name, address and manual
      coordinates, and the food's city and state. */
  function PlaceArgs(p: PlaceInput, city: string, state: string): Geocode.Args {
    Geocode.Args(p.placeName, p.address, city, state, p.latitude, p.longitude)
  }

  function GeoPlace(geo: Geocode.Geocoder, p: PlaceInput, city: string, state: string): FF.FoodPlace {
    FF.FoodPlace(p.placeName, p.address, p.price, p.specialNote, Geocode.Resolve(geo, PlaceArgs(p, city, state)))
  }

  /** `placesWithGeo`: one sub-document per input place, in the same order, with its four
      text fields copied and the geocoder's answer as its coordinates. */
  function PlacesWithGeo(geo: Geocode.Geocoder, places: seq<PlaceInput>, city: string, state: string): (r: seq<FF.FoodPlace>)
    ensures |r| == |places|
    ensures forall i :: 0 <= i < |places| ==>
      && r[i].placeName == places[i].placeName && r[i].address == places[i].address
      && r[i].price == places[i].price && r[i].specialNote == places[i].specialNote
      && r[i].coordinates == Geocode.Resolve(geo, PlaceArgs(places[i], city, state))
  {
    seq(|places|, i requires 0 <= i < |places| => GeoPlace(geo, places[i], city, state))
  }

  /** The `places.map(...)` loop. */
  method GeocodePlaces(geo: Geocode.Geocoder, places: seq<PlaceInput>, city: string, state: string)
    returns (placesWithGeo: seq<FF.FoodPlace>)
    ensures placesWithGeo == PlacesWithGeo(geo, places, city, state)
  {
    placesWithGeo := [];
    for i := 0 to |places|
      invariant |placesWithGeo| == i
      invariant forall j :: 0 <= j < i ==> placesWithGeo[j] == GeoPlace(geo, places[j], city, state)
    {
      var place := places[i];
      var coordinates := Geocode.GetCoordinates(geo, Geocode.Args(place.placeName, place.address, city, state, place.latitude, place.longitude));
      placesWithGeo := placesWithGeo + [FF.FoodPlace(place.placeName, place.address, place.price, place.specialNote, coordinates)];
    }
  }

  predicate Names(req: Request, d: Doc<FF.FamousFood>) {
    Text.EqualsIgnoreCase(d.body.foodName, Interpolated(req.foodName)) && d.body.city == req.city && d.body.state == req.state
  }

  /** `FamousFood.findOne({ foodName: /^foodName$/i, city, state })`. */
  function Existing(st: State, req: Request): (r: Option<Doc<FF.FamousFood>>)
    ensures r.Some? ==> r.value in st.foods && Names(req, r.value)
    ensures r.None? <==> forall d :: d in st.foods ==> !Names(req, d)
  {
    FindFirst(st.foods, d => Names(req, d))
  }

  function ContributionFor(req: Request, existing: Doc<FF.FamousFood>, caller: Caller, places: seq<FF.FoodPlace>): CM.Contribution {
    CM.New(existing.id, caller.id, CM.FoodKind, req.description, req.images, req.videoLink,
           req.instagramLink, CM.FoodChanges(places, req.category))
  }

  function NewFood(req: Request, caller: Caller, places: seq<FF.FoodPlace>): FF.FamousFood {
    FF.New(OrEmpty(req.foodName), req.category, req.description, req.state, req.city, places, req.images,
           req.videoLink, req.instagramLink, caller.id)
  }

  /** The handler's effect. */
  function Submit(st: State, caller: Caller, req: Request, geo: Geocode.Geocoder, now: int): (o: Outcome<Body<FF.FamousFood>>)
    requires WellFormedState(st)
    ensures WellFormedState(o.st)
  {
    if |req.places| == 0 then Outcome(st, Err(400, NO_PLACES))
    else
      var places := PlacesWithGeo(geo, req.places, req.city, req.state);
      match Existing(st, req)
      case Some(existing) =>
        var c := ContributionFor(req, existing, caller, places);
        var st1 := AddContribution(st, c, now);
        Respond(Promote(st1, caller, TotalItems(st1, caller.id), false), existing, Some(Doc(st.nextId, now, c)), false)
      case None =>
        var f := NewFood(req, caller, places);
        if !FF.Valid(f) then Outcome(st, Err(500, VALIDATION_FAILED))
        else
          var st1 := AddFood(st, f, now);
          Respond(Promote(st1, caller, TotalItems(st1, caller.id), false), Doc(st.nextId, now, f), None, true)
  }

  /** The handler. */
  method CreateFamousFood(db: Store, caller: Caller, req: Request, geo: Geocode.Geocoder, now: int)
    returns (resp: Response<Body<FF.FamousFood>>)
    requires db.Valid()
    modifies db
    ensures db.Valid()
    ensures Outcome(db.Snapshot(), resp) == Submit(old(db.Snapshot()), caller, req, geo, now)
  {
    if |req.places| == 0 {
      return Err(400, NO_PLACES);
    }
    var placesWithGeo := GeocodePlaces(geo, req.places, req.city, req.state);

    var existingFood := Existing(db.Snapshot(), req);
    var place: Doc<FF.FamousFood>;
    var contribution: Option<Doc<CM.Contribution>> := None;
    var isNewPlace := false;
    if existingFood.Some? {
      place := existingFood.value;
      var c := db.InsertContribution(ContributionFor(req, place, caller, placesWithGeo), now);
      contribution := Some(c);
    } else {
      isNewPlace := true;
      var saved, d := db.SaveFood(NewFood(req, caller, placesWithGeo), now);
      if !saved {
        return Err(500, VALIDATION_FAILED);
      }
      place := d;
    }

    var newRole: Option<string> := None;
    var newAccessToken: Option<Token> := None;
    if caller.role == ROLE_USER {
      var totalItems := TotalItems(db.Snapshot(), caller.id);
      if totalItems == 1 && caller.role == ROLE_USER {
        db.SetUserRole(caller.id, ROLE_CONTRIBUTOR);
        var updatedUser := FindUser(db.Snapshot(), caller.id);
        newRole := Some(ROLE_CONTRIBUTOR);
        if updatedUser.None? {
          return Err(500, NULL_USER);
        }
        newAccessToken := Some(Token(updatedUser.value.id, ROLE_CONTRIBUTOR));
      }
    }
    resp := Ok(if isNewPlace then 201 else 200, Body(place, contribution, isNewPlace, newRole, newAccessToken));
  }

  // ---------------------------------------------------------------------------
  // Properties
  // ---------------------------------------------------------------------------

  /** The lookup interpolates the name into its pattern, so a request without a name looks
      for a stored place named "undefined", in any capitalisation, in the same city and
      state; a request with a name looks for that name. */
  lemma LookupName(st: State, req: Request)
    ensures req.foodName.None? ==>
      (Existing(st, req).None? <==>
         forall d :: d in st.foods ==>
           !(Text.EqualsIgnoreCase(d.body.foodName, "undefined") && d.body.city == req.city && d.body.state == req.state))
    ensures req.foodName.Some? ==>
      (Existing(st, req).None? <==>
         forall d :: d in st.foods ==>
           !(Text.EqualsIgnoreCase(d.body.foodName, req.foodName.value) && d.body.city == req.city && d.body.state == req.state))
  {
  }

  /** Missing or empty `places` is refused before any geocoding or write. */
  lemma NoPlacesRejected(st: State, caller: Caller, req: Request, geo: Geocode.Geocoder, other: Geocode.Geocoder, now: int)
    requires WellFormedState(st) && |req.places| == 0
    ensures Submit(st, caller, req, geo, now) == Outcome(st, Err(400, NO_PLACES))
    ensures Submit(st, caller, req, other, now) == Submit(st, caller, req, geo, now)
  {
  }

  /** With a matching food, exactly one Contribution is appended, pointing at it, owned by
      the caller, of type "food" and suggesting the geocoded places and the category; no
      place collection changes, and a success answers 200. */
  lemma ExistingGetsContribution(st: State, caller: Caller, req: Request, geo: Geocode.Geocoder, now: int)
    requires WellFormedState(st) && |req.places| > 0 && Existing(st, req).Some?
    ensures var o := Submit(st, caller, req, geo, now);
      var e := Existing(st, req).value;
      && |o.st.contributions| == |st.contributions| + 1
      && o.st.contributions[..|st.contributions|] == st.contributions
      && var c := o.st.contributions[|st.contributions|];
      && (forall d :: d in st.contributions ==> d.id < c.id)
      && c.body.placeId == e.id && c.body.userId == caller.id && c.body.kind == CM.FoodKind
      && c.body.content == req.description
      && c.body.suggestedChanges == CM.FoodChanges(PlacesWithGeo(geo, req.places, req.city, req.state), req.category)
      && o.st.foods == st.foods && o.st.famousSpots == st.famousSpots
      && o.st.hiddenSpots == st.hiddenSpots && o.st.handicrafts == st.handicrafts && o.st.histories == st.histories
      && (o.resp.Ok? ==>
            o.resp.status == 200 && o.resp.body.place == e && !o.resp.body.isNewPlace
            && o.resp.body.contribution == Some(c))
  {
    var e := Existing(st, req).value;
    var st1 := AddContribution(st, ContributionFor(req, e, caller, PlacesWithGeo(geo, req.places, req.city, req.state)), now);
    PromoteFacts(st1, caller, TotalItems(st1, caller.id), false);
  }

  /** Without a match, either the new food fails the schema (500, nothing written) or
      exactly one FamousFood is appended, owned by the caller and holding the geocoded
      places, with no Contribution; a success answers 201 with that record. */
  lemma NoMatchSavesOneFood(st: State, caller: Caller, req: Request, geo: Geocode.Geocoder, now: int)
    requires WellFormedState(st) && |req.places| > 0 && Existing(st, req).None?
    ensures var o := Submit(st, caller, req, geo, now);
      var f := NewFood(req, caller, PlacesWithGeo(geo, req.places, req.city, req.state));
      && (!FF.Valid(f) ==> o == Outcome(st, Err(500, VALIDATION_FAILED)))
      && (FF.Valid(f) ==>
            && o.st.foods == st.foods + [Doc(st.nextId, now, f)]
            && f.user == Some(caller.id) && f.places == PlacesWithGeo(geo, req.places, req.city, req.state)
            && o.st.contributions == st.contributions
            && (o.resp.Ok? ==>
                  o.resp.status == 201 && o.resp.body.isNewPlace && o.resp.body.contribution.None?
                  && o.resp.body.place == Doc(st.nextId, now, f)))
  {
    var f := NewFood(req, caller, PlacesWithGeo(geo, req.places, req.city, req.state));
    if FF.Valid(f) {
      var st1 := AddFood(st, f, now);
      PromoteFacts(st1, caller, TotalItems(st1, caller.id), false);
    }
  }

  /** Of a successful request: the status is 201 exactly for a new place; `newRole` is set
      exactly when the claim is `"user"` and the six-collection total after the write is
      1, and then the stored role is `"contributor"` and the token carries it; otherwise
      both fields are `null` and the stored role is unchanged. */
  lemma PromotionIffFirstItem(st: State, caller: Caller, req: Request, geo: Geocode.Geocoder, now: int)
    requires WellFormedState(st)
    requires Submit(st, caller, req, geo, now).resp.Ok?
    ensures var o := Submit(st, caller, req, geo, now);
      && (o.resp.status == 201 <==> o.resp.body.isNewPlace) && o.resp.status in {200, 201}
      && (o.resp.body.newRole.Some? <==> caller.role == ROLE_USER && TotalItems(o.st, caller.id) == 1)
      && (o.resp.body.newRole.Some? ==>
            o.resp.body.newRole == Some(ROLE_CONTRIBUTOR)
            && o.resp.body.accessToken == Some(Token(caller.id, ROLE_CONTRIBUTOR))
            && RoleOf(o.st, caller.id) == Some(ROLE_CONTRIBUTOR))
      && (o.resp.body.newRole.None? ==> o.resp.body.accessToken.None? && RoleOf(o.st, caller.id) == RoleOf(st, caller.id))
  {
    var places := PlacesWithGeo(geo, req.places, req.city, req.state);
    match Existing(st, req)
    case Some(e) =>
      var st1 := AddContribution(st, ContributionFor(req, e, caller, places), now);
      PromoteFacts(st1, caller, TotalItems(st1, caller.id), false);
    case None =>
      var st1 := AddFood(st, NewFood(req, caller, places), now);
      PromoteFacts(st1, caller, TotalItems(st1, caller.id), false);
  }
}
