/**
  `POST /handicrafts`: validate, pick a geocoding address, then contribute to an existing
  handicraft with the same name (case-insensitively), city and state, or save a new one;
  finally run the promotion step with the six-collection total.
 */
module HandicraftRoutes {
  import opened Wrappers
  import opened Docs
  import opened Http
  import opened Db
  import opened Submission
  import Text
  import Geocode
  import HC = HandicraftModel
  import CM = ContributionModel

  /** The request body; an absent string is `""`, except `category` and `priceRange`,
      where the schema defaults tell an absent value (`None`) from an empty one. */
  datatype Request = Request(
    name: string, category: Option<string>, description: string, state: string, city: string,
    priceRange: Option<string>, localMarkets: seq<HC.Market>, images: seq<string>,
    videoLink: string, instagramLink: string, latitude: Geocode.JsValue, longitude: Geocode.JsValue)

  const MISSING_FIELDS: string := "Required fields are missing"

  predicate MissingRequired(req: Request) {
    req.name == "" || req.description == "" || req.state == "" || req.city == ""
  }

  /** The address handed to the geocoder: the first local market's address when there is
      one and it is not empty, else `"city, state"`. */
  function GeoAddress(req: Request): (a: string)
    ensures |req.localMarkets| > 0 && req.localMarkets[0].address != "" ==> a == req.localMarkets[0].address
    ensures !(|req.localMarkets| > 0 && req.localMarkets[0].address != "") ==> a == req.city + ", " + req.state
  {
    if |req.localMarkets| > 0 && req.localMarkets[0].address != "" then req.localMarkets[0].address
    else Text.CommaJoin([req.city, req.state])
  }

  function GeoArgs(req: Request): Geocode.Args {
    Geocode.Args(req.name, GeoAddress(req), req.city, req.state, req.latitude, req.longitude)
  }

  /** A stored handicraft the request names. */
  predicate Names(req: Request, d: Doc<HC.Handicraft>) {
    Text.EqualsIgnoreCase(d.body.name, req.name) && d.body.city == req.city && d.body.state == req.state
  }

  /** `Handicraft.findOne({ name: /^name$/i, city, state })`. */
  function Existing(st: State, req: Request): (r: Option<Doc<HC.Handicraft>>)
    ensures r.Some? ==> r.value in st.handicrafts && Names(req, r.value)
    ensures r.None? <==> forall d :: d in st.handicrafts ==> !Names(req, d)
  {
    FindFirst(st.handicrafts, d => Names(req, d))
  }

  function ContributionFor(req: Request, existing: Doc<HC.Handicraft>, caller: Caller): CM.Contribution {
    CM.New(existing.id, caller.id, CM.HandicraftKind, req.description, req.images, req.videoLink,
           req.instagramLink, CM.HandicraftChanges(req.priceRange, req.localMarkets))
  }

  function NewHandicraft(req: Request, caller: Caller, coords: Coord): HC.Handicraft {
    HC.FromSubmission(req.name, req.category, req.description, req.state, req.city, req.priceRange,
                      req.localMarkets, req.images, req.videoLink, req.instagramLink, caller.id, coords)
  }

  /** The handler's effect. */
  function Submit(st: State, caller: Caller, req: Request, geo: Geocode.Geocoder, now: int): (o: Outcome<Body<HC.Handicraft>>)
    requires WellFormedState(st)
    ensures WellFormedState(o.st)
  {
    if MissingRequired(req) then Outcome(st, Err(400, MISSING_FIELDS))
    else
      var coords := Geocode.Resolve(geo, GeoArgs(req));
      match Existing(st, req)
      case Some(existing) =>
        var c := ContributionFor(req, existing, caller);
        var st1 := AddContribution(st, c, now);
        Respond(Promote(st1, caller, TotalItems(st1, caller.id), false), existing, Some(Doc(st.nextId, now, c)), false)
      case None =>
        // `save` rejects the handicraft built here whatever the request says
        // (`HC.SubmissionNeverValid`), so no new place is ever written.
        Outcome(st, Err(500, VALIDATION_FAILED))
  }

  /** The handler. */
  method CreateHandicraft(db: Store, caller: Caller, req: Request, geo: Geocode.Geocoder, now: int)
    returns (resp: Response<Body<HC.Handicraft>>)
    requires db.Valid()
    modifies db
    ensures db.Valid()
    ensures Outcome(db.Snapshot(), resp) == Submit(old(db.Snapshot()), caller, req, geo, now)
  {
    if req.name == "" || req.description == "" || req.state == "" || req.city == "" {
      return Err(400, MISSING_FIELDS);
    }
    var addressForGeo := "";
    if |req.localMarkets| > 0 && req.localMarkets[0].address != "" {
      addressForGeo := req.localMarkets[0].address;
    }
    if addressForGeo == "" {
      addressForGeo := req.city + ", " + req.state;
    }
    var finalCoordinates := Geocode.GetCoordinates(geo, Geocode.Args(req.name, addressForGeo, req.city, req.state, req.latitude, req.longitude));

    var existingHandicraft := Existing(db.Snapshot(), req);
    var place: Doc<HC.Handicraft>;
    var contribution: Option<Doc<CM.Contribution>> := None;
    var isNewPlace := false;
    if existingHandicraft.Some? {
      place := existingHandicraft.value;
      var c := db.InsertContribution(ContributionFor(req, place, caller), now);
      contribution := Some(c);
    } else {
      isNewPlace := true;
      var newHandicraft := NewHandicraft(req, caller, finalCoordinates);
      HC.SubmissionNeverValid(req.name, req.category, req.description, req.state, req.city, req.priceRange,
                              req.localMarkets, req.images, req.videoLink, req.instagramLink, caller.id, finalCoordinates);
      var saved, d := db.SaveHandicraft(newHandicraft, now);
      if !saved {
        return Err(500, VALIDATION_FAILED);
      }
      place := d;
    }

    var newRole: Option<string> := None;
    var newAccessToken: Option<Token> := None;
    if caller.role == ROLE_USER {
      var totalItems := TotalItems(db.Snapshot(), caller.id);
      if totalItems == 1 {
        db.SetUserRole(caller.id, ROLE_CONTRIBUTOR);
        var updatedUser := FindUser(db.Snapshot(), caller.id);
        if updatedUser.None? {
          return Err(500, NULL_USER);
        }
        newAccessToken := Some(Token(updatedUser.value.id, ROLE_CONTRIBUTOR));
        newRole := Some(ROLE_CONTRIBUTOR);
      }
    }
    resp := Ok(if isNewPlace then 201 else 200, Body(place, contribution, isNewPlace, newRole, newAccessToken));
  }

  // ---------------------------------------------------------------------------
  // Properties
  // ---------------------------------------------------------------------------

  /** A request without a name, description, state or city is refused and writes nothing. */
  lemma MissingFieldsRejected(st: State, caller: Caller, req: Request, geo: Geocode.Geocoder, now: int)
    requires WellFormedState(st) && MissingRequired(req)
    ensures Submit(st, caller, req, geo, now) == Outcome(st, Err(400, MISSING_FIELDS))
  {
  }

  /** With a matching handicraft, exactly one Contribution is appended, pointing at it,
      owned by the caller, of type "handicraft" and suggesting the price range and markets;
      no place collection changes, and a success answers 200 with that contribution. */
  lemma ExistingGetsContribution(st: State, caller: Caller, req: Request, geo: Geocode.Geocoder, now: int)
    requires WellFormedState(st) && !MissingRequired(req) && Existing(st, req).Some?
    ensures var o := Submit(st, caller, req, geo, now);
      var e := Existing(st, req).value;
      && |o.st.contributions| == |st.contributions| + 1
      && o.st.contributions[..|st.contributions|] == st.contributions
      && var c := o.st.contributions[|st.contributions|];
      && (forall d :: d in st.contributions ==> d.id < c.id)
      && c.body.placeId == e.id && c.body.userId == caller.id && c.body.kind == CM.HandicraftKind
      && c.body.content == req.description && c.body.status == CM.Pending
      && c.body.suggestedChanges == CM.HandicraftChanges(req.priceRange, req.localMarkets)
      && o.st.handicrafts == st.handicrafts && o.st.famousSpots == st.famousSpots
      && o.st.hiddenSpots == st.hiddenSpots && o.st.foods == st.foods && o.st.histories == st.histories
      && (o.resp.Ok? ==>
            o.resp.status == 200 && o.resp.body.place == e && !o.resp.body.isNewPlace
            && o.resp.body.contribution == Some(c))
  {
    var e := Existing(st, req).value;
    var c := ContributionFor(req, e, caller);
    var st1 := AddContribution(st, c, now);
    PromoteFacts(st1, caller, TotalItems(st1, caller.id), false);
  }

  /** Of a successful request: the status is 201 exactly for a new place; `newRole` is set
      exactly when the claim is `"user"` and the caller's six-collection total after the
      write is 1, and then the stored role is `"contributor"` and the token carries it;
      otherwise both fields are `null` and the stored role is unchanged. */
  lemma PromotionIffFirstItem(st: State, caller: Caller, req: Request, geo: Geocode.Geocoder, now: int)
    requires WellFormedState(st)
    requires Submit(st, caller, req, geo, now).resp.Ok?
    ensures var o := Submit(st, caller, req, geo, now);
      && (o.resp.status == 201 <==> o.resp.body.isNewPlace) && o.resp.status in {200, 201}
      && (o.resp.body.newRole.Some? <==> caller.role == ROLE_USER && TotalItems(o.st, caller.id) == 1)
      && (o.resp.body.newRole.Some? ==>
            o.resp.body.newRole == Some(ROLE_CONTRIBUTOR)
            && o.resp.body.accessToken == Some(Token(caller.id, ROLE_CONTRIBUTOR))
            && RoleOf(o.st, caller.id) == Some(ROLE_CONTRIBUTOR))
      && (o.resp.body.newRole.None? ==> o.resp.body.accessToken.None? && RoleOf(o.st, caller.id) == RoleOf(st, caller.id))
  {
    var coords := Geocode.Resolve(geo, GeoArgs(req));
    match Existing(st, req)
    case Some(e) =>
      var st1 := AddContribution(st, ContributionFor(req, e, caller), now);
      PromoteFacts(st1, caller, TotalItems(st1, caller.id), false);
    case None =>
  }
}
