/**
  `POST /hidden-spots`: geocode, then contribute to an existing hidden spot with the same
  name (case-insensitively), city and state, or create a new one; finally run the
  promotion step. Unlike the other three submission routes, the promotion total here
  counts only the five place collections, and the token's role is read back from the
  updated user.
 */
module HiddenSpotRoutes {
  import opened Wrappers
  import opened Docs
  import opened Http
  import opened Db
  import opened Submission
  import Text
  import Geocode
  import HS = HiddenSpotModel
  import CM = ContributionModel

  /** The request body; an absent string is `""`, except `spotName`, which the lookup
      interpolates (`None` when absent). */
  datatype Request = Request(
    spotName: Option<string>, category: string, address: string, description: string, state: string,
    city: string, openingHours: string, entryFee: string, bestTime: string, images: seq<string>,
    videoLink: string, instagramLink: string, latitude: Geocode.JsValue, longitude: Geocode.JsValue)

  function GeoArgs(req: Request): Geocode.Args {
    Geocode.Args(OrEmpty(req.spotName), req.address, req.city, req.state, req.latitude, req.longitude)
  }

  predicate Names(req: Request, d: Doc<HS.HiddenSpot>) {
    Text.EqualsIgnoreCase(d.body.spotName, Interpolated(req.spotName)) && d.body.city == req.city && d.body.state == req.state
  }

  /** `HiddenSpot.findOne({ spotName: /^spotName$/i, city, state })`. */
  function Existing(st: State, req: Request): (r: Option<Doc<HS.HiddenSpot>>)
    ensures r.Some? ==> r.value in st.hiddenSpots && Names(req, r.value)
    ensures r.None? <==> forall d :: d in st.hiddenSpots ==> !Names(req, d)
  {
    FindFirst(st.hiddenSpots, d => Names(req, d))
  }

  function ContributionFor(req: Request, existing: Doc<HS.HiddenSpot>, caller: Caller): CM.Contribution {
    CM.New(existing.id, caller.id, CM.HiddenSpotKind, req.description, req.images, req.videoLink,
           req.instagramLink, CM.HiddenSpotChanges(req.openingHours, req.entryFee, req.bestTime, req.address))
  }

  function NewSpot(req: Request, caller: Caller, coords: Coord): HS.HiddenSpot {
    HS.New(OrEmpty(req.spotName), req.category, req.address, req.description, req.state, req.city,
           req.openingHours, req.entryFee, req.bestTime, req.images, req.videoLink, req.instagramLink,
           caller.id, coords)
  }

  /** The handler's effect. */
  function Submit(st: State, caller: Caller, req: Request, geo: Geocode.Geocoder, now: int): (o: Outcome<Body<HS.HiddenSpot>>)
    requires WellFormedState(st)
    ensures WellFormedState(o.st)
  {
    var coords := Geocode.Resolve(geo, GeoArgs(req));
    match Existing(st, req)
    case Some(existing) =>
      var c := ContributionFor(req, existing, caller);
      var st1 := AddContribution(st, c, now);
      Respond(Promote(st1, caller, PlaceItems(st1, caller.id), true), existing, Some(Doc(st.nextId, now, c)), false)
    case None =>
      var h := NewSpot(req, caller, coords);
      if !HS.Valid(h) then Outcome(st, Err(500, VALIDATION_FAILED))
      else
        var st1 := AddHiddenSpot(st, h, now);
        Respond(Promote(st1, caller, PlaceItems(st1, caller.id), true), Doc(st.nextId, now, h), None, true)
  }

  /** The handler. */
  method CreateHiddenSpot(db: Store, caller: Caller, req: Request, geo: Geocode.Geocoder, now: int)
    returns (resp: Response<Body<HS.HiddenSpot>>)
    requires db.Valid()
    modifies db
    ensures db.Valid()
    ensures Outcome(db.Snapshot(), resp) == Submit(old(db.Snapshot()), caller, req, geo, now)
  {
    var finalCoordinates := Geocode.GetCoordinates(geo, Geocode.Args(OrEmpty(req.spotName), req.address, req.city, req.state, req.latitude, req.longitude));

    var existingSpot := Existing(db.Snapshot(), req);
    var place: Doc<HS.HiddenSpot>;
    var contribution: Option<Doc<CM.Contribution>> := None;
    var isNewPlace := false;
    if existingSpot.Some? {
      place := existingSpot.value;
      var c := db.InsertContribution(ContributionFor(req, place, caller), now);
      contribution := Some(c);
    } else {
      var saved, d := db.SaveHiddenSpot(NewSpot(req, caller, finalCoordinates), now);
      if !saved {
        return Err(500, VALIDATION_FAILED);
      }
      place := d;
      isNewPlace := true;
    }

    var newRole: Option<string> := None;
    var newAccessToken: Option<Token> := None;
    if caller.role == ROLE_USER {
      var totalItems := PlaceItems(db.Snapshot(), caller.id);
      if totalItems == 1 {
        db.SetUserRole(caller.id, ROLE_CONTRIBUTOR);
        var updatedUser := FindUser(db.Snapshot(), caller.id);
        newRole := Some(ROLE_CONTRIBUTOR);
        if updatedUser.None? {
          return Err(500, NULL_USER);
        }
        newAccessToken := Some(Token(updatedUser.value.id, updatedUser.value.body.role));
      }
    }
    resp := Ok(if isNewPlace then 201 else 200, Body(place, contribution, isNewPlace, newRole, newAccessToken));
  }

  // ---------------------------------------------------------------------------
  // Properties
  // ---------------------------------------------------------------------------

  /** The lookup interpolates the name into its pattern, so a request without a name looks
      for a stored place named "undefined", in any capitalisation, in the same city and
      state; a request with a name looks for that name. */
  lemma LookupName(st: State, req: Request)
    ensures req.spotName.None? ==>
      (Existing(st, req).None? <==>
         forall d :: d in st.hiddenSpots ==>
           !(Text.EqualsIgnoreCase(d.body.spotName, "undefined") && d.body.city == req.city && d.body.state == req.state))
    ensures req.spotName.Some? ==>
      (Existing(st, req).None? <==>
         forall d :: d in st.hiddenSpots ==>
           !(Text.EqualsIgnoreCase(d.body.spotName, req.spotName.value) && d.body.city == req.city && d.body.state == req.state))
  {
  }

  /** With a matching spot, exactly one Contribution is appended, pointing at it, owned by
      the caller, of type "hidden-spot" and suggesting hours, fee, best time and address;
      no place collection changes, and a success answers 200. */
  lemma ExistingGetsContribution(st: State, caller: Caller, req: Request, geo: Geocode.Geocoder, now: int)
    requires WellFormedState(st) && Existing(st, req).Some?
    ensures var o := Submit(st, caller, req, geo, now);
      var e := Existing(st, req).value;
      && |o.st.contributions| == |st.contributions| + 1
      && o.st.contributions[..|st.contributions|] == st.contributions
      && var c := o.st.contributions[|st.contributions|];
      && (forall d :: d in st.contributions ==> d.id < c.id)
      && c.body.placeId == e.id && c.body.userId == caller.id && c.body.kind == CM.HiddenSpotKind
      && c.body.content == req.description
      && c.body.suggestedChanges == CM.HiddenSpotChanges(req.openingHours, req.entryFee, req.bestTime, req.address)
      && o.st.hiddenSpots == st.hiddenSpots && o.st.famousSpots == st.famousSpots
      && o.st.foods == st.foods && o.st.handicrafts == st.handicrafts && o.st.histories == st.histories
      && (o.resp.Ok? ==>
            o.resp.status == 200 && o.resp.body.place == e && !o.resp.body.isNewPlace
            && o.resp.body.contribution == Some(c))
  {
    var e := Existing(st, req).value;
    var st1 := AddContribution(st, ContributionFor(req, e, caller), now);
    PromoteFacts(st1, caller, PlaceItems(st1, caller.id), true);
  }

  /** Without a match, either the new spot fails the schema (500, nothing written) or
      exactly one HiddenSpot is appended, owned by the caller and placed at the geocoder's
      answer, with no Contribution; a success answers 201 with that spot. */
  lemma NoMatchCreatesOneSpot(st: State, caller: Caller, req: Request, geo: Geocode.Geocoder, now: int)
    requires WellFormedState(st) && Existing(st, req).None?
    ensures var o := Submit(st, caller, req, geo, now);
      var h := NewSpot(req, caller, Geocode.Resolve(geo, GeoArgs(req)));
      && (!HS.Valid(h) ==> o == Outcome(st, Err(500, VALIDATION_FAILED)))
      && (HS.Valid(h) ==>
            && o.st.hiddenSpots == st.hiddenSpots + [Doc(st.nextId, now, h)]
            && h.user == Some(caller.id) && h.geometry == Geocode.Resolve(geo, GeoArgs(req))
            && o.st.contributions == st.contributions
            && (o.resp.Ok? ==>
                  o.resp.status == 201 && o.resp.body.isNewPlace && o.resp.body.contribution.None?
                  && o.resp.body.place == Doc(st.nextId, now, h)))
  {
    var h := NewSpot(req, caller, Geocode.Resolve(geo, GeoArgs(req)));
    if HS.Valid(h) {
      var st1 := AddHiddenSpot(st, h, now);
      PromoteFacts(st1, caller, PlaceItems(st1, caller.id), true);
    }
  }

  /** Of a successful request: the status is 201 exactly for a new place; `newRole` is set
      exactly when the claim is `"user"` and the caller's FIVE-collection place total after
      the write is 1, and then the stored role is `"contributor"` and the token, read
      back from the stored user, carries it; otherwise both fields are `null` and the
      stored role is unchanged. */
  lemma PromotionIffFirstPlace(st: State, caller: Caller, req: Request, geo: Geocode.Geocoder, now: int)
    requires WellFormedState(st)
    requires Submit(st, caller, req, geo, now).resp.Ok?
    ensures var o := Submit(st, caller, req, geo, now);
      && (o.resp.status == 201 <==> o.resp.body.isNewPlace) && o.resp.status in {200, 201}
      && (o.resp.body.newRole.Some? <==> caller.role == ROLE_USER && PlaceItems(o.st, caller.id) == 1)
      && (o.resp.body.newRole.Some? ==>
            o.resp.body.newRole == Some(ROLE_CONTRIBUTOR)
            && o.resp.body.accessToken == Some(Token(caller.id, ROLE_CONTRIBUTOR))
            && RoleOf(o.st, caller.id) == Some(ROLE_CONTRIBUTOR))
      && (o.resp.body.newRole.None? ==> o.resp.body.accessToken.None? && RoleOf(o.st, caller.id) == RoleOf(st, caller.id))
  {
    var coords := Geocode.Resolve(geo, GeoArgs(req));
    match Existing(st, req)
    case Some(e) =>
      var st1 := AddContribution(st, ContributionFor(req, e, caller), now);
      PromoteFacts(st1, caller, PlaceItems(st1, caller.id), true);
    case None =>
      var st1 := AddHiddenSpot(st, NewSpot(req, caller, coords), now);
      PromoteFacts(st1, caller, PlaceItems(st1, caller.id), true);
  }

  /** A `"user"` with no items whose first item is a contribution to a hidden spot is not
      promoted: after the request they own exactly one item, yet their role is unchanged
      and the response carries no new role. */
  lemma FirstContributionNotPromoted(st: State, caller: Caller, req: Request, geo: Geocode.Geocoder, now: int)
    requires WellFormedState(st) && caller.role == ROLE_USER && TotalItems(st, caller.id) == 0
    requires Existing(st, req).Some?
    ensures var o := Submit(st, caller, req, geo, now);
      && o.resp.Ok? && o.resp.body.newRole.None? && o.resp.body.accessToken.None?
      && TotalItems(o.st, caller.id) == 1 && RoleOf(o.st, caller.id) == RoleOf(st, caller.id)
  {
    var e := Existing(st, req).value;
    var c := ContributionFor(req, e, caller);
    var st1 := AddContribution(st, c, now);
    CountOwnedAppend(st.contributions, Doc(st.nextId, now, c), CM.UserIdOf, caller.id);
    PromoteFacts(st1, caller, PlaceItems(st1, caller.id), true);
  }
}
