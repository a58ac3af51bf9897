/**
  `POST /history`: geocode, then contribute to an existing history record with the same
  place name (case-insensitively), city and state, or save a new one; finally run the
  promotion step with the six-collection total. There is no route-level validation.
 */
module HistoryRoutes {
  import opened Wrappers
  import opened Docs
  import opened Http
  import opened Db
  import opened Submission
  import Text
  import Geocode
  import HI = HistoryModel
  import CM = ContributionModel

  /** The request body; an absent string is `""`, except `placeName`, which the lookup
      interpolates, and `category`, where the schema default tells an absent value
      (`None`) from an empty one. */
  datatype Request = Request(
    placeName: Option<string>, era: string, category: Option<string>, shortDescription: string, builtBy: string,
    yearBuilt: string, historyDescription: string, address: string, mapLink: string,
    images: seq<string>, videoLink: string, instagramLink: string, state: string, city: string,
    latitude: Geocode.JsValue, longitude: Geocode.JsValue)

  function GeoArgs(req: Request): Geocode.Args {
    Geocode.Args(OrEmpty(req.placeName), req.address, req.city, req.state, req.latitude, req.longitude)
  }

  predicate Names(req: Request, d: Doc<HI.History>) {
    Text.EqualsIgnoreCase(d.body.placeName, Interpolated(req.placeName)) && d.body.city == req.city && d.body.state == req.state
  }

  /** `History.findOne({ placeName: /^placeName$/i, city, state })`. */
  function Existing(st: State, req: Request): (r: Option<Doc<HI.History>>)
    ensures r.Some? ==> r.value in st.histories && Names(req, r.value)
    ensures r.None? <==> forall d :: d in st.histories ==> !Names(req, d)
  {
    FindFirst(st.histories, d => Names(req, d))
  }

  /** `historyDescription || shortDescription`. */
  function Content(req: Request): (s: string)
    ensures req.historyDescription != "" ==> s == req.historyDescription
    ensures req.historyDescription == "" ==> s == req.shortDescription
  {
    if req.historyDescription != "" then req.historyDescription else req.shortDescription
  }

  function ContributionFor(req: Request, existing: Doc<HI.History>, caller: Caller): CM.Contribution {
    CM.New(existing.id, caller.id, CM.HistoryKind, Content(req), req.images, req.videoLink,
           req.instagramLink, CM.HistoryChanges(req.era, req.builtBy, req.yearBuilt))
  }

  function NewHistory(req: Request, caller: Caller, coords: Coord): HI.History {
    HI.New(OrEmpty(req.placeName), req.era, req.category, req.shortDescription, req.builtBy, req.yearBuilt,
           req.historyDescription, req.address, req.mapLink, req.images, req.videoLink,
           req.instagramLink, req.state, req.city, coords, caller.id)
  }

  /** The handler's effect. */
  function Submit(st: State, caller: Caller, req: Request, geo: Geocode.Geocoder, now: int): (o: Outcome<Body<HI.History>>)
    requires WellFormedState(st)
    ensures WellFormedState(o.st)
  {
    var coords := Geocode.Resolve(geo, GeoArgs(req));
    match Existing(st, req)
    case Some(existing) =>
      var c := ContributionFor(req, existing, caller);
      var st1 := AddContribution(st, c, now);
      Respond(Promote(st1, caller, TotalItems(st1, caller.id), false), existing, Some(Doc(st.nextId, now, c)), false)
    case None =>
      var h := NewHistory(req, caller, coords);
      if !HI.Valid(h) then Outcome(st, Err(500, VALIDATION_FAILED))
      else
        var st1 := AddHistory(st, h, now);
        Respond(Promote(st1, caller, TotalItems(st1, caller.id), false), Doc(st.nextId, now, h), None, true)
  }

  /** The handler. The document built before the lookup is never saved. */
  method CreateHistory(db: Store, caller: Caller, req: Request, geo: Geocode.Geocoder, now: int)
    returns (resp: Response<Body<HI.History>>)
    requires db.Valid()
    modifies db
    ensures db.Valid()
    ensures Outcome(db.Snapshot(), resp) == Submit(old(db.Snapshot()), caller, req, geo, now)
  {
    var coordinates := Geocode.GetCoordinates(geo, Geocode.Args(OrEmpty(req.placeName), req.address, req.city, req.state, req.latitude, req.longitude));
    var newHistory := NewHistory(req, caller, coordinates);

    var existingHistory := Existing(db.Snapshot(), req);
    var place: Doc<HI.History>;
    var contribution: Option<Doc<CM.Contribution>> := None;
    var isNewPlace := false;
    if existingHistory.Some? {
      place := existingHistory.value;
      var content := if req.historyDescription != "" then req.historyDescription else req.shortDescription;
      var c := db.InsertContribution(CM.New(place.id, caller.id, CM.HistoryKind, content, req.images, req.videoLink,
                                            req.instagramLink, CM.HistoryChanges(req.era, req.builtBy, req.yearBuilt)), now);
      contribution := Some(c);
    } else {
      isNewPlace := true;
      var newHistoryRecord := NewHistory(req, caller, coordinates);
      var saved, d := db.SaveHistory(newHistoryRecord, now);
      if !saved {
        return Err(500, VALIDATION_FAILED);
      }
      place := d;
    }

    var newRole: Option<string> := None;
    var newAccessToken: Option<Token> := None;
    if caller.role == ROLE_USER {
      var totalItems := TotalItems(db.Snapshot(), caller.id);
      if totalItems == 1 {
        db.SetUserRole(caller.id, ROLE_CONTRIBUTOR);
        var updatedUser := FindUser(db.Snapshot(), caller.id);
        newRole := Some(ROLE_CONTRIBUTOR);
        if updatedUser.None? {
          return Err(500, NULL_USER);
        }
        newAccessToken := Some(Token(updatedUser.value.id, ROLE_CONTRIBUTOR));
      }
    }
    resp := Ok(if isNewPlace then 201 else 200, Body(place, contribution, isNewPlace, newRole, newAccessToken));
  }

  // ---------------------------------------------------------------------------
  // Properties
  // ---------------------------------------------------------------------------

  /** The lookup interpolates the name into its pattern, so a request without a name looks
      for a stored place named "undefined", in any capitalisation, in the same city and
      state; a request with a name looks for that name. */
  lemma LookupName(st: State, req: Request)
    ensures req.placeName.None? ==>
      (Existing(st, req).None? <==>
         forall d :: d in st.histories ==>
           !(Text.EqualsIgnoreCase(d.body.placeName, "undefined") && d.body.city == req.city && d.body.state == req.state))
    ensures req.placeName.Some? ==>
      (Existing(st, req).None? <==>
         forall d :: d in st.histories ==>
           !(Text.EqualsIgnoreCase(d.body.placeName, req.placeName.value) && d.body.city == req.city && d.body.state == req.state))
  {
  }

  /** With a matching record, exactly one Contribution is appended, pointing at it, owned
      by the caller, of type "history", with the chosen content and suggesting era, builder
      and year; no place collection changes, and a success answers 200. */
  lemma ExistingGetsContribution(st: State, caller: Caller, req: Request, geo: Geocode.Geocoder, now: int)
    requires WellFormedState(st) && Existing(st, req).Some?
    ensures var o := Submit(st, caller, req, geo, now);
      var e := Existing(st, req).value;
      && |o.st.contributions| == |st.contributions| + 1
      && o.st.contributions[..|st.contributions|] == st.contributions
      && var c := o.st.contributions[|st.contributions|];
      && (forall d :: d in st.contributions ==> d.id < c.id)
      && c.body.placeId == e.id && c.body.userId == caller.id && c.body.kind == CM.HistoryKind
      && c.body.content == (if req.historyDescription != "" then req.historyDescription else req.shortDescription)
      && c.body.suggestedChanges == CM.HistoryChanges(req.era, req.builtBy, req.yearBuilt)
      && o.st.histories == st.histories && o.st.famousSpots == st.famousSpots
      && o.st.hiddenSpots == st.hiddenSpots && o.st.foods == st.foods && o.st.handicrafts == st.handicrafts
      && (o.resp.Ok? ==>
            o.resp.status == 200 && o.resp.body.place == e && !o.resp.body.isNewPlace
            && o.resp.body.contribution == Some(c))
  {
    var e := Existing(st, req).value;
    var st1 := AddContribution(st, ContributionFor(req, e, caller), now);
    PromoteFacts(st1, caller, TotalItems(st1, caller.id), false);
  }

  /** Without a match, either the new record fails the schema (500, nothing written) or
      exactly one History is appended, owned by the caller and placed at the geocoder's
      answer, with no Contribution; a success answers 201 with that record. */
  lemma NoMatchSavesOneHistory(st: State, caller: Caller, req: Request, geo: Geocode.Geocoder, now: int)
    requires WellFormedState(st) && Existing(st, req).None?
    ensures var o := Submit(st, caller, req, geo, now);
      var h := NewHistory(req, caller, Geocode.Resolve(geo, GeoArgs(req)));
      && (!HI.Valid(h) ==> o == Outcome(st, Err(500, VALIDATION_FAILED)))
      && (HI.Valid(h) ==>
            && o.st.histories == st.histories + [Doc(st.nextId, now, h)]
            && h.user == Some(caller.id) && h.geometry == Geocode.Resolve(geo, GeoArgs(req))
            && o.st.contributions == st.contributions
            && (o.resp.Ok? ==>
                  o.resp.status == 201 && o.resp.body.isNewPlace && o.resp.body.contribution.None?
                  && o.resp.body.place == Doc(st.nextId, now, h)))
  {
    var h := NewHistory(req, caller, Geocode.Resolve(geo, GeoArgs(req)));
    if HI.Valid(h) {
      var st1 := AddHistory(st, h, now);
      PromoteFacts(st1, caller, TotalItems(st1, caller.id), false);
    }
  }

  /** The "Other" default covers only an absent category: a new place whose category is
      the empty string fails the enum, so the request answers 500 and writes nothing. */
  lemma EmptyCategoryRejected(st: State, caller: Caller, req: Request, geo: Geocode.Geocoder, now: int)
    requires WellFormedState(st) && Existing(st, req).None? && req.category == Some("")
    ensures Submit(st, caller, req, geo, now) == Outcome(st, Err(500, VALIDATION_FAILED))
  {
    assert "" !in HI.CATEGORIES;
  }

  /** At most one History is written per request, and none is ever removed. */
  lemma AtMostOneHistory(st: State, caller: Caller, req: Request, geo: Geocode.Geocoder, now: int)
    requires WellFormedState(st)
    ensures var o := Submit(st, caller, req, geo, now);
      st.histories <= o.st.histories && |o.st.histories| <= |st.histories| + 1
  {
    var o := Submit(st, caller, req, geo, now);
    match Existing(st, req)
    case Some(e) =>
      var st1 := AddContribution(st, ContributionFor(req, e, caller), now);
      var p := Promote(st1, caller, TotalItems(st1, caller.id), false);
      assert o.st == p.st && p.st.histories == st1.histories == st.histories;
    case None =>
      var h := NewHistory(req, caller, Geocode.Resolve(geo, GeoArgs(req)));
      if HI.Valid(h) {
        var st1 := AddHistory(st, h, now);
        var p := Promote(st1, caller, TotalItems(st1, caller.id), false);
        assert o.st == p.st && p.st.histories == st1.histories == st.histories + [Doc(st.nextId, now, h)];
      }
  }

  /** Of a successful request: the status is 201 exactly for a new place; `newRole` is set
      exactly when the claim is `"user"` and the six-collection total after the write is
      1, and then the stored role is `"contributor"` and the token carries it; otherwise
      both fields are `null` and the stored role is unchanged. */
  lemma PromotionIffFirstItem(st: State, caller: Caller, req: Request, geo: Geocode.Geocoder, now: int)
    requires WellFormedState(st)
    requires Submit(st, caller, req, geo, now).resp.Ok?
    ensures var o := Submit(st, caller, req, geo, now);
      && (o.resp.status == 201 <==> o.resp.body.isNewPlace) && o.resp.status in {200, 201}
      && (o.resp.body.newRole.Some? <==> caller.role == ROLE_USER && TotalItems(o.st, caller.id) == 1)
      && (o.resp.body.newRole.Some? ==>
            o.resp.body.newRole == Some(ROLE_CONTRIBUTOR)
            && o.resp.body.accessToken == Some(Token(caller.id, ROLE_CONTRIBUTOR))
            && RoleOf(o.st, caller.id) == Some(ROLE_CONTRIBUTOR))
      && (o.resp.body.newRole.None? ==> o.resp.body.accessToken.None? && RoleOf(o.st, caller.id) == RoleOf(st, caller.id))
  {
    var coords := Geocode.Resolve(geo, GeoArgs(req));
    match Existing(st, req)
    case Some(e) =>
      var st1 := AddContribution(st, ContributionFor(req, e, caller), now);
      PromoteFacts(st1, caller, TotalItems(st1, caller.id), false);
    case None =>
      var st1 := AddHistory(st, NewHistory(req, caller, coords), now);
      PromoteFacts(st1, caller, TotalItems(st1, caller.id), false);
  }
}
