/**
  `getCoordinates`: coordinates for a place, from manual input when both values are
  truthy, otherwise from the first of three ever less specific Photon lookups whose
  answer is not `[0, 0]`, and `[0, 0]` when all three fail.

  The Photon HTTP request is an oracle (`Geocoder.photon`), as is JavaScript's
  `parseFloat` on a string (`Geocoder.parseFloat`).
 */
module Geocode {
  import opened Wrappers
  import opened Docs
  import Text

  /** A coordinate as it arrives in a request body. */
  datatype JsValue = Undefined | Str(s: string) | Num(x: real)

  /** JavaScript truthiness: `undefined`, `""` and `0` are falsy. */
  predicate Truthy(v: JsValue) {
    match v
    case Undefined => false
    case Str(s) => s != ""
    case Num(x) => x != 0.0
  }

  /** The first feature's `geometry.coordinates`, when the answer has one. */
  datatype Feature = Feature(coordinates: Option<Coord>)

  /** A Photon answer: the request failed, or it answered with a `features` value that may
      not be an array (`None`). */
  datatype PhotonAnswer = Failed | Answered(features: Option<seq<Feature>>)

  datatype Geocoder = Geocoder(photon: string -> PhotonAnswer, parseFloat: string -> real)

  /** The arguments; the four strings default to `""`. */
  datatype Args = Args(name: string, address: string, city: string, state: string, latitude: JsValue, longitude: JsValue)

  /** `parseFloat` of a manual coordinate; a number is already parsed. */
  function ParseFloat(geo: Geocoder, v: JsValue): real {
    match v
    case Undefined => 0.0
    case Str(s) => geo.parseFloat(s)
    case Num(x) => x
  }

  /** `fetchCoordinates(q)`: the first feature's coordinates, or `[0, 0]` when the request
      fails, `features` is not a non-empty array, or the first feature has no coordinates. */
  function Fetch(geo: Geocoder, q: string): (c: Coord)
    ensures geo.photon(q).Failed? ==> c == ORIGIN
    ensures geo.photon(q) == Answered(Some([])) ==> c == ORIGIN
    ensures geo.photon(q).Answered? && geo.photon(q).features.None? ==> c == ORIGIN
  {
    match geo.photon(q)
    case Failed => ORIGIN
    case Answered(features) =>
      if features.Some? && |features.value| > 0 && features.value[0].coordinates.Some?
      then features.value[0].coordinates.value
      else ORIGIN
  }

  /** The waterfall: name, address, city and state; then address, city and state; then city
      and state. */
  function Queries(a: Args): seq<string> {
    [Text.CommaJoin([a.name, a.address, a.city, a.state]),
     Text.CommaJoin([a.address, a.city, a.state]),
     Text.CommaJoin([a.city, a.state])]
  }

  /** The result of the first query whose answer is not `[0, 0]`, else `[0, 0]`. */
  function FirstNonOrigin(geo: Geocoder, qs: seq<string>): Coord {
    if |qs| == 0 then ORIGIN
    else
      var c := Fetch(geo, qs[0]);
      if !IsOrigin(c) then c else FirstNonOrigin(geo, qs[1..])
  }

  predicate Manual(a: Args) {
    Truthy(a.latitude) && Truthy(a.longitude)
  }

  /** `getCoordinates(a)`, as `[longitude, latitude]`. */
  function Resolve(geo: Geocoder, a: Args): Coord {
    if Manual(a) then Coord(ParseFloat(geo, a.longitude), ParseFloat(geo, a.latitude))
    else FirstNonOrigin(geo, Queries(a))
  }

  /** The implementation: a loop over the queries that returns early. */
  method GetCoordinates(geo: Geocoder, a: Args) returns (c: Coord)
    ensures c == Resolve(geo, a)
  {
    if Manual(a) {
      return Coord(ParseFloat(geo, a.longitude), ParseFloat(geo, a.latitude));
    }
    var queries := Queries(a);
    var i := 0;
    while i < |queries|
      invariant 0 <= i <= |queries|
      invariant FirstNonOrigin(geo, queries) == FirstNonOrigin(geo, queries[i..])
    {
      var coords := Fetch(geo, queries[i]);
      assert queries[i..][1..] == queries[i + 1..];
      if !(coords.lon == 0.0 && coords.lat == 0.0) {
        return coords;
      }
      i := i + 1;
    }
    return ORIGIN;
  }

  // ---------------------------------------------------------------------------
  // Properties
  // ---------------------------------------------------------------------------

  /** With both manual values truthy the result is `[longitude, latitude]` and Photon is
      never asked: any other oracle answers the same. */
  lemma ManualOverride(geo: Geocoder, other: string -> PhotonAnswer, a: Args)
    requires Manual(a)
    ensures Resolve(geo, a) == Coord(ParseFloat(geo, a.longitude), ParseFloat(geo, a.latitude))
    ensures Resolve(Geocoder(other, geo.parseFloat), a) == Resolve(geo, a)
  {
  }

  /** A manual `0` or empty value is falsy, so the waterfall runs instead. */
  lemma ManualZeroFallsThrough(geo: Geocoder, a: Args)
    requires a.latitude in {Num(0.0), Str(""), Undefined} || a.longitude in {Num(0.0), Str(""), Undefined}
    ensures Resolve(geo, a) == FirstNonOrigin(geo, Queries(a))
  {
  }

  /** Each query extends the next one with a more specific leading part. */
  lemma QueriesMostSpecificFirst(a: Args)
    ensures |Queries(a)| == 3
    ensures Queries(a)[0] == a.name + ", " + Queries(a)[1]
    ensures Queries(a)[1] == a.address + ", " + Queries(a)[2]
    ensures Queries(a)[2] == a.city + ", " + a.state
  {
    assert [a.name, a.address, a.city, a.state][1..] == [a.address, a.city, a.state];
    assert [a.address, a.city, a.state][1..] == [a.city, a.state];
    assert [a.city, a.state][1..] == [a.state];
  }

  /** The waterfall's result is `[0, 0]` with every answer `[0, 0]`, or else the answer to
      the first query whose answer is not `[0, 0]`. */
  lemma {:induction false} FirstNonOriginIsFirst(geo: Geocoder, qs: seq<string>)
    ensures var r := FirstNonOrigin(geo, qs);
      || (r == ORIGIN && forall j :: 0 <= j < |qs| ==> IsOrigin(Fetch(geo, qs[j])))
      || (exists k :: 0 <= k < |qs| && r == Fetch(geo, qs[k]) && !IsOrigin(r)
                      && forall j :: 0 <= j < k ==> IsOrigin(Fetch(geo, qs[j])))
  {
    if |qs| > 0 && IsOrigin(Fetch(geo, qs[0])) {
      FirstNonOriginIsFirst(geo, qs[1..]);
      var r := FirstNonOrigin(geo, qs);
      if exists k :: 0 <= k < |qs[1..]| && r == Fetch(geo, qs[1..][k]) && !IsOrigin(r)
                     && forall j :: 0 <= j < k ==> IsOrigin(Fetch(geo, qs[1..][j])) {
        var k :| 0 <= k < |qs[1..]| && r == Fetch(geo, qs[1..][k]) && !IsOrigin(r)
                 && forall j :: 0 <= j < k ==> IsOrigin(Fetch(geo, qs[1..][j]));
        assert forall j :: 0 <= j < k + 1 ==> IsOrigin(Fetch(geo, qs[j])) by {
          forall j | 0 <= j < k + 1 ensures IsOrigin(Fetch(geo, qs[j])) {
            if j > 0 { assert qs[j] == qs[1..][j - 1]; }
          }
        }
        assert r == Fetch(geo, qs[k + 1]);
      } else {
        assert forall j :: 0 <= j < |qs| ==> IsOrigin(Fetch(geo, qs[j])) by {
          forall j | 0 <= j < |qs| ensures IsOrigin(Fetch(geo, qs[j])) {
            if j > 0 { assert qs[j] == qs[1..][j - 1]; }
          }
        }
      }
    }
  }

  /** When no manual value applies and every lookup fails or finds nothing, the result is
      `[0, 0]`. */
  lemma AllLookupsFail(geo: Geocoder, a: Args)
    requires !Manual(a)
    requires forall q :: q in Queries(a) ==> geo.photon(q).Failed? || geo.photon(q) == Answered(Some([]))
    ensures Resolve(geo, a) == ORIGIN
  {
    var qs := Queries(a);
    forall j | 0 <= j < |qs| ensures IsOrigin(Fetch(geo, qs[j])) {
      assert qs[j] in qs;
    }
    FirstNonOriginIsFirst(geo, qs);
  }
}
