/**
  `GET /city/:state/:city/hero-images`: the images of every place in the city (famous
  spots, hidden spots, foods, handicrafts, histories, in that order and each in natural
  order), then the images of contributions whose place is in the city, with empty
  entries dropped and at most 10 kept.

  A contribution's `placeId` is populated against the FamousSpot collection only, and a
  famous spot records no `state` or `city`; so neither famous spots nor contributions
  ever supply an image.
 */
module AllImagesRoute {
  import opened Wrappers
  import opened Docs
  import opened Db
  import FS = FamousSpotModel
  import HS = HiddenSpotModel
  import FF = FamousFoodModel
  import HC = HandicraftModel
  import HI = HistoryModel
  import CM = ContributionModel

  const MAX_IMAGES: nat := 10

  /** `docs.flatMap(doc => doc.images || [])` over the documents `inCity` selects. */
  function CityImages<T(!new)>(s: seq<Doc<T>>, inCity: T -> bool, images: T -> seq<string>): seq<string> {
    if |s| == 0 then []
    else (if inCity(s[0].body) then images(s[0].body) else []) + CityImages(s[1..], inCity, images)
  }

  /** The `find({ state, city })` filters of the five place models. A famous spot has no
      `state` or `city` path, so none matches. */
  function FamousSpotIn(state: string, city: string): FS.FamousSpot -> bool {
    (p: FS.FamousSpot) => FS.StateOf(p) == Some(state) && FS.CityOf(p) == Some(city)
  }
  function HiddenSpotIn(state: string, city: string): HS.HiddenSpot -> bool { (p: HS.HiddenSpot) => p.state == state && p.city == city }
  function FoodIn(state: string, city: string): FF.FamousFood -> bool { (p: FF.FamousFood) => p.state == state && p.city == city }
  function HandicraftIn(state: string, city: string): HC.Handicraft -> bool { (p: HC.Handicraft) => p.state == state && p.city == city }
  function HistoryIn(state: string, city: string): HI.History -> bool { (p: HI.History) => p.state == state && p.city == city }

  function FamousSpotImages(p: FS.FamousSpot): seq<string> { p.images }
  function HiddenSpotImages(p: HS.HiddenSpot): seq<string> { p.images }
  function FoodImages(p: FF.FamousFood): seq<string> { p.images }
  function HandicraftImages(p: HC.Handicraft): seq<string> { p.images }
  function HistoryImages(p: HI.History): seq<string> { p.images }
  function ContributionImagesOf(c: CM.Contribution): seq<string> { c.images }

  /** The place images, collection by collection. */
  function PlaceImages(st: State, state: string, city: string): seq<string> {
    CityImages(st.famousSpots, FamousSpotIn(state, city), FamousSpotImages)
    + CityImages(st.hiddenSpots, HiddenSpotIn(state, city), HiddenSpotImages)
    + CityImages(st.foods, FoodIn(state, city), FoodImages)
    + CityImages(st.handicrafts, HandicraftIn(state, city), HandicraftImages)
    + CityImages(st.histories, HistoryIn(state, city), HistoryImages)
  }

  /** A contribution is kept when its populated place exists and has exactly the
      requested `state` and `city`. */
  function ContributionIn(st: State, state: string, city: string): CM.Contribution -> bool {
    (c: CM.Contribution) => match FindById(st.famousSpots, c.placeId)
         case None => false
         case Some(p) => FS.StateOf(p.body) == Some(state) && FS.CityOf(p.body) == Some(city)
  }

  function ContributionImages(st: State, state: string, city: string): seq<string> {
    CityImages(st.contributions, ContributionIn(st, state, city), ContributionImagesOf)
  }

  predicate Truthy(image: string) { image != "" }

  /** `.slice(0, n)`. */
  function Take<T>(s: seq<T>, n: nat): (r: seq<T>)
    ensures r <= s && |r| == if |s| <= n then |s| else n
  {
    if |s| <= n then s else s[..n]
  }

  /** The response body. */
  function HeroImages(st: State, state: string, city: string): seq<string> {
    Take(Filter(PlaceImages(st, state, city) + ContributionImages(st, state, city), Truthy), MAX_IMAGES)
  }

  // ---------------------------------------------------------------------------
  // Properties
  // ---------------------------------------------------------------------------

  /** At most 10 images, none of them empty, taken from the front of the merged and
      filtered list. */
  lemma HeroImagesBounded(st: State, state: string, city: string)
    ensures var r := HeroImages(st, state, city);
      && |r| <= MAX_IMAGES
      && (forall x :: x in r ==> x != "")
      && r <= Filter(PlaceImages(st, state, city) + ContributionImages(st, state, city), Truthy)
  {
    var all := Filter(PlaceImages(st, state, city) + ContributionImages(st, state, city), Truthy);
    forall x | x in HeroImages(st, state, city) ensures x != "" {
      var i :| 0 <= i < |HeroImages(st, state, city)| && HeroImages(st, state, city)[i] == x;
      assert x == all[i];
      assert all[i] in all;
    }
  }

  lemma {:induction false} NoneSelected<T(!new)>(s: seq<Doc<T>>, inCity: T -> bool, images: T -> seq<string>)
    requires forall d :: d in s ==> !inCity(d.body)
    ensures CityImages(s, inCity, images) == []
  {
    if |s| > 0 {
      assert s[0] in s;
      NoneSelected(s[1..], inCity, images);
    }
  }

  /** Famous spots and contributions never supply an image: the answer is made of the
      hidden spot, food, handicraft and history images alone, in that order. */
  lemma OnlyFourCollectionsContribute(st: State, state: string, city: string)
    ensures HeroImages(st, state, city) ==
      Take(Filter(CityImages(st.hiddenSpots, HiddenSpotIn(state, city), HiddenSpotImages)
                  + CityImages(st.foods, FoodIn(state, city), FoodImages)
                  + CityImages(st.handicrafts, HandicraftIn(state, city), HandicraftImages)
                  + CityImages(st.histories, HistoryIn(state, city), HistoryImages), Truthy), MAX_IMAGES)
  {
    NoneSelected(st.famousSpots, FamousSpotIn(state, city), FamousSpotImages);
    NoneSelected(st.contributions, ContributionIn(st, state, city), ContributionImagesOf);
    var rest := CityImages(st.hiddenSpots, HiddenSpotIn(state, city), HiddenSpotImages)
                + CityImages(st.foods, FoodIn(state, city), FoodImages)
                + CityImages(st.handicrafts, HandicraftIn(state, city), HandicraftImages)
                + CityImages(st.histories, HistoryIn(state, city), HistoryImages);
    assert PlaceImages(st, state, city) == [] + rest;
    assert ContributionImages(st, state, city) == [];
    assert PlaceImages(st, state, city) + ContributionImages(st, state, city) == rest;
  }

  lemma {:induction false} CityImagesComplete<T(!new)>(s: seq<Doc<T>>, inCity: T -> bool, images: T -> seq<string>, d: Doc<T>, x: string)
    requires d in s && inCity(d.body) && x in images(d.body)
    ensures x in CityImages(s, inCity, images)
  {
    if s[0] != d {
      CityImagesComplete(s[1..], inCity, images, d, x);
    }
  }

  /** Every image of every hidden spot, food, handicraft and history in the city is one
      of the place images. */
  lemma PlaceImagesComplete(st: State, state: string, city: string)
    ensures forall d, x :: d in st.hiddenSpots && d.body.state == state && d.body.city == city && x in d.body.images ==>
                            x in PlaceImages(st, state, city)
    ensures forall d, x :: d in st.foods && d.body.state == state && d.body.city == city && x in d.body.images ==>
                            x in PlaceImages(st, state, city)
    ensures forall d, x :: d in st.handicrafts && d.body.state == state && d.body.city == city && x in d.body.images ==>
                            x in PlaceImages(st, state, city)
    ensures forall d, x :: d in st.histories && d.body.state == state && d.body.city == city && x in d.body.images ==>
                            x in PlaceImages(st, state, city)
  {
    forall d, x | d in st.hiddenSpots && d.body.state == state && d.body.city == city && x in d.body.images
      ensures x in PlaceImages(st, state, city)
    {
      CityImagesComplete(st.hiddenSpots, HiddenSpotIn(state, city), HiddenSpotImages, d, x);
    }
    forall d, x | d in st.foods && d.body.state == state && d.body.city == city && x in d.body.images
      ensures x in PlaceImages(st, state, city)
    {
      CityImagesComplete(st.foods, FoodIn(state, city), FoodImages, d, x);
    }
    forall d, x | d in st.handicrafts && d.body.state == state && d.body.city == city && x in d.body.images
      ensures x in PlaceImages(st, state, city)
    {
      CityImagesComplete(st.handicrafts, HandicraftIn(state, city), HandicraftImages, d, x);
    }
    forall d, x | d in st.histories && d.body.state == state && d.body.city == city && x in d.body.images
      ensures x in PlaceImages(st, state, city)
    {
      CityImagesComplete(st.histories, HistoryIn(state, city), HistoryImages, d, x);
    }
  }

  /** When the city has at most 10 non-empty place images in all, the answer holds
      exactly the non-empty place images: each non-empty image of each hidden spot, food,
      handicraft and history there (by `PlaceImagesComplete`), and nothing else. */
  lemma SmallCityShowsEveryImage(st: State, state: string, city: string)
    requires |Filter(PlaceImages(st, state, city) + ContributionImages(st, state, city), Truthy)| <= MAX_IMAGES
    ensures forall x :: x in HeroImages(st, state, city) <==> x in PlaceImages(st, state, city) && x != ""
  {
    NoneSelected(st.contributions, ContributionIn(st, state, city), ContributionImagesOf);
    assert PlaceImages(st, state, city) + ContributionImages(st, state, city) == PlaceImages(st, state, city);
  }
}
