/**
  The HTTP handlers of application.go. Each handler reads its query
  parameters, makes one storage call and answers through the response
  writer: an error becomes status 500 with the error's text as the whole
  body; a success becomes one JSON document (or, for images, the raw bytes
  under `Content-Type: image/jpeg`), unless the encoder refuses the
  document, in which case the handler writes nothing and the client gets
  200 with an empty body.

  Every handler is a method on a `ResponseWriter` proved against a function
  that says which response the client receives; the lemmas are stated about
  those functions. `strconv.ParseFloat` and the PostGIS distance are
  parameters, and a failing store is the `fault` of the call.
*/
module Application {
  import opened Values
  import opened Schema
  import opened Params
  import opened Http
  import Storage

  /** The JSON documents the handlers encode. */
  datatype Doc =
    | CategoryList(categories: seq<Storage.Category>)
    | PartnerList(partners: seq<Storage.Partner>)
    | PromotionList(promotions: seq<Storage.Promotion>)

  /** `json.Encoder.Encode` refuses NaN and the infinities with an
      `UnsupportedValueError` before it writes anything. Only partners carry
      floating-point numbers. */
  predicate Encodable(doc: Doc) {
    doc.PartnerList? ==> forall p | p in doc.partners :: p.latitude.Finite? && p.longitude.Finite?
  }

  /** The envelope of the JSON handlers: an error is a 500 carrying its text
      and nothing else; a success is a 200 carrying the one document, or
      carrying nothing when the encoder refuses the document (the handlers
      drop the encoder's error, and a handler that writes nothing answers
      200). */
  function Envelope(r: Result<Doc>): (resp: Response<Doc>)
    ensures resp.header == map[]
    ensures resp.status == StatusInternalServerError <==> r.Failure?
    ensures resp.status == StatusOK <==> r.Success?
    ensures r.Failure? ==> resp.body == [Text(r.error)]
    ensures r.Success? && Encodable(r.value) ==> resp.body == [Json(r.value)]
    ensures r.Success? && !Encodable(r.value) ==> resp.body == []
  {
    match r
    case Failure(e) => ErrorResponse(e)
    case Success(doc) => Response(StatusOK, map[], if Encodable(doc) then [Json(doc)] else [])
  }

  // ------------------------------------------------------------- health check

  /** `HealthCheck` given the outcome of the ping (`Some(text)` on failure). */
  function HealthCheckResponse(ping: Option<string>): (resp: Response<Doc>)
    ensures resp.status == StatusOK <==> ping.None?
    ensures ping.None? ==> resp.body == [Text("ok")]
    ensures ping.Some? ==> resp == ErrorResponse(ping.value)
  {
    if ping.Some? then ErrorResponse(ping.value) else Response(StatusOK, map[], [Text("ok")])
  }

  method HealthCheck(w: ResponseWriter<Doc>, ping: Option<string>)
    requires w.Pristine()
    modifies w
    ensures w.Observed() == HealthCheckResponse(ping)
  {
    if ping.Some? {
      w.WriteHeader(StatusInternalServerError);
      w.Write(Text(ping.value));
      return;
    }
    w.Write(Text("ok"));
  }

  // --------------------------------------------------------------- categories

  /** The parent id a request asks for, read with `Atoi`: a missing one is 0. */
  function ParentParam(q: Query): int {
    Atoi(Get(q, "parent"))
  }

  /** The answer to a category request for the parent id `parentId`: the
      children's rows on a healthy store and an int parent id, otherwise a
      500 naming the storage method and the cause. */
  function CategoriesFor(t: Tables, fault: Option<string>, parentId: int): (resp: Response<Doc>)
    ensures resp.status == StatusOK <==> fault.None? && IsInt4(parentId)
    ensures resp.status == StatusOK ==>
      resp == Response(StatusOK, map[], [Json(CategoryList(Storage.CategoriesSQL(t.categories, t.banners, parentId)))])
    ensures fault.Some? ==> resp == ErrorResponse("GetCategories: " + fault.value)
    ensures fault.None? && !IsInt4(parentId) ==> resp == ErrorResponse("GetCategories: " + Storage.Int4RangeCause)
  {
    match Storage.GetCategories(t, fault, parentId)
    case Failure(e) => Envelope(Failure(e))
    case Success(cs) => Envelope(Success(CategoryList(cs)))
  }

  function CategoriesResponse(t: Tables, fault: Option<string>, q: Query): (resp: Response<Doc>)
    ensures resp.status == StatusOK <==> fault.None? && IsInt4(Atoi(Get(q, "parent")))
    ensures resp.status == StatusOK ==> (resp.body ==
      [Json(CategoryList(Storage.CategoriesSQL(t.categories, t.banners, Atoi(Get(q, "parent")))))])
    ensures resp.status != StatusOK ==> resp.status == StatusInternalServerError && |resp.body| == 1 && resp.body[0].Text?
  {
    CategoriesFor(t, fault, ParentParam(q))
  }

  method GetCategories(w: ResponseWriter<Doc>, t: Tables, fault: Option<string>, q: Query)
    requires w.Pristine()
    modifies w
    ensures w.Observed() == CategoriesResponse(t, fault, q)
  {
    var parentId := Atoi(Get(q, "parent"));
    var categories := Storage.GetCategories(t, fault, parentId);
    assert CategoriesResponse(t, fault, q) == CategoriesFor(t, fault, parentId);
    if categories.Failure? {
      w.WriteHeader(StatusInternalServerError);
      w.Write(Text(categories.error));
      return;
    }
    var doc := CategoryList(categories.value);
    if Encodable(doc) {
      w.Write(Json(doc));
    }
  }

  /** A missing `parent`, or one that is not a signed decimal and does not
      begin with digits above MaxUint64, is answered exactly as `parent=0`. */
  lemma UnparsableParentActsAsZero(t: Tables, fault: Option<string>, q: Query)
    requires !IsSignedDecimal(Get(q, "parent")) && !LeadingRunOverflows(Get(q, "parent"))
    ensures CategoriesResponse(t, fault, q) == CategoriesResponse(t, fault, map["parent" := ["0"]])
  {
    AtoiDefaultsToZero(Get(q, "parent"));
    assert Get(map["parent" := ["0"]], "parent") == "0";
  }

  /** A longer non-number is not read as 0: a `parent` or `partner` made of
      twenty nines and a letter reads as MaxInt64, which is outside the int
      range of the query parameter, so the request is answered with 500. */
  lemma OverflowingParameterIs500(t: Tables, parseFloat: string -> Float, distance: (Point, Point) -> real)
    requires parseFloat("") == Finite(0.0)
    ensures !IsSignedDecimal(Overflowing)
    ensures CategoriesResponse(t, None, map["parent" := [Overflowing]]) ==
      ErrorResponse("GetCategories: " + Storage.Int4RangeCause)
    ensures CategoriesResponse(t, None, map[]).status == StatusOK
    ensures PromotionsResponse(t, None, map["partner" := [Overflowing]], parseFloat, distance) ==
      ErrorResponse("GetPromotionsByPartner: " + Storage.Int4RangeCause)
    ensures PromotionsResponse(t, None, map[], parseFloat, distance).status == StatusOK
  {
    OverflowingTextIsNotZero();
    OverflowingParentIs500(t);
    OverflowingPartnerIs500(t, parseFloat, distance);
  }

  lemma OverflowingParentIs500(t: Tables)
    ensures CategoriesResponse(t, None, map["parent" := [Overflowing]]) ==
      ErrorResponse("GetCategories: " + Storage.Int4RangeCause)
    ensures CategoriesResponse(t, None, map[]).status == StatusOK
  {
    OverflowingTextIsNotZero();
    assert !IsInt4(Atoi(Overflowing));
    var parent := map["parent" := [Overflowing]];
    assert Get(parent, "parent") == Overflowing;
    assert CategoriesResponse(t, None, parent) == CategoriesFor(t, None, MaxInt64);
  }

  lemma OverflowingPartnerIs500(t: Tables, parseFloat: string -> Float, distance: (Point, Point) -> real)
    requires parseFloat("") == Finite(0.0)
    ensures PromotionsResponse(t, None, map["partner" := [Overflowing]], parseFloat, distance) ==
      ErrorResponse("GetPromotionsByPartner: " + Storage.Int4RangeCause)
    ensures PromotionsResponse(t, None, map[], parseFloat, distance).status == StatusOK
  {
    OverflowingTextIsNotZero();
    assert !IsInt4(Atoi(Overflowing));
    var partner := map["partner" := [Overflowing]];
    assert Get(partner, "partner") == Overflowing;
    assert Get(partner, "lat") == "";
    assert Dispatch(partner, parseFloat) == ByPartner(MaxInt64);
  }

  /** With the parse the handlers evidently intend (0 whenever `Atoi`
      reports an error), every `parent` that is not a signed decimal, of any
      length, is answered exactly as `parent=0`, and every such `partner`
      lists all promotions. */
  lemma IntendedParametersActAsZero(t: Tables, fault: Option<string>, q: Query)
    requires !IsSignedDecimal(Get(q, "parent")) && !IsSignedDecimal(Get(q, "partner"))
    ensures CategoriesFor(t, fault, AtoiOrZero(Get(q, "parent"))) ==
      CategoriesResponse(t, fault, map["parent" := ["0"]])
    ensures fault.None? ==> (Storage.GetPromotionsByPartner(t, fault, AtoiOrZero(Get(q, "partner"))) ==
      Success(Storage.AllPromotions(t.promotions, t.banners)))
  {
    assert Get(map["parent" := ["0"]], "parent") == "0";
    assert Atoi("0") == 0 by {
      assert IsDecimal("0");
    }
    Storage.ByPartnerZeroIsAll(t.promotions, t.banners);
  }

  /** A healthy store answers a category request with exactly the children
      of the requested parent: a row for each of their banners, or one with
      an empty URL for a child without banners. */
  lemma CategoriesAreChildren(t: Tables, q: Query, x: Storage.Category)
    requires IsInt4(ParentParam(q))
    ensures CategoriesResponse(t, None, q).status == StatusOK
    ensures var body := CategoriesResponse(t, None, q).body;
      |body| == 1 && body[0].Json? && body[0].doc.CategoryList? &&
      (x in body[0].doc.categories <==>
        exists c | c in t.categories :: c.parentId == Some(ParentParam(q)) && x in Storage.CategoryJoin(c, t.banners))
  {
    Storage.CategoriesMembership(t.categories, t.banners, ParentParam(q), x);
  }

  /** Right after start-up on an empty store, a request without `parent`
      lists the six top-level categories, each with an empty URL. */
  lemma FreshStoreTopLevel(t: Tables, q: Query)
    requires t.categories == [] && t.banners == [] && "parent" !in q
    ensures CategoriesResponse(Init(t), None, q) == Response(StatusOK, map[], [Json(CategoryList([
      Storage.Category(1, "Eating out", ""), Storage.Category(2, "Supermarkets", ""),
      Storage.Category(3, "Clothes & etc.", ""), Storage.Category(4, "Entertainment", ""),
      Storage.Category(5, "Transport", ""), Storage.Category(6, "Health & Beauty", "")]))])
  {
    InitOfEmpty(t.categories);
    Storage.SeedRootChildren();
  }

  // ----------------------------------------------------------------- partners

  /** Every partner row of the join on a healthy store whose locations are
      finite; a 200 with an empty body when some location is not; a 500 when
      the store fails. */
  function PartnersResponse(t: Tables, fault: Option<string>): (resp: Response<Doc>)
    ensures resp.status == StatusOK <==> fault.None?
    ensures fault.None? && FiniteLocations(t.partners) ==>
      resp == Response(StatusOK, map[], [Json(PartnerList(Storage.PartnersSQL(t.partners, t.banners)))])
    ensures fault.None? && !FiniteLocations(t.partners) ==> resp == Response(StatusOK, map[], [])
    ensures fault.Some? ==> resp == ErrorResponse("GetPartners: " + fault.value)
  {
    PartnersEncodableIffFinite(t);
    match Storage.GetPartners(t, fault)
    case Failure(e) => Envelope(Failure(e))
    case Success(ps) => Envelope(Success(PartnerList(ps)))
  }

  method GetPartners(w: ResponseWriter<Doc>, t: Tables, fault: Option<string>)
    requires w.Pristine()
    modifies w
    ensures w.Observed() == PartnersResponse(t, fault)
  {
    var partners := Storage.GetPartners(t, fault);
    if partners.Failure? {
      w.WriteHeader(StatusInternalServerError);
      w.Write(Text(partners.error));
      return;
    }
    var doc := PartnerList(partners.value);
    if Encodable(doc) {
      w.Write(Json(doc));
    }
  }

  /** The partners document can be encoded exactly when every stored
      location is finite. */
  lemma PartnersEncodableIffFinite(t: Tables)
    ensures Encodable(PartnerList(Storage.PartnersSQL(t.partners, t.banners))) <==> FiniteLocations(t.partners)
  {
    var rows := Storage.PartnersSQL(t.partners, t.banners);
    if FiniteLocations(t.partners) {
      forall x | x in rows ensures x.latitude.Finite? && x.longitude.Finite? {
        Storage.PartnersMembership(t.partners, t.banners, x);
        var p :| p in t.partners && x in Storage.PartnerJoin(p, t.banners);
        var i :| 0 <= i < |Storage.PartnerJoin(p, t.banners)| && Storage.PartnerJoin(p, t.banners)[i] == x;
      }
    } else {
      var p :| p in t.partners && !(p.location.x.Finite? && p.location.y.Finite?);
      var x := Storage.PartnerJoin(p, t.banners)[0];
      Storage.PartnersMembership(t.partners, t.banners, x);
      assert x in rows;
    }
  }

  // ------------------------------------------------------------------- images

  /** The image bytes with the image/jpeg content type when the lookup
      succeeds; otherwise a 500 without it. */
  function ImageResponse(t: Tables, fault: Option<string>, q: Query): (resp: Response<Doc>)
    ensures resp.status == StatusOK <==> fault.None? && exists b | b in t.banners :: b.url == Get(q, "url")
    ensures resp.status == StatusOK ==> (resp.header == map["Content-Type" := "image/jpeg"] &&
      |resp.body| == 1 && resp.body[0].Bytes? &&
      exists b | b in t.banners :: b.url == Get(q, "url") && resp.body[0].bytes == b.image)
    ensures resp.status != StatusOK ==> resp.status == StatusInternalServerError && resp.header == map[]
  {
    match Storage.GetBannerImageByURL(t, fault, Get(q, "url"))
    case Failure(e) => ErrorResponse(e)
    case Success(image) => Response(StatusOK, map["Content-Type" := "image/jpeg"], [Bytes(image)])
  }

  method GetImage(w: ResponseWriter<Doc>, t: Tables, fault: Option<string>, q: Query)
    requires w.Pristine()
    modifies w
    ensures w.Observed() == ImageResponse(t, fault, q)
  {
    var url := Get(q, "url");
    var image := Storage.GetBannerImageByURL(t, fault, url);
    if image.Failure? {
      w.WriteHeader(StatusInternalServerError);
      w.Write(Text(image.error));
      return;
    }
    w.SetHeader("Content-Type", "image/jpeg");
    w.Write(Bytes(image.value));
  }

  /** The image content type is sent exactly when the lookup succeeds, that
      is, when the store is healthy and a banner has the requested URL; then
      the body is that banner's image. A miss is a 500 naming the missing row. */
  lemma ImageHeaderOnlyOnSuccess(t: Tables, fault: Option<string>, q: Query)
    requires UniqueBannerUrls(t.banners)
    ensures var resp := ImageResponse(t, fault, q);
      ("Content-Type" in resp.header <==> resp.status == StatusOK) &&
      (resp.status == StatusOK <==> fault.None? && exists b | b in t.banners :: b.url == Get(q, "url")) &&
      (forall b | b in t.banners && b.url == Get(q, "url") && fault.None? :: resp.body == [Bytes(b.image)]) &&
      ((fault.None? && forall b | b in t.banners :: b.url != Get(q, "url")) ==>
        resp == ErrorResponse("GetBannerURLs: " + Storage.NoRowsCause))
  {
    forall b | b in t.banners && b.url == Get(q, "url") && fault.None?
      ensures ImageResponse(t, fault, q).body == [Bytes(b.image)]
    {
      Storage.ImageOfUniqueUrl(t.banners, b);
    }
  }

  // --------------------------------------------------------------- promotions

  /** Which storage method a promotions request calls, with its arguments in
      the storage method's parameter order. */
  datatype PromotionCall = ByGeo(long: Float, lat: Float) | ByPartner(partner: int)

  /** The dispatch of `GetPromotions`: geo mode exactly when both parsed
      coordinates are non-zero. The parsed latitude is passed first, into
      the parameter named `long`. */
  function Dispatch(q: Query, parseFloat: string -> Float): (call: PromotionCall)
    ensures call.ByGeo? <==> !parseFloat(Get(q, "lat")).IsZero() && !parseFloat(Get(q, "long")).IsZero()
    ensures call.ByGeo? ==> call.long == parseFloat(Get(q, "lat")) && call.lat == parseFloat(Get(q, "long"))
    ensures call.ByPartner? ==> call.partner == Atoi(Get(q, "partner"))
  {
    var partner := Atoi(Get(q, "partner"));
    var latitude := parseFloat(Get(q, "lat"));
    var longitude := parseFloat(Get(q, "long"));
    if !latitude.IsZero() && !longitude.IsZero() then ByGeo(latitude, longitude) else ByPartner(partner)
  }

  function Promotions(t: Tables, fault: Option<string>, call: PromotionCall,
                      distance: (Point, Point) -> real): Result<seq<Storage.Promotion>> {
    match call
    case ByGeo(long, lat) => Storage.GetPromotionsByGeo(t, fault, long, lat, distance)
    case ByPartner(p) => Storage.GetPromotionsByPartner(t, fault, p)
  }

  /** A healthy store answers 200 unless a by-partner request's partner id
      is outside the int range; the body is the dispatched query's rows. */
  function PromotionsResponse(t: Tables, fault: Option<string>, q: Query, parseFloat: string -> Float,
                              distance: (Point, Point) -> real): (resp: Response<Doc>)
    ensures resp.status == StatusOK <==>
      fault.None? && (Dispatch(q, parseFloat).ByGeo? || IsInt4(Atoi(Get(q, "partner"))))
    ensures resp.status == StatusOK && Dispatch(q, parseFloat).ByPartner? ==> (resp.body ==
      [Json(PromotionList(Storage.PromotionsByPartnerSQL(t.promotions, t.banners, Atoi(Get(q, "partner")))))])
    ensures resp.status == StatusOK && Dispatch(q, parseFloat).ByGeo? ==> (resp.body ==
      [Json(PromotionList(Storage.PromotionsByGeoSQL(t.promotions, t.partners, t.banners,
        Point(parseFloat(Get(q, "lat")), parseFloat(Get(q, "long"))), distance)))])
  {
    match Promotions(t, fault, Dispatch(q, parseFloat), distance)
    case Failure(e) => Envelope(Failure(e))
    case Success(ms) => Envelope(Success(PromotionList(ms)))
  }

  method GetPromotions(w: ResponseWriter<Doc>, t: Tables, fault: Option<string>, q: Query,
                       parseFloat: string -> Float, distance: (Point, Point) -> real)
    requires w.Pristine()
    modifies w
    ensures w.Observed() == PromotionsResponse(t, fault, q, parseFloat, distance)
  {
    var partner := Atoi(Get(q, "partner"));
    var latitude := parseFloat(Get(q, "lat"));
    var longitude := parseFloat(Get(q, "long"));
    var promotions: Result<seq<Storage.Promotion>>;
    if !latitude.IsZero() && !longitude.IsZero() {
      promotions := Storage.GetPromotionsByGeo(t, fault, latitude, longitude, distance);
    } else {
      promotions := Storage.GetPromotionsByPartner(t, fault, partner);
    }
    if promotions.Failure? {
      w.WriteHeader(StatusInternalServerError);
      w.Write(Text(promotions.error));
      return;
    }
    var doc := PromotionList(promotions.value);
    if Encodable(doc) {
      w.Write(Json(doc));
    }
  }

  /** Geo mode is chosen exactly when both coordinates parse to non-zero
      values, and then the `partner` parameter has no effect on the answer. */
  lemma GeoModeIgnoresPartner(t: Tables, fault: Option<string>, q: Query, parseFloat: string -> Float,
                              distance: (Point, Point) -> real, partner: seq<string>)
    ensures Dispatch(q, parseFloat).ByGeo? <==>
      !parseFloat(Get(q, "lat")).IsZero() && !parseFloat(Get(q, "long")).IsZero()
    ensures Dispatch(q, parseFloat).ByGeo? ==>
      PromotionsResponse(t, fault, q, parseFloat, distance) ==
      PromotionsResponse(t, fault, q["partner" := partner], parseFloat, distance)
  {
    var q' := q["partner" := partner];
    assert Get(q', "lat") == Get(q, "lat") && Get(q', "long") == Get(q, "long");
  }

  /** Otherwise the by-partner query runs with the parsed partner id, and the
      coordinates have no further effect: the answer is the one for the same
      request without coordinates, given that an empty text parses to 0. */
  lemma PartnerModeIgnoresCoordinates(t: Tables, fault: Option<string>, q: Query, parseFloat: string -> Float,
                                      distance: (Point, Point) -> real)
    requires parseFloat("") == Finite(0.0)
    requires parseFloat(Get(q, "lat")).IsZero() || parseFloat(Get(q, "long")).IsZero()
    ensures Dispatch(q, parseFloat) == ByPartner(Atoi(Get(q, "partner")))
    ensures PromotionsResponse(t, fault, q, parseFloat, distance) ==
      PromotionsResponse(t, fault, q - {"lat", "long"}, parseFloat, distance)
  {
    var q' := q - {"lat", "long"};
    assert Get(q', "lat") == "" && Get(q', "partner") == Get(q, "partner");
  }

  /** In geo mode the reference point is (latitude, longitude), the same
      coordinate order as a partner's stored location, whose first component
      the partners query reports as its latitude. */
  lemma GeoPointIsLatitudeFirst(t: Tables, fault: Option<string>, q: Query, parseFloat: string -> Float,
                                distance: (Point, Point) -> real)
    requires Dispatch(q, parseFloat).ByGeo?
    ensures Promotions(t, fault, Dispatch(q, parseFloat), distance).Success? ==>
      Promotions(t, fault, Dispatch(q, parseFloat), distance).value ==
      Storage.PromotionsByGeoSQL(t.promotions, t.partners, t.banners,
        Point(parseFloat(Get(q, "lat")), parseFloat(Get(q, "long"))), distance)
    ensures forall p | p in t.partners :: Storage.PartnerJoin(p, t.banners)[0].latitude == p.location.x
  {
  }

  /** A request with no usable parameters lists every promotion: a missing or
      unparsable `partner` that does not begin with digits above MaxUint64
      reads as 0, which switches the filter off. */
  lemma DefaultRequestListsAllPromotions(t: Tables, q: Query, parseFloat: string -> Float,
                                         distance: (Point, Point) -> real)
    requires parseFloat("") == Finite(0.0) && "lat" !in q
    requires !IsSignedDecimal(Get(q, "partner")) && !LeadingRunOverflows(Get(q, "partner"))
    ensures PromotionsResponse(t, None, q, parseFloat, distance) ==
      Response(StatusOK, map[], [Json(PromotionList(Storage.AllPromotions(t.promotions, t.banners)))])
  {
    AtoiDefaultsToZero(Get(q, "partner"));
    Storage.ByPartnerZeroIsAll(t.promotions, t.banners);
  }

  /** Every storage failure reaches the client as a 500 whose body is the
      storage method's label followed by the cause, with no JSON. */
  lemma StoreFaultIs500(t: Tables, e: string, q: Query, parseFloat: string -> Float, distance: (Point, Point) -> real)
    ensures CategoriesResponse(t, Some(e), q) == ErrorResponse("GetCategories: " + e)
    ensures PartnersResponse(t, Some(e)) == ErrorResponse("GetPartners: " + e)
    ensures ImageResponse(t, Some(e), q) == ErrorResponse("GetBannerURLs: " + e)
    ensures PromotionsResponse(t, Some(e), q, parseFloat, distance) ==
      ErrorResponse(if Dispatch(q, parseFloat).ByGeo? then "GetPromotionsByGeo: " + e else "GetPromotionsByPartner: " + e)
  {
  }

  /** `GetPromotions` over the storage methods as written. */
  function PromotionsResponseAsWritten(t: Tables, fault: Option<string>, q: Query, parseFloat: string -> Float,
                                       distance: (Point, Point) -> real): (resp: Response<Doc>)
    ensures resp.status == StatusInternalServerError
    ensures |resp.body| == 1 && resp.body[0].Text?
  {
    var r := match Dispatch(q, parseFloat)
      case ByGeo(long, lat) => Storage.GetPromotionsByGeoAsWritten(t, fault, long, lat, distance)
      case ByPartner(p) => Storage.GetPromotionsByPartnerAsWritten(t, fault, p);
    match r
    case Failure(e) => Envelope(Failure(e))
    case Success(ms) => Envelope(Success(PromotionList(ms)))
  }

  /** As written, every promotions request is answered with 500, even on a
      healthy store, where the corrected handler answers 200. */
  lemma PromotionsAsWrittenAlways500(t: Tables, q: Query, parseFloat: string -> Float, distance: (Point, Point) -> real)
    ensures PromotionsResponseAsWritten(t, None, q, parseFloat, distance).status == StatusInternalServerError
    ensures IsInt4(Atoi(Get(q, "partner"))) ==> PromotionsResponse(t, None, q, parseFloat, distance).status == StatusOK
  {
  }
}
