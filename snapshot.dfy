/**
  The earlier snapshot of the service in main.go. Its partners query has no
  join; instead `GetBannerURLs` reads every banner's URL and partner id and
  groups them into a map in a loop, and `GetPartners` runs both reads, then
  writes each partner's `BannerURLs` field in place.

  In this snapshot the banner table's promotion column is named `action_id`;
  only `url` and `partner_id` are read, so the shared row type serves. The
  category seed, the category query and the image lookup are the same SQL as
  in storage.go and are modelled once, in the Schema and Storage modules.
*/
module Snapshot {
  import opened Values
  import opened Schema
  import opened Http
  import Storage

  /** Go struct `Partner` of this snapshot: no URL column, a list of URLs
      filled in after the query. */
  datatype Partner = Partner(id: int, headline: string, description: string, latitude: Float,
                             longitude: Float, priceLevel: int, bannerURLs: seq<string>)

  /** Go struct `HeadlineBanner` as `bannerURLsSQL` fills it. */
  datatype HeadlineBanner = HeadlineBanner(url: string, partnerID: int)

  /** `partnersSQL` of this snapshot: one row per partner; a NULL price
      level scans as 0 and the URL list starts out empty. */
  function PartnersSQL(partners: seq<PartnerRow>): (r: seq<Partner>)
    ensures |r| == |partners|
    ensures forall i | 0 <= i < |r| ::
      r[i].id == partners[i].id && r[i].headline == partners[i].headline &&
      r[i].description == partners[i].description &&
      r[i].latitude == partners[i].location.x && r[i].longitude == partners[i].location.y &&
      r[i].priceLevel == (if partners[i].priceLevel.Some? then partners[i].priceLevel.value else 0) &&
      r[i].bannerURLs == []
  {
    seq(|partners|, i requires 0 <= i < |partners| =>
      Partner(partners[i].id, partners[i].headline, partners[i].description,
              partners[i].location.x, partners[i].location.y,
              Storage.PriceLevelOrZero(partners[i]), []))
  }

  /** `Storage.GetPartners` of this snapshot. */
  function GetPartnerRows(t: Tables, fault: Option<string>): (r: Result<seq<Partner>>)
    ensures r.Success? <==> fault.None?
    ensures fault.Some? ==> r == Failure("GetPartners: " + fault.value)
    ensures r.Success? ==> r.value == PartnersSQL(t.partners)
  {
    if fault.Some? then Failure("GetPartners: " + fault.value) else Success(PartnersSQL(t.partners))
  }

  /** `bannerURLsSQL` scanned into `HeadlineBanner`: a NULL `partner_id`
      becomes Go's zero value. */
  function ScanBanners(banners: seq<BannerRow>): (r: seq<HeadlineBanner>)
    ensures |r| == |banners|
    ensures forall i | 0 <= i < |r| ::
      (r[i].url == banners[i].url &&
       r[i].partnerID == (if banners[i].partnerId.Some? then banners[i].partnerId.value else 0))
  {
    seq(|banners|, i requires 0 <= i < |banners| =>
      HeadlineBanner(banners[i].url, if banners[i].partnerId.Some? then banners[i].partnerId.value else 0))
  }

  /** Reading a Go map: the stored list, or the nil (empty) slice for a
      missing key. */
  function Lookup(m: map<int, seq<string>>, k: int): seq<string> {
    if k in m then m[k] else []
  }

  /** The map the grouping loop has built after the banners `bs`, one
      `append` at a time. */
  function Grouped(bs: seq<HeadlineBanner>): (m: map<int, seq<string>>)
    ensures forall i | 0 <= i < |bs| :: bs[i].partnerID in m
    ensures forall k | k in m :: m[k] != []
    decreases |bs|
  {
    if bs == [] then map[]
    else
      var m := Grouped(bs[..|bs| - 1]);
      var b := bs[|bs| - 1];
      m[b.partnerID := Lookup(m, b.partnerID) + [b.url]]
  }

  /** The URLs of the banners of partner `k`, in input order. */
  function URLsOf(bs: seq<HeadlineBanner>, k: int): (urls: seq<string>)
    ensures |urls| <= |bs|
    decreases |bs|
  {
    if bs == [] then []
    else URLsOf(bs[..|bs| - 1], k) + (if bs[|bs| - 1].partnerID == k then [bs[|bs| - 1].url] else [])
  }

  /** `Storage.GetBannerURLs`: scan, then group the URLs by partner id. */
  method GetBannerURLs(t: Tables, fault: Option<string>) returns (r: Result<map<int, seq<string>>>)
    ensures fault.Some? ==> r == Failure("GetBannerURLs: " + fault.value)
    ensures fault.None? ==> r == Success(Grouped(ScanBanners(t.banners)))
  {
    if fault.Some? {
      return Failure("GetBannerURLs: " + fault.value);
    }
    var banners := ScanBanners(t.banners);
    var bannersMap: map<int, seq<string>> := map[];
    var i := 0;
    while i < |banners|
      invariant 0 <= i <= |banners|
      invariant bannersMap == Grouped(banners[..i])
    {
      var b := banners[i];
      assert banners[..i + 1][..i] == banners[..i];
      bannersMap := bannersMap[b.partnerID := Lookup(bannersMap, b.partnerID) + [b.url]];
      i := i + 1;
    }
    assert banners[..|banners|] == banners;
    return Success(bannersMap);
  }

  /** Each key's list is exactly the URLs of that partner's banners, in
      input order, and a key is present exactly when it has a banner. */
  lemma {:induction false} GroupedIsFilter(bs: seq<HeadlineBanner>, k: int)
    ensures Lookup(Grouped(bs), k) == URLsOf(bs, k)
    ensures k in Grouped(bs) <==> exists i | 0 <= i < |bs| :: bs[i].partnerID == k
    decreases |bs|
  {
    if bs != [] {
      var init := bs[..|bs| - 1];
      GroupedIsFilter(init, k);
      assert forall i | 0 <= i < |init| :: init[i] == bs[i];
    }
  }

  lemma EmptyWithoutElements(keys: set<int>)
    requires forall k :: k !in keys
    ensures keys == {}
  {
    assert forall k :: k in keys <==> k in {};
  }

  lemma NonEmptyHasElement(keys: set<int>)
    requires keys != {}
    ensures exists k :: k in keys
  {
    if forall k :: k !in keys {
      EmptyWithoutElements(keys);
    }
  }

  /** The number of URLs listed under the keys `keys` of `m`. */
  ghost function TotalOver(m: map<int, seq<string>>, keys: set<int>): nat
    requires keys <= m.Keys
    decreases keys
  {
    if keys == {} then 0
    else
      NonEmptyHasElement(keys);
      var k :| k in keys;
      |m[k]| + TotalOver(m, keys - {k})
  }

  /** The number of URLs held in a map of lists. */
  ghost function Total(m: map<int, seq<string>>): nat {
    TotalOver(m, m.Keys)
  }

  lemma {:induction false} TotalOverRemove(m: map<int, seq<string>>, keys: set<int>, k: int)
    requires keys <= m.Keys && k in keys
    ensures TotalOver(m, keys) == |m[k]| + TotalOver(m, keys - {k})
    decreases keys
  {
    var k' :| k' in keys && TotalOver(m, keys) == |m[k']| + TotalOver(m, keys - {k'});
    if k' != k {
      TotalOverRemove(m, keys - {k'}, k);
      TotalOverRemove(m, keys - {k}, k');
      assert keys - {k'} - {k} == keys - {k} - {k'};
    }
  }

  lemma {:induction false} TotalOverAgree(m: map<int, seq<string>>, m': map<int, seq<string>>, keys: set<int>)
    requires keys <= m.Keys && keys <= m'.Keys
    requires forall k | k in keys :: |m[k]| == |m'[k]|
    ensures TotalOver(m, keys) == TotalOver(m', keys)
    decreases keys
  {
    if keys != {} {
      NonEmptyHasElement(keys);
      var k :| k in keys;
      TotalOverRemove(m, keys, k);
      TotalOverRemove(m', keys, k);
      TotalOverAgree(m, m', keys - {k});
    }
  }

  /** The loop drops and duplicates nothing: the lists hold as many URLs as
      there were banner rows. */
  lemma {:induction false} GroupedTotal(bs: seq<HeadlineBanner>)
    ensures Total(Grouped(bs)) == |bs|
    decreases |bs|
  {
    if bs != [] {
      var m := Grouped(bs[..|bs| - 1]);
      var b := bs[|bs| - 1];
      var p := b.partnerID;
      var m' := m[p := Lookup(m, p) + [b.url]];
      GroupedTotal(bs[..|bs| - 1]);
      TotalOverRemove(m', m'.Keys, p);
      TotalOverAgree(m, m', m.Keys - {p});
      if p in m {
        TotalOverRemove(m, m.Keys, p);
        assert m'.Keys - {p} == m.Keys - {p};
      } else {
        assert m'.Keys - {p} == m.Keys - {p} == m.Keys;
      }
    }
  }

  /** Banners without a partner are listed under partner id 0. */
  lemma UnownedBannersUnderZero(banners: seq<BannerRow>, b: BannerRow)
    requires b in banners && b.partnerId.None?
    ensures b.url in Lookup(Grouped(ScanBanners(banners)), 0)
  {
    var bs := ScanBanners(banners);
    var i :| 0 <= i < |banners| && banners[i] == b;
    GroupedIsFilter(bs, 0);
    URLsOfHas(bs, i);
  }

  lemma {:induction false} URLsOfHas(bs: seq<HeadlineBanner>, i: int)
    requires 0 <= i < |bs|
    ensures bs[i].url in URLsOf(bs, bs[i].partnerID)
    decreases |bs|
  {
    if i < |bs| - 1 {
      URLsOfHas(bs[..|bs| - 1], i);
    }
  }

  /** The partners after the merge loop: with a map, each partner's URL list
      is replaced by the map's list for its id; with a nil map, nothing changes. */
  function Merged(ps: seq<Partner>, banners: Option<map<int, seq<string>>>): (r: seq<Partner>)
    ensures |r| == |ps|
    ensures forall i | 0 <= i < |r| ::
      r[i] == ps[i].(bannerURLs := if banners.Some? then Lookup(banners.value, ps[i].id) else ps[i].bannerURLs)
  {
    if banners.None? then ps
    else seq(|ps|, i requires 0 <= i < |ps| => ps[i].(bannerURLs := Lookup(banners.value, ps[i].id)))
  }

  /** The merge loop of `Application.GetPartners`, on the partners slice. */
  method MergeBannerURLs(partners: array<Partner>, banners: Option<map<int, seq<string>>>)
    modifies partners
    ensures partners[..] == Merged(old(partners[..]), banners)
  {
    if banners.Some? {
      var i := 0;
      while i < partners.Length
        invariant 0 <= i <= partners.Length
        invariant forall j | 0 <= j < i :: partners[j] == old(partners[j]).(bannerURLs := Lookup(banners.value, old(partners[j]).id))
        invariant forall j | i <= j < partners.Length :: partners[j] == old(partners[j])
      {
        partners[i] := partners[i].(bannerURLs := Lookup(banners.value, partners[i].id));
        i := i + 1;
      }
    }
  }

  /** The two reads of `Application.GetPartners` run in an errgroup;
      `Wait` reports the first error to occur. When both fail, which one
      that is depends on scheduling, given here as `bannersFirst`. */
  function WaitError(partners: Result<seq<Partner>>, banners: Result<map<int, seq<string>>>, bannersFirst: bool): (e: Option<string>)
    ensures e.None? <==> partners.Success? && banners.Success?
    ensures e.Some? ==> (partners.Failure? && e.value == partners.error) || (banners.Failure? && e.value == banners.error)
  {
    if partners.Failure? && banners.Failure? then Some(if bannersFirst then banners.error else partners.error)
    else if partners.Failure? then Some(partners.error)
    else if banners.Failure? then Some(banners.error)
    else None
  }

  /** `json.Encoder.Encode` refuses NaN and the infinities before it writes
      anything. */
  predicate Encodable(ps: seq<Partner>) {
    forall i | 0 <= i < |ps| :: ps[i].latitude.Finite? && ps[i].longitude.Finite?
  }

  /** The merged list can be encoded exactly when every stored location is
      finite: neither the scan nor the merge touches a coordinate. */
  lemma MergedEncodableIffFinite(t: Tables, banners: Option<map<int, seq<string>>>)
    ensures Encodable(Merged(PartnersSQL(t.partners), banners)) <==> FiniteLocations(t.partners)
  {
    var ps := Merged(PartnersSQL(t.partners), banners);
    if !FiniteLocations(t.partners) {
      var p :| p in t.partners && !(p.location.x.Finite? && p.location.y.Finite?);
      var i :| 0 <= i < |t.partners| && t.partners[i] == p;
      assert !(ps[i].latitude.Finite? && ps[i].longitude.Finite?);
    }
  }

  /** The response of `Application.GetPartners` in this snapshot: 200 exactly
      when both reads succeed, with one list of as many partners as rows
      when every location is finite and with an empty body otherwise, since
      the encoder's error is dropped. */
  function PartnersResponse(t: Tables, partnersFault: Option<string>, bannersFault: Option<string>,
                            bannersFirst: bool): (resp: Response<seq<Partner>>)
    ensures resp.status == StatusOK <==> partnersFault.None? && bannersFault.None?
    ensures resp.status == StatusOK && FiniteLocations(t.partners) ==>
      |resp.body| == 1 && resp.body[0].Json? && |resp.body[0].doc| == |t.partners|
    ensures resp.status == StatusOK && FiniteLocations(t.partners) ==>
      resp == Response(StatusOK, map[], [Json(Merged(PartnersSQL(t.partners), Some(Grouped(ScanBanners(t.banners)))))])
    ensures resp.status == StatusOK && !FiniteLocations(t.partners) ==> resp.body == []
    ensures resp.status != StatusOK ==> resp.status == StatusInternalServerError && |resp.body| == 1 && resp.body[0].Text?
  {
    var partners := GetPartnerRows(t, partnersFault);
    var banners := if bannersFault.Some? then Failure("GetBannerURLs: " + bannersFault.value)
                   else Success(Grouped(ScanBanners(t.banners)));
    match WaitError(partners, banners, bannersFirst)
    case Some(e) => ErrorResponse(e)
    case None =>
      MergedEncodableIffFinite(t, Some(banners.value));
      var doc := Merged(partners.value, Some(banners.value));
      Response(StatusOK, map[], if Encodable(doc) then [Json(doc)] else [])
  }

  method GetPartners(w: ResponseWriter<seq<Partner>>, t: Tables, partnersFault: Option<string>,
                     bannersFault: Option<string>, bannersFirst: bool)
    requires w.Pristine()
    modifies w
    ensures w.Observed() == PartnersResponse(t, partnersFault, bannersFault, bannersFirst)
  {
    var partners := GetPartnerRows(t, partnersFault);
    var banners := GetBannerURLs(t, bannersFault);
    var err := WaitError(partners, banners, bannersFirst);
    if err.Some? {
      w.WriteHeader(StatusInternalServerError);
      w.Write(Text(err.value));
      return;
    }
    var ps := partners.value;
    var slice := new Partner[|ps|](i requires 0 <= i < |ps| => ps[i]);
    assert slice[..] == ps;
    MergeBannerURLs(slice, Some(banners.value));
    if Encodable(slice[..]) {
      w.Write(Json(slice[..]));
    }
  }

  /** If either read fails, the answer is a 500 carrying one of the failed
      reads' error texts and no partner list; otherwise, when every location
      is finite, it is one JSON list holding every partner once, in table
      order, with every field of its row and its banners' URLs. */
  lemma PartnersFailureIs500(t: Tables, partnersFault: Option<string>, bannersFault: Option<string>, bannersFirst: bool)
    ensures var resp := PartnersResponse(t, partnersFault, bannersFault, bannersFirst);
      (resp.status == StatusInternalServerError <==> partnersFault.Some? || bannersFault.Some?) &&
      (resp.status == StatusInternalServerError ==>
        (partnersFault.Some? && resp.body == [Text("GetPartners: " + partnersFault.value)]) ||
        (bannersFault.Some? && resp.body == [Text("GetBannerURLs: " + bannersFault.value)]))
    ensures partnersFault.None? && bannersFault.None? && FiniteLocations(t.partners) ==>
      var resp := PartnersResponse(t, partnersFault, bannersFault, bannersFirst);
      |resp.body| == 1 && resp.body[0].Json? && |resp.body[0].doc| == |t.partners| &&
      forall i | 0 <= i < |t.partners| :: resp.body[0].doc[i].id == t.partners[i].id &&
        resp.body[0].doc[i] == PartnersSQL(t.partners)[i].(bannerURLs := URLsOf(ScanBanners(t.banners), t.partners[i].id))
  {
    if partnersFault.None? && bannersFault.None? {
      var bs := ScanBanners(t.banners);
      forall i | 0 <= i < |t.partners| ensures Lookup(Grouped(bs), t.partners[i].id) == URLsOf(bs, t.partners[i].id) {
        GroupedIsFilter(bs, t.partners[i].id);
      }
    }
  }
}
