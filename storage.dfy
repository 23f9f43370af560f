/**
  The query repository of storage.go: each SQL text as a function over the
  in-memory tables, and each `Storage` method as the query plus its error
  wrapping. A per-call `fault` stands for a failing store (connection loss,
  a driver error); a `?::int` parameter outside PostgreSQL's int range is a
  query error too. gorm scans a NULL column into the field's zero value, so a
  left join without a match yields the URL "" and a NULL price level yields 0.

  The store leaves row order unspecified for every query but the geo one; the
  model produces one admissible order (left table first, then joined rows in
  table order) and the lemmas speak of membership and multiplicity only.
*/
module Storage {
  import opened Values
  import opened Schema
  import Ranking

  /** Go struct `Category`, one row of `categoriesSQL`. */
  datatype Category = Category(id: int, name: string, url: string)

  /** Go struct `Partner`, one row of `partnersSQL`. */
  datatype Partner = Partner(id: int, headline: string, description: string, latitude: Float,
                             longitude: Float, priceLevel: int, bannerURL: string)

  /** Go struct `Promotion`, one row of either promotion query. */
  datatype Promotion = Promotion(id: int, title: string, description: string, url: string)

  /** The nullable `headline_banner` column a join matches on. */
  datatype Link = CategoryLink | PartnerLink | PromotionLink

  function LinkOf(b: BannerRow, link: Link): Option<int> {
    match link
    case CategoryLink => b.categoryId
    case PartnerLink => b.partnerId
    case PromotionLink => b.promotionId
  }

  /** The URLs of the banner rows whose `link` column equals `id`, in table order. */
  function BannerURLs(banners: seq<BannerRow>, link: Link, id: int): (urls: seq<string>)
    ensures |urls| == Count(banners, (b: BannerRow) => LinkOf(b, link) == Some(id))
    ensures forall u :: u in urls <==> exists b | b in banners :: LinkOf(b, link) == Some(id) && b.url == u
    decreases |banners|
  {
    if banners == [] then []
    else
      var rest := BannerURLs(banners[1..], link, id);
      assert forall b | b in banners :: b == banners[0] || b in banners[1..];
      if LinkOf(banners[0], link) == Some(id) then [banners[0].url] + rest else rest
  }

  /** The right side of a LEFT JOIN: the matching URLs, or a single NULL
      (scanned as "") when nothing matches. */
  function OrNull(urls: seq<string>): (r: seq<string>)
    ensures |r| == if urls == [] then 1 else |urls|
    ensures forall u :: u in r <==> u in urls || (urls == [] && u == "")
  {
    if urls == [] then [""] else urls
  }

  // ---------------------------------------------------------------- categories

  function CategoryItems(c: CategoryRow, urls: seq<string>): (r: seq<Category>)
    ensures |r| == |urls|
    ensures forall x :: x in r <==> x.id == c.id && x.name == c.name && x.url in urls
  {
    var r := seq(|urls|, i requires 0 <= i < |urls| => Category(c.id, c.name, urls[i]));
    assert forall u | u in urls :: Category(c.id, c.name, u) in r by {
      forall u | u in urls ensures Category(c.id, c.name, u) in r {
        var i :| 0 <= i < |urls| && urls[i] == u;
        assert r[i] == Category(c.id, c.name, u);
      }
    }
    r
  }

  /** The rows `category left join headline_banner on category.id =
      headline_banner.category_id` contributes for one category. */
  function CategoryJoin(c: CategoryRow, banners: seq<BannerRow>): seq<Category> {
    CategoryItems(c, OrNull(BannerURLs(banners, CategoryLink, c.id)))
  }

  /** `categoriesSQL` with `parent_id = parentId`; a NULL `parent_id` never matches. */
  function CategoriesSQL(categories: seq<CategoryRow>, banners: seq<BannerRow>, parentId: int): (r: seq<Category>)
    ensures |r| >= Count(categories, (c: CategoryRow) => c.parentId == Some(parentId))
    decreases |categories|
  {
    if categories == [] then []
    else
      var c := categories[0];
      var part := if c.parentId == Some(parentId) then CategoryJoin(c, banners) else [];
      part + CategoriesSQL(categories[1..], banners, parentId)
  }

  /** A row is in the result exactly when it comes from a category whose
      parent is `parentId`, joined with one of its banners or, when it has
      none, with the empty URL. */
  lemma {:induction false} CategoriesMembership(categories: seq<CategoryRow>, banners: seq<BannerRow>, parentId: int, x: Category)
    ensures x in CategoriesSQL(categories, banners, parentId) <==>
      exists c | c in categories :: c.parentId == Some(parentId) && x in CategoryJoin(c, banners)
    decreases |categories|
  {
    if categories != [] {
      CategoriesMembership(categories[1..], banners, parentId, x);
      assert forall c | c in categories :: c == categories[0] || c in categories[1..];
    }
  }

  /** With primary keys distinct, a category under `parentId` appears once
      per matching banner and once (with URL "") when it has none; any other
      category does not appear. */
  lemma {:induction false} CategoriesMultiplicity(categories: seq<CategoryRow>, banners: seq<BannerRow>, parentId: int, c: CategoryRow)
    requires UniqueCategoryIds(categories) && c in categories
    ensures var k := |BannerURLs(banners, CategoryLink, c.id)|;
      Count(CategoriesSQL(categories, banners, parentId), (x: Category) => x.id == c.id)
        == if c.parentId != Some(parentId) then 0 else if k == 0 then 1 else k
    decreases |categories|
  {
    var isC := (x: Category) => x.id == c.id;
    var head := categories[0];
    var part := if head.parentId == Some(parentId) then CategoryJoin(head, banners) else [];
    CountAppend(part, CategoriesSQL(categories[1..], banners, parentId), isC);
    if head == c {
      CountAll(part, isC);
      assert forall d | d in categories[1..] :: d.id != c.id by {
        forall d | d in categories[1..] ensures d.id != c.id {
          var k :| 0 <= k < |categories[1..]| && categories[1..][k] == d;
          assert categories[k + 1] == d;
        }
      }
      NoOtherCategory(categories[1..], banners, parentId, c.id);
    } else {
      assert head.id != c.id by {
        var k :| 0 <= k < |categories| && categories[k] == c;
        assert k != 0;
      }
      CountNone(part, isC);
      assert UniqueCategoryIds(categories[1..]) by {
        forall i, j | 0 <= i < j < |categories[1..]| ensures categories[1..][i].id != categories[1..][j].id {
          assert categories[1..][i] == categories[i + 1] && categories[1..][j] == categories[j + 1];
        }
      }
      CategoriesMultiplicity(categories[1..], banners, parentId, c);
    }
  }

  lemma {:induction false} NoOtherCategory(categories: seq<CategoryRow>, banners: seq<BannerRow>, parentId: int, id: int)
    requires forall d | d in categories :: d.id != id
    ensures Count(CategoriesSQL(categories, banners, parentId), (x: Category) => x.id == id) == 0
    decreases |categories|
  {
    if categories != [] {
      var head := categories[0];
      var part := if head.parentId == Some(parentId) then CategoryJoin(head, banners) else [];
      CountAppend(part, CategoriesSQL(categories[1..], banners, parentId), (x: Category) => x.id == id);
      CountNone(part, (x: Category) => x.id == id);
      NoOtherCategory(categories[1..], banners, parentId, id);
    }
  }

  lemma {:induction false} CategoriesAppend(a: seq<CategoryRow>, b: seq<CategoryRow>, banners: seq<BannerRow>, parentId: int)
    ensures CategoriesSQL(a + b, banners, parentId) == CategoriesSQL(a, banners, parentId) + CategoriesSQL(b, banners, parentId)
    decreases |a|
  {
    if a == [] {
      assert a + b == b;
    } else {
      assert (a + b)[0] == a[0] && (a + b)[1..] == a[1..] + b;
      CategoriesAppend(a[1..], b, banners, parentId);
    }
  }

  /** With no banners at all, each child is listed once with the empty URL. */
  lemma NoBannerStep(rows: seq<CategoryRow>, parentId: int)
    requires rows != []
    ensures CategoriesSQL(rows, [], parentId) ==
      (if rows[0].parentId == Some(parentId) then [Category(rows[0].id, rows[0].name, "")] else [])
      + CategoriesSQL(rows[1..], [], parentId)
  {
    assert CategoryJoin(rows[0], []) == [Category(rows[0].id, rows[0].name, "")];
  }

  lemma {:induction false} NoChildren(rows: seq<CategoryRow>, banners: seq<BannerRow>, parentId: int)
    requires forall i | 0 <= i < |rows| :: rows[i].parentId != Some(parentId)
    ensures CategoriesSQL(rows, banners, parentId) == []
    decreases |rows|
  {
    if rows != [] {
      assert forall i | 0 <= i < |rows[1..]| :: rows[1..][i] == rows[i + 1];
      NoChildren(rows[1..], banners, parentId);
    }
  }

  /** Root's last three children in the seed, with no banners. */
  lemma SeedChildrenFrom4(head: seq<CategoryRow>)
    requires head == SeedCategories[..7]
    ensures CategoriesSQL(head[4..], [], 0) == [
      Category(4, "Entertainment", ""), Category(5, "Transport", ""), Category(6, "Health & Beauty", "")]
  {
    var r6 := CategoriesSQL(head[6..], [], 0);
    NoBannerStep(head[6..], 0);
    assert head[6..][1..] == [];
    assert r6 == [Category(6, "Health & Beauty", "")];
    var r5 := CategoriesSQL(head[5..], [], 0);
    NoBannerStep(head[5..], 0);
    assert head[5..][1..] == head[6..];
    assert r5 == [Category(5, "Transport", "")] + r6;
    NoBannerStep(head[4..], 0);
    assert head[4..][1..] == head[5..];
  }

  /** Root's children from the second on, in the seed, with no banners. */
  lemma SeedChildrenFrom2(head: seq<CategoryRow>)
    requires head == SeedCategories[..7]
    ensures CategoriesSQL(head[2..], [], 0) == [
      Category(2, "Supermarkets", ""), Category(3, "Clothes & etc.", ""),
      Category(4, "Entertainment", ""), Category(5, "Transport", ""), Category(6, "Health & Beauty", "")]
  {
    var r4 := CategoriesSQL(head[4..], [], 0);
    SeedChildrenFrom4(head);
    var r3 := CategoriesSQL(head[3..], [], 0);
    NoBannerStep(head[3..], 0);
    assert head[3..][1..] == head[4..];
    assert r3 == [Category(3, "Clothes & etc.", "")] + r4;
    NoBannerStep(head[2..], 0);
    assert head[2..][1..] == head[3..];
  }

  /** The first seven seed rows (Root and its children), with no banners. */
  lemma SeedHeadChildren(head: seq<CategoryRow>)
    requires head == SeedCategories[..7]
    ensures CategoriesSQL(head, [], 0) == [
      Category(1, "Eating out", ""), Category(2, "Supermarkets", ""),
      Category(3, "Clothes & etc.", ""), Category(4, "Entertainment", ""),
      Category(5, "Transport", ""), Category(6, "Health & Beauty", "")]
  {
    var r2 := CategoriesSQL(head[2..], [], 0);
    SeedChildrenFrom2(head);
    var r1 := CategoriesSQL(head[1..], [], 0);
    NoBannerStep(head[1..], 0);
    assert head[1..][1..] == head[2..];
    assert r1 == [Category(1, "Eating out", "")] + r2;
    NoBannerStep(head, 0);
    assert head[0].parentId == None;
  }

  /** On a store holding just the seed and no banners, the children of Root
      are categories 1 to 6, each once and with an empty URL. */
  lemma SeedRootChildren()
    ensures CategoriesSQL(SeedCategories, [], 0) == [
      Category(1, "Eating out", ""), Category(2, "Supermarkets", ""),
      Category(3, "Clothes & etc.", ""), Category(4, "Entertainment", ""),
      Category(5, "Transport", ""), Category(6, "Health & Beauty", "")]
  {
    var s := SeedCategories;
    var head, tail := s[..7], s[7..];
    assert s == head + tail;
    CategoriesAppend(head, tail, [], 0);
    forall i | 0 <= i < |tail| ensures tail[i].parentId != Some(0) {
      SeedAt(i + 7);
    }
    NoChildren(tail, [], 0);
    SeedHeadChildren(head);
  }

  // ------------------------------------------------------------------ partners

  /** A NULL `price_level` scans into Go's `int8` zero value. */
  function PriceLevelOrZero(p: PartnerRow): int {
    if p.priceLevel.Some? then p.priceLevel.value else 0
  }

  function PartnerItems(p: PartnerRow, urls: seq<string>): (r: seq<Partner>)
    ensures |r| == |urls|
    ensures forall i | 0 <= i < |r| :: r[i] == Partner(p.id, p.headline, p.description,
      p.location.x, p.location.y, PriceLevelOrZero(p), urls[i])
  {
    seq(|urls|, i requires 0 <= i < |urls| =>
      Partner(p.id, p.headline, p.description, p.location.x, p.location.y, PriceLevelOrZero(p), urls[i]))
  }

  /** The rows `partner left join headline_banner on partner.id =
      headline_banner.partner_id` contributes for one partner; latitude is
      `location[0]` and longitude `location[1]`. */
  function PartnerJoin(p: PartnerRow, banners: seq<BannerRow>): seq<Partner> {
    PartnerItems(p, OrNull(BannerURLs(banners, PartnerLink, p.id)))
  }

  /** `partnersSQL`. */
  function PartnersSQL(partners: seq<PartnerRow>, banners: seq<BannerRow>): (r: seq<Partner>)
    ensures |r| >= |partners|
    decreases |partners|
  {
    if partners == [] then [] else PartnerJoin(partners[0], banners) + PartnersSQL(partners[1..], banners)
  }

  /** With primary keys distinct, every partner appears max(1, k) times,
      where k is the number of banners with its `partner_id`; with no banner
      it appears once with the empty URL. */
  lemma {:induction false} PartnersMultiplicity(partners: seq<PartnerRow>, banners: seq<BannerRow>, p: PartnerRow)
    requires UniquePartnerIds(partners) && p in partners
    ensures var k := |BannerURLs(banners, PartnerLink, p.id)|;
      Count(PartnersSQL(partners, banners), (x: Partner) => x.id == p.id) == if k == 0 then 1 else k
    ensures BannerURLs(banners, PartnerLink, p.id) == [] ==>
      Partner(p.id, p.headline, p.description, p.location.x, p.location.y, PriceLevelOrZero(p), "")
        in PartnersSQL(partners, banners)
    decreases |partners|
  {
    var isP := (x: Partner) => x.id == p.id;
    var head := partners[0];
    CountAppend(PartnerJoin(head, banners), PartnersSQL(partners[1..], banners), isP);
    if head == p {
      CountAll(PartnerJoin(head, banners), isP);
      NoOtherPartner(partners[1..], banners, p.id);
      if BannerURLs(banners, PartnerLink, p.id) == [] {
        assert PartnerJoin(head, banners)[0] in PartnersSQL(partners, banners);
      }
    } else {
      assert head.id != p.id by {
        var k :| 0 <= k < |partners| && partners[k] == p;
        assert k != 0;
      }
      CountNone(PartnerJoin(head, banners), isP);
      assert UniquePartnerIds(partners[1..]) by {
        forall i, j | 0 <= i < j < |partners[1..]| ensures partners[1..][i].id != partners[1..][j].id {
          assert partners[1..][i] == partners[i + 1] && partners[1..][j] == partners[j + 1];
        }
      }
      PartnersMultiplicity(partners[1..], banners, p);
    }
  }

  lemma {:induction false} NoOtherPartner(partners: seq<PartnerRow>, banners: seq<BannerRow>, id: int)
    requires forall j | 0 <= j < |partners| :: partners[j].id != id
    ensures Count(PartnersSQL(partners, banners), (x: Partner) => x.id == id) == 0
    decreases |partners|
  {
    if partners != [] {
      CountAppend(PartnerJoin(partners[0], banners), PartnersSQL(partners[1..], banners), (x: Partner) => x.id == id);
      CountNone(PartnerJoin(partners[0], banners), (x: Partner) => x.id == id);
      assert forall j | 0 <= j < |partners[1..]| :: partners[1..][j] == partners[j + 1];
      NoOtherPartner(partners[1..], banners, id);
    }
  }

  /** A row is in the result exactly when it comes from some partner joined
      with one of its banners or, when it has none, with the empty URL. */
  lemma {:induction false} PartnersMembership(partners: seq<PartnerRow>, banners: seq<BannerRow>, x: Partner)
    ensures x in PartnersSQL(partners, banners) <==> exists p | p in partners :: x in PartnerJoin(p, banners)
    decreases |partners|
  {
    if partners != [] {
      PartnersMembership(partners[1..], banners, x);
      assert forall p | p in partners :: p == partners[0] || p in partners[1..];
    }
  }

  // ---------------------------------------------------------------- promotions

  function PromotionItems(m: PromotionRow, urls: seq<string>): (r: seq<Promotion>)
    ensures |r| == |urls|
    ensures forall i | 0 <= i < |r| :: r[i] == Promotion(m.id, m.title, m.description, urls[i])
  {
    seq(|urls|, i requires 0 <= i < |urls| => Promotion(m.id, m.title, m.description, urls[i]))
  }

  /** The rows `promotion left join headline_banner on promotion.id =
      headline_banner.promotion_id` contributes for one promotion. */
  function PromotionJoin(m: PromotionRow, banners: seq<BannerRow>): seq<Promotion> {
    PromotionItems(m, OrNull(BannerURLs(banners, PromotionLink, m.id)))
  }

  /** The promotion/banner left join over the whole promotion table, unfiltered. */
  function AllPromotions(promotions: seq<PromotionRow>, banners: seq<BannerRow>): (r: seq<Promotion>)
    ensures |r| >= |promotions|
    decreases |promotions|
  {
    if promotions == [] then [] else PromotionJoin(promotions[0], banners) + AllPromotions(promotions[1..], banners)
  }

  /** `promotionByPartnerSQL`: `where ?::int = 0 OR promotion.partner_id = ?::int`. */
  function PromotionsByPartnerSQL(promotions: seq<PromotionRow>, banners: seq<BannerRow>, partner: int): (r: seq<Promotion>)
    ensures |r| >= Count(promotions, (m: PromotionRow) => partner == 0 || m.partnerId == partner)
    decreases |promotions|
  {
    if promotions == [] then []
    else
      var m := promotions[0];
      var part := if partner == 0 || m.partnerId == partner then PromotionJoin(m, banners) else [];
      part + PromotionsByPartnerSQL(promotions[1..], banners, partner)
  }

  /** Partner id 0 switches the filter off: every promotion is returned. */
  lemma {:induction false} ByPartnerZeroIsAll(promotions: seq<PromotionRow>, banners: seq<BannerRow>)
    ensures PromotionsByPartnerSQL(promotions, banners, 0) == AllPromotions(promotions, banners)
    decreases |promotions|
  {
    if promotions != [] {
      ByPartnerZeroIsAll(promotions[1..], banners);
    }
  }

  /** Any other partner id keeps exactly the promotions that partner owns. */
  lemma {:induction false} ByPartnerFilters(promotions: seq<PromotionRow>, banners: seq<BannerRow>, partner: int, x: Promotion)
    requires partner != 0
    ensures x in PromotionsByPartnerSQL(promotions, banners, partner) <==>
      exists m | m in promotions :: m.partnerId == partner && x in PromotionJoin(m, banners)
    decreases |promotions|
  {
    if promotions != [] {
      ByPartnerFilters(promotions[1..], banners, partner, x);
      assert forall m | m in promotions :: m == promotions[0] || m in promotions[1..];
    }
  }

  /** The sort keys `left join partner on promotion.partner_id = partner.id`
      yields for one promotion: the distance of each matching partner's
      location to `point`, or a single NULL when no partner matches. */
  function DistanceKeys(partners: seq<PartnerRow>, partnerId: int, point: Point, distance: (Point, Point) -> real): (keys: seq<Option<real>>)
    ensures keys != []
  {
    var matches := MatchingDistances(partners, partnerId, point, distance);
    if matches == [] then [None] else matches
  }

  function MatchingDistances(partners: seq<PartnerRow>, partnerId: int, point: Point, distance: (Point, Point) -> real): seq<Option<real>>
    decreases |partners|
  {
    if partners == [] then []
    else
      var rest := MatchingDistances(partners[1..], partnerId, point, distance);
      if partners[0].id == partnerId then [Some(distance(partners[0].location, point))] + rest else rest
  }

  lemma {:induction false} NoMatchingDistance(partners: seq<PartnerRow>, partnerId: int, point: Point, distance: (Point, Point) -> real)
    requires forall j | 0 <= j < |partners| :: partners[j].id != partnerId
    ensures MatchingDistances(partners, partnerId, point, distance) == []
    decreases |partners|
  {
    if partners != [] {
      assert forall j | 0 <= j < |partners[1..]| :: partners[1..][j] == partners[j + 1];
      NoMatchingDistance(partners[1..], partnerId, point, distance);
    }
  }

  /** With partner ids distinct, a promotion's partner join yields exactly
      one sort key: its partner's distance, or NULL when it has no partner. */
  lemma {:induction false} OneDistanceKey(partners: seq<PartnerRow>, partnerId: int, point: Point, distance: (Point, Point) -> real)
    requires UniquePartnerIds(partners)
    ensures |MatchingDistances(partners, partnerId, point, distance)| <= 1
    ensures |DistanceKeys(partners, partnerId, point, distance)| == 1
    decreases |partners|
  {
    if partners != [] {
      if partners[0].id == partnerId {
        forall j | 0 <= j < |partners[1..]| ensures partners[1..][j].id != partnerId {
          assert partners[1..][j] == partners[j + 1];
        }
        NoMatchingDistance(partners[1..], partnerId, point, distance);
      } else {
        assert UniquePartnerIds(partners[1..]) by {
          forall i, j | 0 <= i < j < |partners[1..]| ensures partners[1..][i].id != partners[1..][j].id {
            assert partners[1..][i] == partners[i + 1] && partners[1..][j] == partners[j + 1];
          }
        }
        OneDistanceKey(partners[1..], partnerId, point, distance);
      }
    }
  }

  /** With partner ids distinct, a promotion whose partner exists is ranked by
      that partner's distance to the point. */
  lemma {:induction false} DistanceKeyOfPartner(partners: seq<PartnerRow>, p: PartnerRow, point: Point, distance: (Point, Point) -> real)
    requires UniquePartnerIds(partners) && p in partners
    ensures DistanceKeys(partners, p.id, point, distance) == [Some(distance(p.location, point))]
    decreases |partners|
  {
    var rest := partners[1..];
    if partners[0] == p {
      forall j | 0 <= j < |rest| ensures rest[j].id != p.id {
        assert rest[j] == partners[j + 1];
      }
      NoMatchingDistance(rest, p.id, point, distance);
    } else {
      assert p in rest;
      assert UniquePartnerIds(rest) by {
        forall i, j | 0 <= i < j < |rest| ensures rest[i].id != rest[j].id {
          assert rest[i] == partners[i + 1] && rest[j] == partners[j + 1];
        }
      }
      assert partners[0].id != p.id by {
        var k :| 0 <= k < |rest| && rest[k] == p;
        assert partners[k + 1] == p;
      }
      DistanceKeyOfPartner(rest, p, point, distance);
      OneDistanceKey(rest, p.id, point, distance);
    }
  }

  /** A promotion whose partner id matches no partner gets a NULL distance. */
  lemma DistanceKeyWithoutPartner(partners: seq<PartnerRow>, partnerId: int, point: Point, distance: (Point, Point) -> real)
    requires forall p | p in partners :: p.id != partnerId
    ensures DistanceKeys(partners, partnerId, point, distance) == [None]
  {
    NoMatchingDistance(partners, partnerId, point, distance);
  }

  function RankAll(key: Option<real>, items: seq<Promotion>): (r: seq<Ranking.Ranked<Promotion>>)
    ensures Ranking.Unranked(r) == items
    ensures forall i | 0 <= i < |r| :: r[i].key == key
  {
    seq(|items|, i requires 0 <= i < |items| => Ranking.Ranked(key, items[i]))
  }

  lemma RankAllMembership(key: Option<real>, items: seq<Promotion>, x: Ranking.Ranked<Promotion>)
    ensures x in RankAll(key, items) <==> x.key == key && x.value in items
  {
    var r := RankAll(key, items);
    if x.key == key && x.value in items {
      var i :| 0 <= i < |items| && items[i] == x.value;
      assert Ranking.Unranked(r)[i] == r[i].value;
      assert r[i] == x;
    }
    if x in r {
      var i :| 0 <= i < |r| && r[i] == x;
      assert Ranking.Unranked(r)[i] == r[i].value;
    }
  }

  /** Each item once per key. */
  function RankEach(keys: seq<Option<real>>, items: seq<Promotion>): (r: seq<Ranking.Ranked<Promotion>>)
    ensures keys != [] ==> |r| >= |items|
    decreases |keys|
  {
    if keys == [] then [] else RankAll(keys[0], items) + RankEach(keys[1..], items)
  }

  /** The rows of `promotion left join partner left join headline_banner`
      before ordering, each with its sort key. */
  function GeoRows(promotions: seq<PromotionRow>, partners: seq<PartnerRow>, banners: seq<BannerRow>,
                   point: Point, distance: (Point, Point) -> real): (r: seq<Ranking.Ranked<Promotion>>)
    ensures |r| >= |promotions|
    decreases |promotions|
  {
    if promotions == [] then []
    else
      var m := promotions[0];
      RankEach(DistanceKeys(partners, m.partnerId, point, distance), PromotionJoin(m, banners))
      + GeoRows(promotions[1..], partners, banners, point, distance)
  }

  /** With partner ids distinct, a row of the geo join is a joined row of
      some promotion, carrying the distance key of that promotion's partner,
      and every such pair is a row. */
  lemma {:induction false} GeoRowMembership(promotions: seq<PromotionRow>, partners: seq<PartnerRow>, banners: seq<BannerRow>,
                                            point: Point, distance: (Point, Point) -> real, x: Ranking.Ranked<Promotion>)
    requires UniquePartnerIds(partners)
    ensures x in GeoRows(promotions, partners, banners, point, distance) <==>
      exists m | m in promotions :: x.value in PromotionJoin(m, banners) && x.key == DistanceKeys(partners, m.partnerId, point, distance)[0]
    decreases |promotions|
  {
    if promotions != [] {
      var m := promotions[0];
      var keys := DistanceKeys(partners, m.partnerId, point, distance);
      OneDistanceKey(partners, m.partnerId, point, distance);
      assert RankEach(keys, PromotionJoin(m, banners)) == RankAll(keys[0], PromotionJoin(m, banners)) + [];
      RankAllMembership(keys[0], PromotionJoin(m, banners), x);
      GeoRowMembership(promotions[1..], partners, banners, point, distance, x);
      assert forall n | n in promotions :: n == m || n in promotions[1..];
    }
  }

  /** `promotionByGeoSQL`: the joined rows ordered by distance to `point`,
      descending, NULL distances first. */
  function PromotionsByGeoSQL(promotions: seq<PromotionRow>, partners: seq<PartnerRow>, banners: seq<BannerRow>,
                              point: Point, distance: (Point, Point) -> real): (r: seq<Promotion>)
    ensures |r| >= |promotions|
    ensures multiset(r) == multiset(Ranking.Unranked(GeoRows(promotions, partners, banners, point, distance)))
  {
    Ranking.Unranked(Ranking.Sort(GeoRows(promotions, partners, banners, point, distance)))
  }

  /** Before ordering, and with partner ids distinct, the geo join holds the
      same rows in the same order as the unfiltered by-partner join: the
      partner join adds exactly one row per promotion (a NULL one when the
      partner is missing). */
  lemma {:induction false} GeoRowsAreAllPromotions(promotions: seq<PromotionRow>, partners: seq<PartnerRow>, banners: seq<BannerRow>,
                                                   point: Point, distance: (Point, Point) -> real)
    requires UniquePartnerIds(partners)
    ensures Ranking.Unranked(GeoRows(promotions, partners, banners, point, distance)) == AllPromotions(promotions, banners)
    decreases |promotions|
  {
    if promotions != [] {
      var m := promotions[0];
      var joined := PromotionJoin(m, banners);
      var keys := DistanceKeys(partners, m.partnerId, point, distance);
      OneDistanceKey(partners, m.partnerId, point, distance);
      assert RankEach(keys, joined) == RankAll(keys[0], joined) + [];
      var head := RankEach(keys, joined);
      var tail := GeoRows(promotions[1..], partners, banners, point, distance);
      assert Ranking.Unranked(head) == joined;
      GeoRowsAreAllPromotions(promotions[1..], partners, banners, point, distance);
      Ranking.UnrankedAppend(head, tail);
      assert GeoRows(promotions, partners, banners, point, distance) == head + tail;
    }
  }

  /** The geo query returns the rows of the by-partner query with partner id
      0, each as often, in distance order; each row is sorted by the distance
      key of the promotion it came from. */
  lemma GeoIsPermutationOfAll(t: Tables, point: Point, distance: (Point, Point) -> real)
    requires UniquePartnerIds(t.partners)
    ensures multiset(PromotionsByGeoSQL(t.promotions, t.partners, t.banners, point, distance))
         == multiset(PromotionsByPartnerSQL(t.promotions, t.banners, 0))
    ensures Ranking.SortedDesc(Ranking.Sort(GeoRows(t.promotions, t.partners, t.banners, point, distance)))
    ensures forall x | x in Ranking.Sort(GeoRows(t.promotions, t.partners, t.banners, point, distance)) ::
      exists m | m in t.promotions :: x.value in PromotionJoin(m, t.banners) && x.key == DistanceKeys(t.partners, m.partnerId, point, distance)[0]
  {
    var rows := GeoRows(t.promotions, t.partners, t.banners, point, distance);
    GeoRowsAreAllPromotions(t.promotions, t.partners, t.banners, point, distance);
    ByPartnerZeroIsAll(t.promotions, t.banners);
    Ranking.SortSorted(rows);
    forall x | x in Ranking.Sort(rows)
      ensures exists m | m in t.promotions :: x.value in PromotionJoin(m, t.banners) && x.key == DistanceKeys(t.partners, m.partnerId, point, distance)[0]
    {
      assert x in multiset(Ranking.Sort(rows));
      assert x in rows;
      GeoRowMembership(t.promotions, t.partners, t.banners, point, distance, x);
    }
  }

  // -------------------------------------------------------------------- images

  /** `bannerImagesSQL` read with `QueryRow`: the image of the first row whose
      URL equals `url`, or no row. */
  function ImageSQL(banners: seq<BannerRow>, url: string): (r: Option<seq<bv8>>)
    ensures r.None? <==> forall b | b in banners :: b.url != url
    ensures r.Some? ==> exists b | b in banners :: b.url == url && b.image == r.value
    decreases |banners|
  {
    if banners == [] then None
    else if banners[0].url == url then Some(banners[0].image)
    else
      assert forall b | b in banners :: b == banners[0] || b in banners[1..];
      ImageSQL(banners[1..], url)
  }

  /** The URL is the primary key, so a lookup that succeeds returns the image
      of the one row with that URL. */
  lemma ImageOfUniqueUrl(banners: seq<BannerRow>, b: BannerRow)
    requires UniqueBannerUrls(banners) && b in banners
    ensures ImageSQL(banners, b.url) == Some(b.image)
  {
    var r := ImageSQL(banners, b.url);
    var b' :| b' in banners && b'.url == b.url && b'.image == r.value;
    var i :| 0 <= i < |banners| && banners[i] == b;
    var j :| 0 <= j < |banners| && banners[j] == b';
    assert i == j;
  }

  // ------------------------------------------------------ the Storage methods


  /** The cause reported for a `?::int` parameter outside the int range (the
      driver's exact wording is not modelled). */
  const Int4RangeCause: string := "integer out of range"

  /** What `database/sql` reports when `QueryRow` finds no row. */
  const NoRowsCause: string := "sql: no rows in result set"

  /** The cause a query fails with, if any: the store's own fault first,
      then an int parameter the store cannot take. */
  function QueryFault(fault: Option<string>, intParam: int): (f: Option<string>)
    ensures f.None? <==> fault.None? && IsInt4(intParam)
    ensures fault.Some? ==> f == fault
  {
    if fault.Some? then fault
    else if !IsInt4(intParam) then Some(Int4RangeCause)
    else None
  }

  /** `Storage.GetCategories`. */
  function GetCategories(t: Tables, fault: Option<string>, parentId: int): (r: Result<seq<Category>>)
    ensures r.Success? <==> fault.None? && IsInt4(parentId)
    ensures fault.Some? ==> r == Failure("GetCategories: " + fault.value)
    ensures fault.None? && !IsInt4(parentId) ==> r == Failure("GetCategories: " + Int4RangeCause)
    ensures r.Success? ==> r.value == CategoriesSQL(t.categories, t.banners, parentId)
  {
    match QueryFault(fault, parentId)
    case Some(e) => Failure("GetCategories: " + e)
    case None => Success(CategoriesSQL(t.categories, t.banners, parentId))
  }

  /** `Storage.GetPartners`. */
  function GetPartners(t: Tables, fault: Option<string>): (r: Result<seq<Partner>>)
    ensures r.Success? <==> fault.None?
    ensures fault.Some? ==> r == Failure("GetPartners: " + fault.value)
    ensures r.Success? ==> r.value == PartnersSQL(t.partners, t.banners)
  {
    match fault
    case Some(e) => Failure("GetPartners: " + e)
    case None => Success(PartnersSQL(t.partners, t.banners))
  }

  /** `Storage.GetBannerImageByURL`; its error label reads "GetBannerURLs". */
  function GetBannerImageByURL(t: Tables, fault: Option<string>, url: string): (r: Result<seq<bv8>>)
    ensures fault.Some? ==> r == Failure("GetBannerURLs: " + fault.value)
    ensures fault.None? ==> (r.Success? <==> exists b | b in t.banners :: b.url == url)
    ensures fault.None? && r.Failure? ==> r.error == "GetBannerURLs: " + NoRowsCause
    ensures r.Success? ==> exists b | b in t.banners :: b.url == url && b.image == r.value
  {
    if fault.Some? then Failure("GetBannerURLs: " + fault.value)
    else
      match ImageSQL(t.banners, url)
      case None => Failure("GetBannerURLs: " + NoRowsCause)
      case Some(image) => Success(image)
  }

  /** On a healthy store with distinct URLs, the lookup returns the image of
      the banner with the requested URL, and fails with the no-row error
      when there is none. */
  lemma ImageLookupExact(t: Tables, url: string)
    requires UniqueBannerUrls(t.banners)
    ensures forall b | b in t.banners && b.url == url :: GetBannerImageByURL(t, None, url) == Success(b.image)
    ensures (forall b | b in t.banners :: b.url != url) ==>
      GetBannerImageByURL(t, None, url) == Failure("GetBannerURLs: " + NoRowsCause)
  {
    forall b | b in t.banners && b.url == url ensures GetBannerImageByURL(t, None, url) == Success(b.image) {
      ImageOfUniqueUrl(t.banners, b);
    }
  }

  /** `Storage.GetPromotionsByPartner` with its error test on `.Error`, as
      every other method of `Storage` has it. */
  function GetPromotionsByPartner(t: Tables, fault: Option<string>, partner: int): (r: Result<seq<Promotion>>)
    ensures r.Success? <==> fault.None? && IsInt4(partner)
    ensures fault.Some? ==> r == Failure("GetPromotionsByPartner: " + fault.value)
    ensures r.Success? ==> r.value == PromotionsByPartnerSQL(t.promotions, t.banners, partner)
  {
    match QueryFault(fault, partner)
    case Some(e) => Failure("GetPromotionsByPartner: " + e)
    case None => Success(PromotionsByPartnerSQL(t.promotions, t.banners, partner))
  }

  /** `Storage.GetPromotionsByGeo(long, lat)` with its error test on `.Error`:
      the reference point is `ST_MakePoint(long, lat)`, so `long` is its x. */
  function GetPromotionsByGeo(t: Tables, fault: Option<string>, long: Float, lat: Float,
                              distance: (Point, Point) -> real): (r: Result<seq<Promotion>>)
    ensures r.Success? <==> fault.None?
    ensures fault.Some? ==> r == Failure("GetPromotionsByGeo: " + fault.value)
    ensures r.Success? ==> r.value == PromotionsByGeoSQL(t.promotions, t.partners, t.banners, Point(long, lat), distance)
  {
    match fault
    case Some(e) => Failure("GetPromotionsByGeo: " + e)
    case None => Success(PromotionsByGeoSQL(t.promotions, t.partners, t.banners, Point(long, lat), distance))
  }

  /** What `fmt.Errorf("...: %w", x)` prints when `x` is the `*gorm.DB` handle
      rather than an error value: a bad-verb marker and the handle's fields,
      which the model does not spell out. */
  const HandleText: string := "%!w(*gorm.DB=&{...})"

  /** `Storage.GetPromotionsByPartner` as written: `if err := ...Scan(&p); err
      != nil` tests the `*gorm.DB` that `Scan` returns, never nil, so the
      method always returns nil and an error wrapping the handle. */
  function GetPromotionsByPartnerAsWritten(t: Tables, fault: Option<string>, partner: int): (r: Result<seq<Promotion>>)
    ensures r.Failure?
  {
    Failure("GetPromotionsByPartner: " + HandleText)
  }

  /** `Storage.GetPromotionsByGeo` as written, with the same test. */
  function GetPromotionsByGeoAsWritten(t: Tables, fault: Option<string>, long: Float, lat: Float,
                                       distance: (Point, Point) -> real): (r: Result<seq<Promotion>>)
    ensures r.Failure?
  {
    Failure("GetPromotionsByGeo: " + HandleText)
  }

  /** On a healthy store holding a promotion, the methods as written still
      fail, while the corrected ones return that promotion's rows. */
  lemma PromotionsAsWrittenLoseRows(t: Tables, m: PromotionRow, long: Float, lat: Float, distance: (Point, Point) -> real)
    requires m in t.promotions && UniquePartnerIds(t.partners)
    ensures GetPromotionsByPartnerAsWritten(t, None, 0).Failure?
    ensures GetPromotionsByGeoAsWritten(t, None, long, lat, distance).Failure?
    ensures var r := GetPromotionsByPartner(t, None, 0);
      r.Success? && forall x | x in PromotionJoin(m, t.banners) :: x in r.value
    ensures var r := GetPromotionsByGeo(t, None, long, lat, distance);
      r.Success? && forall x | x in PromotionJoin(m, t.banners) :: x in r.value
  {
    AllPromotionsHas(t.promotions, t.banners, m);
    ByPartnerZeroIsAll(t.promotions, t.banners);
    var all := PromotionsByPartnerSQL(t.promotions, t.banners, 0);
    var geo := PromotionsByGeoSQL(t.promotions, t.partners, t.banners, Point(long, lat), distance);
    GeoIsPermutationOfAll(t, Point(long, lat), distance);
    forall x | x in PromotionJoin(m, t.banners) ensures x in geo {
      assert x in multiset(all);
    }
  }

  lemma {:induction false} AllPromotionsHas(promotions: seq<PromotionRow>, banners: seq<BannerRow>, m: PromotionRow)
    requires m in promotions
    ensures forall x | x in PromotionJoin(m, banners) :: x in AllPromotions(promotions, banners)
    decreases |promotions|
  {
    if promotions[0] != m {
      AllPromotionsHas(promotions[1..], banners, m);
    }
  }
}
