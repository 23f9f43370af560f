/**
  The relational schema the service creates at start-up (`initSQL`), seen as
  in-memory tables: one sequence of rows per table, in the store's physical
  order. The `user` and `action` tables are never read and are not modelled.

  Start-up creates every table only when it is absent (a no-op on tables that
  already exist, so it is not modelled) and inserts the fixed category
  taxonomy with `ON CONFLICT DO NOTHING`: a seed row whose primary key is
  already taken is skipped, never updated.
*/
module Schema {
  import opened Values

  /** `category(id int primary key, parent_id int null references category(id), name text)` */
  datatype CategoryRow = CategoryRow(id: int, parentId: Option<int>, name: string)

  /** `partner(id, headline, description, location point, price_level smallint check (price_level between 1 and 5))`;
      `price_level` has no `not null`, so it may be NULL. */
  datatype PartnerRow = PartnerRow(id: int, headline: string, description: string, location: Point, priceLevel: Option<int>)

  /** `promotion(id, partner_id not null references partner, category_id not null references category, title, description)` */
  datatype PromotionRow = PromotionRow(id: int, partnerId: int, categoryId: int, title: string, description: string)

  /** `headline_banner(url text primary key, partner_id, promotion_id, category_id, image bytea)`;
      the three links are independently nullable. */
  datatype BannerRow = BannerRow(url: string, partnerId: Option<int>, promotionId: Option<int>, categoryId: Option<int>, image: seq<bv8>)

  datatype Tables = Tables(categories: seq<CategoryRow>, partners: seq<PartnerRow>, promotions: seq<PromotionRow>, banners: seq<BannerRow>)

  /** The range of PostgreSQL's `int` (int4), the type every `?::int` parameter is cast to. */
  const MinInt4: int := -0x8000_0000
  const MaxInt4: int := 0x7fff_ffff

  predicate IsInt4(n: int) {
    MinInt4 <= n <= MaxInt4
  }

  function CategoryIds(rows: seq<CategoryRow>): set<int> {
    set r | r in rows :: r.id
  }

  function PartnerIds(rows: seq<PartnerRow>): set<int> {
    set r | r in rows :: r.id
  }

  function PromotionIds(rows: seq<PromotionRow>): set<int> {
    set r | r in rows :: r.id
  }

  predicate UniqueCategoryIds(rows: seq<CategoryRow>) {
    forall i, j | 0 <= i < j < |rows| :: rows[i].id != rows[j].id
  }

  /** Every stored location is a pair of finite numbers; a PostgreSQL
      `point` may also hold NaN or an infinity. */
  predicate FiniteLocations(rows: seq<PartnerRow>) {
    forall p | p in rows :: p.location.x.Finite? && p.location.y.Finite?
  }

  predicate UniquePartnerIds(rows: seq<PartnerRow>) {
    forall i, j | 0 <= i < j < |rows| :: rows[i].id != rows[j].id
  }

  predicate UniquePromotionIds(rows: seq<PromotionRow>) {
    forall i, j | 0 <= i < j < |rows| :: rows[i].id != rows[j].id
  }

  predicate UniqueBannerUrls(rows: seq<BannerRow>) {
    forall i, j | 0 <= i < j < |rows| :: rows[i].url != rows[j].url
  }

  /** A nullable foreign key: NULL, or the key of an existing row. */
  predicate References(fk: Option<int>, keys: set<int>) {
    fk.None? || fk.value in keys
  }

  /** The `check (price_level between 1 and 5)` constraint; NULL passes a check. */
  predicate PriceLevelOk(p: PartnerRow) {
    p.priceLevel.None? || 1 <= p.priceLevel.value <= 5
  }

  /** Every constraint the DDL declares: primary keys, foreign keys and the
      price-level check. The store refuses any write that would break one, so
      every state the service can read satisfies this. */
  predicate WellFormed(t: Tables) {
    && UniqueCategoryIds(t.categories)
    && UniquePartnerIds(t.partners)
    && UniquePromotionIds(t.promotions)
    && UniqueBannerUrls(t.banners)
    && (forall c | c in t.categories :: References(c.parentId, CategoryIds(t.categories)))
    && (forall p | p in t.partners :: PriceLevelOk(p))
    && (forall m | m in t.promotions ::
          m.partnerId in PartnerIds(t.partners) && m.categoryId in CategoryIds(t.categories))
    && (forall b | b in t.banners ::
          && References(b.partnerId, PartnerIds(t.partners))
          && References(b.promotionId, PromotionIds(t.promotions))
          && References(b.categoryId, CategoryIds(t.categories)))
  }

  /** The rows of the category seed, in the order of the `values` list. */
  const SeedCategories: seq<CategoryRow> := [
    CategoryRow(0, None, "Root"),
    CategoryRow(1, Some(0), "Eating out"),
    CategoryRow(2, Some(0), "Supermarkets"),
    CategoryRow(3, Some(0), "Clothes & etc."),
    CategoryRow(4, Some(0), "Entertainment"),
    CategoryRow(5, Some(0), "Transport"),
    CategoryRow(6, Some(0), "Health & Beauty"),
    CategoryRow(7, Some(1), "Bars"),
    CategoryRow(8, Some(1), "Restaurants"),
    CategoryRow(9, Some(1), "Cafe"),
    CategoryRow(10, Some(1), "Burgers"),
    CategoryRow(11, Some(1), "Gyros")
  ]

  /** `insert into category ... values rows ON CONFLICT DO NOTHING`: each row in
      turn is appended unless a row with its primary key is already present
      (an earlier row of the same statement included). Rows already in the
      table are never changed and never removed. */
  function InsertOnConflictDoNothing(table: seq<CategoryRow>, rows: seq<CategoryRow>): (r: seq<CategoryRow>)
    ensures |table| <= |r| && r[..|table|] == table
    ensures CategoryIds(r) == CategoryIds(table) + CategoryIds(rows)
    ensures forall i | |table| <= i < |r| :: r[i] in rows
    decreases |rows|
  {
    if rows == [] then table
    else
      var next := if rows[0].id in CategoryIds(table) then table else table + [rows[0]];
      var r := InsertOnConflictDoNothing(next, rows[1..]);
      InsertStep(table, rows, next, r);
      r
  }

  /** One row of the insert: what holds after the rest of the statement
      carries back to the table before the first row. */
  lemma InsertStep(table: seq<CategoryRow>, rows: seq<CategoryRow>, next: seq<CategoryRow>, r: seq<CategoryRow>)
    requires rows != []
    requires next == if rows[0].id in CategoryIds(table) then table else table + [rows[0]]
    requires |next| <= |r| && r[..|next|] == next
    requires CategoryIds(r) == CategoryIds(next) + CategoryIds(rows[1..])
    requires forall i | |next| <= i < |r| :: r[i] in rows[1..]
    ensures |table| <= |r| && r[..|table|] == table
    ensures CategoryIds(r) == CategoryIds(table) + CategoryIds(rows)
    ensures forall i | |table| <= i < |r| :: r[i] in rows
  {
    IdsCons(rows);
    IdsAppend(table, rows[0]);
    assert r[..|table|] == next[..|table|];
    forall i | |table| <= i < |r| ensures r[i] in rows {
      if i < |next| {
        assert r[i] == r[..|next|][i] == next[i] == rows[0];
      } else {
        assert r[i] in rows[1..];
      }
    }
  }

  lemma IdsCons(rows: seq<CategoryRow>)
    requires rows != []
    ensures CategoryIds(rows) == {rows[0].id} + CategoryIds(rows[1..])
  {
    assert forall x | x in rows :: x == rows[0] || x in rows[1..];
  }

  /** What start-up does to the category table: existing rows stay, and
      afterwards every seeded id is present. */
  function InitCategories(table: seq<CategoryRow>): (r: seq<CategoryRow>)
    ensures |table| <= |r| && r[..|table|] == table
    ensures CategoryIds(r) == CategoryIds(table) + SeedIds
  {
    SeedIdsExact();
    InsertOnConflictDoNothing(table, SeedCategories)
  }

  /** What start-up does to the whole store: only the category table changes. */
  function Init(t: Tables): (r: Tables)
    ensures r.partners == t.partners && r.promotions == t.promotions && r.banners == t.banners
    ensures |t.categories| <= |r.categories| && r.categories[..|t.categories|] == t.categories
    ensures CategoryIds(r.categories) == CategoryIds(t.categories) + SeedIds
  {
    t.(categories := InitCategories(t.categories))
  }

  /** The category table forms a tree under the "Root" sentinel: ids are
      distinct, id 0 is present and is the only row without a parent, and every
      other row's parent is a present id smaller than its own, so that no chain
      of parents can cycle. */
  predicate TreeShaped(rows: seq<CategoryRow>) {
    && UniqueCategoryIds(rows)
    && 0 in CategoryIds(rows)
    && (forall r | r in rows :: r.parentId.None? <==> r.id == 0)
    && (forall r | r in rows && r.parentId.Some? ::
          r.parentId.value in CategoryIds(rows) && 0 <= r.parentId.value < r.id)
  }

  /** The row with primary key `id`. */
  function CategoryById(rows: seq<CategoryRow>, id: int): (r: CategoryRow)
    requires id in CategoryIds(rows)
    ensures r in rows && r.id == id
  {
    if rows[0].id == id then rows[0]
    else
      assert id in CategoryIds(rows[1..]) by {
        var x :| x in rows && x.id == id;
        assert x != rows[0];
      }
      CategoryById(rows[1..], id)
  }

  /** The chain of ids from `id` up through its parents. */
  function PathToRoot(rows: seq<CategoryRow>, id: int): (path: seq<int>)
    requires TreeShaped(rows) && id in CategoryIds(rows)
    ensures |path| >= 1 && path[0] == id && path[|path| - 1] == 0
    ensures forall k | 0 <= k < |path| :: path[k] in CategoryIds(rows)
    ensures forall k | 0 <= k < |path| - 1 :: CategoryById(rows, path[k]).parentId == Some(path[k + 1])
    decreases if id < 0 then 0 else id
  {
    var row := CategoryById(rows, id);
    match row.parentId
    case None => [id]
    case Some(parent) => [id] + PathToRoot(rows, parent)
  }

  lemma {:induction false} InsertAllPresent(table: seq<CategoryRow>, rows: seq<CategoryRow>)
    requires CategoryIds(rows) <= CategoryIds(table)
    ensures InsertOnConflictDoNothing(table, rows) == table
    decreases |rows|
  {
    if rows != [] {
      assert rows[0] in rows;
      assert CategoryIds(rows[1..]) <= CategoryIds(rows) by {
        assert forall x | x in rows[1..] :: x in rows;
      }
      InsertAllPresent(table, rows[1..]);
    }
  }

  lemma {:induction false} InsertAllFresh(table: seq<CategoryRow>, rows: seq<CategoryRow>)
    requires UniqueCategoryIds(rows)
    requires CategoryIds(rows) !! CategoryIds(table)
    ensures InsertOnConflictDoNothing(table, rows) == table + rows
    decreases |rows|
  {
    if rows != [] {
      FirstIsFresh(table, rows);
      IdsAppend(table, rows[0]);
      FreshRest(table, rows);
      InsertAllFresh(table + [rows[0]], rows[1..]);
      AppendCons(table, rows);
    }
  }

  lemma FirstIsFresh(table: seq<CategoryRow>, rows: seq<CategoryRow>)
    requires rows != [] && CategoryIds(rows) !! CategoryIds(table)
    ensures InsertOnConflictDoNothing(table, rows) == InsertOnConflictDoNothing(table + [rows[0]], rows[1..])
  {
    assert rows[0].id in CategoryIds(rows);
  }

  lemma AppendCons(table: seq<CategoryRow>, rows: seq<CategoryRow>)
    requires rows != []
    ensures (table + [rows[0]]) + rows[1..] == table + rows
  {
    assert rows == [rows[0]] + rows[1..];
  }

  /** The step of InsertAllFresh: after the first row, the rest is still
      distinct and fresh. */
  lemma FreshRest(table: seq<CategoryRow>, rows: seq<CategoryRow>)
    requires rows != [] && UniqueCategoryIds(rows)
    requires CategoryIds(rows) !! CategoryIds(table)
    ensures UniqueCategoryIds(rows[1..])
    ensures CategoryIds(rows[1..]) !! CategoryIds(table) + {rows[0].id}
  {
    var rest := rows[1..];
    forall i, j | 0 <= i < j < |rest| ensures rest[i].id != rest[j].id {
      assert rest[i] == rows[i + 1] && rest[j] == rows[j + 1];
    }
    forall y | y in rest ensures y.id !in CategoryIds(table) + {rows[0].id} {
      var k :| 0 <= k < |rest| && rest[k] == y;
      assert y == rows[k + 1];
      assert y.id in CategoryIds(rows);
    }
  }

  lemma IdsAppend(table: seq<CategoryRow>, x: CategoryRow)
    ensures CategoryIds(table + [x]) == CategoryIds(table) + {x.id}
  {
    assert forall r | r in table + [x] :: r in table || r == x;
  }

  /** The ids the seed inserts. */
  const SeedIds: set<int> := {0, 1, 2, 3, 4, 5, 6, 7, 8, 9, 10, 11}

  /** Row `i` of the seed has id `i`; rows 1-6 hang under "Root", rows 7-11 under "Eating out". */
  lemma SeedAt(i: int)
    requires 0 <= i < |SeedCategories|
    ensures SeedCategories[i].id == i
    ensures SeedCategories[i].parentId == if i == 0 then None else if i <= 6 then Some(0) else Some(1)
  {
    if i == 0 {} else if i == 1 {} else if i == 2 {} else if i == 3 {} else if i == 4 {}
    else if i == 5 {} else if i == 6 {} else if i == 7 {} else if i == 8 {} else if i == 9 {}
    else if i == 10 {} else {}
  }

  lemma SeedIdsExact()
    ensures CategoryIds(SeedCategories) == SeedIds
  {
    forall x | x in CategoryIds(SeedCategories) ensures x in SeedIds {
      var k :| 0 <= k < |SeedCategories| && SeedCategories[k].id == x;
      SeedAt(k);
    }
    forall x | x in SeedIds ensures x in CategoryIds(SeedCategories) {
      SeedAt(x);
      assert SeedCategories[x] in SeedCategories;
    }
  }

  /** Starting up twice leaves the store exactly as starting up once does. */
  lemma InitIdempotent(t: Tables)
    ensures Init(Init(t)) == Init(t)
  {
    InsertAllPresent(InitCategories(t.categories), SeedCategories);
  }

  /** A category table that already holds every seeded id is left unchanged. */
  lemma InitKeepsSeededTable(table: seq<CategoryRow>)
    requires SeedIds <= CategoryIds(table)
    ensures InitCategories(table) == table
  {
    SeedIdsExact();
    InsertAllPresent(table, SeedCategories);
  }

  /** The seed, as written, forms a tree under "Root" with the ids 0 to 11. */
  lemma SeedIsTree()
    ensures TreeShaped(SeedCategories)
    ensures CategoryIds(SeedCategories) == SeedIds
  {
    SeedIdsExact();
    forall i, j | 0 <= i < j < |SeedCategories| ensures SeedCategories[i].id != SeedCategories[j].id {
      SeedAt(i);
      SeedAt(j);
    }
    forall r | r in SeedCategories
      ensures r.parentId.None? <==> r.id == 0
      ensures r.parentId.Some? ==> r.parentId.value in SeedIds && 0 <= r.parentId.value < r.id
    {
      var k :| 0 <= k < |SeedCategories| && SeedCategories[k] == r;
      SeedAt(k);
    }
  }

  /** On an empty category table, start-up inserts exactly the seed rows in
      order, which form a tree by SeedIsTree. */
  lemma InitOfEmpty(table: seq<CategoryRow>)
    requires table == []
    ensures InitCategories(table) == SeedCategories
  {
    SeedIsTree();
    assert CategoryIds(table) == {};
    InsertAllFresh(table, SeedCategories);
    assert table + SeedCategories == SeedCategories;
  }

  lemma SeedParentsSeeded(c: CategoryRow)
    requires c in SeedCategories
    ensures References(c.parentId, SeedIds)
  {
    var j :| 0 <= j < |SeedCategories| && SeedCategories[j] == c;
    SeedAt(j);
  }

  /** An insert that skips conflicts keeps every `parent_id` pointing at a
      present row, provided each inserted row's parent is present before or
      inserted by the same statement. */
  lemma InsertKeepsParentsPresent(table: seq<CategoryRow>, rows: seq<CategoryRow>)
    requires forall c | c in table :: References(c.parentId, CategoryIds(table))
    requires forall c | c in rows :: References(c.parentId, CategoryIds(table) + CategoryIds(rows))
    ensures forall c | c in InsertOnConflictDoNothing(table, rows) ::
      References(c.parentId, CategoryIds(InsertOnConflictDoNothing(table, rows)))
  {
    var r := InsertOnConflictDoNothing(table, rows);
    var ids := CategoryIds(r);
    forall c | c in r ensures References(c.parentId, ids) {
      var k :| 0 <= k < |r| && r[k] == c;
      if k < |table| {
        assert c == table[k];
        assert c in table;
      } else {
        assert c in rows;
      }
    }
  }

  /** Start-up keeps the self-reference of `parent_id` intact: if every parent
      in the table existed before, every parent exists afterwards, the seeded
      rows' parents included. */
  lemma InitKeepsParentsPresent(table: seq<CategoryRow>)
    requires forall c | c in table :: References(c.parentId, CategoryIds(table))
    ensures forall c | c in InitCategories(table) :: References(c.parentId, CategoryIds(InitCategories(table)))
  {
    SeedIdsExact();
    forall c | c in SeedCategories ensures References(c.parentId, CategoryIds(table) + CategoryIds(SeedCategories)) {
      SeedParentsSeeded(c);
    }
    InsertKeepsParentsPresent(table, SeedCategories);
  }

  /** Every row from position `start` on has an id no earlier row has. */
  predicate FreshFrom(r: seq<CategoryRow>, start: int) {
    forall i, j | 0 <= i < j < |r| && start <= j :: r[i].id != r[j].id
  }

  /** A row is appended only when no earlier row, of the table or of the
      statement, holds its id. Together with the id equation of the insert,
      every id that was free is taken by exactly one appended row; which row
      that is, when the statement repeats an id, is what
      `InsertKeepsFirstOfEachId` adds. */
  lemma {:induction false} InsertAppendsOnlyFresh(table: seq<CategoryRow>, rows: seq<CategoryRow>)
    ensures FreshFrom(InsertOnConflictDoNothing(table, rows), |table|)
    decreases |rows|
  {
    if rows != [] {
      var next := if rows[0].id in CategoryIds(table) then table else table + [rows[0]];
      InsertAppendsOnlyFresh(next, rows[1..]);
      FreshStep(table, rows[0], next, InsertOnConflictDoNothing(next, rows[1..]));
    }
  }

  /** No earlier row of the statement has the id of row `j`. */
  predicate FirstOfItsId(rows: seq<CategoryRow>, j: int)
    requires 0 <= j < |rows|
  {
    forall k | 0 <= k < j :: rows[k].id != rows[j].id
  }

  /** Within one statement the first row carrying a free id wins: every
      appended row is the first statement row with its id, and every such
      first row whose id the table lacks is appended. */
  lemma {:induction false} InsertKeepsFirstOfEachId(table: seq<CategoryRow>, rows: seq<CategoryRow>)
    ensures var r := InsertOnConflictDoNothing(table, rows);
      forall i | |table| <= i < |r| :: exists j | 0 <= j < |rows| :: rows[j] == r[i] && FirstOfItsId(rows, j)
    ensures var r := InsertOnConflictDoNothing(table, rows);
      forall j | 0 <= j < |rows| && rows[j].id !in CategoryIds(table) && FirstOfItsId(rows, j) :: rows[j] in r
    decreases |rows|
  {
    if rows != [] {
      var next := if rows[0].id in CategoryIds(table) then table else table + [rows[0]];
      var r := InsertOnConflictDoNothing(next, rows[1..]);
      InsertKeepsFirstOfEachId(next, rows[1..]);
      InsertAppendsOnlyFresh(next, rows[1..]);
      FirstStep(table, rows, next, r);
      FirstAppendedStep(table, rows, next, r);
    }
  }

  /** One row of the insert, for the first half of `InsertKeepsFirstOfEachId`:
      a later appended row cannot share the first row's id, which `next`
      already holds. */
  lemma FirstStep(table: seq<CategoryRow>, rows: seq<CategoryRow>, next: seq<CategoryRow>, r: seq<CategoryRow>)
    requires rows != []
    requires next == if rows[0].id in CategoryIds(table) then table else table + [rows[0]]
    requires |next| <= |r| && r[..|next|] == next
    requires FreshFrom(r, |next|)
    requires forall i | |next| <= i < |r| ::
      exists j | 0 <= j < |rows[1..]| :: rows[1..][j] == r[i] && FirstOfItsId(rows[1..], j)
    ensures forall i | |table| <= i < |r| :: exists j | 0 <= j < |rows| :: rows[j] == r[i] && FirstOfItsId(rows, j)
  {
    var x := rows[0];
    var tail := rows[1..];
    IdsAppend(table, x);
    assert x.id in CategoryIds(next);
    var w :| w in next && w.id == x.id;
    var wi :| 0 <= wi < |next| && next[wi] == w;
    assert r[wi] == w;
    forall i | |table| <= i < |r| ensures exists j | 0 <= j < |rows| :: rows[j] == r[i] && FirstOfItsId(rows, j) {
      if i < |next| {
        assert r[i] == next[i] == x && FirstOfItsId(rows, 0);
      } else {
        var j :| 0 <= j < |tail| && tail[j] == r[i] && FirstOfItsId(tail, j);
        assert r[i].id != x.id;
        assert rows[j + 1] == r[i];
        forall k | 0 <= k < j + 1 ensures rows[k].id != rows[j + 1].id {
          if k > 0 {
            assert rows[k] == tail[k - 1];
          }
        }
      }
    }
  }

  /** One row of the insert, for the second half of `InsertKeepsFirstOfEachId`. */
  lemma FirstAppendedStep(table: seq<CategoryRow>, rows: seq<CategoryRow>, next: seq<CategoryRow>, r: seq<CategoryRow>)
    requires rows != []
    requires next == if rows[0].id in CategoryIds(table) then table else table + [rows[0]]
    requires |next| <= |r| && r[..|next|] == next
    requires forall j | 0 <= j < |rows[1..]| && rows[1..][j].id !in CategoryIds(next) && FirstOfItsId(rows[1..], j) ::
      rows[1..][j] in r
    ensures forall j | 0 <= j < |rows| && rows[j].id !in CategoryIds(table) && FirstOfItsId(rows, j) :: rows[j] in r
  {
    var x := rows[0];
    var tail := rows[1..];
    IdsAppend(table, x);
    forall j | 0 <= j < |rows| && rows[j].id !in CategoryIds(table) && FirstOfItsId(rows, j) ensures rows[j] in r {
      if j == 0 {
        assert r[|table|] == next[|table|] == x;
      } else {
        assert rows[j] == tail[j - 1];
        assert x.id != rows[j].id;
        forall k | 0 <= k < j - 1 ensures tail[k].id != tail[j - 1].id {
          assert tail[k] == rows[k + 1];
        }
      }
    }
  }

  lemma FreshStep(table: seq<CategoryRow>, x: CategoryRow, next: seq<CategoryRow>, r: seq<CategoryRow>)
    requires next == if x.id in CategoryIds(table) then table else table + [x]
    requires |next| <= |r| && r[..|next|] == next
    requires FreshFrom(r, |next|)
    ensures FreshFrom(r, |table|)
  {
    forall i, j | 0 <= i < j < |r| && |table| <= j ensures r[i].id != r[j].id {
      if j < |next| {
        assert r[j] == next[j] == x && r[i] == next[i] == table[i];
        assert table[i] in table;
      }
    }
  }

  /** The insert keeps primary keys distinct. */
  lemma InsertKeepsIdsUnique(table: seq<CategoryRow>, rows: seq<CategoryRow>)
    requires UniqueCategoryIds(table)
    ensures UniqueCategoryIds(InsertOnConflictDoNothing(table, rows))
  {
    var r := InsertOnConflictDoNothing(table, rows);
    InsertAppendsOnlyFresh(table, rows);
    forall i, j | 0 <= i < j < |r| ensures r[i].id != r[j].id {
      if j < |table| {
        assert r[i] == table[i] && r[j] == table[j];
      }
    }
  }

  /** Inserting the rows of a tree into a tree keeps it a tree: "Root" is
      already present, so every row added has a fresh id other than 0, and
      its parent, smaller than its id, is present afterwards. */
  lemma InsertKeepsTree(table: seq<CategoryRow>, rows: seq<CategoryRow>)
    requires TreeShaped(table) && TreeShaped(rows)
    ensures TreeShaped(InsertOnConflictDoNothing(table, rows))
  {
    var r := InsertOnConflictDoNothing(table, rows);
    InsertKeepsIdsUnique(table, rows);
    InsertAppendsOnlyFresh(table, rows);
    var z :| z in table && z.id == 0;
    var zi :| 0 <= zi < |table| && table[zi] == z;
    assert r[..|table|] == table;
    assert r[zi] == z;
    forall c | c in r
      ensures c.parentId.None? <==> c.id == 0
      ensures c.parentId.Some? ==> c.parentId.value in CategoryIds(r) && 0 <= c.parentId.value < c.id
    {
      var k :| 0 <= k < |r| && r[k] == c;
      if k < |table| {
        assert c == table[k] && c in table;
      } else {
        assert c in rows;
        assert c.id != 0 by {
          assert r[zi].id != r[k].id;
        }
      }
    }
  }

  /** Start-up keeps a tree-shaped category table tree-shaped. */
  lemma InitKeepsTree(table: seq<CategoryRow>)
    requires TreeShaped(table)
    ensures TreeShaped(InitCategories(table))
  {
    SeedIsTree();
    InsertKeepsTree(table, SeedCategories);
  }

  /** An insert whose rows' parents are present keeps every constraint of
      the store: categories only gain rows, so every reference still holds. */
  lemma InsertKeepsWellFormed(t: Tables, rows: seq<CategoryRow>)
    requires WellFormed(t)
    requires forall c | c in rows :: References(c.parentId, CategoryIds(t.categories) + CategoryIds(rows))
    ensures WellFormed(t.(categories := InsertOnConflictDoNothing(t.categories, rows)))
  {
    var cats := InsertOnConflictDoNothing(t.categories, rows);
    InsertKeepsIdsUnique(t.categories, rows);
    InsertKeepsParentsPresent(t.categories, rows);
    MoreCategoriesKeepWellFormed(t, cats);
  }

  /** Replacing the category table by a larger one that keeps the category
      constraints keeps every constraint of the store. */
  lemma MoreCategoriesKeepWellFormed(t: Tables, cats: seq<CategoryRow>)
    requires WellFormed(t)
    requires UniqueCategoryIds(cats) && CategoryIds(t.categories) <= CategoryIds(cats)
    requires forall c | c in cats :: References(c.parentId, CategoryIds(cats))
    ensures WellFormed(t.(categories := cats))
  {
    var ids := CategoryIds(cats);
    forall m | m in t.promotions ensures m.categoryId in ids {
      assert m.categoryId in CategoryIds(t.categories);
    }
    forall b | b in t.banners ensures References(b.categoryId, ids) {
      assert References(b.categoryId, CategoryIds(t.categories));
    }
  }

  /** Start-up keeps every constraint of the store. */
  lemma InitKeepsWellFormed(t: Tables)
    requires WellFormed(t)
    ensures WellFormed(Init(t))
  {
    SeedIdsExact();
    forall c | c in SeedCategories ensures References(c.parentId, CategoryIds(t.categories) + CategoryIds(SeedCategories)) {
      SeedParentsSeeded(c);
    }
    InsertKeepsWellFormed(t, SeedCategories);
  }
}
