/** `models/gamalytics.py`: the seven Gamalytics tables as records, and the
    store they make up.

    Every column holds a JSON value: the model keeps what the loaders hand to
    the ORM and leaves SQL type coercion out. The root table is keyed by the
    app's `steamId`. Each child table has its own autoincrement surrogate key
    and a `steamId` foreign key to the root table. A table is the list of its
    rows in insertion order; nothing is ever deleted, so a child row's
    surrogate key is its position plus one, and "committed rows keep their
    place" is "committed rows keep their key".
 */
module Schema {
  import opened Wrappers
  import opened JsonValues

  // ---------------------------------------------------------------------
  // The seven tables

  /** The values `col` gives the named columns, in order. */
  function ColumnValues(col: string -> Json, names: seq<string>): (vs: seq<Json>)
    ensures |vs| == |names|
    ensures forall i :: 0 <= i < |names| ==> vs[i] == col(names[i])
  {
    seq(|names|, i requires 0 <= i < |names| => col(names[i]))
  }

  predicate DistinctNames(names: seq<string>) {
    forall i, j :: 0 <= i < j < |names| ==> names[i] != names[j]
  }

  /** `gamalytics_main`: one row per app, keyed by `steamId`. */
  datatype MainRow = MainRow(
    steamId: Json, name: Json, description: Json, price: Json, reviews: Json,
    reviewsSteam: Json, followers: Json, avgPlaytime: Json, reviewScore: Json,
    releaseDate: Json, eaReleaseDate: Json, firstReleaseDate: Json,
    earlyAccessExitDate: Json, unreleased: Json, earlyAccess: Json,
    copiesSold: Json, revenue: Json, totalRevenue: Json, players: Json,
    owners: Json, steamPercent: Json, wishlists: Json, itemType: Json,
    itemCode: Json)

  const MainColumns: seq<string> := [
    "steamId", "name", "description", "price", "reviews",
    "reviewsSteam", "followers", "avgPlaytime", "reviewScore",
    "releaseDate", "EAReleaseDate", "firstReleaseDate",
    "earlyAccessExitDate", "unreleased", "earlyAccess",
    "copiesSold", "revenue", "totalRevenue", "players",
    "owners", "steamPercent", "wishlists", "itemType",
    "itemCode"]

  /** A row's values in column order. */
  function MainValues(r: MainRow): seq<Json> {
    [r.steamId, r.name, r.description, r.price, r.reviews,
     r.reviewsSteam, r.followers, r.avgPlaytime, r.reviewScore,
     r.releaseDate, r.eaReleaseDate, r.firstReleaseDate,
     r.earlyAccessExitDate, r.unreleased, r.earlyAccess,
     r.copiesSold, r.revenue, r.totalRevenue, r.players,
     r.owners, r.steamPercent, r.wishlists, r.itemType,
     r.itemCode]
  }

  /** The ORM constructor called with one keyword per column: every column
      takes the value `col` gives its name. */
  function MainFrom(col: string -> Json): (r: MainRow)
    ensures MainValues(r) == ColumnValues(col, MainColumns)
  {
    var r := MainRow(col("steamId"), col("name"), col("description"), col("price"), col("reviews"),
            col("reviewsSteam"), col("followers"), col("avgPlaytime"), col("reviewScore"),
            col("releaseDate"), col("EAReleaseDate"), col("firstReleaseDate"),
            col("earlyAccessExitDate"), col("unreleased"), col("earlyAccess"),
            col("copiesSold"), col("revenue"), col("totalRevenue"), col("players"),
            col("owners"), col("steamPercent"), col("wishlists"), col("itemType"),
            col("itemCode"));
    r
  }

  /** `gamalytics_history` (surrogate key `historyId`). */
  datatype HistoryRow = HistoryRow(
    steamId: Json, timeStamp: Json, reviews: Json, price: Json, score: Json,
    players: Json, avgPlaytime: Json, sales: Json, revenue: Json)

  /** A root row is determined by its values. */
  lemma MainValuesInjective(a: MainRow, b: MainRow)
    requires MainValues(a) == MainValues(b)
    ensures a == b
  {
    var va, vb := MainValues(a), MainValues(b);
    assert va[0] == vb[0] && va[1] == vb[1] && va[2] == vb[2] && va[3] == vb[3] && va[4] == vb[4];
    assert va[5] == vb[5] && va[6] == vb[6] && va[7] == vb[7] && va[8] == vb[8] && va[9] == vb[9];
    assert va[10] == vb[10] && va[11] == vb[11] && va[12] == vb[12] && va[13] == vb[13] && va[14] == vb[14];
    assert va[15] == vb[15] && va[16] == vb[16] && va[17] == vb[17] && va[18] == vb[18] && va[19] == vb[19];
    assert va[20] == vb[20] && va[21] == vb[21] && va[22] == vb[22] && va[23] == vb[23];
  }

  const HistoryColumns: seq<string> := [
    "steamId", "timeStamp", "reviews", "price", "score",
    "players", "avgPlaytime", "sales", "revenue"]

  function HistoryValues(r: HistoryRow): seq<Json> {
    [r.steamId, r.timeStamp, r.reviews, r.price, r.score,
     r.players, r.avgPlaytime, r.sales, r.revenue]
  }

  function HistoryFrom(col: string -> Json): (r: HistoryRow)
    ensures HistoryValues(r) == ColumnValues(col, HistoryColumns)
  {
    HistoryRow(col("steamId"), col("timeStamp"), col("reviews"), col("price"), col("score"),
               col("players"), col("avgPlaytime"), col("sales"), col("revenue"))
  }

  /** `gamalytics_audience_overlap` (surrogate key `overlapId`); the `type`
      column is the field `kind`. */
  datatype OverlapRow = OverlapRow(
    steamId: Json, kind: Json, relatedSteamId: Json, link: Json,
    relatedName: Json, relatedReleaseDate: Json, relatedPrice: Json,
    relatedGenres: Json, relatedCopiesSold: Json, relatedRevenue: Json)

  lemma HistoryValuesInjective(a: HistoryRow, b: HistoryRow)
    requires HistoryValues(a) == HistoryValues(b)
    ensures a == b
  {
    var va, vb := HistoryValues(a), HistoryValues(b);
    assert va[0] == vb[0] && va[1] == vb[1] && va[2] == vb[2] && va[3] == vb[3] && va[4] == vb[4];
    assert va[5] == vb[5] && va[6] == vb[6] && va[7] == vb[7] && va[8] == vb[8];
  }

  const OverlapColumns: seq<string> := [
    "steamId", "type", "relatedSteamId", "link",
    "relatedName", "relatedReleaseDate", "relatedPrice",
    "relatedGenres", "relatedCopiesSold", "relatedRevenue"]

  function OverlapValues(r: OverlapRow): seq<Json> {
    [r.steamId, r.kind, r.relatedSteamId, r.link,
     r.relatedName, r.relatedReleaseDate, r.relatedPrice,
     r.relatedGenres, r.relatedCopiesSold, r.relatedRevenue]
  }

  function OverlapFrom(col: string -> Json): (r: OverlapRow)
    ensures OverlapValues(r) == ColumnValues(col, OverlapColumns)
  {
    OverlapRow(col("steamId"), col("type"), col("relatedSteamId"), col("link"),
               col("relatedName"), col("relatedReleaseDate"), col("relatedPrice"),
               col("relatedGenres"), col("relatedCopiesSold"), col("relatedRevenue"))
  }

  /** `gamalytics_playtime_data` (surrogate key `playtimeDataId`). */
  datatype PlaytimeRow = PlaytimeRow(steamId: Json, medianPlaytime: Json, timeRange: Json, percentage: Json)

  const PlaytimeColumns: seq<string> := ["steamId", "medianPlaytime", "timeRange", "percentage"]

  function PlaytimeValues(r: PlaytimeRow): seq<Json> {
    [r.steamId, r.medianPlaytime, r.timeRange, r.percentage]
  }

  function PlaytimeFrom(col: string -> Json): (r: PlaytimeRow)
    ensures PlaytimeValues(r) == ColumnValues(col, PlaytimeColumns)
  {
    PlaytimeRow(col("steamId"), col("medianPlaytime"), col("timeRange"), col("percentage"))
  }

  /** `gamalytics_estimate_details` (surrogate key `estimateId`). */
  datatype EstimateRow = EstimateRow(steamId: Json, rankBased: Json, playtimeBased: Json, reviewBased: Json)

  const EstimateColumns: seq<string> := ["steamId", "rankBased", "playtimeBased", "reviewBased"]

  function EstimateValues(r: EstimateRow): seq<Json> {
    [r.steamId, r.rankBased, r.playtimeBased, r.reviewBased]
  }

  function EstimateFrom(col: string -> Json): (r: EstimateRow)
    ensures EstimateValues(r) == ColumnValues(col, EstimateColumns)
  {
    EstimateRow(col("steamId"), col("rankBased"), col("playtimeBased"), col("reviewBased"))
  }

  /** No table names a column twice, and `steamId` comes first in each. */
  lemma MainColumnsDistinct()
    ensures DistinctNames(MainColumns) && MainColumns[0] == "steamId"
  {
    var m := MainColumns;
    forall i, j | 0 <= i < j < |m| ensures m[i] != m[j] {
    }
  }

  lemma ChildColumnsDistinct()
    ensures DistinctNames(HistoryColumns) && HistoryColumns[0] == "steamId"
    ensures DistinctNames(OverlapColumns) && OverlapColumns[0] == "steamId"
    ensures DistinctNames(PlaytimeColumns) && PlaytimeColumns[0] == "steamId"
    ensures DistinctNames(EstimateColumns) && EstimateColumns[0] == "steamId"
  {
  }

  /** `gamalytics_dlc` (surrogate key `dlcId`). */
  datatype DlcRow = DlcRow(
    steamId: Json, dlcSteamId: Json, dlcName: Json, dlcReleaseDate: Json,
    dlcPrice: Json, dlcGenres: Json, dlcCopiesSold: Json, dlcRevenue: Json)

  /** `gamalytics_attributes` (surrogate key `attributeId`); the `type`
      column is the field `kind`. */
  datatype AttributeRow = AttributeRow(steamId: Json, kind: Json, value: Json)

  /** The values the `type` column of the overlap table is meant to hold. */
  const OverlapKinds: seq<Json> := [Str("audience_overlap"), Str("also_played")]

  /** The values the `type` column of the attribute table is meant to hold. */
  const AttributeKinds: seq<Json> := [Str("tag"), Str("genre"), Str("feature"), Str("language")]

  // ---------------------------------------------------------------------
  // The store

  /** The rows of every table, in insertion order. The same shape serves for
      the committed store and for the rows a session holds pending. */
  datatype Tables = Tables(
    main: seq<MainRow>, history: seq<HistoryRow>, overlap: seq<OverlapRow>,
    playtime: seq<PlaytimeRow>, estimate: seq<EstimateRow>, dlc: seq<DlcRow>,
    attributes: seq<AttributeRow>)

  const Empty: Tables := Tables([], [], [], [], [], [], [])

  /** The rows of `a` followed, table by table, by the rows of `b`. */
  function Append(a: Tables, b: Tables): Tables {
    Tables(a.main + b.main, a.history + b.history, a.overlap + b.overlap,
           a.playtime + b.playtime, a.estimate + b.estimate, a.dlc + b.dlc,
           a.attributes + b.attributes)
  }

  lemma AppendAssoc(a: Tables, b: Tables, c: Tables)
    ensures Append(Append(a, b), c) == Append(a, Append(b, c))
  {
  }

  lemma AppendEmpty(a: Tables)
    ensures Append(a, Empty) == a && Append(Empty, a) == a
  {
  }

  /** The root table's keys, in insertion order. */
  function MainIds(t: Tables): (ids: seq<Json>)
    ensures |ids| == |t.main|
    ensures forall i :: 0 <= i < |t.main| ==> ids[i] == t.main[i].steamId
  {
    seq(|t.main|, i requires 0 <= i < |t.main| => t.main[i].steamId)
  }

  lemma MainIdsAppend(a: Tables, b: Tables)
    ensures MainIds(Append(a, b)) == MainIds(a) + MainIds(b)
  {
  }

  predicate Distinct(xs: seq<Json>) {
    forall i, j :: 0 <= i < j < |xs| ==> xs[i] != xs[j]
  }

  /** Every child row names one of `ids` in its `steamId`. */
  predicate Linked(t: Tables, ids: seq<Json>) {
    && (forall i :: 0 <= i < |t.history| ==> t.history[i].steamId in ids)
    && (forall i :: 0 <= i < |t.overlap| ==> t.overlap[i].steamId in ids)
    && (forall i :: 0 <= i < |t.playtime| ==> t.playtime[i].steamId in ids)
    && (forall i :: 0 <= i < |t.estimate| ==> t.estimate[i].steamId in ids)
    && (forall i :: 0 <= i < |t.dlc| ==> t.dlc[i].steamId in ids)
    && (forall i :: 0 <= i < |t.attributes| ==> t.attributes[i].steamId in ids)
  }

  /** Every `type` column holds one of the values its table's comment names. */
  predicate Tagged(t: Tables) {
    && (forall i :: 0 <= i < |t.overlap| ==> t.overlap[i].kind in OverlapKinds)
    && (forall i :: 0 <= i < |t.attributes| ==> t.attributes[i].kind in AttributeKinds)
  }

  /** The store's integrity: at most one root row per `steamId` (the primary
      key), every child row refers to a root row (the foreign keys, which
      SQLite does not enforce unless asked, so the loaders must keep them),
      and every `type` column is one of its documented values. */
  predicate Valid(t: Tables) {
    Distinct(MainIds(t)) && Linked(t, MainIds(t)) && Tagged(t)
  }

  /** Every table of `a` is a prefix of the same table of `b`: no committed
      row moves, so none changes its surrogate key. */
  predicate Grows(a: Tables, b: Tables) {
    && a.main <= b.main && a.history <= b.history && a.overlap <= b.overlap
    && a.playtime <= b.playtime && a.estimate <= b.estimate && a.dlc <= b.dlc
    && a.attributes <= b.attributes
  }

  const DuplicateRoot: Fault := IntegrityError("UNIQUE constraint failed: gamalytics_main.steamId")

  /** `session.commit()`: the pending rows are inserted after the committed
      ones. A root row whose `steamId` is already stored, or repeats among
      the pending rows, violates the primary key; the whole commit is then
      refused with `IntegrityError` and nothing pending is kept. */
  function Commit(store: Tables, pending: Tables): (r: Result<Tables>)
    ensures r.Ok? <==> Distinct(MainIds(store) + MainIds(pending))
    ensures r.Err? ==> r.fault == DuplicateRoot
    ensures r.Ok? ==> Grows(store, r.value) && Distinct(MainIds(r.value))
    ensures r.Ok? ==> Append(store, pending) == r.value
  {
    MainIdsAppend(store, pending);
    if Distinct(MainIds(store) + MainIds(pending)) then Ok(Append(store, pending))
    else Err(DuplicateRoot)
  }

  /** Every child row carries the one key `id`. */
  predicate KeyedTo(t: Tables, id: Json) {
    && (forall i :: 0 <= i < |t.history| ==> t.history[i].steamId == id)
    && (forall i :: 0 <= i < |t.overlap| ==> t.overlap[i].steamId == id)
    && (forall i :: 0 <= i < |t.playtime| ==> t.playtime[i].steamId == id)
    && (forall i :: 0 <= i < |t.estimate| ==> t.estimate[i].steamId == id)
    && (forall i :: 0 <= i < |t.dlc| ==> t.dlc[i].steamId == id)
    && (forall i :: 0 <= i < |t.attributes| ==> t.attributes[i].steamId == id)
  }

  /** The rows of one document: a single root row with key `id`, a single
      estimate row, and child rows all keyed to `id` and tagged. */
  predicate OneDocument(t: Tables, id: Json) {
    |t.main| == 1 && t.main[0].steamId == id && |t.estimate| == 1 && KeyedTo(t, id) && Tagged(t)
  }

  lemma OneDocumentShape(t: Tables, id: Json)
    requires OneDocument(t, id)
    ensures MainIds(t) == [id] && Linked(t, MainIds(t)) && Tagged(t)
  {
  }

  /** Links to some keys are links to any list holding those keys. */
  lemma LinkedWider(t: Tables, ids: seq<Json>, wider: seq<Json>)
    requires Linked(t, ids) && forall x :: x in ids ==> x in wider
    ensures Linked(t, wider)
  {
  }

  lemma LinkedMono(t: Tables, ids: seq<Json>, more: seq<Json>)
    requires Linked(t, ids)
    ensures Linked(t, ids + more)
  {
  }

  lemma LinkedAppend(a: Tables, b: Tables, ids: seq<Json>)
    requires Linked(a, ids) && Linked(b, ids)
    ensures Linked(Append(a, b), ids)
  {
    var t := Append(a, b);
    assert forall i :: |a.history| <= i < |t.history| ==> t.history[i] == b.history[i - |a.history|];
    assert forall i :: |a.overlap| <= i < |t.overlap| ==> t.overlap[i] == b.overlap[i - |a.overlap|];
    assert forall i :: |a.playtime| <= i < |t.playtime| ==> t.playtime[i] == b.playtime[i - |a.playtime|];
    assert forall i :: |a.estimate| <= i < |t.estimate| ==> t.estimate[i] == b.estimate[i - |a.estimate|];
    assert forall i :: |a.dlc| <= i < |t.dlc| ==> t.dlc[i] == b.dlc[i - |a.dlc|];
    assert forall i :: |a.attributes| <= i < |t.attributes| ==> t.attributes[i] == b.attributes[i - |a.attributes|];
  }

  lemma TaggedAppend(a: Tables, b: Tables)
    requires Tagged(a) && Tagged(b)
    ensures Tagged(Append(a, b))
  {
    var t := Append(a, b);
    assert forall i :: |a.overlap| <= i < |t.overlap| ==> t.overlap[i] == b.overlap[i - |a.overlap|];
    assert forall i :: |a.attributes| <= i < |t.attributes| ==> t.attributes[i] == b.attributes[i - |a.attributes|];
  }

  /** A commit keeps the store valid when the pending rows are tagged and
      every pending child names a root row of the store or of the commit. */
  lemma CommitKeepsValid(store: Tables, pending: Tables)
    requires Valid(store)
    requires Linked(pending, MainIds(store) + MainIds(pending)) && Tagged(pending)
    requires Commit(store, pending).Ok?
    ensures Valid(Commit(store, pending).value)
  {
    var ids := MainIds(store) + MainIds(pending);
    MainIdsAppend(store, pending);
    LinkedMono(store, MainIds(store), MainIds(pending));
    LinkedAppend(store, pending, ids);
    TaggedAppend(store, pending);
  }

  /** Nothing upserts: loading an app whose root row is already stored is a
      key conflict, never a no-op. */
  lemma ReloadConflicts(store: Tables, pending: Tables, id: Json)
    requires id in MainIds(store) && id in MainIds(pending)
    ensures Commit(store, pending) == Err(DuplicateRoot)
  {
    var ids := MainIds(store) + MainIds(pending);
    var i :| 0 <= i < |MainIds(store)| && MainIds(store)[i] == id;
    var j :| 0 <= j < |MainIds(pending)| && MainIds(pending)[j] == id;
    assert ids[i] == ids[|MainIds(store)| + j];
  }
}
