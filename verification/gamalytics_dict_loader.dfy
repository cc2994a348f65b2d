/** `loaders/gamalytics.py`: the second Gamalytics loader, which builds a
    plain dict per row and hands it to the ORM as keyword arguments.

    `insert_data` calls `model_class(**data)`. The ORM constructor accepts
    only the table's column names as keywords and raises `TypeError` on any
    other. The handler that catches it then reads `model_class.__tableanme__`,
    a misspelt attribute, so what escapes is an `AttributeError`: a dict with
    a key the table does not have stops the load.

    The DLC and attribute inserts call methods the class does not define; the
    model substitutes the first loader's builders for them.
 */
module GamalyticsDictLoader {
  import opened Wrappers
  import opened JsonValues
  import opened Schema
  import GamalyticsLoader

  /** What escapes `insert_data` when the constructor rejects a keyword. */
  const Misspelt := AttributeError("__tableanme__")

  // ---------------------------------------------------------------------
  // insert_data: `model_class(**data)`

  /** Every key of the dict names a column of the table. */
  predicate Accepts(m: Fields, cols: seq<string>) {
    forall i :: 0 <= i < |m| ==> m[i].0 in cols
  }

  /** The value the constructor gives a column: the keyword's value, or
      null when the keyword is absent. */
  function Column(m: Fields): string -> Json {
    c => Field(m, c)
  }

  /** `model_class(**m)`: a row whose columns take the dict's values, or the
      handler's `AttributeError` as soon as one key is not a column. */
  function Construct<R>(m: Fields, cols: seq<string>, build: (string -> Json) -> R): (r: Result<R>)
    ensures r.Ok? <==> Accepts(m, cols)
    ensures r.Err? ==> r.fault == Misspelt
    ensures r.Ok? ==> r.value == build(Column(m))
  {
    if Accepts(m, cols) then Ok(build(Column(m))) else Err(Misspelt)
  }

  /** A key outside the table's columns makes the constructor fail,
      whatever the other keys hold. */
  lemma StrayKeyFails<R>(m: Fields, cols: seq<string>, build: (string -> Json) -> R, k: string)
    requires HasKey(m, k) && k !in cols
    ensures Construct(m, cols, build) == Err(Misspelt)
  {
    var i :| 0 <= i < |m| && m[i].0 == k;
  }

  // ---------------------------------------------------------------------
  // insert_jsonlist_data

  /** `additional_data or {}`. */
  function ExtraOf(additional: Option<Fields>): Fields {
    if additional.Some? then additional.value else []
  }

  /** `{**entry, **(additional_data or {})}`: the entry's keys, overridden
      by the additional ones; an entry that is not a mapping raises
      `TypeError`. */
  function EntryData(e: Json, additional: Option<Fields>): (r: Result<Fields>)
    ensures r.Ok? <==> e.Obj?
    ensures r.Ok? ==> forall k {:trigger Lookup(r.value, k)} ::
      Lookup(r.value, k) == if HasKey(ExtraOf(additional), k) then Lookup(ExtraOf(additional), k) else Lookup(e.fields, k)
    ensures r.Ok? ==> forall k {:trigger HasKey(r.value, k)} ::
      HasKey(r.value, k) <==> HasKey(e.fields, k) || HasKey(ExtraOf(additional), k)
  {
    if e.Obj? then Ok(Merge(e.fields, ExtraOf(additional))) else Err(TypeError("not a mapping"))
  }

  /** With no additional data the record is the entry itself. */
  lemma EntryDataNothing(e: Json)
    requires e.Obj?
    ensures EntryData(e, None) == Ok(e.fields)
  {
    MergeNothing(e.fields);
  }

  /** A key of the additional data reaches the constructor with the
      additional value. */
  lemma ParentKeyWins<R>(e: Json, extra: Fields, id: Json, cols: seq<string>, build: (string -> Json) -> R)
    requires extra != [] && extra[0] == ("steamId", id)
    ensures e.Obj? ==> Column(Merge(e.fields, extra))("steamId") == id
  {
    assert Lookup(extra, "steamId") == Some(id);
  }

  /** One entry of the list inserted: merge, then construct. */
  function Insert<R>(e: Json, additional: Option<Fields>, cols: seq<string>, build: (string -> Json) -> R): (r: Result<R>)
    ensures r.Ok? <==> e.Obj? && Accepts(Merge(e.fields, ExtraOf(additional)), cols)
    ensures r.Ok? ==> r.value == build(Column(Merge(e.fields, ExtraOf(additional))))
  {
    var m :- EntryData(e, additional);
    Construct(m, cols, build)
  }

  /** `for entry in data.get(key, [])`: one insert per entry, in list order;
      no list, no inserts. */
  function JsonList<R>(fs: Fields, key: string, additional: Option<Fields>, cols: seq<string>,
                       build: (string -> Json) -> R): (r: Result<seq<R>>)
    ensures !HasKey(fs, key) ==> r == Ok([])
    ensures r.Ok? ==> IterateField(fs, key).Ok?
    ensures r.Ok? ==>
      var entries := IterateField(fs, key).value;
      && |r.value| == |entries|
      && forall k :: 0 <= k < |entries| ==> Insert(entries[k], additional, cols, build) == Ok(r.value[k])
  {
    var entries :- IterateField(fs, key);
    MapAll(entries, e => Insert(e, additional, cols, build))
  }

  // ---------------------------------------------------------------------
  // insert_main_data

  /** The root dict: `data['steamId']` under `steamId`, and `data.get(c)`
      under every other column name `c`. */
  function MainDict(fs: Fields, id: Json): (m: Fields)
    ensures Keys(m) == MainColumns
    ensures forall i :: 0 <= i < |m| ==> m[i].1 == if i == 0 then id else Field(fs, MainColumns[i])
  {
    seq(|MainColumns|, i requires 0 <= i < |MainColumns| =>
      (MainColumns[i], if i == 0 then id else Field(fs, MainColumns[i])))
  }

  /** The root dict's keys are exactly the root table's columns, so its
      insert never fails, and every column holds what the dict put there. */
  lemma MainDictFits(fs: Fields, id: Json)
    ensures Construct(MainDict(fs, id), MainColumns, MainFrom).Ok?
    ensures forall i :: 0 <= i < |MainColumns| ==>
      Field(MainDict(fs, id), MainColumns[i]) == if i == 0 then id else Field(fs, MainColumns[i])
  {
    var m := MainDict(fs, id);
    assert Accepts(m, MainColumns) by {
      forall i | 0 <= i < |m| ensures m[i].0 in MainColumns {
        assert Keys(m)[i] == m[i].0;
      }
    }
    MainColumnsDistinct();
    forall i | 0 <= i < |MainColumns|
      ensures Field(m, MainColumns[i]) == if i == 0 then id else Field(fs, MainColumns[i])
    {
      assert Keys(m)[i] == m[i].0;
      assert DistinctKeys(m) by {
        forall a, b | 0 <= a < b < |m| ensures m[a].0 != m[b].0 {
          assert Keys(m)[a] == MainColumns[a] && Keys(m)[b] == MainColumns[b];
        }
      }
      LookupAt(m, i);
    }
  }

  /** The root row the dict builds is the one the first loader builds. */
  lemma MainAgrees(doc: Json)
    requires doc.Obj? && HasKey(doc.fields, "steamId")
    ensures var id := Lookup(doc.fields, "steamId").value;
      Construct(MainDict(doc.fields, id), MainColumns, MainFrom) == GamalyticsLoader.MainOf(doc)
  {
    var id := Lookup(doc.fields, "steamId").value;
    var m := MainDict(doc.fields, id);
    var v1 := GamalyticsLoader.MainOf(doc).value;
    MainDictFits(doc.fields, id);
    var v2 := MainFrom(Column(m));
    assert MainValues(v2) == MainValues(v1) by {
      forall i | 0 <= i < |MainColumns| ensures MainValues(v2)[i] == MainValues(v1)[i] {
        assert MainValues(v2)[i] == Field(m, MainColumns[i]);
      }
    }
    MainValuesInjective(v1, v2);
  }

  // ---------------------------------------------------------------------
  // History and overlap: `insert_jsonlist_data` with additional data

  /** `{"steamId": data["steamId"]}`. */
  function HistoryExtra(id: Json): Fields {
    [("steamId", id)]
  }

  function HistoryOf(fs: Fields, id: Json): (r: Result<seq<HistoryRow>>)
    ensures !HasKey(fs, "history") ==> r == Ok([])
    ensures r.Ok? ==> forall k :: 0 <= k < |r.value| ==> r.value[k].steamId == id
  {
    var rows :- JsonList(fs, "history", Some(HistoryExtra(id)), HistoryColumns, HistoryFrom);
    assert forall k :: 0 <= k < |rows| ==> rows[k].steamId == id by {
      var entries := IterateField(fs, "history").value;
      forall k | 0 <= k < |rows| ensures rows[k].steamId == id {
        ParentKeyWins(entries[k], HistoryExtra(id), id, HistoryColumns, HistoryFrom);
        assert HistoryFrom(Column(Merge(entries[k].fields, HistoryExtra(id)))).steamId
            == Column(Merge(entries[k].fields, HistoryExtra(id)))("steamId");
      }
    }
    Ok(rows)
  }

  /** A history row the dict path builds is the one the first loader builds
      from the same entry. */
  lemma HistoryEntryAgrees(id: Json, e: Json)
    requires Insert(e, Some(HistoryExtra(id)), HistoryColumns, HistoryFrom).Ok?
    ensures Insert(e, Some(HistoryExtra(id)), HistoryColumns, HistoryFrom) == GamalyticsLoader.HistoryEntry(id, e)
  {
    var m := Merge(e.fields, HistoryExtra(id));
    var v1 := GamalyticsLoader.HistoryEntry(id, e).value;
    var v2 := HistoryFrom(Column(m));
    ChildColumnsDistinct();
    assert HistoryValues(v2) == HistoryValues(v1) by {
      forall i | 0 <= i < |HistoryColumns| ensures HistoryValues(v2)[i] == HistoryValues(v1)[i] {
        assert HistoryValues(v2)[i] == Field(m, HistoryColumns[i]);
        assert Lookup(m, HistoryColumns[i]) ==
          if HasKey(HistoryExtra(id), HistoryColumns[i]) then Lookup(HistoryExtra(id), HistoryColumns[i])
          else Lookup(e.fields, HistoryColumns[i]);
      }
    }
    HistoryValuesInjective(v1, v2);
  }

  /** `{"steamId": steamId, "type": kind}`. */
  function OverlapExtra(id: Json, kind: string): Fields {
    [("steamId", id), ("type", Str(kind))]
  }

  /** One overlap group: the parent's `steamId` and the group's kind
      overwrite whatever the entry itself carried under `steamId` and
      `type`. */
  function OverlapGroup(fs: Fields, key: string, id: Json, kind: string): (r: Result<seq<OverlapRow>>)
    ensures !HasKey(fs, key) ==> r == Ok([])
    ensures r.Ok? ==> IterateField(fs, key).Ok? && |r.value| == |IterateField(fs, key).value|
    ensures r.Ok? ==> forall k :: 0 <= k < |r.value| ==> r.value[k].steamId == id && r.value[k].kind == Str(kind)
  {
    var rows :- JsonList(fs, key, Some(OverlapExtra(id, kind)), OverlapColumns, OverlapFrom);
    OverlapParentWins(fs, key, id, kind);
    Ok(rows)
  }

  lemma OverlapParentWins(fs: Fields, key: string, id: Json, kind: string)
    requires JsonList(fs, key, Some(OverlapExtra(id, kind)), OverlapColumns, OverlapFrom).Ok?
    ensures var r := JsonList(fs, key, Some(OverlapExtra(id, kind)), OverlapColumns, OverlapFrom).value;
      forall k :: 0 <= k < |r| ==> r[k].steamId == id && r[k].kind == Str(kind)
  {
    var r := JsonList(fs, key, Some(OverlapExtra(id, kind)), OverlapColumns, OverlapFrom).value;
    var entries := IterateField(fs, key).value;
    forall k | 0 <= k < |r| ensures r[k].steamId == id && r[k].kind == Str(kind) {
      OverlapEntryParentWins(entries[k], id, kind);
    }
  }

  lemma OverlapEntryParentWins(e: Json, id: Json, kind: string)
    requires Insert(e, Some(OverlapExtra(id, kind)), OverlapColumns, OverlapFrom).Ok?
    ensures var row := Insert(e, Some(OverlapExtra(id, kind)), OverlapColumns, OverlapFrom).value;
      row.steamId == id && row.kind == Str(kind)
  {
    var x := OverlapExtra(id, kind);
    var m := Merge(e.fields, x);
    assert Lookup(x, "steamId") == Some(id);
    assert Lookup(x, "type") == Some(Str(kind));
    assert Lookup(m, "steamId") == Some(id);
    assert Lookup(m, "type") == Some(Str(kind));
  }

  /** Related-game entries name the game under `name`, which is not a
      column of the overlap table (it is `relatedName`): such an entry
      stops the load. */
  lemma OverlapNameFails(e: Json, id: Json, kind: string)
    requires e.Obj? && HasKey(e.fields, "name")
    ensures Insert(e, Some(OverlapExtra(id, kind)), OverlapColumns, OverlapFrom) == Err(Misspelt)
  {
    var m := Merge(e.fields, OverlapExtra(id, kind));
    assert HasKey(m, "name");
    StrayKeyFails(m, OverlapColumns, OverlapFrom, "name");
  }

  // ---------------------------------------------------------------------
  // Playtime and estimate dicts built inline in `load_data`

  function PlaytimeDict(id: Json, median: Json, member: (string, Json)): Fields {
    [("steamId", id), ("medianPlaytime", median), ("timeRange", Str(member.0)), ("percentage", member.1)]
  }

  /** One dict per member of `playtimeData.distribution`; the same
      `AttributeError`s as the first loader when either is not a dict. */
  function PlaytimeDicts(fs: Fields, id: Json): (r: Result<seq<Fields>>)
    ensures r.Ok? <==> GamalyticsLoader.PlaytimeOf(fs, id).Ok?
    ensures r.Err? ==> GamalyticsLoader.PlaytimeOf(fs, id) == Err(r.fault)
  {
    var info := GetOr(fs, "playtimeData", Obj([]));
    if !info.Obj? then Err(AttributeError("get"))
    else
      var dist := GetOr(info.fields, "distribution", Obj([]));
      if !dist.Obj? then Err(AttributeError("items"))
      else
        Ok(seq(|dist.fields|, k requires 0 <= k < |dist.fields| =>
          PlaytimeDict(id, Field(info.fields, "median"), dist.fields[k])))
  }

  /** `insert_data(GamalyticsPlaytimeData, playtime_data)`. */
  function PlaytimeRowOf(m: Fields): Result<PlaytimeRow> {
    Construct(m, PlaytimeColumns, PlaytimeFrom)
  }

  /** The dict path inserts the same playtime rows as the first loader, or
      fails the same way: one row per distribution member, in member order,
      all sharing the median; none without `playtimeData`. */
  function PlaytimeOf(fs: Fields, id: Json): (r: Result<seq<PlaytimeRow>>)
    ensures r == GamalyticsLoader.PlaytimeOf(fs, id)
  {
    var ds :- PlaytimeDicts(fs, id);
    PlaytimeDictsAgree(fs, id);
    MapAll(ds, PlaytimeRowOf)
  }

  /** A playtime dict always fits its table and builds the row the first
      loader builds. */
  lemma PlaytimeDictFits(id: Json, median: Json, member: (string, Json))
    ensures PlaytimeRowOf(PlaytimeDict(id, median, member)) == Ok(PlaytimeRow(id, median, Str(member.0), member.1))
  {
    var m := PlaytimeDict(id, median, member);
    assert Accepts(m, PlaytimeColumns);
    FourLookups(m);
  }

  /** Lookups in a dict of four distinct keys. */
  lemma FourLookups(m: Fields)
    requires |m| == 4 && DistinctKeys(m)
    ensures Lookup(m, m[0].0) == Some(m[0].1) && Lookup(m, m[1].0) == Some(m[1].1)
    ensures Lookup(m, m[2].0) == Some(m[2].1) && Lookup(m, m[3].0) == Some(m[3].1)
  {
    LookupAt(m, 0);
    LookupAt(m, 1);
    LookupAt(m, 2);
    LookupAt(m, 3);
  }

  lemma PlaytimeDictsAgree(fs: Fields, id: Json)
    requires PlaytimeDicts(fs, id).Ok?
    ensures MapAll(PlaytimeDicts(fs, id).value, PlaytimeRowOf) == GamalyticsLoader.PlaytimeOf(fs, id)
  {
    var info := GetOr(fs, "playtimeData", Obj([]));
    var dist := GetOr(info.fields, "distribution", Obj([]));
    var ds := PlaytimeDicts(fs, id).value;
    var median := Field(info.fields, "median");
    var v1 := GamalyticsLoader.PlaytimeOf(fs, id).value;
    forall k | 0 <= k < |ds| ensures PlaytimeRowOf(ds[k]) == Ok(v1[k]) {
      PlaytimeDictFits(id, median, dist.fields[k]);
    }
    MapAllOk(ds, PlaytimeRowOf, v1);
  }

  /** `{"steamId": …, "rankBased": estimate_details.get('rankBased'), …}`. */
  function EstimateDict(fs: Fields, id: Json): (r: Result<Fields>)
    ensures r.Ok? <==> GetOr(fs, "estimateDetails", Obj([])).Obj?
  {
    var info := GetOr(fs, "estimateDetails", Obj([]));
    if !info.Obj? then Err(AttributeError("get"))
    else
      var f := info.fields;
      Ok([("steamId", id), ("rankBased", Field(f, "rankBased")), ("playtimeBased", Field(f, "playtimeBased")),
          ("reviewBased", Field(f, "reviewBased"))])
  }

  /** The dict path inserts the same estimate row as the first loader, or
      fails the same way: exactly one row per document, with null figures
      when `estimateDetails` is absent. */
  function EstimateOf(fs: Fields, id: Json): (r: Result<EstimateRow>)
    ensures r == GamalyticsLoader.EstimateOf(fs, id)
  {
    var m :- EstimateDict(fs, id);
    assert Accepts(m, EstimateColumns);
    FourLookups(m);
    Construct(m, EstimateColumns, EstimateFrom)
  }

  // ---------------------------------------------------------------------
  // One document

  /** Every child insert of a document goes through: history, the two
      overlap groups, playtime, estimate, then the first loader's DLC and
      attribute builders. */
  predicate Fans(fs: Fields, id: Json) {
    && HistoryOf(fs, id).Ok?
    && OverlapGroup(fs, "audienceOverlap", id, GamalyticsLoader.AudienceOverlap).Ok?
    && OverlapGroup(fs, "alsoPlayed", id, GamalyticsLoader.AlsoPlayed).Ok?
    && PlaytimeOf(fs, id).Ok? && EstimateOf(fs, id).Ok?
    && GamalyticsLoader.DlcOf(fs, id).Ok? && GamalyticsLoader.AttributesOf(fs, id).Ok?
  }

  /** The exception of the first child insert that raises, in the order
      `load_data` calls them. */
  function FirstFault(fs: Fields, id: Json): Fault
    requires !Fans(fs, id)
  {
    if HistoryOf(fs, id).Err? then HistoryOf(fs, id).fault
    else if OverlapGroup(fs, "audienceOverlap", id, GamalyticsLoader.AudienceOverlap).Err? then
      OverlapGroup(fs, "audienceOverlap", id, GamalyticsLoader.AudienceOverlap).fault
    else if OverlapGroup(fs, "alsoPlayed", id, GamalyticsLoader.AlsoPlayed).Err? then
      OverlapGroup(fs, "alsoPlayed", id, GamalyticsLoader.AlsoPlayed).fault
    else if PlaytimeOf(fs, id).Err? then PlaytimeOf(fs, id).fault
    else if EstimateOf(fs, id).Err? then EstimateOf(fs, id).fault
    else if GamalyticsLoader.DlcOf(fs, id).Err? then GamalyticsLoader.DlcOf(fs, id).fault
    else GamalyticsLoader.AttributesOf(fs, id).fault
  }

  function Fan(fs: Fields, main: MainRow): Tables
    requires Fans(fs, main.steamId)
  {
    var id := main.steamId;
    Tables([main], HistoryOf(fs, id).value,
           OverlapGroup(fs, "audienceOverlap", id, GamalyticsLoader.AudienceOverlap).value
             + OverlapGroup(fs, "alsoPlayed", id, GamalyticsLoader.AlsoPlayed).value,
           PlaytimeOf(fs, id).value, [EstimateOf(fs, id).value],
           GamalyticsLoader.DlcOf(fs, id).value, GamalyticsLoader.AttributesOf(fs, id).value)
  }

  /** The rows one line adds to the session before its commit:
      `data["steamId"]` first, then the root dict, then the children. */
  function Decompose(doc: Json): (r: Result<Tables>)
    ensures r.Ok? <==> doc.Obj? && HasKey(doc.fields, "steamId")
                       && Fans(doc.fields, Lookup(doc.fields, "steamId").value)
    ensures doc.Obj? && !HasKey(doc.fields, "steamId") ==> r == Err(KeyError("steamId"))
    ensures r.Ok? ==> GamalyticsLoader.MainOf(doc).Ok? && r.value == Fan(doc.fields, GamalyticsLoader.MainOf(doc).value)
  {
    var id :- Index(doc, "steamId");
    MainAgrees(doc);
    var main := MainFrom(Column(MainDict(doc.fields, id)));
    if Fans(doc.fields, id) then Ok(Fan(doc.fields, main)) else Err(FirstFault(doc.fields, id))
  }

  /** The rows of a document all carry its root's key and a documented
      `type`. */
  lemma FanShape(fs: Fields, main: MainRow)
    requires Fans(fs, main.steamId)
    ensures OneDocument(Fan(fs, main), main.steamId)
  {
    FanKeyedFront(fs, main);
    FanKeyedBack(fs, main);
    FanTagged(fs, main);
  }

  lemma FanKeyedFront(fs: Fields, main: MainRow)
    requires Fans(fs, main.steamId)
    ensures var t, id := Fan(fs, main), main.steamId;
      && (forall i :: 0 <= i < |t.history| ==> t.history[i].steamId == id)
      && (forall i :: 0 <= i < |t.overlap| ==> t.overlap[i].steamId == id)
      && (forall i :: 0 <= i < |t.playtime| ==> t.playtime[i].steamId == id)
  {
    var id := main.steamId;
    var t := Fan(fs, main);
    var g1 := OverlapGroup(fs, "audienceOverlap", id, GamalyticsLoader.AudienceOverlap).value;
    var g2 := OverlapGroup(fs, "alsoPlayed", id, GamalyticsLoader.AlsoPlayed).value;
    GroupsKeyed(g1, g2, id);
    PlaytimeKeyed(fs, id);
    assert t.history == HistoryOf(fs, id).value && t.overlap == g1 + g2 && t.playtime == PlaytimeOf(fs, id).value;
  }

  lemma GroupsKeyed(g1: seq<OverlapRow>, g2: seq<OverlapRow>, id: Json)
    requires forall k :: 0 <= k < |g1| ==> g1[k].steamId == id
    requires forall k :: 0 <= k < |g2| ==> g2[k].steamId == id
    ensures forall k :: 0 <= k < |g1 + g2| ==> (g1 + g2)[k].steamId == id
  {
    forall k | 0 <= k < |g1 + g2| ensures (g1 + g2)[k].steamId == id {
      if k < |g1| {
        assert (g1 + g2)[k] == g1[k];
      } else {
        assert (g1 + g2)[k] == g2[k - |g1|];
      }
    }
  }

  lemma PlaytimeKeyed(fs: Fields, id: Json)
    requires PlaytimeOf(fs, id).Ok?
    ensures forall k :: 0 <= k < |PlaytimeOf(fs, id).value| ==> PlaytimeOf(fs, id).value[k].steamId == id
  {
    assert PlaytimeOf(fs, id) == GamalyticsLoader.PlaytimeOf(fs, id);
  }

  lemma FanKeyedBack(fs: Fields, main: MainRow)
    requires Fans(fs, main.steamId)
    ensures var t, id := Fan(fs, main), main.steamId;
      && (forall i :: 0 <= i < |t.estimate| ==> t.estimate[i].steamId == id)
      && (forall i :: 0 <= i < |t.dlc| ==> t.dlc[i].steamId == id)
      && (forall i :: 0 <= i < |t.attributes| ==> t.attributes[i].steamId == id)
  {
    var id := main.steamId;
    BackKeyed(fs, id);
    BackParts(Fan(fs, main), id, EstimateOf(fs, id).value, GamalyticsLoader.DlcOf(fs, id).value, GamalyticsLoader.AttributesOf(fs, id).value);
  }

  lemma BackKeyed(fs: Fields, id: Json)
    requires EstimateOf(fs, id).Ok? && GamalyticsLoader.DlcOf(fs, id).Ok? && GamalyticsLoader.AttributesOf(fs, id).Ok?
    ensures EstimateOf(fs, id).value.steamId == id
    ensures forall k :: 0 <= k < |GamalyticsLoader.DlcOf(fs, id).value| ==> GamalyticsLoader.DlcOf(fs, id).value[k].steamId == id
    ensures forall k :: 0 <= k < |GamalyticsLoader.AttributesOf(fs, id).value| ==>
      GamalyticsLoader.AttributesOf(fs, id).value[k].steamId == id
  {
    GamalyticsLoader.AttributesTagged(fs, id);
    assert EstimateOf(fs, id) == GamalyticsLoader.EstimateOf(fs, id);
  }

  lemma BackParts(t: Tables, id: Json, e: EstimateRow, d: seq<DlcRow>, a: seq<AttributeRow>)
    requires t.estimate == [e] && t.dlc == d && t.attributes == a
    requires e.steamId == id
    requires forall k :: 0 <= k < |d| ==> d[k].steamId == id
    requires forall k :: 0 <= k < |a| ==> a[k].steamId == id
    ensures forall i :: 0 <= i < |t.estimate| ==> t.estimate[i].steamId == id
    ensures forall i :: 0 <= i < |t.dlc| ==> t.dlc[i].steamId == id
    ensures forall i :: 0 <= i < |t.attributes| ==> t.attributes[i].steamId == id
  {
  }

  lemma FanTagged(fs: Fields, main: MainRow)
    requires Fans(fs, main.steamId)
    ensures Tagged(Fan(fs, main))
  {
    var id := main.steamId;
    GroupsTagged(OverlapGroup(fs, "audienceOverlap", id, GamalyticsLoader.AudienceOverlap).value,
                 OverlapGroup(fs, "alsoPlayed", id, GamalyticsLoader.AlsoPlayed).value);
    GamalyticsLoader.AttributesTagged(fs, id);
  }

  lemma GroupsTagged(g1: seq<OverlapRow>, g2: seq<OverlapRow>)
    requires forall k :: 0 <= k < |g1| ==> g1[k].kind == Str(GamalyticsLoader.AudienceOverlap)
    requires forall k :: 0 <= k < |g2| ==> g2[k].kind == Str(GamalyticsLoader.AlsoPlayed)
    ensures forall k :: 0 <= k < |g1 + g2| ==> (g1 + g2)[k].kind in OverlapKinds
  {
    forall k | 0 <= k < |g1 + g2| ensures (g1 + g2)[k].kind in OverlapKinds {
      if k < |g1| {
        assert (g1 + g2)[k] == g1[k];
        assert OverlapKinds[0] == Str(GamalyticsLoader.AudienceOverlap);
      } else {
        assert (g1 + g2)[k] == g2[k - |g1|];
        assert OverlapKinds[1] == Str(GamalyticsLoader.AlsoPlayed);
      }
    }
  }

  /** A decomposed document is one root row keyed by `data["steamId"]`,
      exactly one estimate row, and child rows that all carry the root's key
      and a documented `type`. */
  lemma DecomposeShape(doc: Json)
    requires Decompose(doc).Ok?
    ensures var t := Decompose(doc).value;
      && MainIds(t) == [Lookup(doc.fields, "steamId").value]
      && |t.estimate| == 1
      && Linked(t, MainIds(t)) && Tagged(t)
  {
    var main := GamalyticsLoader.MainOf(doc).value;
    FanShape(doc.fields, main);
    OneDocumentShape(Decompose(doc).value, main.steamId);
  }

  /** On a document with no related games the two loaders agree: whatever
      the dict loader inserts is what the first loader inserts. */
  lemma VersionsAgree(doc: Json)
    requires doc.Obj? && !HasKey(doc.fields, "audienceOverlap") && !HasKey(doc.fields, "alsoPlayed")
    requires Decompose(doc).Ok?
    ensures GamalyticsLoader.Decompose(doc) == Decompose(doc)
  {
    var fs := doc.fields;
    var id := Lookup(fs, "steamId").value;
    var main := GamalyticsLoader.MainOf(doc).value;
    HistoryAgrees(fs, id);
    assert GamalyticsLoader.OverlapOf(fs, id) == Ok([]);
    assert GamalyticsLoader.Fans(fs, id);
  }

  /** Whatever history rows the dict loader inserts, the first loader
      inserts the same. */
  lemma HistoryAgrees(fs: Fields, id: Json)
    requires HistoryOf(fs, id).Ok?
    ensures GamalyticsLoader.HistoryOf(fs, id) == HistoryOf(fs, id)
  {
    var entries := IterateField(fs, "history").value;
    var rows := HistoryOf(fs, id).value;
    forall k | 0 <= k < |entries| ensures GamalyticsLoader.HistoryEntry(id, entries[k]) == Ok(rows[k]) {
      HistoryEntryAgrees(id, entries[k]);
    }
    MapAllOk(entries, e => GamalyticsLoader.HistoryEntry(id, e), rows);
  }
}
