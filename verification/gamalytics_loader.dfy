/** `loaders/gamalytics_loader.py`: one Gamalytics document fanned out into
    one root row and its child rows.

    The seven `insert_*` methods run in order on the same decoded document;
    each adds rows to the session. An exception in any of them escapes
    `load_data` before the file's commit, so the model builds the document's
    rows as one `Result`: all of them, or the first exception raised.
 */
module GamalyticsLoader {
  import opened Wrappers
  import opened JsonValues
  import opened Schema
  import Text

  /** The columns of a child row built from an entry: `steamId` is the
      parent's, every other column is the entry's value under the same name
      (null when absent). */
  function Keyed(id: Json, fs: Fields): string -> Json {
    c => if c == "steamId" then id else Field(fs, c)
  }

  // ---------------------------------------------------------------------
  // insert_main_data

  /** `data['steamId']` is required (a missing key raises `KeyError`, a
      document that is not a dict `TypeError`); every other column is
      `data.get(column)`. */
  function MainOf(doc: Json): (r: Result<MainRow>)
    ensures r.Ok? <==> doc.Obj? && HasKey(doc.fields, "steamId")
    ensures doc.Obj? && !HasKey(doc.fields, "steamId") ==> r == Err(KeyError("steamId"))
    ensures r.Ok? ==> Lookup(doc.fields, "steamId") == Some(r.value.steamId)
    ensures r.Ok? ==>
      forall i :: 1 <= i < |MainColumns| ==> MainValues(r.value)[i] == Field(doc.fields, MainColumns[i])
  {
    var id :- Index(doc, "steamId");
    MainColumnsDistinct();
    Ok(MainFrom(Keyed(id, doc.fields)))
  }

  // ---------------------------------------------------------------------
  // insert_history_data

  /** One history entry: `entry.get` on anything but a dict raises
      `AttributeError`. */
  function HistoryEntry(id: Json, e: Json): (r: Result<HistoryRow>)
    ensures r.Ok? <==> e.Obj?
    ensures r.Ok? ==> r.value.steamId == id
    ensures r.Ok? ==>
      forall i :: 1 <= i < |HistoryColumns| ==> HistoryValues(r.value)[i] == Field(e.fields, HistoryColumns[i])
  {
    ChildColumnsDistinct();
    if e.Obj? then Ok(HistoryFrom(Keyed(id, e.fields))) else Err(AttributeError("get"))
  }

  /** `for entry in data.get('history', [])`: one row per entry, in list
      order, each carrying the parent's `steamId`; no list, no rows. */
  function HistoryOf(fs: Fields, id: Json): (r: Result<seq<HistoryRow>>)
    ensures !HasKey(fs, "history") ==> r == Ok([])
    ensures r.Ok? ==> IterateField(fs, "history").Ok?
    ensures r.Ok? ==>
      var entries := IterateField(fs, "history").value;
      && |r.value| == |entries|
      && forall k :: 0 <= k < |entries| ==> HistoryEntry(id, entries[k]) == Ok(r.value[k]) && r.value[k].steamId == id
  {
    var entries :- IterateField(fs, "history");
    MapAll(entries, e => HistoryEntry(id, e))
  }

  // ---------------------------------------------------------------------
  // Related games and DLC: `', '.join(entry.get('genres', []))`

  /** Python `sep.join(parts)`. */
  function JoinSep(parts: seq<string>, sep: string): string
    decreases |parts|
  {
    if |parts| == 0 then ""
    else if |parts| == 1 then parts[0]
    else parts[0] + sep + JoinSep(parts[1..], sep)
  }

  const GenreSep: string := ", "

  /** The genres of an entry as one string. Joining iterates the value (a
      list, the keys of a dict, the characters of a string) and raises
      `TypeError` on a value that is not iterable or on an item that is not
      a string; an absent list joins to the empty string. */
  function GenresOf(fs: Fields): (r: Result<string>)
    ensures !HasKey(fs, "genres") ==> r == Ok("")
    ensures Lookup(fs, "genres") == Some(Null) ==> r.Err?
    ensures r.Ok? <==>
      var gs := Iterate(GetOr(fs, "genres", Arr([])));
      gs.Ok? && forall i :: 0 <= i < |gs.value| ==> gs.value[i].Str?
  {
    var gs :- Iterate(GetOr(fs, "genres", Arr([])));
    if forall i :: 0 <= i < |gs| ==> gs[i].Str? then
      Ok(JoinSep(seq(|gs|, i requires 0 <= i < |gs| => gs[i].s), GenreSep))
    else Err(TypeError("sequence item: expected str instance"))
  }

  /** Every part preceded by a space. */
  function AllSpaced(q: seq<string>): (r: seq<string>)
    ensures |r| == |q|
    ensures forall i :: 0 <= i < |q| ==> r[i] == " " + q[i]
  {
    seq(|q|, i requires 0 <= i < |q| => " " + q[i])
  }

  /** Every part but the first, preceded by the space of the separator. */
  function Spaced(parts: seq<string>): (r: seq<string>)
    ensures |r| == |parts|
  {
    if parts == [] then [] else [parts[0]] + AllSpaced(parts[1..])
  }

  lemma {:induction false} JoinAllSpaced(q: seq<string>)
    requires |q| >= 1
    ensures Text.JoinWith(AllSpaced(q), ',') == " " + JoinSep(q, GenreSep)
    decreases |q|
  {
    if |q| > 1 {
      JoinAllSpaced(q[1..]);
      var sq := AllSpaced(q);
      assert sq[1..] == AllSpaced(q[1..]);
      var tail := JoinSep(q[1..], GenreSep);
      assert Text.JoinWith(sq, ',') == (" " + q[0]) + [','] + (" " + tail);
      assert GenreSep == [','] + " ";
      assert (" " + q[0]) + [','] + (" " + tail) == " " + (q[0] + GenreSep + tail);
    }
  }

  lemma JoinSepSpaced(parts: seq<string>)
    ensures JoinSep(parts, GenreSep) == Text.JoinWith(Spaced(parts), ',')
  {
    if |parts| > 1 {
      var sp := Spaced(parts);
      var tail := JoinSep(parts[1..], GenreSep);
      JoinAllSpaced(parts[1..]);
      assert sp[1..] == AllSpaced(parts[1..]) && sp[0] == parts[0];
      assert Text.JoinWith(sp, ',') == parts[0] + [','] + Text.JoinWith(sp[1..], ',');
      assert JoinSep(parts, GenreSep) == parts[0] + GenreSep + tail;
      SepRegroup(parts[0], tail);
    }
  }

  lemma SepRegroup(a: string, x: string)
    ensures a + GenreSep + x == a + [','] + (" " + x)
  {
    assert GenreSep == [','] + " ";
  }

  /** The joined genres come apart again: splitting on the comma gives back
      every genre, all but the first behind the space the separator put
      there, as long as no genre holds a comma itself. */
  lemma GenresSplit(parts: seq<string>)
    requires |parts| >= 1
    requires forall i :: 0 <= i < |parts| ==> ',' !in parts[i]
    ensures Text.Split(JoinSep(parts, GenreSep), ',') == Spaced(parts)
  {
    JoinSepSpaced(parts);
    var sp := Spaced(parts);
    forall i | 0 <= i < |sp| ensures ',' !in sp[i] {
      if i > 0 {
        assert sp[i] == AllSpaced(parts[1..])[i - 1] == " " + parts[i];
      }
    }
    Text.SplitJoin(sp, ',');
  }

  // ---------------------------------------------------------------------
  // insert_audience_overlap_data

  const AudienceOverlap: string := "audience_overlap"
  const AlsoPlayed: string := "also_played"

  /** One related game of the given kind: the parent's `steamId`, the kind
      tag, and the entry's own `steamId` as the related id. */
  function OverlapEntry(id: Json, kind: string, e: Json): (r: Result<OverlapRow>)
    ensures r.Ok? <==> e.Obj? && GenresOf(e.fields).Ok?
    ensures !e.Obj? ==> r == Err(AttributeError("get"))
    ensures r.Ok? ==>
      && r.value.steamId == id && r.value.kind == Str(kind)
      && r.value.relatedSteamId == Field(e.fields, "steamId")
      && r.value.relatedName == Field(e.fields, "name")
      && r.value.relatedGenres == Str(GenresOf(e.fields).value)
  {
    if !e.Obj? then Err(AttributeError("get"))
    else
      var f := e.fields;
      var genres :- GenresOf(f);
      Ok(OverlapRow(id, Str(kind), Field(f, "steamId"), Field(f, "link"), Field(f, "name"),
                    Field(f, "releaseDate"), Field(f, "price"), Str(genres),
                    Field(f, "copiesSold"), Field(f, "revenue")))
  }

  function OverlapGroup(fs: Fields, key: string, id: Json, kind: string): (r: Result<seq<OverlapRow>>)
    ensures !HasKey(fs, key) ==> r == Ok([])
    ensures r.Ok? ==> IterateField(fs, key).Ok?
    ensures r.Ok? ==>
      var entries := IterateField(fs, key).value;
      && |r.value| == |entries|
      && forall k :: 0 <= k < |entries| ==> OverlapEntry(id, kind, entries[k]) == Ok(r.value[k])
  {
    var entries :- IterateField(fs, key);
    MapAll(entries, e => OverlapEntry(id, kind, e))
  }

  /** The `audienceOverlap` entries, then the `alsoPlayed` entries. */
  function OverlapOf(fs: Fields, id: Json): (r: Result<seq<OverlapRow>>)
    ensures !HasKey(fs, "audienceOverlap") && !HasKey(fs, "alsoPlayed") ==> r == Ok([])
    ensures r.Ok? <==>
      OverlapGroup(fs, "audienceOverlap", id, AudienceOverlap).Ok? && OverlapGroup(fs, "alsoPlayed", id, AlsoPlayed).Ok?
  {
    var first :- OverlapGroup(fs, "audienceOverlap", id, AudienceOverlap);
    var second :- OverlapGroup(fs, "alsoPlayed", id, AlsoPlayed);
    assert first == [] && second == [] ==> first + second == [];
    Ok(first + second)
  }

  /** Every row of one group carries the parent's `steamId`, the group's
      tag, and its entry's own `steamId` as the related id. */
  lemma OverlapGroupRows(fs: Fields, key: string, id: Json, kind: string)
    requires OverlapGroup(fs, key, id, kind).Ok?
    ensures
      var r := OverlapGroup(fs, key, id, kind).value;
      var entries := IterateField(fs, key).value;
      forall k :: 0 <= k < |r| ==>
        && r[k].steamId == id && r[k].kind == Str(kind)
        && r[k].relatedSteamId == Field(entries[k].fields, "steamId")
  {
    var r := OverlapGroup(fs, key, id, kind).value;
    var entries := IterateField(fs, key).value;
    forall k | 0 <= k < |r|
      ensures r[k].steamId == id && r[k].kind == Str(kind) && r[k].relatedSteamId == Field(entries[k].fields, "steamId")
    {
      assert OverlapEntry(id, kind, entries[k]) == Ok(r[k]);
    }
  }

  /** The overlap rows are the `audienceOverlap` rows, tagged
      `audience_overlap`, then the `alsoPlayed` rows, tagged `also_played`,
      one per entry and each group in list order; every row carries the
      parent's `steamId`. */
  lemma OverlapRows(fs: Fields, id: Json)
    requires OverlapOf(fs, id).Ok?
    ensures
      var r := OverlapOf(fs, id).value;
      var g1 := OverlapGroup(fs, "audienceOverlap", id, AudienceOverlap);
      var g2 := OverlapGroup(fs, "alsoPlayed", id, AlsoPlayed);
      && g1.Ok? && g2.Ok?
      && |g1.value| == |IterateField(fs, "audienceOverlap").value|
      && |g2.value| == |IterateField(fs, "alsoPlayed").value|
      && r == g1.value + g2.value
      && (forall k :: 0 <= k < |r| ==> r[k].steamId == id)
      && (forall k :: 0 <= k < |g1.value| ==> r[k].kind == Str(AudienceOverlap))
      && (forall k :: |g1.value| <= k < |r| ==> r[k].kind == Str(AlsoPlayed))
  {
    var g1 := OverlapGroup(fs, "audienceOverlap", id, AudienceOverlap).value;
    var g2 := OverlapGroup(fs, "alsoPlayed", id, AlsoPlayed).value;
    OverlapGroupRows(fs, "audienceOverlap", id, AudienceOverlap);
    OverlapGroupRows(fs, "alsoPlayed", id, AlsoPlayed);
    GroupsConcat(g1, g2, id);
  }

  lemma GroupsConcat(g1: seq<OverlapRow>, g2: seq<OverlapRow>, id: Json)
    requires forall k :: 0 <= k < |g1| ==> g1[k].steamId == id && g1[k].kind == Str(AudienceOverlap)
    requires forall k :: 0 <= k < |g2| ==> g2[k].steamId == id && g2[k].kind == Str(AlsoPlayed)
    ensures forall k :: 0 <= k < |g1 + g2| ==> (g1 + g2)[k].steamId == id
    ensures forall k :: 0 <= k < |g1| ==> (g1 + g2)[k].kind == Str(AudienceOverlap)
    ensures forall k :: |g1| <= k < |g1 + g2| ==> (g1 + g2)[k].kind == Str(AlsoPlayed)
  {
    forall k | |g1| <= k < |g1 + g2| ensures (g1 + g2)[k] == g2[k - |g1|] {
    }
  }

  // ---------------------------------------------------------------------
  // insert_playtime_data

  /** One row per member of `playtimeData.distribution`, in member order,
      each sharing the document's `playtimeData.median`. `.get` on a
      `playtimeData` that is not a dict, and `.items()` on a `distribution`
      that is not a dict, raise `AttributeError`. */
  function PlaytimeOf(fs: Fields, id: Json): (r: Result<seq<PlaytimeRow>>)
    ensures !HasKey(fs, "playtimeData") ==> r == Ok([])
    ensures r.Ok? ==>
      var info := GetOr(fs, "playtimeData", Obj([]));
      && info.Obj?
      && var dist := GetOr(info.fields, "distribution", Obj([]));
      && dist.Obj?
      && |r.value| == |dist.fields|
      && forall k :: 0 <= k < |dist.fields| ==>
           r.value[k] == PlaytimeRow(id, Field(info.fields, "median"), Str(dist.fields[k].0), dist.fields[k].1)
  {
    var info := GetOr(fs, "playtimeData", Obj([]));
    if !info.Obj? then Err(AttributeError("get"))
    else
      var dist := GetOr(info.fields, "distribution", Obj([]));
      if !dist.Obj? then Err(AttributeError("items"))
      else
        var rows := seq(|dist.fields|, k requires 0 <= k < |dist.fields| =>
          PlaytimeRow(id, Field(info.fields, "median"), Str(dist.fields[k].0), dist.fields[k].1));
        assert dist.fields == [] ==> rows == [];
        Ok(rows)
  }

  // ---------------------------------------------------------------------
  // insert_estimate_details

  /** Always exactly one row; with no `estimateDetails` its three figures
      are null. */
  function EstimateOf(fs: Fields, id: Json): (r: Result<EstimateRow>)
    ensures r.Ok? <==> GetOr(fs, "estimateDetails", Obj([])).Obj?
    ensures !HasKey(fs, "estimateDetails") ==> r == Ok(EstimateRow(id, Null, Null, Null))
    ensures r.Ok? ==> r.value.steamId == id
  {
    var info := GetOr(fs, "estimateDetails", Obj([]));
    if !info.Obj? then Err(AttributeError("get"))
    else
      var f := info.fields;
      Ok(EstimateRow(id, Field(f, "rankBased"), Field(f, "playtimeBased"), Field(f, "reviewBased")))
  }

  // ---------------------------------------------------------------------
  // insert_dlc_data

  function DlcEntry(id: Json, e: Json): (r: Result<DlcRow>)
    ensures r.Ok? <==> e.Obj? && GenresOf(e.fields).Ok?
    ensures !e.Obj? ==> r == Err(AttributeError("get"))
    ensures r.Ok? ==>
      && r.value.steamId == id
      && r.value.dlcSteamId == Field(e.fields, "steamId")
      && r.value.dlcGenres == Str(GenresOf(e.fields).value)
  {
    if !e.Obj? then Err(AttributeError("get"))
    else
      var f := e.fields;
      var genres :- GenresOf(f);
      Ok(DlcRow(id, Field(f, "steamId"), Field(f, "name"), Field(f, "releaseDate"),
                Field(f, "price"), Str(genres), Field(f, "copiesSold"), Field(f, "revenue")))
  }

  /** One row per `dlc` entry, in list order; no list, no rows. */
  function DlcOf(fs: Fields, id: Json): (r: Result<seq<DlcRow>>)
    ensures !HasKey(fs, "dlc") ==> r == Ok([])
    ensures r.Ok? ==> IterateField(fs, "dlc").Ok?
    ensures r.Ok? ==>
      var entries := IterateField(fs, "dlc").value;
      && |r.value| == |entries|
      && forall k :: 0 <= k < |entries| ==> DlcEntry(id, entries[k]) == Ok(r.value[k]) && r.value[k].steamId == id
  {
    var entries :- IterateField(fs, "dlc");
    MapAll(entries, e => DlcEntry(id, e))
  }

  // ---------------------------------------------------------------------
  // insert_attributes_data

  function KindRows(id: Json, kind: string, vs: seq<Json>): (r: seq<AttributeRow>)
    ensures |r| == |vs|
    ensures forall k :: 0 <= k < |vs| ==> r[k] == AttributeRow(id, Str(kind), vs[k])
  {
    seq(|vs|, k requires 0 <= k < |vs| => AttributeRow(id, Str(kind), vs[k]))
  }

  /** The attribute rows of four lists: the tags, genres, features and
      languages, in that category order, each row typed by its category and
      holding the list element itself. */
  function AttributeList(id: Json, t: seq<Json>, g: seq<Json>, f: seq<Json>, l: seq<Json>): (r: seq<AttributeRow>)
    ensures |r| == |t| + |g| + |f| + |l|
    ensures forall k :: 0 <= k < |t| ==> r[k] == AttributeRow(id, Str("tag"), t[k])
    ensures forall k :: 0 <= k < |g| ==> r[|t| + k] == AttributeRow(id, Str("genre"), g[k])
    ensures forall k :: 0 <= k < |f| ==> r[|t| + |g| + k] == AttributeRow(id, Str("feature"), f[k])
    ensures forall k :: 0 <= k < |l| ==> r[|t| + |g| + |f| + k] == AttributeRow(id, Str("language"), l[k])
  {
    var A, B, C, D := KindRows(id, "tag", t), KindRows(id, "genre", g), KindRows(id, "feature", f), KindRows(id, "language", l);
    KindRowsPlaced(A + B + C + D, [], A, B + C + D, id, "tag", t);
    KindRowsPlaced(A + B + C + D, A, B, C + D, id, "genre", g);
    KindRowsPlaced(A + B + C + D, A + B, C, D, id, "feature", f);
    KindRowsPlaced(A + B + C + D, A + B + C, D, [], id, "language", l);
    A + B + C + D
  }

  /** The rows of one category, placed after `pre` in `r`. */
  lemma KindRowsPlaced(r: seq<AttributeRow>, pre: seq<AttributeRow>, mid: seq<AttributeRow>, post: seq<AttributeRow>,
                       id: Json, kind: string, vs: seq<Json>)
    requires mid == KindRows(id, kind, vs) && r == pre + mid + post
    ensures forall k :: 0 <= k < |vs| ==> r[|pre| + k] == AttributeRow(id, Str(kind), vs[k])
  {
  }

  /** Every row of the four lists carries the parent's `steamId` and one of
      the four category tags. */
  lemma AttributeListTagged(id: Json, t: seq<Json>, g: seq<Json>, f: seq<Json>, l: seq<Json>)
    ensures var r := AttributeList(id, t, g, f, l);
      forall k :: 0 <= k < |r| ==> r[k].steamId == id && r[k].kind in AttributeKinds
  {
    var r := AttributeList(id, t, g, f, l);
    forall k | 0 <= k < |r| ensures r[k].steamId == id && r[k].kind in AttributeKinds {
      if k < |t| {
      } else if k < |t| + |g| {
        assert r[|t| + (k - |t|)] == AttributeRow(id, Str("genre"), g[k - |t|]);
      } else if k < |t| + |g| + |f| {
        assert r[|t| + |g| + (k - |t| - |g|)] == AttributeRow(id, Str("feature"), f[k - |t| - |g|]);
      } else {
        assert r[|t| + |g| + |f| + (k - |t| - |g| - |f|)] == AttributeRow(id, Str("language"), l[k - |t| - |g| - |f|]);
      }
    }
  }

  /** The rows of the four attribute lists of a document; iterating a list
      that is not iterable raises `TypeError`. */
  function AttributesOf(fs: Fields, id: Json): (r: Result<seq<AttributeRow>>)
    ensures r.Ok? <==>
      && IterateField(fs, "tags").Ok? && IterateField(fs, "genres").Ok?
      && IterateField(fs, "features").Ok? && IterateField(fs, "languages").Ok?
    ensures r.Ok? ==> r.value == AttributeList(id, IterateField(fs, "tags").value, IterateField(fs, "genres").value,
                                                  IterateField(fs, "features").value, IterateField(fs, "languages").value)
  {
    var t :- IterateField(fs, "tags");
    var g :- IterateField(fs, "genres");
    var f :- IterateField(fs, "features");
    var l :- IterateField(fs, "languages");
    Ok(AttributeList(id, t, g, f, l))
  }

  // ---------------------------------------------------------------------
  // One document

  /** Every child insert of a document goes through. */
  predicate Fans(fs: Fields, id: Json) {
    && HistoryOf(fs, id).Ok? && OverlapOf(fs, id).Ok? && PlaytimeOf(fs, id).Ok?
    && EstimateOf(fs, id).Ok? && DlcOf(fs, id).Ok? && AttributesOf(fs, id).Ok?
  }

  /** The exception of the first child insert that raises, in the order
      `load_data` calls them. */
  function FirstFault(fs: Fields, id: Json): Fault
    requires !Fans(fs, id)
  {
    if HistoryOf(fs, id).Err? then HistoryOf(fs, id).fault
    else if OverlapOf(fs, id).Err? then OverlapOf(fs, id).fault
    else if PlaytimeOf(fs, id).Err? then PlaytimeOf(fs, id).fault
    else if EstimateOf(fs, id).Err? then EstimateOf(fs, id).fault
    else if DlcOf(fs, id).Err? then DlcOf(fs, id).fault
    else AttributesOf(fs, id).fault
  }

  /** The rows of a document whose inserts all go through. */
  function Fan(fs: Fields, main: MainRow): Tables
    requires Fans(fs, main.steamId)
  {
    var id := main.steamId;
    Tables([main], HistoryOf(fs, id).value, OverlapOf(fs, id).value, PlaytimeOf(fs, id).value,
           [EstimateOf(fs, id).value], DlcOf(fs, id).value, AttributesOf(fs, id).value)
  }

  /** The rows one line of a data file adds to the session, in the order
      `load_data` calls the seven inserts: the root row first (a document
      without `steamId` raises before anything else), then the children. */
  function Decompose(doc: Json): (r: Result<Tables>)
    ensures r.Ok? <==> MainOf(doc).Ok? && Fans(doc.fields, MainOf(doc).value.steamId)
    ensures r.Ok? ==> r.value == Fan(doc.fields, MainOf(doc).value)
    ensures doc.Obj? && !HasKey(doc.fields, "steamId") ==> r == Err(KeyError("steamId"))
    ensures !doc.Obj? ==> r.Err?
  {
    var main :- MainOf(doc);
    if Fans(doc.fields, main.steamId) then Ok(Fan(doc.fields, main))
    else Err(FirstFault(doc.fields, main.steamId))
  }

  /** Every attribute row of a document carries the parent's `steamId` and
      one of the four category tags. */
  lemma AttributesTagged(fs: Fields, id: Json)
    requires AttributesOf(fs, id).Ok?
    ensures forall k :: 0 <= k < |AttributesOf(fs, id).value| ==>
      AttributesOf(fs, id).value[k].steamId == id && AttributesOf(fs, id).value[k].kind in AttributeKinds
  {
    AttributeListTagged(id, IterateField(fs, "tags").value, IterateField(fs, "genres").value,
                        IterateField(fs, "features").value, IterateField(fs, "languages").value);
  }

  lemma FanKeyed(fs: Fields, main: MainRow)
    requires Fans(fs, main.steamId)
    ensures KeyedTo(Fan(fs, main), main.steamId)
  {
    var id := main.steamId;
    ChildrenKeyed(fs, id);
    KeyedParts(main, HistoryOf(fs, id).value, OverlapOf(fs, id).value, PlaytimeOf(fs, id).value,
               EstimateOf(fs, id).value, DlcOf(fs, id).value, AttributesOf(fs, id).value);
  }

  lemma KeyedParts(main: MainRow, h: seq<HistoryRow>, o: seq<OverlapRow>, p: seq<PlaytimeRow>, e: EstimateRow,
                   d: seq<DlcRow>, a: seq<AttributeRow>)
    requires e.steamId == main.steamId
    requires forall k :: 0 <= k < |h| ==> h[k].steamId == main.steamId
    requires forall k :: 0 <= k < |o| ==> o[k].steamId == main.steamId
    requires forall k :: 0 <= k < |p| ==> p[k].steamId == main.steamId
    requires forall k :: 0 <= k < |d| ==> d[k].steamId == main.steamId
    requires forall k :: 0 <= k < |a| ==> a[k].steamId == main.steamId
    ensures KeyedTo(Tables([main], h, o, p, [e], d, a), main.steamId)
  {
  }

  lemma ChildrenKeyed(fs: Fields, id: Json)
    requires Fans(fs, id)
    ensures forall k :: 0 <= k < |HistoryOf(fs, id).value| ==> HistoryOf(fs, id).value[k].steamId == id
    ensures forall k :: 0 <= k < |OverlapOf(fs, id).value| ==> OverlapOf(fs, id).value[k].steamId == id
    ensures forall k :: 0 <= k < |PlaytimeOf(fs, id).value| ==> PlaytimeOf(fs, id).value[k].steamId == id
    ensures forall k :: 0 <= k < |DlcOf(fs, id).value| ==> DlcOf(fs, id).value[k].steamId == id
    ensures forall k :: 0 <= k < |AttributesOf(fs, id).value| ==> AttributesOf(fs, id).value[k].steamId == id
  {
    OverlapRows(fs, id);
    AttributesTagged(fs, id);
  }

  lemma FanTagged(fs: Fields, main: MainRow)
    requires Fans(fs, main.steamId)
    ensures Tagged(Fan(fs, main))
  {
    var id := main.steamId;
    var t := Fan(fs, main);
    OverlapTagged(fs, id);
    AttributesTagged(fs, id);
    assert t.overlap == OverlapOf(fs, id).value && t.attributes == AttributesOf(fs, id).value;
  }

  lemma OverlapTagged(fs: Fields, id: Json)
    requires OverlapOf(fs, id).Ok?
    ensures forall k :: 0 <= k < |OverlapOf(fs, id).value| ==> OverlapOf(fs, id).value[k].kind in OverlapKinds
  {
    OverlapRows(fs, id);
  }

  /** The rows of a document all carry its root's key and a documented
      `type`. */
  lemma FanShape(fs: Fields, main: MainRow)
    requires Fans(fs, main.steamId)
    ensures OneDocument(Fan(fs, main), main.steamId)
  {
    FanKeyed(fs, main);
    FanTagged(fs, main);
  }

  /** A decomposed document is one root row keyed by `data['steamId']`,
      exactly one estimate row, and child rows that all carry the root's key
      and a documented `type`. */
  lemma DecomposeShape(doc: Json)
    requires Decompose(doc).Ok?
    ensures var t := Decompose(doc).value;
      && MainIds(t) == [Lookup(doc.fields, "steamId").value]
      && |t.estimate| == 1
      && Linked(t, MainIds(t)) && Tagged(t)
  {
    var main := MainOf(doc).value;
    FanShape(doc.fields, main);
    OneDocumentShape(Decompose(doc).value, main.steamId);
  }
}
