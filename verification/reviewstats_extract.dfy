/** `steam_reviewstats.py`: for every app of a checkpoint window, an
    all-time review summary, and for apps with a known release date a second
    summary over the weeks after release. Release dates come from the
    records the item-batch scraper stored.
 */
module ReviewStatsExtract {
  import opened Wrappers
  import opened JsonValues
  import opened Fetch
  import opened Checkpoint
  import Text
  import Decimal
  import Windows

  const BaseUrl: string := "https://store.steampowered.com/appreviews/"
  const AllPrefix: string := "../../data/raw/steam_apps/review_summary_all"
  const EarlyPrefix: string := "../../data/raw/steam_apps/review_summary_early"
  const GetItemsFilePrefix: string := "getitems_"

  // ---------------------------------------------------------------------
  // Release dates (`get_releasedates`)

  /** App id (as the record spells it) to its `steam_release_date`. */
  type Dates = map<Json, Json>

  /** A value Python can use as a dict key: lists and dicts cannot. */
  predicate Hashable(v: Json) {
    !v.Arr? && !v.Obj?
  }

  /** `key in rel and rel[key] is True`, with Python's `in` on whatever
      value `rel` is. */
  function Flag(rel: Json, key: string): (r: Result<bool>)
    ensures rel.Obj? ==> r == Ok(Lookup(rel.fields, key) == Some(Bool(true)))
  {
    var present :- Contains(rel, key);
    if !present then Ok(false)
    else
      var v :- Index(rel, key);
      Ok(v == Bool(true))
  }

  /** One stored record's effect on the map, as the loop body computes it:
      `data["id"]` is read first and raises when missing. */
  function Absorb(m: Dates, data: Json): (r: Result<Dates>)
    ensures r.Ok? ==> m.Keys <= r.value.Keys
  {
    var id :- Index(data, "id");
    if !HasKey(data.fields, "release") then Ok(m)
    else
      var rel := Field(data.fields, "release");
      var soon :- Flag(rel, "is_coming_soon");
      if soon then Ok(m)
      else
        var early :- Flag(rel, "is_early_access");
        if early then Ok(m)
        else
          var dated :- Contains(rel, "steam_release_date");
          if !dated then Ok(m)
          else
            var date :- Index(rel, "steam_release_date");
            if !Hashable(id) then Err(TypeError("unhashable type"))
            else Ok(m[id := date])
  }

  /** A record the loop body handles without raising: an object with a
      hashable id whose `release`, when present, is an object. */
  predicate WellFormed(data: Json) {
    && data.Obj? && HasKey(data.fields, "id") && Hashable(Field(data.fields, "id"))
    && (HasKey(data.fields, "release") ==> Field(data.fields, "release").Obj?)
  }

  /** A record that puts a date in the map: it has a release that is
      neither coming soon nor early access and carries a Steam date. */
  predicate Qualifies(data: Json) {
    && data.Obj?
    && HasKey(data.fields, "release")
    && var rel := Field(data.fields, "release");
    && rel.Obj?
    && Lookup(rel.fields, "is_coming_soon") != Some(Bool(true))
    && Lookup(rel.fields, "is_early_access") != Some(Bool(true))
    && HasKey(rel.fields, "steam_release_date")
  }

  function IdOf(data: Json): Json {
    if data.Obj? then Field(data.fields, "id") else Null
  }

  function DateOf(data: Json): Json
    requires Qualifies(data)
  {
    Field(Field(data.fields, "release").fields, "steam_release_date")
  }

  /** The loop body against the declarative rule: a well-formed record sets
      its id to its date exactly when it qualifies and otherwise leaves the
      map alone; a record that is not an object or has no id raises. */
  lemma AbsorbRule(m: Dates, data: Json)
    ensures WellFormed(data) ==> Absorb(m, data) == Ok(if Qualifies(data) then m[IdOf(data) := DateOf(data)] else m)
    ensures !data.Obj? || !HasKey(data.fields, "id") ==> Absorb(m, data).Err?
  {
  }

  /** The records of one file, in line order. Entries are only ever added
      or overwritten. */
  function ScanDocs(m: Dates, docs: seq<Json>): (r: Result<Dates>)
    ensures r.Ok? ==> m.Keys <= r.value.Keys
    decreases |docs|
  {
    if docs == [] then Ok(m)
    else
      var m' :- Absorb(m, docs[0]);
      ScanDocs(m', docs[1..])
  }

  /** Scanning is a left fold: records appended to a file are absorbed after
      those before them, so a later qualifying record overwrites. */
  lemma {:induction false} ScanDocsAppend(m: Dates, docs: seq<Json>, d: Json)
    requires ScanDocs(m, docs).Ok?
    ensures ScanDocs(m, docs + [d]) == Absorb(ScanDocs(m, docs).value, d)
    decreases |docs|
  {
    if docs == [] {
      assert docs + [d] == [d];
    } else {
      assert (docs + [d])[1..] == docs[1..] + [d];
      ScanDocsAppend(Absorb(m, docs[0]).value, docs[1..], d);
    }
  }

  /** What a record asks of the map: set an id to a date, or nothing. */
  function Effect(data: Json): Option<(Json, Json)> {
    if Qualifies(data) then Some((IdOf(data), DateOf(data))) else None
  }

  function Effects(docs: seq<Json>): (es: seq<Option<(Json, Json)>>)
    ensures |es| == |docs|
    ensures forall k :: 0 <= k < |docs| ==> es[k] == Effect(docs[k])
  {
    seq(|docs|, k requires 0 <= k < |docs| => Effect(docs[k]))
  }

  /** The plain fold of those requests over a map. */
  function Apply(m: Dates, es: seq<Option<(Json, Json)>>): Dates
    decreases |es|
  {
    if es == [] then m
    else if es[0].Some? then Apply(m[es[0].value.0 := es[0].value.1], es[1..])
    else Apply(m, es[1..])
  }

  /** Over well-formed records the scan never raises and is that plain fold. */
  lemma {:induction false} ScanIsApply(m: Dates, docs: seq<Json>)
    requires forall k :: 0 <= k < |docs| ==> WellFormed(docs[k])
    ensures ScanDocs(m, docs) == Ok(Apply(m, Effects(docs)))
    decreases |docs|
  {
    if docs != [] {
      AbsorbRule(m, docs[0]);
      var tail := docs[1..];
      assert forall k :: 0 <= k < |tail| ==> tail[k] == docs[k + 1];
      assert Effects(docs)[1..] == Effects(tail);
      var m' := if Qualifies(docs[0]) then m[IdOf(docs[0]) := DateOf(docs[0])] else m;
      ScanIsApply(m', tail);
    }
  }

  /** The last request for a key decides its value. */
  lemma {:induction false} ApplyLastWins(m: Dates, es: seq<Option<(Json, Json)>>, i: nat)
    requires i < |es| && es[i].Some?
    requires forall j :: i < j < |es| && es[j].Some? ==> es[j].value.0 != es[i].value.0
    ensures es[i].value.0 in Apply(m, es) && Apply(m, es)[es[i].value.0] == es[i].value.1
    decreases |es|
  {
    var m' := if es[0].Some? then m[es[0].value.0 := es[0].value.1] else m;
    if i == 0 {
      ApplyUntouched(m', es[1..], es[0].value.0);
    } else {
      ApplyLastWins(m', es[1..], i - 1);
    }
  }

  /** A key no request names keeps its entry, or its absence. */
  lemma {:induction false} ApplyUntouched(m: Dates, es: seq<Option<(Json, Json)>>, key: Json)
    requires forall j :: 0 <= j < |es| && es[j].Some? ==> es[j].value.0 != key
    ensures key in Apply(m, es) <==> key in m
    ensures key in m ==> Apply(m, es)[key] == m[key]
    decreases |es|
  {
    if es != [] {
      var m' := if es[0].Some? then m[es[0].value.0 := es[0].value.1] else m;
      ApplyUntouched(m', es[1..], key);
    }
  }

  /** Over well-formed records the scan succeeds, and the id of the last
      qualifying record with a given id maps to that record's date. */
  lemma LastQualifyingWins(m: Dates, docs: seq<Json>, i: nat)
    requires forall k :: 0 <= k < |docs| ==> WellFormed(docs[k])
    requires i < |docs| && Qualifies(docs[i])
    requires forall j :: i < j < |docs| && Qualifies(docs[j]) ==> IdOf(docs[j]) != IdOf(docs[i])
    ensures ScanDocs(m, docs).Ok?
    ensures IdOf(docs[i]) in ScanDocs(m, docs).value && ScanDocs(m, docs).value[IdOf(docs[i])] == DateOf(docs[i])
  {
    ScanIsApply(m, docs);
    ApplyLastWins(m, Effects(docs), i);
  }

  /** A key that no qualifying record names keeps its entry (or its
      absence): nothing else changes. */
  lemma Untouched(m: Dates, docs: seq<Json>, key: Json)
    requires forall k :: 0 <= k < |docs| ==> WellFormed(docs[k])
    requires forall k :: 0 <= k < |docs| && Qualifies(docs[k]) ==> IdOf(docs[k]) != key
    ensures ScanDocs(m, docs).Ok?
    ensures key in ScanDocs(m, docs).value <==> key in m
    ensures key in m ==> ScanDocs(m, docs).value[key] == m[key]
  {
    ScanIsApply(m, docs);
    ApplyUntouched(m, Effects(docs), key);
  }

  /** `os.listdir` order is the platform's; the listing is a parameter, each
      file with its records. */
  type Listing = seq<(string, seq<Json>)>

  function ScanFiles(m: Dates, files: Listing): (r: Result<Dates>)
    ensures r.Ok? ==> m.Keys <= r.value.Keys
    decreases |files|
  {
    if files == [] then Ok(m)
    else if Text.StartsWith(files[0].0, GetItemsFilePrefix) then
      var m' :- ScanDocs(m, files[0].1);
      ScanFiles(m', files[1..])
    else ScanFiles(m, files[1..])
  }

  function ReleaseDates(files: Listing): Result<Dates> {
    ScanFiles(map[], files)
  }

  /** The files whose names start with `getitems_`, in listing order. */
  function GetItemsFiles(files: Listing): (r: Listing)
    ensures forall k :: 0 <= k < |r| ==> Text.StartsWith(r[k].0, GetItemsFilePrefix)
    ensures |r| <= |files|
  {
    if files == [] then []
    else if Text.StartsWith(files[0].0, GetItemsFilePrefix) then [files[0]] + GetItemsFiles(files[1..])
    else GetItemsFiles(files[1..])
  }

  /** Only `getitems_` files contribute: any other file in the directory,
      whatever it holds, changes nothing. */
  lemma {:induction false} OnlyGetItemsFiles(m: Dates, files: Listing)
    ensures ScanFiles(m, files) == ScanFiles(m, GetItemsFiles(files))
    decreases |files|
  {
    if files != [] {
      if Text.StartsWith(files[0].0, GetItemsFilePrefix) {
        var g := GetItemsFiles(files);
        assert g[0] == files[0] && g[1..] == GetItemsFiles(files[1..]);
        match ScanDocs(m, files[0].1) {
          case Err(_) =>
          case Ok(m') => OnlyGetItemsFiles(m', files[1..]);
        }
      } else {
        OnlyGetItemsFiles(m, files[1..]);
      }
    }
  }

  function RecordsOf(file: (string, seq<Json>)): seq<Json> {
    file.1
  }

  /** The records of the `getitems_` files, file after file in listing
      order. */
  function StoredRecords(files: Listing): seq<Json> {
    Windows.Flatten(Map(GetItemsFiles(files), RecordsOf))
  }

  /** Scanning two runs of records one after the other is scanning their
      concatenation; a failure in the first run ends the scan. */
  lemma {:induction false} ScanDocsConcat(m: Dates, a: seq<Json>, b: seq<Json>)
    ensures ScanDocs(m, a).Err? ==> ScanDocs(m, a + b) == ScanDocs(m, a)
    ensures ScanDocs(m, a).Ok? ==> ScanDocs(m, a + b) == ScanDocs(ScanDocs(m, a).value, b)
    decreases |a|
  {
    if a == [] {
      assert a + b == b;
    } else {
      assert (a + b)[0] == a[0] && (a + b)[1..] == a[1..] + b;
      match Absorb(m, a[0]) {
        case Err(_) =>
        case Ok(m') => ScanDocsConcat(m', a[1..], b);
      }
    }
  }

  lemma {:induction false} ScanKeptFiles(m: Dates, files: Listing)
    requires forall k :: 0 <= k < |files| ==> Text.StartsWith(files[k].0, GetItemsFilePrefix)
    ensures ScanFiles(m, files) == ScanDocs(m, Windows.Flatten(Map(files, RecordsOf)))
    decreases |files|
  {
    if files != [] {
      Windows.FlattenMapCons(files, RecordsOf);
      ScanDocsConcat(m, files[0].1, Windows.Flatten(Map(files[1..], RecordsOf)));
      assert forall k :: 0 <= k < |files| - 1 ==> files[1..][k] == files[k + 1];
      match ScanDocs(m, files[0].1) {
        case Err(_) =>
        case Ok(m') => ScanKeptFiles(m', files[1..]);
      }
    }
  }

  /** The directory scan is one scan over every stored record, file after
      file in listing order; so a later file's record overwrites an earlier
      file's, and `LastQualifyingWins` and `Untouched` hold across files. */
  lemma ScanFilesIsScanDocs(m: Dates, files: Listing)
    ensures ScanFiles(m, files) == ScanDocs(m, StoredRecords(files))
  {
    OnlyGetItemsFiles(m, files);
    ScanKeptFiles(m, GetItemsFiles(files));
  }

  /** The release map of a directory of well-formed records maps the id of
      the last qualifying record with that id, in whichever file, to that
      record's date. */
  lemma ReleaseDatesLastWins(files: Listing, i: nat)
    requires var docs := StoredRecords(files);
      && (forall k :: 0 <= k < |docs| ==> WellFormed(docs[k]))
      && i < |docs| && Qualifies(docs[i])
      && (forall j :: i < j < |docs| && Qualifies(docs[j]) ==> IdOf(docs[j]) != IdOf(docs[i]))
    ensures ReleaseDates(files).Ok?
    ensures var docs := StoredRecords(files);
      IdOf(docs[i]) in ReleaseDates(files).value && ReleaseDates(files).value[IdOf(docs[i])] == DateOf(docs[i])
  {
    ScanFilesIsScanDocs(map[], files);
    LastQualifyingWins(map[], StoredRecords(files), i);
  }

  // ---------------------------------------------------------------------
  // The end of the early window (`get_timestamp_end`)

  /** A local wall-clock instant: a day number and the second within it. */
  datatype LocalTime = LocalTime(day: int, second: int)

  const SecondsPerDay: int := 86400
  const DefaultWeeks: int := 2

  /** `datetime.fromtimestamp(t)` in a zone `offset` seconds from UTC. */
  function FromTimestamp(t: int, offset: int): (d: LocalTime)
    ensures 0 <= d.second < SecondsPerDay
    ensures d.day * SecondsPerDay + d.second == t + offset
  {
    LocalTime((t + offset) / SecondsPerDay, (t + offset) % SecondsPerDay)
  }

  /** `+ timedelta(weeks=w)`: seven days a week, the time of day kept. */
  function PlusWeeks(d: LocalTime, weeks: int): LocalTime {
    LocalTime(d.day + 7 * weeks, d.second)
  }

  /** `int(d.timestamp())` in the same zone. */
  function ToTimestamp(d: LocalTime, offset: int): int {
    d.day * SecondsPerDay + d.second - offset
  }

  function TimestampEnd(t: int, weeks: int, offset: int): int {
    ToTimestamp(PlusWeeks(FromTimestamp(t, offset), weeks), offset)
  }

  /** Under a fixed offset the end is exactly `weeks` weeks of seconds after
      the start, whatever the offset; two weeks by default. */
  lemma TimestampEndAdds(t: int, weeks: int, offset: int)
    ensures TimestampEnd(t, weeks, offset) == t + 604800 * weeks
    ensures TimestampEnd(t, DefaultWeeks, offset) == t + 1209600
  {
    var d := FromTimestamp(t, offset);
    assert (d.day + 7 * weeks) * SecondsPerDay == d.day * SecondsPerDay + 604800 * weeks;
    assert (d.day + 7 * DefaultWeeks) * SecondsPerDay == d.day * SecondsPerDay + 1209600;
  }

  // ---------------------------------------------------------------------
  // Requests and the written record

  /** The parameters other than the date range, in `self.params` order. */
  const FixedParams: Fields :=
    [("json", Int(1)), ("use_review_quality", Bool(true)), ("cursor", Str("*")),
     ("date_range_type", Str("include")), ("language", Str("all")), ("l", Str("all")),
     ("review_type", Str("all")), ("purchase_type", Str("steam"))]

  /** `self.params`: never changed, since every app works on a deep copy. */
  const BaseParams: Fields := FixedParams + [("start_date", Int(-1)), ("end_date", Int(-1))]

  datatype ReviewRequest = ReviewRequest(appId: int, startDate: Json, endDate: Json)

  function Url(q: ReviewRequest): string {
    BaseUrl + Decimal.IntToString(q.appId)
  }

  /** The query string of a request: a copy of `self.params` whose two
      dates have been assigned (assignment keeps a key's place). */
  function Params(q: ReviewRequest): Fields {
    FixedParams + [("start_date", q.startDate), ("end_date", q.endDate)]
  }

  function AllTime(appId: int): ReviewRequest {
    ReviewRequest(appId, Int(-1), Int(-1))
  }

  /** The seconds `datetime.fromtimestamp` reads from a stored release
      date: an int, or a bool, which Python counts as 0 or 1. */
  function Seconds(v: Json): Option<int> {
    match v
    case Int(i) => Some(i)
    case Bool(b) => Some(if b then 1 else 0)
    case _ => None
  }

  /** The early request sends the stored date itself as `start_date`. */
  function Early(appId: int, release: Json, offset: int): ReviewRequest
    requires Seconds(release).Some?
  {
    ReviewRequest(appId, release, Int(TimestampEnd(Seconds(release).value, DefaultWeeks, offset)))
  }

  lemma FixedHasNoDates()
    ensures !HasKey(FixedParams, "start_date") && !HasKey(FixedParams, "end_date")
  {
    var ks := Keys(FixedParams);
    assert ks == ["json", "use_review_quality", "cursor", "date_range_type", "language", "l", "review_type", "purchase_type"];
  }

  /** Every request carries the fixed parameters unchanged and its own two
      dates; the all-time request's are the base's -1 and -1, so it sends
      `self.params` exactly. */
  lemma ParamsShape(q: ReviewRequest)
    ensures Lookup(Params(q), "start_date") == Some(q.startDate)
    ensures Lookup(Params(q), "end_date") == Some(q.endDate)
    ensures forall k {:trigger Lookup(FixedParams, k)} :: HasKey(FixedParams, k) ==> Lookup(Params(q), k) == Lookup(FixedParams, k)
    ensures q == AllTime(q.appId) ==> Params(q) == BaseParams
  {
    var dates := [("start_date", q.startDate), ("end_date", q.endDate)];
    FixedHasNoDates();
    LookupAppend(FixedParams, dates, "start_date");
    LookupAppend(FixedParams, dates, "end_date");
    forall k | HasKey(FixedParams, k) ensures Lookup(Params(q), k) == Lookup(FixedParams, k) {
      LookupAppend(FixedParams, dates, k);
    }
  }

  /** `json_data["id"] = app_id; pop("reviews"); pop("success")`. A reply
      that is not a dict makes the assignment raise; the exception is
      logged and nothing is written. */
  function Trim(doc: Json, appId: int): (r: Option<Json>)
    ensures r.Some? <==> doc.Obj?
  {
    if doc.Obj? then Some(Obj(Remove(Remove(Put(doc.fields, "id", Int(appId)), "reviews"), "success")))
    else None
  }

  /** The trimmed record names its app, has neither the review list nor the
      success flag, and keeps every other member's value. */
  lemma TrimSpec(doc: Json, appId: int)
    requires doc.Obj?
    ensures IsSummary(Trim(doc, appId).value, appId)
    ensures forall k {:trigger Lookup(doc.fields, k)} ::
      k != "id" && k != "reviews" && k != "success" ==> Lookup(Trim(doc, appId).value.fields, k) == Lookup(doc.fields, k)
  {
    var a := Put(doc.fields, "id", Int(appId));
    var b := Remove(a, "reviews");
    var c := Remove(b, "success");
    assert Lookup(b, "id") == Some(Int(appId));
    assert Lookup(c, "id") == Some(Int(appId));
    assert Lookup(c, "reviews") == Lookup(b, "reviews") == None;
    forall k | k != "id" && k != "reviews" && k != "success" ensures Lookup(c, k) == Lookup(doc.fields, k) {
      assert Lookup(c, k) == Lookup(b, k) == Lookup(a, k);
    }
  }

  /** A written summary: an object naming its app, without the review list
      or the success flag. */
  predicate IsSummary(line: Json, appId: int) {
    && line.Obj? && Lookup(line.fields, "id") == Some(Int(appId))
    && !HasKey(line.fields, "reviews") && !HasKey(line.fields, "success")
  }

  /** `submit_and_write_request`: no response (its `.json()` raises), an
      unparsable body or a non-dict body writes nothing. */
  function Submit(reply: Reply, appId: int): (lines: seq<Json>)
    ensures |lines| <= 1
    ensures forall k :: 0 <= k < |lines| ==> IsSummary(lines[k], appId)
    ensures |lines| == 1 <==> reply.Body? && reply.doc.Obj?
  {
    match reply
    case Body(doc) =>
      if doc.Obj? then
        TrimSpec(doc, appId);
        [Trim(doc, appId).value]
      else []
    case _ => []
  }

  // ---------------------------------------------------------------------
  // The per-app loop

  datatype Tally = Tally(requests: seq<ReviewRequest>, all: seq<Json>, early: seq<Json>, pacing: nat)

  /** The app has a release date the loop can turn into a window. */
  predicate Dated(app: IdRecord, dates: Dates) {
    Int(app.id) in dates && Seconds(dates[Int(app.id)]).Some?
  }

  /** The requests the loop makes for one app, in order: always the
      all-time one; then the early one when the id has a usable release
      date. */
  function Planned(app: IdRecord, dates: Dates, offset: int): seq<ReviewRequest> {
    if Dated(app, dates) then
      [AllTime(app.id), Early(app.id, dates[Int(app.id)], offset)]
    else [AllTime(app.id)]
  }

  /** An app the loop gets past: either it has no release date, or one that
      `fromtimestamp` accepts. Any other value raises and ends the run. */
  predicate Usable(app: IdRecord, dates: Dates) {
    Int(app.id) in dates ==> Seconds(dates[Int(app.id)]).Some?
  }

  function Loop(apps: seq<IdRecord>, dates: Dates, offset: int, fetch: ReviewRequest -> Reply): (r: (Tally, RunEnd))
    ensures r.1.Completed? <==> forall k :: 0 <= k < |apps| ==> Usable(apps[k], dates)
    ensures |r.0.all| <= |apps| && |r.0.early| <= |apps|
    ensures r.0.pacing == |r.0.requests|
    decreases |apps|
  {
    if apps == [] then (Tally([], [], [], 0), Completed)
    else
      var app := apps[0];
      var q := AllTime(app.id);
      var all := Submit(fetch(q), app.id);
      assert forall k :: 0 <= k < |apps| - 1 ==> apps[1..][k] == apps[k + 1];
      if Int(app.id) !in dates then
        var (rest, end) := Loop(apps[1..], dates, offset, fetch);
        (Tally([q] + rest.requests, all + rest.all, rest.early, 1 + rest.pacing), end)
      else
        var release := dates[Int(app.id)];
        if Seconds(release).None? then
          (Tally([q], all, [], 1), Aborted(TypeError("release date is not a timestamp")))
        else
          var e := Early(app.id, release, offset);
          var early := Submit(fetch(e), app.id);
          var (rest, end) := Loop(apps[1..], dates, offset, fetch);
          (Tally([q, e] + rest.requests, all + rest.all, early + rest.early, 2 + rest.pacing), end)
  }

  /** A completed loop makes exactly the planned requests, app by app in
      window order. */
  lemma {:induction false} LoopRequests(apps: seq<IdRecord>, dates: Dates, offset: int, fetch: ReviewRequest -> Reply)
    requires forall k :: 0 <= k < |apps| ==> Usable(apps[k], dates)
    ensures Loop(apps, dates, offset, fetch).0.requests == PlannedAll(apps, dates, offset)
    decreases |apps|
  {
    if apps != [] {
      assert forall k :: 0 <= k < |apps| - 1 ==> apps[1..][k] == apps[k + 1];
      LoopRequests(apps[1..], dates, offset, fetch);
    }
  }

  function PlannedAll(apps: seq<IdRecord>, dates: Dates, offset: int): seq<ReviewRequest> {
    if apps == [] then [] else Planned(apps[0], dates, offset) + PlannedAll(apps[1..], dates, offset)
  }

  function AppIds(apps: seq<IdRecord>): set<int> {
    set i | 0 <= i < |apps| :: apps[i].id
  }

  /** Every line is a trimmed summary of one of `apps`. */
  predicate SummariesOf(lines: seq<Json>, apps: seq<IdRecord>) {
    forall k :: 0 <= k < |lines| ==>
      && lines[k].Obj? && !HasKey(lines[k].fields, "reviews") && !HasKey(lines[k].fields, "success")
      && Lookup(lines[k].fields, "id").Some? && Lookup(lines[k].fields, "id").value.Int?
      && Lookup(lines[k].fields, "id").value.i in AppIds(apps)
  }

  lemma SummariesCons(first: seq<Json>, rest: seq<Json>, apps: seq<IdRecord>)
    requires apps != []
    requires forall k :: 0 <= k < |first| ==> IsSummary(first[k], apps[0].id)
    requires SummariesOf(rest, apps[1..])
    ensures SummariesOf(first + rest, apps)
  {
    assert AppIds(apps[1..]) <= AppIds(apps) by {
      forall x | x in AppIds(apps[1..]) ensures x in AppIds(apps) {
        var i :| 0 <= i < |apps[1..]| && apps[1..][i].id == x;
        assert apps[i + 1].id == x;
      }
    }
    assert apps[0].id in AppIds(apps);
    var lines := first + rest;
    forall k | 0 <= k < |lines| ensures lines[k] == if k < |first| then first[k] else rest[k - |first|] {
    }
  }

  /** Every written line of either shard is a trimmed summary of some app
      of the window. */
  lemma {:induction false} LoopWritesSummaries(apps: seq<IdRecord>, dates: Dates, offset: int, fetch: ReviewRequest -> Reply)
    ensures SummariesOf(Loop(apps, dates, offset, fetch).0.all, apps)
    ensures SummariesOf(Loop(apps, dates, offset, fetch).0.early, apps)
    decreases |apps|
  {
    if apps != [] {
      var app := apps[0];
      var all := Submit(fetch(AllTime(app.id)), app.id);
      var rest := Loop(apps[1..], dates, offset, fetch).0;
      LoopWritesSummaries(apps[1..], dates, offset, fetch);
      if Int(app.id) !in dates {
        SummariesCons(all, rest.all, apps);
        SummariesCons([], rest.early, apps);
      } else if Seconds(dates[Int(app.id)]).None? {
        SummariesCons(all, [], apps);
        assert all + [] == all;
      } else {
        var early := Submit(fetch(Early(app.id, dates[Int(app.id)], offset)), app.id);
        SummariesCons(all, rest.all, apps);
        SummariesCons(early, rest.early, apps);
      }
    }
  }

  /** The all-time lines an app contributes: its summary, when the reply is
      an object. */
  function AllLines(fetch: ReviewRequest -> Reply): (f: IdRecord -> seq<Json>)
    ensures forall app :: f(app) == Submit(fetch(AllTime(app.id)), app.id)
  {
    (app: IdRecord) => Submit(fetch(AllTime(app.id)), app.id)
  }

  /** The early lines an app contributes: nothing without a usable release
      date, otherwise the summary of its early window when the reply is an
      object. */
  function EarlyLines(dates: Dates, offset: int, fetch: ReviewRequest -> Reply): (f: IdRecord -> seq<Json>)
    ensures forall app :: f(app) == if Dated(app, dates) then Submit(fetch(Early(app.id, dates[Int(app.id)], offset)), app.id) else []
  {
    (app: IdRecord) => if Dated(app, dates) then Submit(fetch(Early(app.id, dates[Int(app.id)], offset)), app.id) else []
  }

  /** An app the loop gets past contributes its requests and lines ahead
      of those of the rest of the window. */
  lemma LoopStep(apps: seq<IdRecord>, dates: Dates, offset: int, fetch: ReviewRequest -> Reply)
    requires apps != [] && Usable(apps[0], dates)
    ensures var (r, rest) := (Loop(apps, dates, offset, fetch).0, Loop(apps[1..], dates, offset, fetch).0);
      && r.all == AllLines(fetch)(apps[0]) + rest.all
      && r.early == EarlyLines(dates, offset, fetch)(apps[0]) + rest.early
  {
  }

  /** Its requests likewise come ahead of those of the rest. */
  lemma RequestsStep(apps: seq<IdRecord>, dates: Dates, offset: int, fetch: ReviewRequest -> Reply)
    requires apps != [] && Usable(apps[0], dates)
    ensures Loop(apps, dates, offset, fetch).0.requests == Planned(apps[0], dates, offset) + Loop(apps[1..], dates, offset, fetch).0.requests
  {
  }

  /** A completed loop writes, to each shard, the lines of every app of the
      window one after another in window order. */
  lemma {:induction false} LoopInOrder(apps: seq<IdRecord>, dates: Dates, offset: int, fetch: ReviewRequest -> Reply)
    requires forall k :: 0 <= k < |apps| ==> Usable(apps[k], dates)
    ensures Loop(apps, dates, offset, fetch).0.all == Windows.Flatten(Map(apps, AllLines(fetch)))
    ensures Loop(apps, dates, offset, fetch).0.early == Windows.Flatten(Map(apps, EarlyLines(dates, offset, fetch)))
    decreases |apps|
  {
    if apps != [] {
      assert forall k :: 0 <= k < |apps| - 1 ==> apps[1..][k] == apps[k + 1];
      LoopInOrder(apps[1..], dates, offset, fetch);
      LoopStep(apps, dates, offset, fetch);
      Windows.FlattenMapCons(apps, AllLines(fetch));
      Windows.FlattenMapCons(apps, EarlyLines(dates, offset, fetch));
    }
  }

  /** The app whose release date is unusable is the last one the loop
      requests anything for. */
  lemma LoopAborts(apps: seq<IdRecord>, dates: Dates, offset: int, fetch: ReviewRequest -> Reply)
    requires apps != [] && !Usable(apps[0], dates)
    ensures Loop(apps, dates, offset, fetch).0 == Tally([AllTime(apps[0].id)], AllLines(fetch)(apps[0]), [], 1)
  {
  }

  lemma TakeTail<T>(s: seq<T>, n: nat)
    requires n < |s|
    ensures s[..n + 1][1..] == s[1..][..n]
  {
  }

  /** A loop that meets an unusable release date at position `j` has written
      the lines of every app before it, then that app's all-time line. */
  lemma {:induction false} LoopStopsAt(apps: seq<IdRecord>, dates: Dates, offset: int, fetch: ReviewRequest -> Reply, j: nat)
    requires j < |apps| && !Usable(apps[j], dates)
    requires forall k :: 0 <= k < j ==> Usable(apps[k], dates)
    ensures Loop(apps, dates, offset, fetch).0.all == Windows.Flatten(Map(apps[..j + 1], AllLines(fetch)))
    ensures Loop(apps, dates, offset, fetch).0.early == Windows.Flatten(Map(apps[..j], EarlyLines(dates, offset, fetch)))
    decreases j
  {
    if j == 0 {
      LoopAborts(apps, dates, offset, fetch);
      Windows.FlattenMapCons(apps[..1], AllLines(fetch));
      assert apps[..1][1..] == [];
    } else {
      var tail := apps[1..];
      assert forall k :: 0 <= k < |tail| ==> tail[k] == apps[k + 1];
      LoopStopsAt(tail, dates, offset, fetch, j - 1);
      LoopStep(apps, dates, offset, fetch);
      TakeTail(apps, j);
      TakeTail(apps, j - 1);
      Windows.FlattenMapCons(apps[..j + 1], AllLines(fetch));
      Windows.FlattenMapCons(apps[..j], EarlyLines(dates, offset, fetch));
    }
  }

  /** Such a loop has made the planned requests of every app before
      position `j`, then that app's all-time request, and no other. */
  lemma {:induction false} LoopStopsAfter(apps: seq<IdRecord>, dates: Dates, offset: int, fetch: ReviewRequest -> Reply, j: nat)
    requires j < |apps| && !Usable(apps[j], dates)
    requires forall k :: 0 <= k < j ==> Usable(apps[k], dates)
    ensures Loop(apps, dates, offset, fetch).0.requests == PlannedAll(apps[..j], dates, offset) + [AllTime(apps[j].id)]
    decreases j
  {
    if j == 0 {
      LoopAborts(apps, dates, offset, fetch);
      assert PlannedAll(apps[..0], dates, offset) == [];
    } else {
      var tail := apps[1..];
      assert forall k :: 0 <= k < j - 1 ==> tail[k] == apps[k + 1];
      LoopStopsAfter(tail, dates, offset, fetch, j - 1);
      StopsAfterStep(apps, dates, offset, fetch, j);
    }
  }

  lemma StopsAfterStep(apps: seq<IdRecord>, dates: Dates, offset: int, fetch: ReviewRequest -> Reply, j: nat)
    requires 0 < j < |apps| && Usable(apps[0], dates)
    requires Loop(apps[1..], dates, offset, fetch).0.requests == PlannedAll(apps[1..][..j - 1], dates, offset) + [AllTime(apps[j].id)]
    ensures Loop(apps, dates, offset, fetch).0.requests == PlannedAll(apps[..j], dates, offset) + [AllTime(apps[j].id)]
  {
    RequestsStep(apps, dates, offset, fetch);
    TakeTail(apps, j - 1);
    var head, before := Planned(apps[0], dates, offset), PlannedAll(apps[1..][..j - 1], dates, offset);
    assert PlannedAll(apps[..j], dates, offset) == head + before;
    assert Loop(apps, dates, offset, fetch).0.requests == head + (before + [AllTime(apps[j].id)]);
  }

  /** Both review shards of one run, and how the run ended. */
  datatype ReviewShards = ReviewShards(allName: string, earlyName: string, tally: Tally, end: RunEnd)

  /** `get_data(start, limit)`: the checkpoint is read and the release dates
      collected before either shard is opened; a failure there ends the run
      with no shard. `offset` is the local zone's fixed UTC offset. */
  function GetData(idLines: seq<string>, start: int, limit: int, files: Listing, offset: int,
                   fetch: ReviewRequest -> Reply): (r: Result<ReviewShards>)
    ensures r.Ok? <==> ReadCheckpoint(idLines).Ok? && ReleaseDates(files).Ok?
    ensures r.Ok? ==>
      var w := Windows.Window(ReadCheckpoint(idLines).value, start, limit);
      && r.value.allName == Windows.ShardName(AllPrefix, start, Windows.WindowEnd(start, |w|))
      && r.value.earlyName == Windows.ShardName(EarlyPrefix, start, Windows.WindowEnd(start, |w|))
      && (r.value.tally, r.value.end) == Loop(w, ReleaseDates(files).value, offset, fetch)
  {
    var ids :- ReadCheckpoint(idLines);
    var w := Windows.Window(ids, start, limit);
    var dates :- ReleaseDates(files);
    var end := Windows.WindowEnd(start, |w|);
    var (tally, runEnd) := Loop(w, dates, offset, fetch);
    Ok(ReviewShards(Windows.ShardName(AllPrefix, start, end), Windows.ShardName(EarlyPrefix, start, end), tally, runEnd))
  }
}
