/** `steam_getitems.py`: the ids of `game_ids.txt` then `dlc_ids.txt`, cut
    to a window, sent to the Steam `GetItems` endpoint in batches; every
    returned store item becomes one line of the shard.
 */
module GetItemsExtract {
  import opened Wrappers
  import opened JsonValues
  import opened Fetch
  import opened Checkpoint
  import Windows

  const DataPrefix: string := "../../data/raw/steam_apps/getitems"

  /** The `filter_query` sent for one batch: its `ids` entry is replaced
      wholesale for every batch, so each query depends on its batch alone. */
  function BatchQuery(batch: seq<IdRecord>): Json {
    Obj([("ids", Arr(IdObjects(batch))),
         ("context", Obj([("language", Str("english")), ("country_code", Str("US")), ("steam_realm", Str("1"))])),
         ("data_request", Obj([("include_release", Bool(true)),
                               ("include_platforms", Bool(true)),
                               ("include_all_purchase_options", Bool(true)),
                               ("include_ratings", Bool(true)),
                               ("include_tag_count", Str("20")),
                               ("include_basic_info", Bool(true)),
                               ("include_supported_languages", Bool(true))]))])
  }

  /** `[{"appid": app[0]} for app in batch]`. */
  function IdObjects(batch: seq<IdRecord>): (os: seq<Json>)
    ensures |os| == |batch|
  {
    seq(|batch|, k requires 0 <= k < |batch| => Obj([("appid", Int(batch[k].id))]))
  }

  /** The app ids of a batch, in order. The rest of the query is the same
      for every batch, so the server's reply is modelled as a function of
      these ids. */
  function RequestIds(batch: seq<IdRecord>): (ids: seq<int>)
    ensures |ids| == |batch|
  {
    seq(|batch|, k requires 0 <= k < |batch| => batch[k].id)
  }

  /** A batch's query names exactly that batch's app ids, in order. */
  lemma BatchQueryIds(batch: seq<IdRecord>)
    ensures Index(BatchQuery(batch), "ids").Ok?
    ensures var ids := Index(BatchQuery(batch), "ids").value;
      && ids.Arr? && |ids.elems| == |batch|
      && forall k :: 0 <= k < |batch| ==> Index(ids.elems[k], "appid") == Ok(Int(RequestIds(batch)[k]))
  {
    var os := IdObjects(batch);
    var q := BatchQuery(batch);
    assert Keys(q.fields)[0] == "ids";
    assert Lookup(q.fields, "ids") == Some(Arr(os));
    forall k | 0 <= k < |batch| ensures Index(os[k], "appid") == Ok(Int(batch[k].id)) {
      assert os[k].fields == [("appid", Int(batch[k].id))];
      assert Keys(os[k].fields)[0] == "appid";
    }
  }

  /** `response.json().get("response", {}).get("store_items", [])`, then
      iterated: a missing level counts as empty; a level present but not an
      object has no `.get` and raises. */
  function StoreItems(doc: Json): Result<seq<Json>> {
    if !doc.Obj? then Err(AttributeError("get"))
    else
      var resp := GetOr(doc.fields, "response", Obj([]));
      if !resp.Obj? then Err(AttributeError("get"))
      else Iterate(GetOr(resp.fields, "store_items", Arr([])))
  }

  /** A missing `response` or `store_items` reads as no items; a present
      list is taken whole; a `response` that is not an object raises. */
  lemma StoreItemsDefaults(doc: Json)
    ensures !doc.Obj? ==> StoreItems(doc).Err?
    ensures doc.Obj? && !HasKey(doc.fields, "response") ==> StoreItems(doc) == Ok([])
    ensures doc.Obj? && HasKey(doc.fields, "response") ==>
      var resp := Field(doc.fields, "response");
      && (!resp.Obj? ==> StoreItems(doc).Err?)
      && (resp.Obj? && !HasKey(resp.fields, "store_items") ==> StoreItems(doc) == Ok([]))
      && (resp.Obj? && HasKey(resp.fields, "store_items") && Field(resp.fields, "store_items").Arr? ==>
            StoreItems(doc) == Ok(Field(resp.fields, "store_items").elems))
  {
  }

  /** What one batch's reply yields: its store items, or the exception that
      ends the run (no response has no `.url`; a body that is not JSON
      raises in `.json()`). */
  function BatchItems(reply: Reply): (r: Result<seq<Json>>)
    ensures reply.Body? ==> r == StoreItems(reply.doc)
    ensures !reply.Body? ==> r.Err?
    ensures reply.Falsy? ==> r.fault.AttributeError?
    ensures reply.Unparsable? ==> r.fault.ValueError?
  {
    match reply
    case Falsy => Err(AttributeError("url"))
    case Unparsable => Err(ValueError("response body is not JSON"))
    case Body(doc) => StoreItems(doc)
  }

  /** `process_batch`: one line per item, appended in item order after the
      lines already in the file. */
  function ProcessBatch(written: seq<Json>, items: seq<Json>): (r: seq<Json>)
    ensures |r| == |written| + |items|
    ensures r[..|written|] == written
    ensures forall k :: 0 <= k < |items| ==> r[|written| + k] == items[k]
  {
    written + items
  }

  /** What the loop gets for each batch it sends: the batch's store items,
      or the exception its reply raises. */
  type Answers = seq<IdRecord> -> Result<seq<Json>>

  /** The answers of a server that replies `fetch(ids)` to a query for the
      app ids `ids`. */
  function Answer(fetch: seq<int> -> Reply): (a: Answers)
    ensures forall batch :: a(batch) == BatchItems(fetch(RequestIds(batch)))
  {
    batch => BatchItems(fetch(RequestIds(batch)))
  }

  /** The run so far: the batches whose query was sent, the lines written,
      the count mismatches warned about and the pacing sleeps taken. */
  datatype Progress = Progress(sent: seq<seq<IdRecord>>, lines: seq<Json>, warnings: nat, pacing: nat)

  datatype BatchRun = BatchRun(done: Progress, end: RunEnd)

  /** The items every batch's reply yields, when none of them fails. */
  predicate AllSucceed(batches: seq<seq<IdRecord>>, answer: Answers) {
    forall k :: 0 <= k < |batches| ==> answer(batches[k]).Ok?
  }

  function ItemsOf(batches: seq<seq<IdRecord>>, answer: Answers): (items: seq<seq<Json>>)
    requires AllSucceed(batches, answer)
    ensures |items| == |batches|
    ensures forall k :: 0 <= k < |batches| ==> answer(batches[k]) == Ok(items[k])
  {
    seq(|batches|, k requires 0 <= k < |batches| => answer(batches[k]).value)
  }

  /** The batch loop from the state `p` on. A count mismatch only warns;
      the items are written either way. */
  function RunBatches(p: Progress, batches: seq<seq<IdRecord>>, answer: Answers): (r: BatchRun)
    ensures |p.lines| <= |r.done.lines| && r.done.lines[..|p.lines|] == p.lines
    ensures |p.sent| < |r.done.sent| <= |p.sent| + |batches| || (batches == [] && r.done == p)
    ensures r.end.Completed? <==> AllSucceed(batches, answer)
    ensures r.end.Completed? ==> r.done.sent == p.sent + batches
    decreases |batches|
  {
    if batches == [] then BatchRun(p, Completed)
    else
      match answer(batches[0])
      case Err(f) =>
        assert !AllSucceed(batches, answer);
        BatchRun(Progress(p.sent + [batches[0]], p.lines, p.warnings, p.pacing), Aborted(f))
      case Ok(items) =>
        var p' := After(p, batches[0], items);
        var r := RunBatches(p', batches[1..], answer);
        assert r.done.lines[..|p.lines|] == r.done.lines[..|p'.lines|][..|p.lines|];
        assert AllSucceed(batches, answer) <==> AllSucceed(batches[1..], answer) by {
          if AllSucceed(batches[1..], answer) {
            forall k | 0 <= k < |batches| ensures answer(batches[k]).Ok? {
              if k > 0 { assert batches[k] == batches[1..][k - 1]; }
            }
          }
        }
        r
  }

  /** The queries go out batch by batch, in order, and stop at the first
      failing batch, which is itself requested. */
  lemma {:induction false} RunSent(p: Progress, batches: seq<seq<IdRecord>>, answer: Answers)
    ensures var r := RunBatches(p, batches, answer);
      r.done.sent == p.sent + batches[..|r.done.sent| - |p.sent|]
    decreases |batches|
  {
    if batches != [] {
      match answer(batches[0]) {
        case Err(f) =>
          assert batches[..1] == [batches[0]];
        case Ok(items) =>
          var p' := After(p, batches[0], items);
          RunSent(p', batches[1..], answer);
          var r := RunBatches(p', batches[1..], answer);
          var m := |r.done.sent| - |p'.sent|;
          assert batches[..m + 1] == [batches[0]] + batches[1..][..m];
      }
    }
  }

  /** One pacing sleep per answered batch: all of them when the run
      completes; when it aborts, none for the batch that failed. */
  lemma {:induction false} RunPacing(p: Progress, batches: seq<seq<IdRecord>>, answer: Answers)
    ensures var r := RunBatches(p, batches, answer);
      && (r.end.Completed? ==> r.done.pacing == p.pacing + |batches|)
      && (r.end.Aborted? ==> r.done.pacing + 1 == p.pacing + |r.done.sent| - |p.sent|)
    decreases |batches|
  {
    if batches != [] {
      match answer(batches[0]) {
        case Err(f) =>
        case Ok(items) =>
          RunPacing(After(p, batches[0], items), batches[1..], answer);
      }
    }
  }

  /** The run after an answered first batch is the run of the remaining
      batches from the state that batch leaves behind. */
  lemma RunStep(p: Progress, batches: seq<seq<IdRecord>>, answer: Answers, items: seq<Json>)
    requires batches != [] && answer(batches[0]) == Ok(items)
    ensures RunBatches(p, batches, answer) == RunBatches(After(p, batches[0], items), batches[1..], answer)
  {
  }

  /** The state after one answered batch. */
  function After(p: Progress, batch: seq<IdRecord>, items: seq<Json>): Progress {
    Progress(p.sent + [batch], ProcessBatch(p.lines, items),
             p.warnings + (if |items| != |batch| then 1 else 0), p.pacing + 1)
  }

  lemma ItemsOfTail(batches: seq<seq<IdRecord>>, answer: Answers)
    requires batches != [] && AllSucceed(batches, answer)
    ensures AllSucceed(batches[1..], answer)
    ensures ItemsOf(batches[1..], answer) == ItemsOf(batches, answer)[1..]
  {
    forall k | 0 <= k < |batches| - 1 ensures batches[1..][k] == batches[k + 1] {
    }
  }

  /** With every batch answered, the shard holds every returned item, batch
      by batch in item order, whatever the counts; one warning per batch
      whose count differs from its request. */
  lemma {:induction false} RunAllSucceed(p: Progress, batches: seq<seq<IdRecord>>, answer: Answers)
    requires AllSucceed(batches, answer)
    ensures RunBatches(p, batches, answer).done.lines == p.lines + Windows.Flatten(ItemsOf(batches, answer))
    ensures RunBatches(p, batches, answer).done.warnings == p.warnings + Mismatches(batches, ItemsOf(batches, answer))
    decreases |batches|
  {
    if batches != [] {
      var items := ItemsOf(batches, answer);
      var p' := After(p, batches[0], items[0]);
      RunStep(p, batches, answer, items[0]);
      ItemsOfTail(batches, answer);
      RunAllSucceed(p', batches[1..], answer);
      assert Windows.Flatten(items) == items[0] + Windows.Flatten(items[1..]);
    }
  }

  /** The number of batches whose returned count differs from the request. */
  function Mismatches(batches: seq<seq<IdRecord>>, items: seq<seq<Json>>): (n: nat)
    requires |items| == |batches|
    ensures n <= |batches|
  {
    if batches == [] then 0
    else (if |items[0]| != |batches[0]| then 1 else 0) + Mismatches(batches[1..], items[1..])
  }

  const Start := Progress([], [], 0, 0)

  /** One item shard: its name and how the batch loop went. */
  datatype ItemsShard = ItemsShard(name: string, run: BatchRun)

  /** `get_getitems(start, limit, batch_size)`. Reading the id files fails
      before the shard is created. A zero batch size makes `range` raise
      once the (empty) shard exists; a negative one gives no batches. */
  function GetItems(gameIds: seq<string>, dlcIds: seq<string>, start: int, limit: int, batchSize: int,
                    fetch: seq<int> -> Reply): (r: Result<ItemsShard>)
    ensures r.Err? <==> ReadIdFiles(gameIds, dlcIds).Err?
    ensures r.Ok? ==>
      var w := Windows.Window(ReadIdFiles(gameIds, dlcIds).value, start, limit);
      && r.value.name == Windows.ShardName(DataPrefix, start, Windows.WindowEnd(start, |w|))
      && (batchSize == 0 ==> r.value.run == BatchRun(Start, Aborted(ValueError("range() arg 3 must not be zero"))))
      && (batchSize < 0 ==> r.value.run == BatchRun(Start, Completed))
      && (batchSize > 0 ==> r.value.run == RunBatches(Start, Windows.Batches(w, batchSize), Answer(fetch)))
  {
    var ids :- ReadIdFiles(gameIds, dlcIds);
    var w := Windows.Window(ids, start, limit);
    var name := Windows.ShardName(DataPrefix, start, Windows.WindowEnd(start, |w|));
    if batchSize == 0 then Ok(ItemsShard(name, BatchRun(Start, Aborted(ValueError("range() arg 3 must not be zero")))))
    else if batchSize < 0 then Ok(ItemsShard(name, BatchRun(Start, Completed)))
    else Ok(ItemsShard(name, RunBatches(Start, Windows.Batches(w, batchSize), Answer(fetch))))
  }

  /** When every batch is answered, each app of the window is requested
      exactly once, in window order, batch by batch, and the shard holds
      all returned items. */
  lemma GetItemsCompleted(gameIds: seq<string>, dlcIds: seq<string>, start: int, limit: int, batchSize: int,
                          fetch: seq<int> -> Reply)
    requires ReadIdFiles(gameIds, dlcIds).Ok? && batchSize > 0
    requires AllSucceed(Windows.Batches(Windows.Window(ReadIdFiles(gameIds, dlcIds).value, start, limit), batchSize), Answer(fetch))
    ensures var w := Windows.Window(ReadIdFiles(gameIds, dlcIds).value, start, limit);
      var bs := Windows.Batches(w, batchSize);
      var run := GetItems(gameIds, dlcIds, start, limit, batchSize, fetch).value.run;
      && run.end == Completed
      && run.done.sent == bs
      && Windows.Flatten(bs) == w
      && run.done.lines == Windows.Flatten(ItemsOf(bs, Answer(fetch)))
      && run.done.pacing == |bs|
  {
    var w := Windows.Window(ReadIdFiles(gameIds, dlcIds).value, start, limit);
    var bs := Windows.Batches(w, batchSize);
    var g := GetItems(gameIds, dlcIds, start, limit, batchSize, fetch);
    assert g.Ok? && g.value.run == RunBatches(Start, bs, Answer(fetch));
    RunAllSucceed(Start, bs, Answer(fetch));
    RunPacing(Start, bs, Answer(fetch));
  }
}
