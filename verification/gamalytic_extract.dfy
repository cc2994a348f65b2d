/** `gamalytic.py`: one Gamalytic request per app of a checkpoint window,
    one JSON line per app that answered, in window order.
 */
module GamalyticExtract {
  import opened Wrappers
  import opened JsonValues
  import opened Fetch
  import opened Checkpoint
  import Text
  import Decimal
  import Windows
  import Api

  const BaseUrl: string := "https://api.gamalytic.com/game/"
  const DataPrefix: string := "../../data/raw/gamalytic/data"

  datatype Request = Request(url: string, params: seq<(string, string)>, headers: Api.Headers)

  /** The request for one app: the id appended to the base URL, the
      pre-release-history flag and the API key header. The key is read from
      the environment, so it is a parameter. */
  function AppRequest(appId: int, apiKey: string): Request {
    Request(BaseUrl + Decimal.IntToString(appId), [("include_pre_release_history", "true")], [("api-key", apiKey)])
  }

  /** Every request names its app after the base URL, carries the
      pre-release-history flag as its one parameter and the key as its one
      header. */
  lemma AppRequestShape(appId: int, apiKey: string)
    ensures var q := AppRequest(appId, apiKey);
      && Text.StartsWith(q.url, BaseUrl) && Decimal.ParseInt(q.url[|BaseUrl|..]) == Some(appId)
      && Api.HeaderValue(q.params, "include_pre_release_history") == Some("true") && |q.params| == 1
      && Api.HeaderValue(q.headers, "api-key") == Some(apiKey) && |q.headers| == 1
  {
    var url := AppRequest(appId, apiKey).url;
    assert url[|BaseUrl|..] == Decimal.IntToString(appId);
    Decimal.ParseIntToString(appId);
  }

  /** Distinct apps get distinct requests. */
  lemma AppRequestInjective(a: int, b: int, apiKey: string)
    requires AppRequest(a, apiKey) == AppRequest(b, apiKey)
    ensures a == b
  {
    AppRequestShape(a, apiKey);
    AppRequestShape(b, apiKey);
  }

  /** What one app contributes to the shard: the line it writes, if any,
      and whether the pacing sleep follows it. */
  datatype Step = Step(line: Option<Json>, paced: bool)

  /** A falsy response skips the app before the sleep; a body that does not
      parse is logged and the sleep still follows; a parsed body is
      written. */
  function AppStep(reply: Reply): (s: Step)
    ensures s.line.Some? <==> reply.Body?
    ensures reply.Body? ==> s.line.value == reply.doc
    ensures s.paced <==> !reply.Falsy?
  {
    match reply
    case Falsy => Step(None, false)
    case Unparsable => Step(None, true)
    case Body(doc) => Step(Some(doc), true)
  }

  function StepOf(r: IdRecord, apiKey: string, fetch: Request -> Reply): Step {
    AppStep(fetch(AppRequest(r.id, apiKey)))
  }

  function LineOf(s: Step): seq<Json> {
    if s.line.Some? then [s.line.value] else []
  }

  /** The lines the loop has written after the apps of `w`. */
  function Written(w: seq<IdRecord>, apiKey: string, fetch: Request -> Reply): (lines: seq<Json>)
    ensures |lines| <= |w|
    decreases |w|
  {
    if w == [] then []
    else Written(w[..|w| - 1], apiKey, fetch) + LineOf(StepOf(w[|w| - 1], apiKey, fetch))
  }

  /** The pacing sleeps taken after the apps of `w`. */
  function Pacing(w: seq<IdRecord>, apiKey: string, fetch: Request -> Reply): (n: nat)
    ensures n <= |w|
    decreases |w|
  {
    if w == [] then 0
    else Pacing(w[..|w| - 1], apiKey, fetch) + (if StepOf(w[|w| - 1], apiKey, fetch).paced then 1 else 0)
  }

  predicate Answered(r: IdRecord, apiKey: string, fetch: Request -> Reply) {
    fetch(AppRequest(r.id, apiKey)).Body?
  }

  /** Every written line was preceded by a sleep: at most as many lines as
      pacing events. */
  lemma {:induction false} LinesWithinPacing(w: seq<IdRecord>, apiKey: string, fetch: Request -> Reply)
    ensures |Written(w, apiKey, fetch)| <= Pacing(w, apiKey, fetch)
    decreases |w|
  {
    if w != [] {
      LinesWithinPacing(w[..|w| - 1], apiKey, fetch);
    }
  }

  /** Each app's contribution depends on that app alone: the lines for two
      consecutive stretches of the window are the lines of each, in order. */
  lemma {:induction false} WrittenSplit(a: seq<IdRecord>, b: seq<IdRecord>, apiKey: string, fetch: Request -> Reply)
    ensures Written(a + b, apiKey, fetch) == Written(a, apiKey, fetch) + Written(b, apiKey, fetch)
    decreases |b|
  {
    if b == [] {
      assert a + b == a;
    } else {
      var b' := b[..|b| - 1];
      assert (a + b)[..|a + b| - 1] == a + b';
      assert (a + b)[|a + b| - 1] == b[|b| - 1];
      WrittenSplit(a, b', apiKey, fetch);
    }
  }

  /** Failure isolation: an app that gets no parsed body writes nothing and
      leaves the lines of every other app as they would have been. */
  lemma FailureIsolated(a: seq<IdRecord>, x: IdRecord, b: seq<IdRecord>, apiKey: string, fetch: Request -> Reply)
    requires !Answered(x, apiKey, fetch)
    ensures Written(a + [x] + b, apiKey, fetch) == Written(a, apiKey, fetch) + Written(b, apiKey, fetch)
  {
    var ax := a + [x];
    assert ax[..|ax| - 1] == a && ax[|ax| - 1] == x;
    assert LineOf(StepOf(x, apiKey, fetch)) == [];
    assert Written(ax, apiKey, fetch) == Written(a, apiKey, fetch);
    WrittenSplit(ax, b, apiKey, fetch);
  }

  /** The positions in the window of the apps that got a parsed body, in
      increasing order. */
  function Answers(w: seq<IdRecord>, apiKey: string, fetch: Request -> Reply): (idx: seq<nat>)
    ensures forall k :: 0 <= k < |idx| ==> idx[k] < |w| && Answered(w[idx[k]], apiKey, fetch)
    ensures forall a, b :: 0 <= a < b < |idx| ==> idx[a] < idx[b]
    ensures forall i :: 0 <= i < |w| && Answered(w[i], apiKey, fetch) ==> i in idx
  {
    Where(w, r => Answered(r, apiKey, fetch))
  }

  /** One line per answering app, in window order, each the body that app's
      request returned. */
  lemma {:induction false} WrittenInOrder(w: seq<IdRecord>, apiKey: string, fetch: Request -> Reply)
    ensures |Written(w, apiKey, fetch)| == |Answers(w, apiKey, fetch)|
    ensures forall k :: 0 <= k < |Answers(w, apiKey, fetch)| ==>
      fetch(AppRequest(w[Answers(w, apiKey, fetch)[k]].id, apiKey)) == Body(Written(w, apiKey, fetch)[k])
    decreases |w|
  {
    if w != [] {
      var p, x := w[..|w| - 1], w[|w| - 1];
      WrittenInOrder(p, apiKey, fetch);
      var idx, lines := Answers(p, apiKey, fetch), Written(p, apiKey, fetch);
      var all, out := Answers(w, apiKey, fetch), Written(w, apiKey, fetch);
      AnswersSnoc(w, apiKey, fetch);
      var step := StepOf(x, apiKey, fetch);
      assert out == lines + LineOf(step);
      forall k | 0 <= k < |all| ensures fetch(AppRequest(w[all[k]].id, apiKey)) == Body(out[k]) {
        if k < |idx| {
          assert all[k] == idx[k] && w[idx[k]] == p[idx[k]] && out[k] == lines[k];
        } else {
          assert Answered(x, apiKey, fetch) && all[k] == |w| - 1;
          assert LineOf(step) == [fetch(AppRequest(x.id, apiKey)).doc];
        }
      }
    }
  }

  /** The answering positions of a window, unfolded at its last app. */
  lemma AnswersSnoc(w: seq<IdRecord>, apiKey: string, fetch: Request -> Reply)
    requires w != []
    ensures Answers(w, apiKey, fetch) ==
      Answers(w[..|w| - 1], apiKey, fetch) + (if Answered(w[|w| - 1], apiKey, fetch) then [|w| - 1] else [])
  {
  }

  /** When every app answers, the shard holds exactly their bodies, one per
      app, in window order. */
  lemma {:induction false} AllAnswered(w: seq<IdRecord>, apiKey: string, fetch: Request -> Reply)
    requires forall i :: 0 <= i < |w| ==> Answered(w[i], apiKey, fetch)
    ensures |Written(w, apiKey, fetch)| == |w|
    ensures forall i :: 0 <= i < |w| ==> fetch(AppRequest(w[i].id, apiKey)) == Body(Written(w, apiKey, fetch)[i])
    decreases |w|
  {
    if w != [] {
      var p, x := w[..|w| - 1], w[|w| - 1];
      AllAnswered(p, apiKey, fetch);
      var lines, out := Written(p, apiKey, fetch), Written(w, apiKey, fetch);
      assert Answered(x, apiKey, fetch);
      assert out == lines + [fetch(AppRequest(x.id, apiKey)).doc];
      forall i | 0 <= i < |w| ensures fetch(AppRequest(w[i].id, apiKey)) == Body(out[i]) {
        if i < |p| {
          assert w[i] == p[i] && out[i] == lines[i];
        } else {
          assert w[i] == x && out[i] == fetch(AppRequest(x.id, apiKey)).doc;
        }
      }
    }
  }

  /** The fetch loop over one window: one request per app, in order. */
  method FetchWindow(w: seq<IdRecord>, apiKey: string, fetch: Request -> Reply) returns (lines: seq<Json>, pacing: nat)
    ensures lines == Written(w, apiKey, fetch)
    ensures pacing == Pacing(w, apiKey, fetch)
    ensures |lines| <= pacing <= |w|
  {
    lines := [];
    pacing := 0;
    var i := 0;
    while i < |w|
      invariant 0 <= i <= |w|
      invariant lines == Written(w[..i], apiKey, fetch)
      invariant pacing == Pacing(w[..i], apiKey, fetch)
    {
      var step := StepOf(w[i], apiKey, fetch);
      assert w[..i + 1][..i] == w[..i] && w[..i + 1][i] == w[i];
      if step.line.Some? {
        lines := lines + [step.line.value];
      }
      if step.paced {
        pacing := pacing + 1;
      }
      i := i + 1;
    }
    assert w[..i] == w;
    LinesWithinPacing(w, apiKey, fetch);
  }

  /** `get_data(start, limit)`: read the checkpoint (a bad numeral raises
      before the shard is created), cut the window, then fetch app by app. */
  method GetData(idLines: seq<string>, start: int, limit: int, apiKey: string, fetch: Request -> Reply)
    returns (r: Result<Shard>)
    ensures r.Err? <==> ReadCheckpoint(idLines).Err?
    ensures r.Ok? ==>
      var w := Windows.Window(ReadCheckpoint(idLines).value, start, limit);
      && r.value.name == Windows.ShardName(DataPrefix, start, Windows.WindowEnd(start, |w|))
      && r.value.lines == Written(w, apiKey, fetch)
      && r.value.pacing == Pacing(w, apiKey, fetch)
  {
    var ids :- ReadCheckpoint(idLines);
    var w := Windows.Window(ids, start, limit);
    var name := Windows.ShardName(DataPrefix, start, Windows.WindowEnd(start, |w|));
    var lines, pacing := FetchWindow(w, apiKey, fetch);
    r := Ok(Shard(name, lines, pacing));
  }
}
