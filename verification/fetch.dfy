/** What one HTTP call hands back to a scraper, seen from the scraper.

    The retry loop behind `get_request`/`post_request` is not part of this
    model; each scraper receives its replies from a fetch function passed in
    as a parameter, so every property below holds for every server.
 */
module Fetch {
  import opened JsonValues

  datatype Reply =
    | Falsy              // no response object, or one that tests false
    | Unparsable         // a response whose `.json()` raises
    | Body(doc: Json)    // a response whose `.json()` is `doc`

  /** How a run ended: it got through its whole loop, or an exception (or
      an explicit `exit`) stopped it part way, keeping what it had written. */
  datatype RunEnd = Completed | Aborted(fault: Wrappers.Fault)

  /** One output shard: its file name, the JSON lines written to it in
      order, and how many pacing sleeps the run took. */
  datatype Shard = Shard(name: string, lines: seq<Json>, pacing: nat)

  import Wrappers

  /** What a line-by-line run wrote, in order, and how it ended. */
  datatype Outcome<T> = Outcome(out: seq<T>, end: RunEnd)

  /** A run over per-item outcomes, in order: each item either contributes
      its output or raises, and the first raise ends the run there, keeping
      what was written before it. */
  function Run<T>(steps: seq<Wrappers.Result<seq<T>>>): Outcome<T> {
    if steps == [] then Outcome([], Completed)
    else
      match steps[0]
      case Err(f) => Outcome([], Aborted(f))
      case Ok(xs) =>
        var rest := Run(steps[1..]);
        Outcome(xs + rest.out, rest.end)
  }

  /** The run completes exactly when no item raises. */
  lemma {:induction false} RunCompletes<T>(steps: seq<Wrappers.Result<seq<T>>>)
    ensures Run(steps).end == Completed <==> forall i :: 0 <= i < |steps| ==> steps[i].Ok?
    decreases |steps|
  {
    if steps != [] {
      RunCompletes(steps[1..]);
      assert forall i :: 1 <= i < |steps| ==> steps[i] == steps[1..][i - 1];
    }
  }

  /** A completed run whose items each write one value writes one value per
      item, in order. */
  lemma {:induction false} RunSingles<T>(steps: seq<Wrappers.Result<seq<T>>>)
    requires forall i :: 0 <= i < |steps| && steps[i].Ok? ==> |steps[i].value| == 1
    ensures Run(steps).end == Completed ==>
      |Run(steps).out| == |steps| && forall i :: 0 <= i < |steps| ==> steps[i].Ok? && Run(steps).out[i] == steps[i].value[0]
    decreases |steps|
  {
    if steps != [] && steps[0].Ok? {
      var rest := steps[1..];
      assert forall i :: 0 <= i < |rest| ==> rest[i] == steps[i + 1];
      RunSingles(rest);
    }
  }

  /** A run whose first stretch completed goes on into the second. */
  lemma {:induction false} RunAppendCompleted<T>(a: seq<Wrappers.Result<seq<T>>>, b: seq<Wrappers.Result<seq<T>>>)
    requires Run(a).end == Completed
    ensures Run(a + b) == Outcome(Run(a).out + Run(b).out, Run(b).end)
    decreases |a|
  {
    if a == [] {
      assert a + b == b;
    } else {
      assert (a + b)[0] == a[0] && (a + b)[1..] == a[1..] + b;
      RunAppendCompleted(a[1..], b);
      var xs, ra, rb := a[0].value, Run(a[1..]), Run(b);
      assert xs + (ra.out + rb.out) == (xs + ra.out) + rb.out;
    }
  }

  /** A run whose first stretch aborted never reaches the second. */
  lemma {:induction false} RunAppendAborted<T>(a: seq<Wrappers.Result<seq<T>>>, b: seq<Wrappers.Result<seq<T>>>)
    requires Run(a).end.Aborted?
    ensures Run(a + b) == Run(a)
    decreases |a|
  {
    assert (a + b)[0] == a[0] && (a + b)[1..] == a[1..] + b;
    if a[0].Ok? {
      RunAppendAborted(a[1..], b);
    }
  }

  /** One more item of a run that has completed so far: its output is
      appended. */
  lemma RunStepOk<T>(steps: seq<Wrappers.Result<seq<T>>>, i: nat)
    requires i < |steps| && Run(steps[..i]).end == Completed && steps[i].Ok?
    ensures Run(steps[..i + 1]) == Outcome(Run(steps[..i]).out + steps[i].value, Completed)
  {
    assert steps[..i + 1] == steps[..i] + [steps[i]];
    assert [steps[i]][1..] == [];
    RunAppendCompleted(steps[..i], [steps[i]]);
    assert steps[i].value + [] == steps[i].value;
  }

  /** An item that raises after a run that has completed so far ends the
      whole run there. */
  lemma RunStepErr<T>(steps: seq<Wrappers.Result<seq<T>>>, i: nat)
    requires i < |steps| && Run(steps[..i]).end == Completed && steps[i].Err?
    ensures Run(steps) == Outcome(Run(steps[..i]).out, Aborted(steps[i].fault))
  {
    var done := Run(steps[..i]);
    assert steps[..i + 1] == steps[..i] + [steps[i]];
    assert [steps[i]][1..] == [];
    RunAppendCompleted(steps[..i], [steps[i]]);
    assert done.out + [] == done.out;
    RunAppendAborted(steps[..i + 1], steps[i + 1..]);
    assert steps[..i + 1] + steps[i + 1..] == steps;
  }
}
