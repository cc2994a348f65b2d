/** `steam_charts.py`: one player-count history request per app of the
    checkpoint, one `id<TAB>data` record per app that answered with
    non-empty text, in checkpoint order.

    A record is not followed by a newline, so the records of a run merge
    into one line of `ccu_history.jsonl` (see `RecordsRunTogether`); the run
    below writes them that way. `Output` is the file with one line per
    record, which reads back entry by entry (`OutputRoundTrip`).
 */
module ChartsExtract {
  import opened Wrappers
  import opened Fetch
  import opened Checkpoint
  import Text
  import Decimal

  const BaseUrl: string := "https://steamcharts.com/app/"
  const EndPath: string := "/chart-data.json"
  const DataFile: string := "../../data/raw/steam_charts/ccu_history.jsonl"
  const IdFile: string := "../../data/raw/steam_ids/app_ids.txt"

  /** The history URL of one app: the id between the base URL and the
      chart-data path. */
  function CcuUrl(appId: int): string {
    BaseUrl + Decimal.IntToString(appId) + EndPath
  }

  /** Every URL starts with the base, ends with the chart-data path, and
      names its app in between. */
  lemma CcuUrlShape(appId: int)
    ensures var u := CcuUrl(appId);
      && Text.StartsWith(u, BaseUrl) && Text.EndsWith(u, EndPath)
      && Decimal.ParseInt(u[|BaseUrl|..|u| - |EndPath|]) == Some(appId)
  {
    var u := CcuUrl(appId);
    assert u[|BaseUrl|..|u| - |EndPath|] == Decimal.IntToString(appId);
    assert u[|u| - |EndPath|..] == EndPath;
    Decimal.ParseIntToString(appId);
  }

  /** Distinct apps are asked for at distinct URLs. */
  lemma CcuUrlInjective(a: int, b: int)
    requires CcuUrl(a) == CcuUrl(b)
    ensures a == b
  {
    CcuUrlShape(a);
    CcuUrlShape(b);
  }

  /** One app's history text, as the single soft-failing attempt returns it:
      `None` for a failed request, else the response text. The fetch
      function maps a URL to that outcome. */
  type History = string -> Option<string>

  /** The run writes for an app exactly when its text is present and not
      empty. */
  predicate Answered(appId: int, fetch: History) {
    fetch(CcuUrl(appId)).Some? && fetch(CcuUrl(appId)).value != ""
  }

  datatype Entry = Entry(id: int, data: string)

  /** The entries written for a sequence of read checkpoint records: the
      answering apps, in order, each with its text. */
  function Kept(recs: seq<IdRecord>, fetch: History): (es: seq<Entry>)
    ensures |es| <= |recs|
    ensures forall k :: 0 <= k < |es| ==> es[k].data != "" && fetch(CcuUrl(es[k].id)) == Some(es[k].data)
  {
    if recs == [] then []
    else
      var rest := Kept(recs[1..], fetch);
      if Answered(recs[0].id, fetch) then [Entry(recs[0].id, fetch(CcuUrl(recs[0].id)).value)] + rest
      else rest
  }

  lemma {:induction false} KeptAppend(a: seq<IdRecord>, b: seq<IdRecord>, fetch: History)
    ensures Kept(a + b, fetch) == Kept(a, fetch) + Kept(b, fetch)
    decreases |a|
  {
    if a == [] {
      assert a + b == b;
    } else {
      assert (a + b)[0] == a[0] && (a + b)[1..] == a[1..] + b;
      KeptAppend(a[1..], b, fetch);
    }
  }

  /** Failure isolation: an app without history writes nothing and leaves
      every other app's entry as it would have been. */
  lemma FailureIsolated(a: seq<IdRecord>, x: IdRecord, b: seq<IdRecord>, fetch: History)
    requires !Answered(x.id, fetch)
    ensures Kept(a + [x] + b, fetch) == Kept(a, fetch) + Kept(b, fetch)
  {
    KeptSingle(x, fetch);
    KeptAppend(a, [x], fetch);
    KeptAppend(a + [x], b, fetch);
    assert Kept(a, fetch) + [] == Kept(a, fetch);
  }

  lemma KeptSingle(x: IdRecord, fetch: History)
    requires !Answered(x.id, fetch)
    ensures Kept([x], fetch) == []
  {
    assert [x][1..] == [];
  }

  /** When every app answers, there is one entry per record, in order. */
  lemma {:induction false} AllAnswered(recs: seq<IdRecord>, fetch: History)
    requires forall i :: 0 <= i < |recs| ==> Answered(recs[i].id, fetch)
    ensures |Kept(recs, fetch)| == |recs|
    ensures forall i :: 0 <= i < |recs| ==> Kept(recs, fetch)[i].id == recs[i].id
  {
    if recs != [] {
      AllAnswered(recs[1..], fetch);
    }
  }

  /** What one line of the id file contributes: a line with one tab-field
      is skipped, a bad numeral raises `ValueError`, any other line asks for
      its app's history and keeps it when present and not empty. */
  function LineEntries(line: string, fetch: History): (r: Result<seq<Entry>>)
    ensures r.Ok? ==> |r.value| <= 1
  {
    match ReadLine(line)
    case Err(f) => Err(f)
    case Ok(Skipped) => Ok([])
    case Ok(Read(rec)) =>
      if Answered(rec.id, fetch) then Ok([Entry(rec.id, fetch(CcuUrl(rec.id)).value)]) else Ok([])
  }

  function Steps(lines: seq<string>, fetch: History): (steps: seq<Result<seq<Entry>>>)
    ensures |steps| == |lines|
    ensures forall i :: 0 <= i < |lines| ==> steps[i] == LineEntries(lines[i], fetch)
  {
    seq(|lines|, i requires 0 <= i < |lines| => LineEntries(lines[i], fetch))
  }

  /** `get_all_ccu_history` over the lines of the id file: the entries
      written and how the run ended. */
  function Collect(lines: seq<string>, fetch: History): Outcome<Entry> {
    Run(Steps(lines, fetch))
  }

  lemma StepsTail(lines: seq<string>, fetch: History)
    requires lines != []
    ensures Steps(lines, fetch)[0] == LineEntries(lines[0], fetch)
    ensures Steps(lines, fetch)[1..] == Steps(lines[1..], fetch)
  {
  }

  /** A file that reads completes the run, with one entry per answering
      record, in file order. */
  lemma {:induction false} CollectCompleted(lines: seq<string>, fetch: History)
    requires ReadCheckpoint(lines).Ok?
    ensures Collect(lines, fetch) == Outcome(Kept(ReadCheckpoint(lines).value, fetch), Completed)
    decreases |lines|
  {
    if lines != [] {
      StepsTail(lines, fetch);
      CollectCompleted(lines[1..], fetch);
      var rest := ReadCheckpoint(lines[1..]).value;
      match ReadLine(lines[0]).value
      case Skipped =>
      case Read(rec) =>
        assert ([rec] + rest)[0] == rec && ([rec] + rest)[1..] == rest;
    }
  }

  /** The first line with a bad numeral ends the run with its error; the
      entries are those of the lines before it. */
  lemma {:induction false} CollectAborted(lines: seq<string>, n: nat, fetch: History)
    requires n < |lines|
    requires ReadCheckpoint(lines[..n]).Ok? && ReadLine(lines[n]).Err?
    ensures Collect(lines, fetch) == Outcome(Kept(ReadCheckpoint(lines[..n]).value, fetch), Aborted(ReadLine(lines[n]).fault))
    decreases n
  {
    if n > 0 {
      var tail := lines[1..];
      assert lines[..n][0] == lines[0] && lines[..n][1..] == tail[..n - 1];
      assert tail[n - 1] == lines[n];
      StepsTail(lines, fetch);
      CollectAborted(tail, n - 1, fetch);
      var rest := ReadCheckpoint(tail[..n - 1]).value;
      match ReadLine(lines[0]).value
      case Skipped =>
      case Read(rec) =>
        assert ([rec] + rest)[0] == rec && ([rec] + rest)[1..] == rest;
    }
  }

  // ---------------------------------------------------------------------
  // The output file

  /** One record exactly as line 45 writes it: the id, a tab, the text, and
      no terminator. */
  function RecordAsWritten(e: Entry): string {
    Decimal.IntToString(e.id) + "\t" + e.data
  }

  function OutputAsWritten(es: seq<Entry>): string
    decreases |es|
  {
    if es == [] then "" else OutputAsWritten(es[..|es| - 1]) + RecordAsWritten(es[|es| - 1])
  }

  /** As written, texts without a newline (the usual compact JSON array)
      never produce a newline, so however many apps answered, the file
      reads back as a single line. */
  lemma {:induction false} RecordsRunTogether(es: seq<Entry>)
    requires |es| >= 1
    requires forall k :: 0 <= k < |es| ==> '\n' !in es[k].data
    ensures Text.Lines(OutputAsWritten(es)) == [OutputAsWritten(es)]
    ensures |es| >= 2 ==> |Text.Lines(OutputAsWritten(es))| < |es|
  {
    NoNewline(es);
    var t := OutputAsWritten(es);
    NoTabNoNewline(es[|es| - 1].id);
    assert |t| > 0 by {
      assert |t| >= |RecordAsWritten(es[|es| - 1])| > 0;
    }
  }

  lemma {:induction false} NoNewline(es: seq<Entry>)
    requires forall k :: 0 <= k < |es| ==> '\n' !in es[k].data
    ensures '\n' !in OutputAsWritten(es)
    decreases |es|
  {
    if es != [] {
      NoNewline(es[..|es| - 1]);
      NoTabNoNewline(es[|es| - 1].id);
    }
  }

  /** One record as a line of a JSON-lines file: the record above, ended by
      a newline. */
  function Record(e: Entry): string {
    RecordAsWritten(e) + "\n"
  }

  function RecordLines(es: seq<Entry>): (ls: seq<string>)
    ensures |ls| == |es|
    ensures forall k :: 0 <= k < |es| ==> ls[k] == Record(es[k])
  {
    seq(|es|, k requires 0 <= k < |es| => Record(es[k]))
  }

  function Output(es: seq<Entry>): string {
    Text.Concat(RecordLines(es))
  }

  /** The record a line of the output file holds: the numeral before the
      first tab, and the text after it without the line's terminator. */
  function ParseRecord(line: string): (r: Option<Entry>)
    ensures r.Some? ==> '\t' in line
  {
    if '\t' !in line then None
    else
      var i := Text.IndexOf(line, '\t');
      var id :- Decimal.ParseInt(line[..i]);
      var rest := line[i + 1..];
      Some(Entry(id, if rest != [] && rest[|rest| - 1] == '\n' then rest[..|rest| - 1] else rest))
  }

  /** Reading a record back gives the entry it was written from. */
  lemma ParseRecordRoundTrip(e: Entry)
    requires '\n' !in e.data
    ensures ParseRecord(Record(e)) == Some(e)
  {
    var num := Decimal.IntToString(e.id);
    RecordSplits(e);
    Decimal.ParseIntToString(e.id);
    assert Decimal.ParseInt(Record(e)[..|num|]) == Some(e.id);
    ParseRecordParts(Record(e), |num|, e.id, e.data);
  }

  lemma ParseRecordParts(line: string, i: nat, id: int, data: string)
    requires '\t' in line && Text.IndexOf(line, '\t') == i
    requires Decimal.ParseInt(line[..i]) == Some(id)
    requires i < |line| && line[i + 1..] == data + "\n"
    ensures ParseRecord(line) == Some(Entry(id, data))
  {
    var rest := line[i + 1..];
    assert rest[..|rest| - 1] == data;
  }

  /** A written record's first tab follows its numeral. */
  lemma RecordSplits(e: Entry)
    ensures '\t' in Record(e)
    ensures Text.IndexOf(Record(e), '\t') == |Decimal.IntToString(e.id)|
    ensures Record(e)[..|Decimal.IntToString(e.id)|] == Decimal.IntToString(e.id)
    ensures Record(e)[|Decimal.IntToString(e.id)| + 1..] == e.data + "\n"
  {
    var line := Record(e);
    var num := Decimal.IntToString(e.id);
    NoTabNoNewline(e.id);
    assert line == num + "\t" + e.data + "\n";
    assert line[|num|] == '\t' && line[..|num|] == num;
    Text.IndexOfUnique(line, '\t', |num|);
    assert line[|num| + 1..] == e.data + "\n";
  }

  /** With records ended by newlines, the file reads back as one line per
      entry, in order, each parsing to its entry. */
  lemma OutputRoundTrip(es: seq<Entry>)
    requires forall k :: 0 <= k < |es| ==> '\n' !in es[k].data
    ensures |Text.Lines(Output(es))| == |es|
    ensures forall k :: 0 <= k < |es| ==> ParseRecord(Text.Lines(Output(es))[k]) == Some(es[k])
  {
    var ls := RecordLines(es);
    forall k | 0 <= k < |ls| ensures Text.IsFullLine(ls[k]) {
      NoTabNoNewline(es[k].id);
      assert ls[k][..|ls[k]| - 1] == RecordAsWritten(es[k]);
    }
    Text.LinesConcat(ls);
    forall k | 0 <= k < |es| ensures ParseRecord(Text.Lines(Output(es))[k]) == Some(es[k]) {
      ParseRecordRoundTrip(es[k]);
    }
  }

  lemma AsWrittenSnoc(es: seq<Entry>, e: Entry)
    ensures OutputAsWritten(es + [e]) == OutputAsWritten(es) + RecordAsWritten(e)
  {
    assert (es + [e])[..|es|] == es;
  }

  /** As written, the file is the records one after another. */
  lemma {:induction false} OutputAsWrittenAppend(a: seq<Entry>, b: seq<Entry>)
    ensures OutputAsWritten(a + b) == OutputAsWritten(a) + OutputAsWritten(b)
    decreases |b|
  {
    if b == [] {
      assert a + b == a;
    } else {
      var init, last := b[..|b| - 1], b[|b| - 1];
      assert b == init + [last];
      OutputAsWrittenAppend(a, init);
      AsWrittenAppendStep(a, init, last);
    }
  }

  lemma AsWrittenAppendStep(a: seq<Entry>, init: seq<Entry>, last: Entry)
    requires OutputAsWritten(a + init) == OutputAsWritten(a) + OutputAsWritten(init)
    ensures OutputAsWritten(a + (init + [last])) == OutputAsWritten(a) + OutputAsWritten(init + [last])
  {
    assert a + (init + [last]) == (a + init) + [last];
    AsWrittenSnoc(a + init, last);
    AsWrittenSnoc(init, last);
    Associative(OutputAsWritten(a), OutputAsWritten(init), RecordAsWritten(last));
  }

  lemma Associative(x: string, y: string, z: string)
    ensures (x + y) + z == x + (y + z)
  {
  }

  /** The run over the id file's lines: the output file's content and how
      the run ended. Each record is written as it stands, with no line
      terminator of its own. */
  method GetAllCcuHistory(idLines: seq<string>, fetch: History) returns (out: string, end: RunEnd)
    ensures end == Collect(idLines, fetch).end
    ensures out == OutputAsWritten(Collect(idLines, fetch).out)
  {
    ghost var steps := Steps(idLines, fetch);
    out := "";
    var i := 0;
    while i < |idLines|
      invariant 0 <= i <= |idLines|
      invariant Run(steps[..i]).end == Completed
      invariant out == OutputAsWritten(Run(steps[..i]).out)
    {
      match LineEntries(idLines[i], fetch) {
        case Err(f) =>
          RunStepErr(steps, i);
          return out, Aborted(f);
        case Ok(es) =>
          RunStepOk(steps, i);
          OutputAsWrittenAppend(Run(steps[..i]).out, es);
          out := out + OutputAsWritten(es);
      }
      i := i + 1;
    }
    assert steps[..i] == steps;
    assert Collect(idLines, fetch) == Run(steps);
    end := Completed;
  }
}
