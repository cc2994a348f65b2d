/** The identifier checkpoint file: one `id<TAB>name` line per app.

    `steam_app_list.py` writes it from the Steam app-list response; the
    Gamalytic, review-statistics and player-chart scrapers read it back
    leniently (a line without a tab is skipped), and the item-batch scraper
    reads its two id files strictly (such a line crashes it).
 */
module Checkpoint {
  import opened Wrappers
  import opened JsonValues
  import Text
  import Decimal

  datatype IdRecord = IdRecord(id: int, name: string)

  datatype LineRead = Skipped | Read(rec: IdRecord)

  /** One checkpoint line as `gamalytic.py` reads it: split on tabs; a single
      field is skipped, otherwise the first field must be an integer
      numeral and the second, stripped, is the name. */
  function ReadLine(line: string): (r: Result<LineRead>)
    ensures '\t' !in line ==> r == Ok(Skipped)
    ensures r.Ok? && r.value.Read? ==> Text.Trimmed(r.value.rec.name) && '\t' !in r.value.rec.name
  {
    var fields := Text.Split(line, '\t');
    if |fields| == 1 then Ok(Skipped)
    else
      match Decimal.ParseInt(fields[0])
      case None => Err(ValueError("invalid literal for int()"))
      case Some(id) =>
        Text.StripKeeps(fields[1], '\t');
        Ok(Read(IdRecord(id, Text.Strip(fields[1]))))
  }

  /** A line with a tab reads exactly when its first field is an integer
      numeral, and then the id is that numeral's value. */
  lemma ReadLineNumeral(line: string)
    requires '\t' in line
    ensures ReadLine(line).Ok? <==> Decimal.ParseInt(Text.Split(line, '\t')[0]).Some?
    ensures ReadLine(line).Ok? ==>
      ReadLine(line).value.Read? && Decimal.ParseInt(Text.Split(line, '\t')[0]) == Some(ReadLine(line).value.rec.id)
  {
  }

  /** The records of a checkpoint file, in file order, read leniently. The
      first malformed numeral raises and ends the run. */
  function ReadCheckpoint(lines: seq<string>): (r: Result<seq<IdRecord>>)
    ensures r.Ok? ==> |r.value| <= |lines|
    ensures r.Ok? ==> forall k :: 0 <= k < |r.value| ==> Text.Trimmed(r.value[k].name)
  {
    if lines == [] then Ok([])
    else
      var first :- ReadLine(lines[0]);
      var rest :- ReadCheckpoint(lines[1..]);
      match first
      case Skipped => Ok(rest)
      case Read(rec) => Ok([rec] + rest)
  }

  /** Every line of the file reads without error. */
  predicate AllLinesRead(lines: seq<string>) {
    forall i :: 0 <= i < |lines| ==> ReadLine(lines[i]).Ok?
  }

  /** The file reads without error exactly when every line does. */
  lemma {:induction false} ReadCheckpointOk(lines: seq<string>)
    ensures ReadCheckpoint(lines).Ok? <==> AllLinesRead(lines)
    decreases |lines|
  {
    if lines != [] {
      ReadCheckpointOk(lines[1..]);
      assert AllLinesRead(lines) <==> ReadLine(lines[0]).Ok? && AllLinesRead(lines[1..]) by {
        assert forall i :: 1 <= i < |lines| ==> lines[i] == lines[1..][i - 1];
      }
    }
  }

  /** A file that reads and whose every line has a tab loses none of its
      lines. */
  lemma {:induction false} ReadCheckpointKeepsAll(lines: seq<string>)
    requires ReadCheckpoint(lines).Ok?
    requires forall i :: 0 <= i < |lines| ==> '\t' in lines[i]
    ensures |ReadCheckpoint(lines).value| == |lines|
    decreases |lines|
  {
    if lines != [] {
      assert '\t' in lines[0];
      assert forall i :: 0 <= i < |lines[1..]| ==> lines[1..][i] == lines[i + 1];
      ReadCheckpointKeepsAll(lines[1..]);
      ReadLineNumeral(lines[0]);
    }
  }

  /** One line as `steam_getitems.py` reads it: no skip. `int(data[0])` is
      evaluated before `data[1]`, so a tab-less line fails on its numeral
      when that is malformed and on the missing second field otherwise. */
  function ReadLineStrict(line: string): (r: Result<IdRecord>)
    ensures '\t' !in line ==> r.Err?
    ensures '\t' !in line ==> (r.fault.ValueError? <==> Decimal.ParseInt(line).None?)
    ensures '\t' !in line ==> (r.fault.IndexError? <==> Decimal.ParseInt(line).Some?)
    ensures '\t' in line ==> (r.Ok? <==> ReadLine(line).Ok?)
    ensures r.Ok? ==> ReadLine(line) == Ok(Read(r.value))
  {
    var fields := Text.Split(line, '\t');
    match Decimal.ParseInt(fields[0])
    case None => Err(ValueError("invalid literal for int()"))
    case Some(id) =>
      if |fields| == 1 then Err(IndexError("list index out of range"))
      else Ok(IdRecord(id, Text.Strip(fields[1])))
  }

  /** `f` reads each element of `xs` as the element of `ys` at its position. */
  predicate MapsTo<A, B(==)>(f: A -> Result<B>, xs: seq<A>, ys: seq<B>) {
    |xs| == |ys| && forall k {:trigger f(xs[k])} :: 0 <= k < |xs| ==> f(xs[k]) == Ok(ys[k])
  }

  lemma MapsToCons<A, B>(f: A -> Result<B>, xs: seq<A>, y: B, ys: seq<B>)
    requires |xs| > 0 && f(xs[0]) == Ok(y) && MapsTo(f, xs[1..], ys)
    ensures MapsTo(f, xs, [y] + ys)
  {
    forall k | 0 < k < |xs| ensures f(xs[k]) == Ok(([y] + ys)[k]) {
      assert xs[k] == xs[1..][k - 1];
    }
  }

  /** Each line strictly reads as the record at its position. */
  predicate ReadsAs(lines: seq<string>, recs: seq<IdRecord>) {
    MapsTo(ReadLineStrict, lines, recs)
  }

  function ReadStrict(lines: seq<string>): (r: Result<seq<IdRecord>>)
    ensures r.Ok? ==> ReadsAs(lines, r.value)
  {
    if lines == [] then Ok([])
    else
      var first :- ReadLineStrict(lines[0]);
      var rest :- ReadStrict(lines[1..]);
      MapsToCons(ReadLineStrict, lines, first, rest);
      Ok([first] + rest)
  }

  /** `steam_getitems.py`: the records of the lines of `game_ids.txt`, then
      those of `dlc_ids.txt`, each in file order. */
  function ReadIdFiles(gameIds: seq<string>, dlcIds: seq<string>): (r: Result<seq<IdRecord>>)
    ensures r.Ok? <==> ReadStrict(gameIds).Ok? && ReadStrict(dlcIds).Ok?
    ensures r.Ok? ==> |r.value| == |gameIds| + |dlcIds|
    ensures r.Ok? ==> ReadsAs(gameIds, r.value[..|gameIds|]) && ReadsAs(dlcIds, r.value[|gameIds|..])
  {
    var games :- ReadStrict(gameIds);
    var dlcs :- ReadStrict(dlcIds);
    var all := games + dlcs;
    assert all[..|games|] == games && all[|games|..] == dlcs;
    Ok(all)
  }

  // ---------------------------------------------------------------------
  // Writing (steam_app_list.py)

  /** One pair as a line: the id, a tab, the name, a newline. */
  function CheckpointLine(r: IdRecord): string {
    Decimal.IntToString(r.id) + "\t" + r.name + "\n"
  }

  /** The whole file, written in mode `'w'`: one line per pair, in order,
      duplicates kept. */
  function WriteCheckpoint(rs: seq<IdRecord>): string {
    Text.Concat(WrittenLines(rs))
  }

  function WrittenLines(rs: seq<IdRecord>): (ls: seq<string>)
    ensures |ls| == |rs|
  {
    if rs == [] then [] else [CheckpointLine(rs[0])] + WrittenLines(rs[1..])
  }

  /** The pairs as a reader sees them: names stripped. */
  function StrippedNames(rs: seq<IdRecord>): (out: seq<IdRecord>)
    ensures |out| == |rs|
  {
    if rs == [] then [] else [IdRecord(rs[0].id, Text.Strip(rs[0].name))] + StrippedNames(rs[1..])
  }

  /** A name that survives a write and a read: no tab or newline in it, and
      no carriage return, which a text-mode read turns into a line end. */
  predicate Writable(name: string) {
    '\t' !in name && '\n' !in name && '\r' !in name
  }

  lemma NoTabNoNewline(n: int)
    ensures '\t' !in Decimal.IntToString(n) && '\n' !in Decimal.IntToString(n)
  {
    var a := Decimal.IntToString(n);
    forall i | 0 <= i < |a| ensures a[i] != '\t' && a[i] != '\n' {
    }
  }

  /** Reading one written line gives the id back and the stripped name. */
  lemma ReadWrittenLine(r: IdRecord)
    requires Writable(r.name)
    ensures Text.IsFullLine(CheckpointLine(r))
    ensures ReadLine(CheckpointLine(r)) == Ok(Read(IdRecord(r.id, Text.Strip(r.name))))
    ensures ReadLineStrict(CheckpointLine(r)) == Ok(IdRecord(r.id, Text.Strip(r.name)))
  {
    WrittenLineFull(r);
    WrittenLineSplits(r);
    Decimal.ParseIntToString(r.id);
    Text.StripTrailingSpace(r.name, "\n");
  }

  lemma WrittenLineFull(r: IdRecord)
    requires Writable(r.name)
    ensures Text.IsFullLine(CheckpointLine(r))
  {
    var a := Decimal.IntToString(r.id);
    var line := CheckpointLine(r);
    NoTabNoNewline(r.id);
    assert line[..|line| - 1] == a + "\t" + r.name;
  }

  lemma WrittenLineSplits(r: IdRecord)
    requires Writable(r.name)
    ensures Text.Split(CheckpointLine(r), '\t') == [Decimal.IntToString(r.id), r.name + "\n"]
  {
    var a := Decimal.IntToString(r.id);
    NoTabNoNewline(r.id);
    assert Text.JoinWith([a, r.name + "\n"], '\t') == CheckpointLine(r);
    assert '\t' !in r.name + "\n";
    Text.SplitJoin([a, r.name + "\n"], '\t');
  }

  /** Round trip: the reader of `gamalytic.py` (and the strict reader of
      `steam_getitems.py`) recover every written pair, in order, with the
      name stripped of surrounding white space. */
  lemma CheckpointRoundTrip(rs: seq<IdRecord>)
    requires forall k :: 0 <= k < |rs| ==> Writable(rs[k].name)
    ensures ReadCheckpoint(Text.Lines(WriteCheckpoint(rs))) == Ok(StrippedNames(rs))
    ensures ReadStrict(Text.Lines(WriteCheckpoint(rs))) == Ok(StrippedNames(rs))
  {
    ReadWrittenLines(rs);
    Text.LinesConcat(WrittenLines(rs));
  }

  lemma ReadWrittenLines(rs: seq<IdRecord>)
    requires forall k :: 0 <= k < |rs| ==> Writable(rs[k].name)
    ensures forall k :: 0 <= k < |rs| ==> Text.IsFullLine(WrittenLines(rs)[k])
    ensures ReadCheckpoint(WrittenLines(rs)) == Ok(StrippedNames(rs))
    ensures ReadStrict(WrittenLines(rs)) == Ok(StrippedNames(rs))
  {
    WrittenLinesFull(rs);
    ReadWrittenLenient(rs);
    ReadWrittenStrict(rs);
  }

  lemma {:induction false} WrittenLinesFull(rs: seq<IdRecord>)
    requires forall k :: 0 <= k < |rs| ==> Writable(rs[k].name)
    ensures forall k :: 0 <= k < |rs| ==> Text.IsFullLine(WrittenLines(rs)[k])
    decreases |rs|
  {
    if rs != [] {
      var ls := WrittenLines(rs);
      assert ls[0] == CheckpointLine(rs[0]) && ls[1..] == WrittenLines(rs[1..]);
      WrittenLineFull(rs[0]);
      assert forall k :: 0 <= k < |rs| - 1 ==> rs[1..][k] == rs[k + 1];
      WrittenLinesFull(rs[1..]);
      assert forall k :: 0 < k < |rs| ==> ls[k] == WrittenLines(rs[1..])[k - 1];
    }
  }

  lemma {:induction false} ReadWrittenLenient(rs: seq<IdRecord>)
    requires forall k :: 0 <= k < |rs| ==> Writable(rs[k].name)
    ensures ReadCheckpoint(WrittenLines(rs)) == Ok(StrippedNames(rs))
    decreases |rs|
  {
    if rs != [] {
      var ls := WrittenLines(rs);
      assert ls[0] == CheckpointLine(rs[0]) && ls[1..] == WrittenLines(rs[1..]);
      ReadWrittenLine(rs[0]);
      assert forall k :: 0 <= k < |rs| - 1 ==> rs[1..][k] == rs[k + 1];
      ReadWrittenLenient(rs[1..]);
    }
  }

  lemma {:induction false} ReadWrittenStrict(rs: seq<IdRecord>)
    requires forall k :: 0 <= k < |rs| ==> Writable(rs[k].name)
    ensures ReadStrict(WrittenLines(rs)) == Ok(StrippedNames(rs))
    decreases |rs|
  {
    if rs != [] {
      var ls := WrittenLines(rs);
      assert ls[0] == CheckpointLine(rs[0]) && ls[1..] == WrittenLines(rs[1..]);
      ReadWrittenLine(rs[0]);
      assert forall k :: 0 <= k < |rs| - 1 ==> rs[1..][k] == rs[k + 1];
      ReadWrittenStrict(rs[1..]);
      ReadStrictCons(ls, IdRecord(rs[0].id, Text.Strip(rs[0].name)), StrippedNames(rs[1..]));
    }
  }

  lemma ReadStrictCons(lines: seq<string>, first: IdRecord, rest: seq<IdRecord>)
    requires lines != [] && ReadLineStrict(lines[0]) == Ok(first) && ReadStrict(lines[1..]) == Ok(rest)
    ensures ReadStrict(lines) == Ok([first] + rest)
  {
  }

  // ---------------------------------------------------------------------
  // The app-list response (steam_app_list.py)

  /** The `(appid, name)` pair of every app listed under `applist.apps` of
      the response, in response order. Only integer ids with string names
      are modelled. */
  function AppPairs(response: Json): (r: Result<seq<IdRecord>>)
    ensures r.Ok? ==> exists apps :: Index(response, "applist").Ok? && Index(Index(response, "applist").value, "apps") == Ok(apps)
                                   && Iterate(apps).Ok? && |r.value| == |Iterate(apps).value|
  {
    var applist :- Index(response, "applist");
    var apps :- Index(applist, "apps");
    var items :- Iterate(apps);
    var pairs :- PairsOf(items);
    Ok(pairs)
  }

  function PairsOf(items: seq<Json>): (r: Result<seq<IdRecord>>)
    ensures r.Ok? ==> |r.value| == |items|
    ensures r.Ok? ==> forall k :: 0 <= k < |items| ==>
              Index(items[k], "appid") == Ok(Int(r.value[k].id)) && Index(items[k], "name") == Ok(Str(r.value[k].name))
  {
    if items == [] then Ok([])
    else
      var id :- Index(items[0], "appid");
      var name :- Index(items[0], "name");
      if !id.Int? || !name.Str? then Err(TypeError("app id or name of an unmodelled type"))
      else
        var rest :- PairsOf(items[1..]);
        Ok([IdRecord(id.i, name.s)] + rest)
  }

  /** What `get_app_list` leaves behind: the overwritten checkpoint file
      and the duplicate count it logs. */
  datatype AppList = AppList(file: string, duplicates: nat)

  function GetAppList(response: Json): (r: Result<AppList>)
    ensures r.Ok? <==> AppPairs(response).Ok?
    ensures r.Ok? ==> r.value.duplicates == DuplicateCount(AppPairs(response).value)
  {
    var pairs :- AppPairs(response);
    Ok(AppList(WriteCheckpoint(pairs), DuplicateCount(pairs)))
  }

  /** Whatever the response, the written file reads back, leniently or
      strictly, as its pairs in response order with names stripped, provided
      no name holds a tab, a newline or a carriage return. Duplicates are
      kept. */
  lemma AppListRoundTrip(response: Json)
    requires AppPairs(response).Ok?
    requires forall k :: 0 <= k < |AppPairs(response).value| ==> Writable(AppPairs(response).value[k].name)
    ensures ReadCheckpoint(Text.Lines(GetAppList(response).value.file)) == Ok(StrippedNames(AppPairs(response).value))
    ensures ReadStrict(Text.Lines(GetAppList(response).value.file)) == Ok(StrippedNames(AppPairs(response).value))
  {
    CheckpointRoundTrip(AppPairs(response).value);
  }

  /** The distinct elements of a sequence: Python `set(s)`. */
  function Elems<T(==)>(s: seq<T>): set<T> {
    set i | 0 <= i < |s| :: s[i]
  }

  predicate Distinct<T(==)>(s: seq<T>) {
    forall i, j :: 0 <= i < j < |s| ==> s[i] != s[j]
  }

  /** `len(app_data) - len(set(app_data))`, the duplicate count reported. */
  function DuplicateCount<T(==)>(s: seq<T>): (d: nat)
    ensures d == 0 <==> Distinct(s)
    ensures d < |s| || s == []
  {
    ElemsCard(s);
    |s| - |Elems(s)|
  }

  lemma {:induction false} ElemsCard<T>(s: seq<T>)
    ensures |Elems(s)| <= |s|
    ensures |Elems(s)| == |s| <==> Distinct(s)
    ensures s != [] ==> |Elems(s)| > 0
    decreases |s|
  {
    if s != [] {
      var p := s[..|s| - 1];
      var x := s[|s| - 1];
      ElemsCard(p);
      assert Elems(s) == Elems(p) + {x} by {
        forall y | y in Elems(s) ensures y in Elems(p) + {x} {
          var i :| 0 <= i < |s| && s[i] == y;
          if i < |s| - 1 { assert p[i] == y; }
        }
        forall y | y in Elems(p) ensures y in Elems(s) {
          var i :| 0 <= i < |p| && p[i] == y;
          assert s[i] == y;
        }
      }
      if x in Elems(p) {
        var i :| 0 <= i < |p| && p[i] == x;
        assert s[i] == s[|s| - 1];
        assert !Distinct(s);
      } else {
        assert Distinct(s) <==> Distinct(p) by {
          if Distinct(p) {
            forall i, j | 0 <= i < j < |s| ensures s[i] != s[j] {
              if j == |s| - 1 { assert s[i] == p[i]; } else { assert s[i] == p[i] && s[j] == p[j]; }
            }
          }
          if Distinct(s) {
            forall i, j | 0 <= i < j < |p| ensures p[i] != p[j] {
              assert p[i] == s[i] && p[j] == s[j];
            }
          }
        }
      }
    }
  }
}
