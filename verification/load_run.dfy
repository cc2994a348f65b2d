/** `load_data` of both Gamalytics loaders: the `*.jsonl` files of the data
    directory in sorted name order, every line of each file decoded and
    fanned out into rows, and the session committed either once per file
    (`loaders/gamalytics_loader.py`) or once per line
    (`loaders/gamalytics.py`).

    An exception escapes `load_data` and ends the run; rows added since the
    last commit are never committed. The model records the store after each
    commit that went through, and how the run ended.
 */
module LoadRun {
  import opened Wrappers
  import opened JsonValues
  import opened Schema
  import Text
  import Fetch
  import GamalyticsLoader
  import GamalyticsDictLoader

  // ---------------------------------------------------------------------
  // sorted(os.listdir(data_dir)), keeping names ending in ".jsonl"

  /** Python's `a < b` on `str`: code points compared left to right, a
      proper prefix first. */
  predicate Below(a: string, b: string)
    decreases |a|
  {
    if a == [] then b != []
    else b != [] && (a[0] < b[0] || (a[0] == b[0] && Below(a[1..], b[1..])))
  }

  lemma {:induction false} BelowIrreflexive(a: string)
    ensures !Below(a, a)
    decreases |a|
  {
    if a != [] {
      BelowIrreflexive(a[1..]);
    }
  }

  lemma {:induction false} BelowAsymmetric(a: string, b: string)
    requires Below(a, b)
    ensures !Below(b, a)
    decreases |a|
  {
    if a != [] && b != [] && a[0] == b[0] {
      BelowAsymmetric(a[1..], b[1..]);
    }
  }

  /** Any two different names are ordered one way or the other. */
  lemma {:induction false} BelowTotal(a: string, b: string)
    ensures a == b || Below(a, b) || Below(b, a)
    decreases |a|
  {
    if a != [] && b != [] && a[0] == b[0] {
      BelowTotal(a[1..], b[1..]);
      if a[1..] == b[1..] {
        assert a == [a[0]] + a[1..] && b == [b[0]] + b[1..];
      }
    }
  }

  lemma {:induction false} BelowTransitive(a: string, b: string, c: string)
    requires Below(a, b) && Below(b, c)
    ensures Below(a, c)
    decreases |a|
  {
    if a != [] && a[0] == b[0] && b[0] == c[0] {
      BelowTransitive(a[1..], b[1..], c[1..]);
    }
  }

  /** Each name is no greater than every name after it. */
  predicate Ordered(xs: seq<string>)
    decreases |xs|
  {
    |xs| <= 1 || ((forall y :: y in xs[1..] ==> !Below(y, xs[0])) && Ordered(xs[1..]))
  }

  /** `x` placed before the first name not below it. */
  function InsertName(x: string, xs: seq<string>): (r: seq<string>)
    requires Ordered(xs)
    ensures Ordered(r) && multiset(r) == multiset(xs) + multiset{x}
    decreases |xs|
  {
    if xs == [] then [x]
    else if !Below(xs[0], x) then
      assert forall y :: y in xs ==> !Below(y, x) by {
        forall y | y in xs ensures !Below(y, x) {
          if y != xs[0] {
            assert y in xs[1..] by { assert xs == [xs[0]] + xs[1..]; }
            BelowTotal(y, xs[0]);
            if Below(y, x) {
              BelowTransitive(xs[0], y, x);
            }
          }
        }
      }
      assert ([x] + xs)[1..] == xs;
      [x] + xs
    else
      var rest := InsertName(x, xs[1..]);
      assert forall y :: y in rest ==> !Below(y, xs[0]) by {
        forall y | y in rest ensures !Below(y, xs[0]) {
          assert y in multiset(rest);
          if y == x {
            BelowAsymmetric(xs[0], x);
          } else {
            assert y in multiset(xs[1..]);
          }
        }
      }
      assert xs == [xs[0]] + xs[1..];
      assert ([xs[0]] + rest)[1..] == rest;
      [xs[0]] + rest
  }

  /** `sorted(names)`. */
  function SortNames(names: seq<string>): (r: seq<string>)
    ensures Ordered(r) && multiset(r) == multiset(names)
  {
    if names == [] then []
    else
      assert names == [names[0]] + names[1..];
      InsertName(names[0], SortNames(names[1..]))
  }

  /** There is only one ordered arrangement of a collection of names, so
      any ordered permutation of the listing is what `sorted` returns. */
  lemma {:induction false} OrderedUnique(a: seq<string>, b: seq<string>)
    requires Ordered(a) && Ordered(b) && multiset(a) == multiset(b)
    ensures a == b
    decreases |a|
  {
    if a != [] {
      OrderedHeads(a, b);
      var x := a[0];
      assert a == [x] + a[1..] && b == [x] + b[1..];
      assert multiset(a[1..]) == multiset(a) - multiset{x};
      assert multiset(b[1..]) == multiset(b) - multiset{x};
      assert Ordered(a[1..]) && Ordered(b[1..]);
      OrderedUnique(a[1..], b[1..]);
      assert a == [x] + b[1..];
    } else {
      assert |multiset(b)| == 0;
    }
  }

  /** Two ordered arrangements of one collection start with the same name. */
  lemma OrderedHeads(a: seq<string>, b: seq<string>)
    requires a != [] && Ordered(a) && Ordered(b) && multiset(a) == multiset(b)
    ensures b != [] && a[0] == b[0]
  {
    assert a[0] in multiset(b);
    assert b != [];
    if a[0] != b[0] {
      assert b[0] in multiset(a);
      assert a == [a[0]] + a[1..] && b == [b[0]] + b[1..];
      assert a[0] in b[1..] && b[0] in a[1..];
      assert !Below(a[0], b[0]) && !Below(b[0], a[0]);
      BelowTotal(a[0], b[0]);
    }
  }

  predicate IsJsonl(name: string) {
    Text.EndsWith(name, ".jsonl")
  }

  /** The names ending in `.jsonl`, in their original order. */
  function KeepJsonl(xs: seq<string>): (r: seq<string>)
    ensures forall y :: y in r <==> y in xs && IsJsonl(y)
    ensures Ordered(xs) ==> Ordered(r)
  {
    if xs == [] then []
    else
      var rest := KeepJsonl(xs[1..]);
      assert forall y :: y in xs <==> y == xs[0] || y in xs[1..];
      if IsJsonl(xs[0]) then
        assert ([xs[0]] + rest)[1..] == rest;
        [xs[0]] + rest
      else rest
  }

  /** `[f for f in sorted(os.listdir(data_dir)) if f.endswith('.jsonl')]`:
      the data files in ascending name order, and nothing else. */
  function DataFiles(listing: seq<string>): (r: seq<string>)
    ensures Ordered(r)
    ensures forall y :: y in r <==> y in listing && IsJsonl(y)
  {
    var sorted := SortNames(listing);
    assert forall y :: y in sorted <==> y in multiset(listing);
    KeepJsonl(sorted)
  }

  // ---------------------------------------------------------------------
  // Lines, pending rows and commits

  /** One line of a data file: the document `json.loads` returns, or a
      line it cannot decode. */
  datatype Line = Doc(doc: Json) | Malformed

  /** `json.loads(line)`: an undecodable line raises `JSONDecodeError`, a
      `ValueError`. */
  function Loads(l: Line): (r: Result<Json>)
    ensures r.Ok? <==> l.Doc?
  {
    if l.Doc? then Ok(l.doc) else Err(ValueError("JSONDecodeError"))
  }

  /** The rows one line adds to the session. */
  function LineRows(l: Line, decompose: Json -> Result<Tables>): Result<Tables> {
    var d :- Loads(l);
    decompose(d)
  }

  /** The rows a stretch of lines adds between two commits, in line order;
      the first line that raises ends it. */
  function Pending(lines: seq<Line>, decompose: Json -> Result<Tables>): (r: Result<Tables>)
    ensures r.Ok? <==> forall i :: 0 <= i < |lines| ==> LineRows(lines[i], decompose).Ok?
    decreases |lines|
  {
    if lines == [] then Ok(Empty)
    else
      var init := lines[..|lines| - 1];
      assert forall i :: 0 <= i < |init| ==> init[i] == lines[i];
      var before :- Pending(init, decompose);
      var last :- LineRows(lines[|lines| - 1], decompose);
      Ok(Append(before, last))
  }

  /** Two stretches of lines pend what each pends, one after the other. */
  lemma {:induction false} PendingConcat(a: seq<Line>, b: seq<Line>, decompose: Json -> Result<Tables>)
    requires Pending(a + b, decompose).Ok?
    ensures Pending(a, decompose).Ok? && Pending(b, decompose).Ok?
    ensures Pending(a + b, decompose).value == Append(Pending(a, decompose).value, Pending(b, decompose).value)
    decreases |b|
  {
    assert forall i :: 0 <= i < |a| ==> (a + b)[i] == a[i];
    assert forall i :: 0 <= i < |b| ==> (a + b)[|a| + i] == b[i];
    if b == [] {
      assert a + b == a;
      AppendEmpty(Pending(a, decompose).value);
    } else {
      var init := b[..|b| - 1];
      assert (a + b)[..|a + b| - 1] == a + init;
      assert (a + b)[|a + b| - 1] == b[|b| - 1];
      PendingConcat(a, init, decompose);
      AppendAssoc(Pending(a, decompose).value, Pending(init, decompose).value, LineRows(b[|b| - 1], decompose).value);
    }
  }

  /** The store after each commit that went through, and how the run
      ended. */
  datatype Load = Load(commits: seq<Tables>, end: Fetch.RunEnd)

  /** Commits each stretch of lines in turn, starting from `store`; a line
      that raises, or a commit that fails, ends the run. */
  function CommitUnits(store: Tables, units: seq<seq<Line>>, decompose: Json -> Result<Tables>): (r: Load)
    ensures |r.commits| <= |units|
    ensures r.end == Fetch.Completed ==> |r.commits| == |units|
    decreases |units|
  {
    if units == [] then Load([], Fetch.Completed)
    else
      match Pending(units[0], decompose)
      case Err(f) => Load([], Fetch.Aborted(f))
      case Ok(p) =>
        match Commit(store, p)
        case Err(f) => Load([], Fetch.Aborted(f))
        case Ok(next) =>
          var rest := CommitUnits(next, units[1..], decompose);
          Load([next] + rest.commits, rest.end)
  }

  function Flatten(units: seq<seq<Line>>): (r: seq<Line>)
    ensures |units| > 0 ==> r == units[0] + Flatten(units[1..])
  {
    if units == [] then [] else units[0] + Flatten(units[1..])
  }

  /** The store once the run is over: the last commit, or the starting
      store when nothing was committed. */
  function Final(store: Tables, r: Load): Tables {
    if r.commits == [] then store else r.commits[|r.commits| - 1]
  }

  lemma PendingJoin(a: seq<Line>, b: seq<Line>, decompose: Json -> Result<Tables>)
    requires Pending(a, decompose).Ok? && Pending(b, decompose).Ok?
    ensures Pending(a + b, decompose).Ok?
    ensures Pending(a + b, decompose).value == Append(Pending(a, decompose).value, Pending(b, decompose).value)
  {
    assert forall i :: 0 <= i < |a + b| ==> (a + b)[i] == if i < |a| then a[i] else b[i - |a|];
    PendingConcat(a, b, decompose);
  }

  /** After the (k+1)-th commit the store holds the starting rows followed
      by exactly the rows of the first k+1 stretches of lines. */
  lemma {:induction false} CommitAt(store: Tables, units: seq<seq<Line>>, decompose: Json -> Result<Tables>, k: nat)
    requires k < |CommitUnits(store, units, decompose).commits|
    ensures Pending(Flatten(units[..k + 1]), decompose).Ok?
    ensures CommitUnits(store, units, decompose).commits[k] == Append(store, Pending(Flatten(units[..k + 1]), decompose).value)
    decreases k
  {
    var p := Pending(units[0], decompose).value;
    var next := Append(store, p);
    var rest := CommitUnits(next, units[1..], decompose);
    assert CommitUnits(store, units, decompose).commits == [next] + rest.commits;
    assert units[..k + 1][1..] == units[1..][..k];
    if k == 0 {
      assert Flatten(units[..1]) == units[0] + [];
      assert units[0] + [] == units[0];
    } else {
      CommitAt(next, units[1..], decompose, k - 1);
      var q := Pending(Flatten(units[1..][..k]), decompose).value;
      PendingJoin(units[0], Flatten(units[1..][..k]), decompose);
      AppendAssoc(store, p, q);
    }
  }

  /** A prefix of a list without repeats has no repeats. */
  lemma DistinctPrefix(a: seq<Json>, b: seq<Json>)
    requires Distinct(a + b)
    ensures Distinct(a)
  {
    assert forall i :: 0 <= i < |a| ==> (a + b)[i] == a[i];
  }

  /** A run that completes saw every line decode and fan out, and no root
      key repeats across the store and all the lines. */
  lemma {:induction false} CompletedMeans(store: Tables, units: seq<seq<Line>>, decompose: Json -> Result<Tables>)
    requires Distinct(MainIds(store))
    requires CommitUnits(store, units, decompose).end == Fetch.Completed
    ensures Pending(Flatten(units), decompose).Ok?
    ensures Distinct(MainIds(store) + MainIds(Pending(Flatten(units), decompose).value))
    decreases |units|
  {
    if units == [] {
      assert MainIds(Empty) == [];
      assert MainIds(store) + [] == MainIds(store);
    } else {
      CompletedHead(store, units, decompose);
      var p := Pending(units[0], decompose).value;
      var next := Append(store, p);
      MainIdsAppend(store, p);
      assert Distinct(MainIds(next));
      CompletedMeans(next, units[1..], decompose);
      var q := Pending(Flatten(units[1..]), decompose).value;
      PendingJoin(units[0], Flatten(units[1..]), decompose);
      assert Flatten(units) == units[0] + Flatten(units[1..]);
      MainIdsAppend(p, q);
      DistinctRegroup(MainIds(store), MainIds(p), MainIds(q));
    }
  }

  /** The first commit of a completed run went through. */
  lemma CompletedHead(store: Tables, units: seq<seq<Line>>, decompose: Json -> Result<Tables>)
    requires units != []
    requires CommitUnits(store, units, decompose).end == Fetch.Completed
    ensures Pending(units[0], decompose).Ok?
    ensures Distinct(MainIds(store) + MainIds(Pending(units[0], decompose).value))
    ensures CommitUnits(Append(store, Pending(units[0], decompose).value), units[1..], decompose).end == Fetch.Completed
  {
    var p := Pending(units[0], decompose).value;
    assert Commit(store, p).Ok?;
  }

  lemma DistinctRegroup(a: seq<Json>, b: seq<Json>, c: seq<Json>)
    requires Distinct((a + b) + c)
    ensures Distinct(a + (b + c))
  {
    assert (a + b) + c == a + (b + c);
  }

  /** Conversely, from a store with one root row per key, the run completes
      when every line decodes and fans out and no root key repeats. */
  lemma {:induction false} CompletesWhen(store: Tables, units: seq<seq<Line>>, decompose: Json -> Result<Tables>)
    requires Distinct(MainIds(store))
    requires Pending(Flatten(units), decompose).Ok?
    requires Distinct(MainIds(store) + MainIds(Pending(Flatten(units), decompose).value))
    ensures CommitUnits(store, units, decompose).end == Fetch.Completed
    decreases |units|
  {
    if units != [] {
      PendingConcat(units[0], Flatten(units[1..]), decompose);
      var p := Pending(units[0], decompose).value;
      var q := Pending(Flatten(units[1..]), decompose).value;
      MainIdsAppend(p, q);
      var s := MainIds(store);
      assert s + MainIds(Append(p, q)) == (s + MainIds(p)) + MainIds(q);
      DistinctPrefix(s + MainIds(p), MainIds(q));
      var next := Append(store, p);
      MainIdsAppend(store, p);
      CompletesWhen(next, units[1..], decompose);
    }
  }

  /** Starting from a store with one root row per key, the run completes
      exactly when every line decodes and fans out and no root key repeats
      across the store and all the lines: how the lines are grouped into
      commits does not matter. */
  lemma CompletesIff(store: Tables, units: seq<seq<Line>>, decompose: Json -> Result<Tables>)
    requires Distinct(MainIds(store))
    ensures CommitUnits(store, units, decompose).end == Fetch.Completed <==>
      && Pending(Flatten(units), decompose).Ok?
      && Distinct(MainIds(store) + MainIds(Pending(Flatten(units), decompose).value))
  {
    if CommitUnits(store, units, decompose).end == Fetch.Completed {
      CompletedMeans(store, units, decompose);
    }
    if Pending(Flatten(units), decompose).Ok?
      && Distinct(MainIds(store) + MainIds(Pending(Flatten(units), decompose).value)) {
      CompletesWhen(store, units, decompose);
    }
  }

  /** A completed run ends with the starting rows followed by the rows of
      all the lines. */
  lemma CompletedFinal(store: Tables, units: seq<seq<Line>>, decompose: Json -> Result<Tables>)
    requires Distinct(MainIds(store))
    requires CommitUnits(store, units, decompose).end == Fetch.Completed
    ensures Pending(Flatten(units), decompose).Ok?
    ensures Final(store, CommitUnits(store, units, decompose)) == Append(store, Pending(Flatten(units), decompose).value)
  {
    CompletesIff(store, units, decompose);
    var r := CommitUnits(store, units, decompose);
    if units == [] {
      AppendEmpty(store);
    } else {
      var r := CommitUnits(store, units, decompose);
      CommitAt(store, units, decompose, |r.commits| - 1);
      assert units[..|units| - 1 + 1] == units;
    }
  }

  /** A decomposer whose every result is one self-contained batch: its child
      rows point at its own root rows, and its `type` columns are
      documented values. */
  ghost predicate WellShaped(decompose: Json -> Result<Tables>) {
    forall d :: decompose(d).Ok? ==> Linked(decompose(d).value, MainIds(decompose(d).value)) && Tagged(decompose(d).value)
  }

  lemma {:induction false} PendingShape(lines: seq<Line>, decompose: Json -> Result<Tables>)
    requires WellShaped(decompose) && Pending(lines, decompose).Ok?
    ensures var p := Pending(lines, decompose).value; Linked(p, MainIds(p)) && Tagged(p)
    decreases |lines|
  {
    if lines == [] {
      assert MainIds(Empty) == [];
    } else {
      var init := lines[..|lines| - 1];
      PendingShape(init, decompose);
      var before := Pending(init, decompose).value;
      var last := LineRows(lines[|lines| - 1], decompose).value;
      var ids := MainIds(before) + MainIds(last);
      MainIdsAppend(before, last);
      LinkedMono(before, MainIds(before), MainIds(last));
      LinkedWider(last, MainIds(last), ids);
      LinkedAppend(before, last, ids);
      TaggedAppend(before, last);
    }
  }

  /** Every committed state keeps the store's integrity: one root row per
      key, every child row pointing at a root row, documented `type`s. */
  lemma {:induction false} CommitsValid(store: Tables, units: seq<seq<Line>>, decompose: Json -> Result<Tables>)
    requires Valid(store) && WellShaped(decompose)
    ensures var r := CommitUnits(store, units, decompose);
      forall k :: 0 <= k < |r.commits| ==> Valid(r.commits[k])
    decreases |units|
  {
    var r := CommitUnits(store, units, decompose);
    if units == [] {
      assert r.commits == [];
    } else {
      CommitUnitsCons(store, units, decompose);
      if Pending(units[0], decompose).Ok? && Commit(store, Pending(units[0], decompose).value).Ok? {
        var p := Pending(units[0], decompose).value;
        PendingShape(units[0], decompose);
        LinkedWider(p, MainIds(p), MainIds(store) + MainIds(p));
        CommitKeepsValid(store, p);
        var next := Commit(store, p).value;
        CommitsValid(next, units[1..], decompose);
        var rest := CommitUnits(next, units[1..], decompose).commits;
        assert r.commits == [next] + rest;
        forall k | 0 <= k < |r.commits| ensures Valid(r.commits[k]) {
          if k > 0 {
            assert r.commits[k] == rest[k - 1];
          }
        }
      }
    }
  }

  /** The first stretch of lines of a run, unfolded: nothing is committed
      when it raises or its commit fails. */
  lemma CommitUnitsCons(store: Tables, units: seq<seq<Line>>, decompose: Json -> Result<Tables>)
    requires units != []
    ensures var r := CommitUnits(store, units, decompose);
      var p := Pending(units[0], decompose);
      && (p.Err? ==> r.commits == [])
      && (p.Ok? && Commit(store, p.value).Err? ==> r.commits == [])
      && (p.Ok? && Commit(store, p.value).Ok? ==>
            r.commits == [Commit(store, p.value).value] + CommitUnits(Commit(store, p.value).value, units[1..], decompose).commits)
  {
  }

  // ---------------------------------------------------------------------
  // The two loaders

  /** The lines of every data file, in file order: one stretch per file. */
  function FileUnits(listing: seq<string>, contents: string -> seq<Line>): (r: seq<seq<Line>>)
    ensures |r| == |DataFiles(listing)|
    ensures forall i :: 0 <= i < |r| ==> r[i] == contents(DataFiles(listing)[i])
  {
    var files := DataFiles(listing);
    seq(|files|, i requires 0 <= i < |files| => contents(files[i]))
  }

  /** One stretch per line. */
  function Singletons(lines: seq<Line>): (r: seq<seq<Line>>)
    ensures |r| == |lines|
    ensures forall i :: 0 <= i < |r| ==> r[i] == [lines[i]]
  {
    seq(|lines|, i requires 0 <= i < |lines| => [lines[i]])
  }

  lemma {:induction false} FlattenSingletons(lines: seq<Line>)
    ensures Flatten(Singletons(lines)) == lines
    decreases |lines|
  {
    if lines != [] {
      assert Singletons(lines)[1..] == Singletons(lines[1..]);
      FlattenSingletons(lines[1..]);
      assert lines == [lines[0]] + lines[1..];
    }
  }

  /** The two loaders' decomposers, as values. */
  const PerFileDecompose: Json -> Result<Tables> := GamalyticsLoader.Decompose
  const PerRecordDecompose: Json -> Result<Tables> := GamalyticsDictLoader.Decompose

  /** `gamalytics_loader.py`: one commit per data file. */
  function LoadPerFile(store: Tables, listing: seq<string>, contents: string -> seq<Line>): Load {
    CommitUnits(store, FileUnits(listing, contents), PerFileDecompose)
  }

  /** `gamalytics.py`: one commit per line. */
  function LoadPerRecord(store: Tables, listing: seq<string>, contents: string -> seq<Line>): Load {
    CommitUnits(store, Singletons(Flatten(FileUnits(listing, contents))), PerRecordDecompose)
  }

  lemma FirstLoaderShaped()
    ensures WellShaped(PerFileDecompose)
  {
    forall d | GamalyticsLoader.Decompose(d).Ok?
      ensures var t := GamalyticsLoader.Decompose(d).value; Linked(t, MainIds(t)) && Tagged(t)
    {
      GamalyticsLoader.DecomposeShape(d);
    }
  }

  lemma DictLoaderShaped()
    ensures WellShaped(PerRecordDecompose)
  {
    forall d | GamalyticsDictLoader.Decompose(d).Ok?
      ensures var t := GamalyticsDictLoader.Decompose(d).value; Linked(t, MainIds(t)) && Tagged(t)
    {
      GamalyticsDictLoader.DecomposeShape(d);
    }
  }

  /** The first loader never commits a child row without its root row: each
      file's documents go in one commit, and every committed state is valid. */
  lemma PerFileValid(store: Tables, listing: seq<string>, contents: string -> seq<Line>, k: nat)
    requires Valid(store)
    requires k < |LoadPerFile(store, listing, contents).commits|
    ensures Valid(LoadPerFile(store, listing, contents).commits[k])
  {
    var units := FileUnits(listing, contents);
    FirstLoaderShaped();
    CommitsValid(store, units, PerFileDecompose);
    assert LoadPerFile(store, listing, contents).commits[k] == CommitUnits(store, units, PerFileDecompose).commits[k];
  }

  /** The second loader commits after every line: after the (k+1)-th
      commit the store holds the starting rows followed by exactly the rows
      of the first k+1 lines. */
  lemma PerRecordCommits(store: Tables, listing: seq<string>, contents: string -> seq<Line>, k: nat)
    requires k < |LoadPerRecord(store, listing, contents).commits|
    ensures var lines := Flatten(FileUnits(listing, contents));
      && Pending(lines[..k + 1], PerRecordDecompose).Ok?
      && LoadPerRecord(store, listing, contents).commits[k]
         == Append(store, Pending(lines[..k + 1], PerRecordDecompose).value)
  {
    var lines := Flatten(FileUnits(listing, contents));
    CommitAt(store, Singletons(lines), PerRecordDecompose, k);
    FlattenSingletonsPrefix(lines, k);
  }

  /** Every state the second loader commits is valid. */
  lemma PerRecordValid(store: Tables, listing: seq<string>, contents: string -> seq<Line>, k: nat)
    requires Valid(store)
    requires k < |LoadPerRecord(store, listing, contents).commits|
    ensures Valid(LoadPerRecord(store, listing, contents).commits[k])
  {
    var units := Singletons(Flatten(FileUnits(listing, contents)));
    DictLoaderShaped();
    CommitsValid(store, units, PerRecordDecompose);
    assert LoadPerRecord(store, listing, contents).commits[k] == CommitUnits(store, units, PerRecordDecompose).commits[k];
  }

  lemma FlattenSingletonsPrefix(lines: seq<Line>, k: nat)
    requires k < |lines|
    ensures Flatten(Singletons(lines)[..k + 1]) == lines[..k + 1]
  {
    assert Singletons(lines)[..k + 1] == Singletons(lines[..k + 1]);
    FlattenSingletons(lines[..k + 1]);
  }

  /** For one decomposer, committing per file and committing per line
      complete on the same inputs and then leave the same store. */
  lemma GranularityAgrees(store: Tables, listing: seq<string>, contents: string -> seq<Line>,
                          decompose: Json -> Result<Tables>)
    requires Distinct(MainIds(store))
    ensures var files := FileUnits(listing, contents);
      var perFile := CommitUnits(store, files, decompose);
      var perLine := CommitUnits(store, Singletons(Flatten(files)), decompose);
      && (perFile.end == Fetch.Completed <==> perLine.end == Fetch.Completed)
      && (perFile.end == Fetch.Completed ==> Final(store, perFile) == Final(store, perLine))
  {
    var files := FileUnits(listing, contents);
    FlattenSingletons(Flatten(files));
    CompletesIff(store, files, decompose);
    CompletesIff(store, Singletons(Flatten(files)), decompose);
    if CommitUnits(store, files, decompose).end == Fetch.Completed {
      CompletedFinal(store, files, decompose);
      CompletedFinal(store, Singletons(Flatten(files)), decompose);
    }
  }
}
