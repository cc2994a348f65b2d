/** `hltb.py`: the HowLongToBeat scraper. It finds the day's search key in
    the site's application script, pages through the search API collecting
    game ids into `game_ids.txt`, then fetches each game's page and writes
    its embedded JSON document as a line of `game_data.jsonl`.

    HTML parsing is not modelled: whether the `_app-*.js` script tag and
    the `__NEXT_DATA__` script tag exist, and what the latter holds, are
    inputs.
 */
module HltbExtract {
  import opened Wrappers
  import opened JsonValues
  import opened Fetch
  import Text
  import Decimal

  const BaseUrl: string := "https://howlongtobeat.com"
  const DefaultOutputDir: string := "../../data/raw/hltb/"
  const DefaultMaxPages: int := 500
  const PageSize: int := 20

  // ---------------------------------------------------------------------
  // The search key

  /** The text around the key in the application script: the search path
      passed to `.concat(` and the closing of that call. */
  const KeyOpen: string := "\"/api/search/\".concat(\""
  const KeyClose: string := "\")"

  predicate IsAlnum(c: char) {
    ('a' <= c <= 'z') || ('A' <= c <= 'Z') || ('0' <= c <= '9')
  }

  /** The length of the longest run of ASCII letters and digits that `s`
      starts with. */
  function AlnumRun(s: string): (n: nat)
    ensures n <= |s|
    ensures forall k :: 0 <= k < n ==> IsAlnum(s[k])
    ensures n < |s| ==> !IsAlnum(s[n])
  {
    if s == [] || !IsAlnum(s[0]) then 0 else 1 + AlnumRun(s[1..])
  }

  /** The key the pattern captures when it matches at position `i` of `t`.
      The key class excludes `"`, so the one-or-more repetition can only
      end where the run of letters and digits ends: the match exists
      exactly when that run is non-empty and `")` follows it. */
  function MatchAt(t: string, i: nat): (r: Option<string>)
    ensures r.Some? ==> |r.value| > 0 && forall k :: 0 <= k < |r.value| ==> IsAlnum(r.value[k])
    ensures r.Some? ==>
      i + |KeyOpen| + |r.value| + |KeyClose| <= |t| && t[i..i + |KeyOpen| + |r.value| + |KeyClose|] == KeyOpen + r.value + KeyClose
  {
    if i > |t| || !Text.StartsWith(t[i..], KeyOpen) then None
    else
      var j := i + |KeyOpen|;
      var n := AlnumRun(t[j..]);
      if n > 0 && Text.StartsWith(t[j + n..], KeyClose) then
        assert t[i..j + n + |KeyClose|] == t[i..j] + t[j..j + n] + t[j + n..][..|KeyClose|];
        Some(t[j..j + n])
      else None
  }

  /** The leftmost match position at or after `i`. */
  function FindFrom(t: string, i: nat): (r: Option<nat>)
    ensures r.Some? ==> i <= r.value <= |t| && MatchAt(t, r.value).Some?
    ensures r.Some? ==> forall j :: i <= j < r.value ==> MatchAt(t, j).None?
    ensures r.None? ==> forall j :: i <= j <= |t| ==> MatchAt(t, j).None?
    decreases |t| + 1 - i
  {
    if i > |t| then None
    else if MatchAt(t, i).Some? then Some(i)
    else FindFrom(t, i + 1)
  }

  /** `re.search` for the key: the captured group of the leftmost match. */
  function SearchKey(t: string): (r: Option<string>)
    ensures r.Some? <==> exists i :: 0 <= i <= |t| && MatchAt(t, i).Some?
    ensures r.Some? ==> |r.value| > 0 && forall k :: 0 <= k < |r.value| ==> IsAlnum(r.value[k])
  {
    match FindFrom(t, 0)
    case None => None
    case Some(i) => MatchAt(t, i)
  }

  lemma {:induction false} AlnumRunPrefix(k: string, s: string)
    requires forall c :: 0 <= c < |k| ==> IsAlnum(k[c])
    requires s != [] && !IsAlnum(s[0])
    ensures AlnumRun(k + s) == |k|
    decreases |k|
  {
    if k != [] {
      assert (k + s)[1..] == k[1..] + s;
      AlnumRunPrefix(k[1..], s);
    } else {
      assert k + s == s;
    }
  }

  /** A script whose text starts with the key call yields that key,
      whatever follows. */
  lemma KeyFoundAtStart(key: string, rest: string)
    requires |key| > 0 && forall c :: 0 <= c < |key| ==> IsAlnum(key[c])
    ensures SearchKey(KeyOpen + key + KeyClose + rest) == Some(key)
  {
    var t := KeyOpen + key + KeyClose + rest;
    var j := |KeyOpen|;
    assert t[0..] == t;
    assert t[..j] == KeyOpen;
    assert t[j..] == key + (KeyClose + rest);
    AlnumRunPrefix(key, KeyClose + rest);
    assert t[j + |key|..][..|KeyClose|] == KeyClose;
    assert t[j..j + |key|] == key;
  }

  /** Any earlier match would be found first: a match at position `i`
      means the key found is the one at the leftmost position `<= i`. */
  lemma KeyIsLeftmost(t: string, i: nat)
    requires i <= |t| && MatchAt(t, i).Some?
    ensures FindFrom(t, 0).Some? && FindFrom(t, 0).value <= i
    ensures SearchKey(t) == MatchAt(t, FindFrom(t, 0).value)
  {
  }

  /** `get_search_key`: the `_app-*.js` script reference found on the home
      page (if any) is fetched and searched for the key. No tag, or no
      key in the script, exits the process with status 1. */
  function GetSearchKey(scriptSrc: Option<string>, fetchText: string -> string): (r: Result<string>)
    ensures r.Ok? <==> scriptSrc.Some? && SearchKey(fetchText(BaseUrl + scriptSrc.value)).Some?
    ensures r.Ok? ==> r.value == SearchKey(fetchText(BaseUrl + scriptSrc.value)).value
    ensures r.Err? ==> r.fault == Exit(1)
  {
    match scriptSrc
    case None => Err(Exit(1))
    case Some(src) =>
      match SearchKey(fetchText(BaseUrl + src))
      case None => Err(Exit(1))
      case Some(key) => Ok(key)
  }

  // ---------------------------------------------------------------------
  // The search API

  function SearchUrl(key: string): string {
    BaseUrl + "/api/search/" + key
  }

  /** The search request body as first built: the first page of twenty
      popular games, every filter empty. */
  const SearchTemplate: Fields := [
    ("searchType", Str("games")),
    ("searchTerms", Arr([Str("")])),
    ("searchPage", Int(1)),
    ("size", Int(PageSize)),
    ("searchOptions", Obj([
      ("games", Obj([
        ("userId", Int(0)),
        ("platform", Str("")),
        ("sortCategory", Str("popular")),
        ("rangeCategory", Str("main")),
        ("rangeTime", Obj([("min", Null), ("max", Null)])),
        ("gameplay", Obj([("perspective", Str("")), ("flow", Str("")), ("genre", Str(""))])),
        ("rangeYear", Obj([("min", Str("")), ("max", Str(""))])),
        ("modifier", Str(""))])),
      ("users", Obj([("sortCategory", Str("postcount"))])),
      ("lists", Obj([("sortCategory", Str("follows"))])),
      ("filter", Str("")),
      ("sort", Int(0)),
      ("randomizer", Int(0))])),
    ("useCache", Bool(true))]

  /** The body as sent for page `page`: one dict reused for every page,
      its `searchPage` overwritten each time. */
  function SearchBody(page: int): Fields {
    Put(SearchTemplate, "searchPage", Int(page))
  }

  /** Each request asks for the page the counter names; nothing else in
      the body changes from page to page. */
  lemma SearchBodyPage(page: int)
    ensures Lookup(SearchBody(page), "searchPage") == Some(Int(page))
    ensures forall k {:trigger Lookup(SearchBody(page), k)} :: k != "searchPage" ==> Lookup(SearchBody(page), k) == Lookup(SearchTemplate, k)
    ensures Keys(SearchBody(page)) == Keys(SearchTemplate)
  {
    assert Keys(SearchTemplate)[2] == "searchPage";
    PutKeys(SearchTemplate, "searchPage", Int(page));
  }

  /** One page of search results: its game ids in response order, and
      whether the server says it is the last page. */
  datatype Page = Page(ids: seq<int>, final: bool)

  /** The `game_id` of every result, in order. Only integer ids are
      modelled. */
  function GameIds(games: seq<Json>): (r: Result<seq<int>>)
    ensures r.Ok? ==> |r.value| == |games|
    ensures r.Ok? ==> forall k :: 0 <= k < |games| ==> Index(games[k], "game_id") == Ok(Int(r.value[k]))
  {
    if games == [] then Ok([])
    else
      var id :- Index(games[0], "game_id");
      if !id.Int? then Err(TypeError("game id of an unmodelled type"))
      else
        var rest :- GameIds(games[1..]);
        Ok([id.i] + rest)
  }

  /** `get_hltb_ids_page` after the request: `pageCurrent`, `pageTotal`
      and `data` are read in that order; the page is the last one when the
      first two are equal. A `pageCurrent` other than the page asked for
      is only logged. */
  function DecodePage(results: Json): (r: Result<Page>)
    ensures r.Ok? ==> Index(results, "pageCurrent").Ok? && Index(results, "pageTotal").Ok?
    ensures r.Ok? ==> (r.value.final <==> Index(results, "pageCurrent") == Index(results, "pageTotal"))
    ensures r.Ok? ==>
      Index(results, "data").Ok? && Iterate(Index(results, "data").value).Ok?
      && GameIds(Iterate(Index(results, "data").value).value) == Ok(r.value.ids)
    ensures !Index(results, "pageCurrent").Ok? ==> r == Err(Index(results, "pageCurrent").fault)
  {
    var current :- Index(results, "pageCurrent");
    var total :- Index(results, "pageTotal");
    var data :- Index(results, "data");
    var games :- Iterate(data);
    var ids :- GameIds(games);
    Ok(Page(ids, current == total))
  }

  /** The search call: the URL and the body sent give the reply. */
  type Post = (string, Fields) -> Reply

  /** A reply as the page reader sees it: no response has no `.json`, a
      body that is not JSON raises, a parsed body is decoded. */
  function PageOf(reply: Reply): (r: Result<Page>)
    ensures reply.Body? ==> r == DecodePage(reply.doc)
    ensures !reply.Body? ==> r.Err?
  {
    match reply
    case Falsy => Err(AttributeError("json"))
    case Unparsable => Err(ValueError("response is not JSON"))
    case Body(doc) => DecodePage(doc)
  }

  /** The decoded result of asking for each page number; the loop's
      properties hold for every such source. */
  type PageSource = int -> Result<Page>

  /** The source the loop reads: each page number sent in its own body to
      the search URL. */
  function SearchPages(url: string, post: Post): PageSource {
    p => PageOf(post(url, SearchBody(p)))
  }

  // ---------------------------------------------------------------------
  // The pagination loop

  /** What `get_hltb_ids` did: the ids appended to the id file, the page
      numbers requested, the pacing sleeps taken, and how it ended. */
  datatype Harvest = Harvest(ids: seq<int>, requested: seq<int>, pacing: nat, end: RunEnd)

  /** One harvest followed by another. */
  function Join(a: Harvest, b: Harvest): Harvest {
    Harvest(a.ids + b.ids, a.requested + b.requested, a.pacing + b.pacing, b.end)
  }

  /** The loop from page `page` to `maxPages`: each page's ids are recorded
      before the last-page check, and a page that is not the last is
      followed by a sleep and the next page number. */
  function Pages(page: int, maxPages: int, src: PageSource): (h: Harvest)
    ensures page > maxPages ==> h == Harvest([], [], 0, Completed)
    ensures |h.requested| <= if page <= maxPages then maxPages - page + 1 else 0
    ensures forall k :: 0 <= k < |h.requested| ==> h.requested[k] == page + k
    decreases if page <= maxPages then maxPages - page + 1 else 0
  {
    if page > maxPages then Harvest([], [], 0, Completed)
    else
      match src(page)
      case Err(f) => Harvest([], [page], 0, Aborted(f))
      case Ok(pg) =>
        if pg.final then Harvest(pg.ids, [page], 0, Completed)
        else Join(Harvest(pg.ids, [page], 1, Completed), Pages(page + 1, maxPages, src))
  }

  /** The ids of the pages requested, in order, each page contributing the
      ids it decoded to. */
  function IdsOf(pages: seq<int>, src: PageSource): seq<int> {
    if pages == [] then []
    else
      var rest := IdsOf(pages[1..], src);
      match src(pages[0])
      case Ok(pg) => pg.ids + rest
      case Err(_) => rest
  }

  /** Pages the loop went past were read and were not the last, so an
      empty page does not stop it; a run that completed before `maxPages`
      stopped on a last page; an aborted run stopped on the page whose
      request raised. The page numbers never follow the server's
      `pageCurrent`: they are `page, page + 1, ...` whatever it says. */
  lemma {:induction false} PagesStop(page: int, maxPages: int, src: PageSource)
    ensures var h := Pages(page, maxPages, src);
      forall k :: 0 <= k < |h.requested| - 1 ==> src(h.requested[k]).Ok? && !src(h.requested[k]).value.final
    ensures var h := Pages(page, maxPages, src);
      h.end.Completed? && h.requested != [] && page + |h.requested| - 1 < maxPages ==>
        (src(page + |h.requested| - 1).Ok? && src(page + |h.requested| - 1).value.final)
    ensures var h := Pages(page, maxPages, src);
      h.end.Aborted? ==> (h.requested != [] && src(page + |h.requested| - 1) == Err(h.end.fault))
    ensures var h := Pages(page, maxPages, src);
      page <= maxPages ==> h.requested != []
    decreases if page <= maxPages then maxPages - page + 1 else 0
  {
    if page <= maxPages {
      var r := src(page);
      if r.Ok? && !r.value.final {
        PagesStop(page + 1, maxPages, src);
        var h, rest := Pages(page, maxPages, src), Pages(page + 1, maxPages, src);
        assert h.requested == [page] + rest.requested;
      }
    }
  }

  /** The ids recorded are those of the pages requested, in page order and
      response order, the last page's included. */
  lemma {:induction false} PagesIds(page: int, maxPages: int, src: PageSource)
    ensures Pages(page, maxPages, src).ids == IdsOf(Pages(page, maxPages, src).requested, src)
    decreases if page <= maxPages then maxPages - page + 1 else 0
  {
    if page <= maxPages {
      var h := Pages(page, maxPages, src);
      assert h.requested[0] == page;
      match src(page)
      case Err(f) =>
        assert h.requested[1..] == [];
      case Ok(pg) =>
        if pg.final {
          assert h.requested[1..] == [];
          assert pg.ids + [] == pg.ids;
        } else {
          var rest := Pages(page + 1, maxPages, src);
          PagesIds(page + 1, maxPages, src);
          assert h.requested[1..] == rest.requested;
        }
    }
  }

  /** One pacing sleep after every page that was read and was not the
      last: one fewer than the pages requested, unless the run went through
      `maxPages` without meeting a last page. */
  lemma {:induction false} PagesPacing(page: int, maxPages: int, src: PageSource)
    ensures var h := Pages(page, maxPages, src);
      h.pacing == if h.requested == [] then 0
                  else if src(page + |h.requested| - 1).Ok? && !src(page + |h.requested| - 1).value.final then |h.requested|
                  else |h.requested| - 1
    decreases if page <= maxPages then maxPages - page + 1 else 0
  {
    if page <= maxPages {
      var r := src(page);
      if r.Ok? && !r.value.final {
        PagesPacing(page + 1, maxPages, src);
        var h, rest := Pages(page, maxPages, src), Pages(page + 1, maxPages, src);
        if rest.requested != [] {
          assert page + |h.requested| - 1 == page + 1 + |rest.requested| - 1;
        }
      }
    }
  }

  lemma JoinAssoc(a: Harvest, b: Harvest, c: Harvest)
    ensures Join(Join(a, b), c) == Join(a, Join(b, c))
  {
    assert (a.ids + b.ids) + c.ids == a.ids + (b.ids + c.ids);
    assert (a.requested + b.requested) + c.requested == a.requested + (b.requested + c.requested);
  }

  /** `f"{game_id}\n"`: the line a recorded id takes in the id file. */
  function IdLine(id: int): string {
    Decimal.IntToString(id) + "\n"
  }

  /** The id file text a page appends: one line per id. */
  function IdLines(ids: seq<int>): (ls: seq<string>)
    ensures |ls| == |ids|
    ensures forall k :: 0 <= k < |ids| ==> ls[k] == Decimal.IntToString(ids[k]) + "\n"
  {
    Map(ids, IdLine)
  }

  function IdText(ids: seq<int>): string {
    Text.Concat(IdLines(ids))
  }

  lemma IdTextAppend(a: seq<int>, b: seq<int>)
    ensures IdText(a + b) == IdText(a) + IdText(b)
  {
    MapAppend(a, b, IdLine);
    Text.ConcatAppend(IdLines(a), IdLines(b));
  }

  /** Reading the id file back: one line per recorded id, in order, which
      stripped is that id's numeral. */
  lemma IdFileRoundTrip(ids: seq<int>)
    ensures Text.Lines(IdText(ids)) == IdLines(ids)
    ensures forall k :: 0 <= k < |ids| ==> Text.Strip(IdLines(ids)[k]) == Decimal.IntToString(ids[k])
  {
    var ls := IdLines(ids);
    forall k | 0 <= k < |ids|
      ensures Text.IsFullLine(ls[k]) && Text.Strip(ls[k]) == Decimal.IntToString(ids[k])
    {
      var a := Decimal.IntToString(ids[k]);
      NumeralLine(ids[k]);
      assert ls[k][..|ls[k]| - 1] == a;
    }
    Text.LinesConcat(ls);
  }

  lemma NumeralLine(n: int)
    ensures '\n' !in Decimal.IntToString(n)
    ensures Text.Strip(Decimal.IntToString(n) + "\n") == Decimal.IntToString(n)
  {
    var a := Decimal.IntToString(n);
    forall i | 0 <= i < |a| ensures a[i] != '\n' && !Text.IsSpace(a[i]) {
      assert Decimal.IsDigit(a[i]) || a[i] == '-';
    }
    Text.StripTrailingSpace(a, "\n");
    Text.StripTrimmed(a);
  }

  /** `get_hltb_ids(search_key, max_pages, ...)`: the id file is emptied
      first when `resetIdFile` holds, then each page's ids are appended. */
  method GetHltbIds(idFile: string, resetIdFile: bool, searchKey: string, maxPages: int, post: Post)
    returns (file: string, h: Harvest)
    ensures h == Pages(1, maxPages, SearchPages(SearchUrl(searchKey), post))
    ensures file == (if resetIdFile then "" else idFile) + IdText(h.ids)
  {
    var src := SearchPages(SearchUrl(searchKey), post);
    h := Harvest([], [], 0, Completed);
    var page := 1;
    assert Join(h, Pages(page, maxPages, src)) == Pages(1, maxPages, src) by {
      var p := Pages(page, maxPages, src);
      assert [] + p.ids == p.ids && [] + p.requested == p.requested;
    }
    while page <= maxPages
      invariant 1 <= page
      invariant h.end == Completed
      invariant Join(h, Pages(page, maxPages, src)) == Pages(1, maxPages, src)
      decreases maxPages - page + 1
    {
      var result := src(page);
      PagesStep(page, maxPages, src);
      match result {
        case Err(f) =>
          h := Join(h, Harvest([], [page], 0, Aborted(f)));
          break;
        case Ok(pg) =>
          if pg.final {
            h := Join(h, Harvest(pg.ids, [page], 0, Completed));
            break;
          }
          JoinAssoc(h, Harvest(pg.ids, [page], 1, Completed), Pages(page + 1, maxPages, src));
          h := Join(h, Harvest(pg.ids, [page], 1, Completed));
          page := page + 1;
      }
    }
    if h.end == Completed && page > maxPages {
      JoinNothing(h);
    }
    file := (if resetIdFile then "" else idFile) + IdText(h.ids);
  }

  lemma JoinNothing(h: Harvest)
    requires h.end == Completed
    ensures Join(h, Harvest([], [], 0, Completed)) == h
  {
    assert h.ids + [] == h.ids && h.requested + [] == h.requested;
  }

  /** One iteration of the loop, unfolded. */
  lemma PagesStep(page: int, maxPages: int, src: PageSource)
    requires page <= maxPages
    ensures src(page).Err? ==> Pages(page, maxPages, src) == Harvest([], [page], 0, Aborted(src(page).fault))
    ensures src(page).Ok? && src(page).value.final ==>
      Pages(page, maxPages, src) == Harvest(src(page).value.ids, [page], 0, Completed)
    ensures src(page).Ok? && !src(page).value.final ==>
      Pages(page, maxPages, src) == Join(Harvest(src(page).value.ids, [page], 1, Completed), Pages(page + 1, maxPages, src))
  {
  }

  // ---------------------------------------------------------------------
  // Game pages

  /** A game page as the data reader sees it: no `__NEXT_DATA__` script
      tag, a tag whose text is not JSON, or the document the tag holds. */
  datatype GamePage = NoNextData | BadNextData | NextData(doc: Json)

  function GameUrl(hltbId: string): string {
    BaseUrl + "/game/" + hltbId
  }

  /** What one id-file line contributes: its stripped text names the game,
      a missing tag exits with status 1, a tag that is not JSON raises. */
  function LineDoc(line: string, page: string -> GamePage): (r: Result<seq<Json>>)
    ensures r.Ok? <==> page(GameUrl(Text.Strip(line))).NextData?
    ensures r.Ok? ==> r.value == [page(GameUrl(Text.Strip(line))).doc]
    ensures page(GameUrl(Text.Strip(line))).NoNextData? ==> r == Err(Exit(1))
  {
    match page(GameUrl(Text.Strip(line)))
    case NoNextData => Err(Exit(1))
    case BadNextData => Err(ValueError("tag text is not JSON"))
    case NextData(doc) => Ok([doc])
  }

  function DocSteps(lines: seq<string>, page: string -> GamePage): (steps: seq<Result<seq<Json>>>)
    ensures |steps| == |lines|
    ensures forall i :: 0 <= i < |lines| ==> steps[i] == LineDoc(lines[i], page)
  {
    seq(|lines|, i requires 0 <= i < |lines| => LineDoc(lines[i], page))
  }

  /** `get_all_game_data` over the lines of the id file. */
  function GameData(lines: seq<string>, page: string -> GamePage): Outcome<Json> {
    Run(DocSteps(lines, page))
  }

  /** The run writes exactly one document per id line, in order, unless a
      page lacks its data, and then it stops there with what it wrote. */
  lemma GameDataLines(lines: seq<string>, page: string -> GamePage)
    ensures GameData(lines, page).end == Completed <==>
      forall i :: 0 <= i < |lines| ==> page(GameUrl(Text.Strip(lines[i]))).NextData?
    ensures GameData(lines, page).end == Completed ==>
      |GameData(lines, page).out| == |lines| && forall i :: 0 <= i < |lines| ==> GameData(lines, page).out[i] == page(GameUrl(Text.Strip(lines[i]))).doc
  {
    var steps := DocSteps(lines, page);
    RunCompletes(steps);
    RunSingles(steps);
  }

  /** After a harvest with the id file reset, the game pages requested are
      exactly those of the harvested ids, in order. */
  lemma HarvestedGames(ids: seq<int>, page: string -> GamePage)
    ensures var run := GameData(Text.Lines(IdText(ids)), page);
      && (run.end == Completed <==> forall i :: 0 <= i < |ids| ==> page(GameUrl(Decimal.IntToString(ids[i]))).NextData?)
      && (run.end == Completed ==>
            |run.out| == |ids| && forall i :: 0 <= i < |ids| ==> run.out[i] == page(GameUrl(Decimal.IntToString(ids[i]))).doc)
  {
    IdFileRoundTrip(ids);
    GameDataLines(Text.Lines(IdText(ids)), page);
  }

  /** The loop of `get_all_game_data`: one document per line until a line
      fails. */
  method GetAllGameData(idLines: seq<string>, page: string -> GamePage) returns (docs: seq<Json>, end: RunEnd)
    ensures Outcome(docs, end) == GameData(idLines, page)
  {
    ghost var steps := DocSteps(idLines, page);
    docs := [];
    var i := 0;
    while i < |idLines|
      invariant 0 <= i <= |idLines|
      invariant Run(steps[..i]) == Outcome(docs, Completed)
    {
      var step := LineDoc(idLines[i], page);
      assert step == steps[i];
      match step {
        case Err(f) =>
          RunStepErr(steps, i);
          return docs, Aborted(f);
        case Ok(doc) =>
          RunStepOk(steps, i);
          docs := docs + doc;
      }
      i := i + 1;
    }
    assert steps[..i] == steps;
    end := Completed;
  }
}
