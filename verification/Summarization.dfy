/**
 * `fetchOrGenerateSummary` of src/services/SummarizationService.ts: the tiered
 * resolver that answers "the summary of chapter X" from the Summaries table, or
 * else reads the chapter's text (local file if downloaded, remote fetch otherwise),
 * asks the completion backend for a summary, trims it and stores it with
 * INSERT OR REPLACE.
 *
 * The file system, the plugin fetch, the completion backend, the clock and the
 * engine's write errors are given as `Oracles`. `Resolve` is the whole resolution
 * as a value; the method `FetchOrGenerateSummary` performs it on a `Database` and
 * is proved to agree with it.
 */
module Summarization {
  import opened Common
  import opened Strings
  import opened Store

  // ---------------------------------------------------------------------------
  // The chapter id: a string, turned into a number for every query
  // ---------------------------------------------------------------------------

  /**
   * `Number(chapterId)` for a string of decimal digits with an optional `+` or `-` sign.
   * Any other string is taken to bind a value that matches no row (NaN binds as NULL).
   */
  function ChapterKey(chapterId: string): (k: Option<int>)
    ensures k.Some? ==> |chapterId| > 0
    ensures k.Some? && chapterId[0] == '-' ==> k.value <= 0
    ensures k.Some? && chapterId[0] != '-' ==> k.value >= 0
  {
    var digits := Unsigned(chapterId);
    if AllDigits(digits) then
      Some(if chapterId[0] == '-' then -(ParseDigits(digits) as int) else ParseDigits(digits))
    else None
  }

  /** The string without its leading sign, if it has one. */
  function Unsigned(s: string): (d: string)
    ensures |d| <= |s|
  {
    if |s| > 0 && (s[0] == '-' || s[0] == '+') then s[1..] else s
  }

  predicate AllDigits(d: string) {
    |d| > 0 && forall i :: 0 <= i < |d| ==> IsDigit(d[i])
  }

  /** A string of digits, bare or behind one sign, is read as its digits' value with that sign. */
  lemma ChapterKeyOfDigits(s: string, sign: string, d: string)
    requires sign == "" || sign == "-" || sign == "+"
    requires AllDigits(d)
    requires s == sign + d
    ensures ChapterKey(s) == Some(if sign == "-" then -(ParseDigits(d) as int) else ParseDigits(d))
  {
    if sign == "" {
      assert s == d;
      assert IsDigit(s[0]);
    } else {
      assert s[0] == sign[0];
      assert s[1..] == d;
    }
    assert Unsigned(s) == d;
  }

  /** A chapter id that a caller renders from a number is read back as that number, with or without a `+`. */
  lemma ChapterKeyOfNumber(n: int)
    ensures ChapterKey(DecimalString(n)) == Some(n)
    ensures n >= 0 ==> ChapterKey("+" + DecimalString(n)) == Some(n)
  {
    var m: nat := if n < 0 then -n else n;
    var d := NatDigits(m);
    var s := DecimalString(n);
    ParseNatDigits(m);
    assert AllDigits(d);
    if n < 0 {
      assert s == "-" + d;
      ChapterKeyOfDigits(s, "-", d);
    } else {
      assert s == "" + d;
      ChapterKeyOfDigits(s, "", d);
      ChapterKeyOfDigits("+" + s, "+", d);
    }
  }

  // ---------------------------------------------------------------------------
  // The three queries
  // ---------------------------------------------------------------------------

  /** Why a resolution throws. */
  datatype Failure =
    | QueryFailed(message: string)      // the engine rejects a query, e.g. "no such table: Summaries"
    | ChapterNotFound                   // `Error('Chapter not found')`
    | FetchFailed(message: string)      // `fetchChapter` rejects
    | CompletionFailed(message: string) // `createCompletion` rejects
    | NoChoices                         // `response.data.choices[0]` is undefined, so reading `.text` throws
    | WriteFailed(message: string)      // the INSERT OR REPLACE rejects

  /** The row `SELECT summary FROM Summaries WHERE chapter_id = ?` finds, if its summary is truthy (non-empty). */
  function CachedSummary(t: Tables, key: Option<int>): (r: Option<string>)
    ensures r.Some? <==> key.Some? && key.value in t.summaries && t.summaries[key.value].summary != ""
    ensures r.Some? ==> r.value == t.summaries[key.value].summary
  {
    if key.Some? && key.value in t.summaries && t.summaries[key.value].summary != "" then
      Some(t.summaries[key.value].summary)
    else None
  }

  /** The row of `Chapter JOIN Novel ON Chapter.novelId = Novel.id WHERE Chapter.id = ?`. */
  datatype ChapterInfo = ChapterInfo(path: string, novelId: int, isDownloaded: int, pluginId: string)

  /** The join query, or why it throws. */
  function LookupInfo(t: Tables, key: Option<int>): (r: Result<ChapterInfo, Failure>)
    ensures ChapterTable !in t.installed ==> r == Err(QueryFailed("no such table: Chapter"))
    ensures ChapterTable in t.installed && NovelTable !in t.installed ==> r == Err(QueryFailed("no such table: Novel"))
    ensures r.Ok? <==>
              && ChapterTable in t.installed && NovelTable in t.installed && key.Some?
              && key.value in IdsOf(t.chapters)
              && FindChapter(t.chapters, key.value).value.novelId in t.novels
    ensures r.Ok? ==>
              exists c :: c in t.chapters && c.id == key.value && c.novelId in t.novels
                && r.value == ChapterInfo(c.path, c.novelId, c.isDownloaded, t.novels[c.novelId].pluginId)
    ensures r.Err? && ChapterTable in t.installed && NovelTable in t.installed ==> r == Err(ChapterNotFound)
  {
    if ChapterTable !in t.installed then Err(QueryFailed("no such table: Chapter"))
    else if NovelTable !in t.installed then Err(QueryFailed("no such table: Novel"))
    else if key.None? then Err(ChapterNotFound)
    else match FindChapter(t.chapters, key.value)
      case None => Err(ChapterNotFound)
      case Some(c) =>
        if c.novelId in t.novels then Ok(ChapterInfo(c.path, c.novelId, c.isDownloaded, t.novels[c.novelId].pluginId))
        else Err(ChapterNotFound)
  }

  // ---------------------------------------------------------------------------
  // The local file path
  // ---------------------------------------------------------------------------

  /** `${NOVEL_STORAGE}/${pluginId}/${novelId}/${chapterId}/index.html`. */
  function ChapterFilePath(storage: string, pluginId: string, novelId: int, chapterId: string): string {
    storage + "/" + pluginId + "/" + DecimalString(novelId) + "/" + chapterId + "/index.html"
  }

  lemma DecimalStringHasNoSlash(n: int)
    ensures '/' !in DecimalString(n)
  {
    var s := DecimalString(n);
    if n < 0 {
      assert forall i :: 1 <= i < |s| ==> s[i] == NatDigits(-n)[i - 1];
    }
  }

  /** Two strings joined by a slash split back at the first slash. */
  lemma SplitAtSlash(a: string, x: string, b: string, y: string)
    requires '/' !in a && '/' !in b
    requires a + "/" + x == b + "/" + y
    ensures a == b && x == y
  {
    var s := a + "/" + x;
    assert forall i :: 0 <= i < |a| ==> s[i] == a[i] && s[i] != '/';
    assert forall i :: 0 <= i < |b| ==> s[i] == b[i] && s[i] != '/';
    assert s[|a|] == '/' && s[|b|] == '/';
    assert |a| == |b|;
    assert a == s[..|a|] == b;
    assert x == s[|a| + 1..] == y;
  }

  lemma StripHead(h: string, r1: string, r2: string)
    requires h + r1 == h + r2
    ensures r1 == r2
  {
    assert r1 == (h + r1)[|h|..];
  }

  lemma StripTail(r1: string, r2: string, tail: string)
    requires r1 + tail == r2 + tail
    ensures r1 == r2
  {
    assert r1 == (r1 + tail)[..|r1|];
  }

  /** The path, read from the right: the storage prefix, then plugin, novel and chapter segments. */
  lemma ChapterFilePathParts(storage: string, p: string, n: int, c: string)
    ensures ChapterFilePath(storage, p, n, c) == (storage + "/") + (p + "/" + (DecimalString(n) + "/" + (c + "/index.html")))
  {
  }

  /** The local path lies under the novel storage directory and names the chapter's `index.html`. */
  lemma ChapterFilePathShape(storage: string, p: string, n: int, c: string)
    ensures var path := ChapterFilePath(storage, p, n, c);
            && |path| > |storage| + |p| + |c| + |"/index.html"| + 2
            && path[..|storage| + 1] == storage + "/"
            && path[|path| - |"/index.html"|..] == "/index.html"
  {
    var path := ChapterFilePath(storage, p, n, c);
    var tail := p + "/" + DecimalString(n) + "/" + c + "/index.html";
    assert path == (storage + "/") + tail;
    assert |DecimalString(n)| > 0;
  }

  /**
   * Distinct chapters never share a local file: the path determines the plugin,
   * the novel and the chapter id (plugin ids being free of '/').
   */
  lemma ChapterFilePathInjective(storage: string, p1: string, n1: int, c1: string, p2: string, n2: int, c2: string)
    requires '/' !in p1 && '/' !in p2
    requires ChapterFilePath(storage, p1, n1, c1) == ChapterFilePath(storage, p2, n2, c2)
    ensures p1 == p2 && n1 == n2 && c1 == c2
  {
    var d1, d2 := DecimalString(n1), DecimalString(n2);
    var e1, e2 := c1 + "/index.html", c2 + "/index.html";
    var r1, r2 := p1 + "/" + (d1 + "/" + e1), p2 + "/" + (d2 + "/" + e2);
    ChapterFilePathParts(storage, p1, n1, c1);
    ChapterFilePathParts(storage, p2, n2, c2);
    StripHead(storage + "/", r1, r2);
    SplitAtSlash(p1, d1 + "/" + e1, p2, d2 + "/" + e2);
    DecimalStringHasNoSlash(n1);
    DecimalStringHasNoSlash(n2);
    SplitAtSlash(d1, e1, d2, e2);
    DecimalStringInjective(n1, n2);
    StripTail(c1, c2, "/index.html");
  }

  // ---------------------------------------------------------------------------
  // The completion request and its answer
  // ---------------------------------------------------------------------------

  const CompletionModel: string := "text-davinci-003"
  const MaxTokens: int := 150
  const PromptHead: string := "Summarize the following chapter:\n"

  datatype CompletionRequest = CompletionRequest(model: string, prompt: string, maxTokens: int)

  /** The prompt that carries the chapter text. */
  function Prompt(text: string): string {
    PromptHead + text + "\n"
  }

  /** The chapter text inside a prompt: the partner of `Prompt`. */
  function PromptText(prompt: string): string {
    if |prompt| > |PromptHead| && prompt[..|PromptHead|] == PromptHead && prompt[|prompt| - 1] == '\n'
    then prompt[|PromptHead|..|prompt| - 1]
    else prompt
  }

  /** The prompt hands the backend the whole chapter text, unaltered and untruncated. */
  lemma PromptRoundTrip(text: string)
    ensures PromptText(Prompt(text)) == text
    ensures |Prompt(text)| == |PromptHead| + |text| + 1
  {
    var p := Prompt(text);
    assert p[..|PromptHead|] == PromptHead;
    assert p[|PromptHead|..|p| - 1] == text;
  }

  /** `response.data.choices[0].text?.trim() ?? ''`, with each choice's optional text. */
  function SummaryOf(choices: seq<Option<string>>): (r: Result<string, Failure>)
    ensures r.Err? <==> choices == []
    ensures r.Err? ==> r.error == NoChoices
    ensures r.Ok? && choices[0].None? ==> r.value == ""
    ensures r.Ok? && choices[0].Some? ==>
              NoEdgeSpace(r.value) && StrippedAt(choices[0].value, r.value, LeadingSpace(choices[0].value))
  {
    if choices == [] then Err(NoChoices)
    else match choices[0]
      case None => Ok("")
      case Some(text) => Ok(Trim(text))
  }

  /** A stored summary never starts or ends with whitespace, and trimming it again changes nothing. */
  lemma SummaryIsTrimmed(choices: seq<Option<string>>)
    requires SummaryOf(choices).Ok?
    ensures NoEdgeSpace(SummaryOf(choices).value)
    ensures Trim(SummaryOf(choices).value) == SummaryOf(choices).value
  {
    var s := SummaryOf(choices).value;
    if choices[0].Some? {
      TrimIdempotent(choices[0].value);
    } else {
      assert s == [];
      TrimEmptyIffAllSpace(s);
    }
  }

  // ---------------------------------------------------------------------------
  // The resolution
  // ---------------------------------------------------------------------------

  /** Where the chapter text is read from. */
  datatype Source =
    | LocalFile(path: string)                    // `NativeFile.readFile(filePath)`
    | Plugin(pluginId: string, path: string)     // `fetchChapter(pluginId, path)`

  /** What the resolver asks of the world, in order. */
  datatype Call =
    | InfoQuery                                  // the Chapter-Novel join
    | ReadChapter(source: Source)
    | Completion(request: CompletionRequest)     // `openai.createCompletion`
    | SummaryWrite(key: int, row: SummaryRow)    // the INSERT OR REPLACE

  /** The world outside the store. */
  datatype Oracles = Oracles(
    novelStorage: string,                              // NOVEL_STORAGE
    files: map<string, string>,                        // `NativeFile`: the files that exist, and their contents
    fetchChapter: (string, string) -> Result<string, string>,
    complete: CompletionRequest -> Result<seq<Option<string>>, string>,
    now: Timestamp,                                    // `datetime('now')`
    writeError: Option<string>)                        // whether the INSERT OR REPLACE is rejected, and how

  datatype Resolution = Resolution(result: Result<string, Failure>, summaries: map<int, SummaryRow>, calls: seq<Call>)

  /** Where the chapter text comes from: the local file when downloaded and present, the plugin otherwise. */
  function TextSource(info: ChapterInfo, chapterId: string, o: Oracles): Source
  {
    var path := ChapterFilePath(o.novelStorage, info.pluginId, info.novelId, chapterId);
    if info.isDownloaded != 0 && path in o.files then LocalFile(path) else Plugin(info.pluginId, info.path)
  }

  /** The chapter text that source yields. */
  function ReadText(source: Source, o: Oracles): Result<string, Failure>
  {
    match source
    case LocalFile(path) => if path in o.files then Ok(o.files[path]) else Err(FetchFailed("no such file"))
    case Plugin(pluginId, path) =>
      match o.fetchChapter(pluginId, path)
      case Ok(text) => Ok(text)
      case Err(m) => Err(FetchFailed(m))
  }

  /**
   * The local file is chosen exactly when the chapter is downloaded and its file exists,
   * and is read as stored; otherwise the chapter's plugin fetches its path, and the read
   * succeeds exactly when that fetch does. Every failed read is a fetch failure.
   */
  lemma SourceAndRead(info: ChapterInfo, chapterId: string, o: Oracles)
    ensures var path := ChapterFilePath(o.novelStorage, info.pluginId, info.novelId, chapterId);
            var source := TextSource(info, chapterId, o);
            var fetched := o.fetchChapter(info.pluginId, info.path);
            && (source.LocalFile? <==> info.isDownloaded != 0 && path in o.files)
            && (source.LocalFile? ==> source == LocalFile(path) && ReadText(source, o) == Ok(o.files[path]))
            && (source.Plugin? ==> source == Plugin(info.pluginId, info.path))
            && (source.Plugin? ==> (ReadText(source, o).Ok? <==> fetched.Ok?))
            && (source.Plugin? && fetched.Ok? ==> ReadText(source, o) == Ok(fetched.value))
            && (ReadText(source, o).Err? ==> ReadText(source, o).error.FetchFailed?)
  {
  }

  function RequestFor(text: string): CompletionRequest {
    CompletionRequest(CompletionModel, Prompt(text), MaxTokens)
  }

  /** `fetchOrGenerateSummary(chapterId)` on tables `t`: its result, the Summaries table after it, and its calls. */
  function Resolve(t: Tables, chapterId: string, o: Oracles): Resolution {
    var key := ChapterKey(chapterId);
    if SummariesTable !in t.installed then Resolution(Err(QueryFailed("no such table: Summaries")), t.summaries, [])
    else if CachedSummary(t, key).Some? then Resolution(Ok(CachedSummary(t, key).value), t.summaries, [])
    else match LookupInfo(t, key)
      case Err(f) => Resolution(Err(f), t.summaries, [InfoQuery])
      case Ok(info) => Generate(t, key.value, TextSource(info, chapterId, o), o)
  }

  /** The rest of a resolution after a successful lookup: read the text, ask for a completion, store the summary under `key`. */
  function Generate(t: Tables, key: int, source: Source, o: Oracles): Resolution {
    match ReadText(source, o)
    case Err(f) => Resolution(Err(f), t.summaries, [InfoQuery, ReadChapter(source)])
    case Ok(text) =>
      var request := RequestFor(text);
      var asked := [InfoQuery, ReadChapter(source), Completion(request)];
      match o.complete(request)
      case Err(m) => Resolution(Err(CompletionFailed(m)), t.summaries, asked)
      case Ok(choices) =>
        match SummaryOf(choices)
        case Err(f) => Resolution(Err(f), t.summaries, asked)
        case Ok(summary) =>
          var row := SummaryRow(summary, o.now);
          var written := asked + [SummaryWrite(key, row)];
          if o.writeError.Some? then Resolution(Err(WriteFailed(o.writeError.value)), t.summaries, written)
          else Resolution(Ok(summary), t.summaries[key := row], written)
  }

  /**
   * The shape of every resolution: a failure writes nothing; no call is made exactly when
   * the Summaries query throws or hits the cache; otherwise the lookup comes first, at most
   * four calls are made, and a success ends with the write of the summary it returns.
   */
  lemma ResolveShape(t: Tables, chapterId: string, o: Oracles)
    ensures var res := Resolve(t, chapterId, o);
            && (res.result.Err? ==> res.summaries == t.summaries)
            && (res.calls == [] <==> SummariesTable !in t.installed || CachedSummary(t, ChapterKey(chapterId)).Some?)
            && |res.calls| <= 4
            && (res.calls != [] ==> res.calls[0] == InfoQuery)
            && (res.calls == [] ==> res.summaries == t.summaries)
            && (res.result.Ok? && res.calls != [] ==>
                  && |res.calls| == 4 && res.calls[3].SummaryWrite?
                  && res.calls[3].row == SummaryRow(res.result.value, o.now)
                  && res.summaries == t.summaries[res.calls[3].key := res.calls[3].row])
  {
  }

  /** The method itself, on the connection `db`: the Summaries table is all it may change. */
  method FetchOrGenerateSummary(db: Database, chapterId: string, o: Oracles) returns (r: Result<string, Failure>, calls: seq<Call>)
    requires db.Valid()
    modifies db`summaries
    ensures db.Valid()
    ensures Resolution(r, db.summaries, calls) == Resolve(old(db.Snapshot()), chapterId, o)
  {
    ghost var t := db.Snapshot();
    var key := ChapterKey(chapterId);
    calls := [];
    if SummariesTable !in db.installed {
      return Err(QueryFailed("no such table: Summaries")), calls;
    }
    var existing := if key.Some? && key.value in db.summaries then Some(db.summaries[key.value]) else None;
    if existing.Some? && existing.value.summary != "" {
      return Ok(existing.value.summary), calls;
    }

    var info := LookupInfo(db.Snapshot(), key);
    if info.Err? {
      return Err(info.error), [InfoQuery];
    }
    assert Resolve(t, chapterId, o) == Generate(t, key.value, TextSource(info.value, chapterId, o), o);
    r, calls := GenerateSummary(db, key.value, info.value, chapterId, o);
  }

  /** What the method does once the lookup has found the chapter: read its text, ask for the summary, store it. */
  method GenerateSummary(db: Database, key: int, info: ChapterInfo, chapterId: string, o: Oracles)
    returns (r: Result<string, Failure>, calls: seq<Call>)
    requires db.Valid() && SummariesTable in db.installed
    modifies db`summaries
    ensures db.Valid()
    ensures Resolution(r, db.summaries, calls) == Generate(old(db.Snapshot()), key, TextSource(info, chapterId, o), o)
  {
    ghost var source := TextSource(info, chapterId, o);
    calls := [InfoQuery];
    var text := "";
    var filePath := ChapterFilePath(o.novelStorage, info.pluginId, info.novelId, chapterId);
    assert source == if info.isDownloaded != 0 && filePath in o.files then LocalFile(filePath) else Plugin(info.pluginId, info.path);
    if info.isDownloaded != 0 && filePath in o.files {
      calls := calls + [ReadChapter(LocalFile(filePath))];
      text := o.files[filePath];
    } else {
      calls := calls + [ReadChapter(Plugin(info.pluginId, info.path))];
      var fetched := o.fetchChapter(info.pluginId, info.path);
      if fetched.Err? {
        return Err(FetchFailed(fetched.error)), calls;
      }
      text := fetched.value;
    }

    var request := RequestFor(text);
    calls := calls + [Completion(request)];
    var response := o.complete(request);
    if response.Err? {
      return Err(CompletionFailed(response.error)), calls;
    }
    var summary := SummaryOf(response.value);
    if summary.Err? {
      return Err(summary.error), calls;
    }

    var row := SummaryRow(summary.value, o.now);
    calls := calls + [SummaryWrite(key, row)];
    if o.writeError.Some? {
      return Err(WriteFailed(o.writeError.value)), calls;
    }
    db.summaries := db.summaries[key := row];
    r := Ok(summary.value);
  }

  // ---------------------------------------------------------------------------
  // What the resolution promises
  // ---------------------------------------------------------------------------

  /** A non-empty cached summary is returned as it is, with no lookup, read, fetch, generation or write. */
  lemma CacheHitShortCircuits(t: Tables, chapterId: string, o: Oracles)
    requires SummariesTable in t.installed
    requires ChapterKey(chapterId).Some? && ChapterKey(chapterId).value in t.summaries
    requires t.summaries[ChapterKey(chapterId).value].summary != ""
    ensures Resolve(t, chapterId, o) == Resolution(Ok(t.summaries[ChapterKey(chapterId).value].summary), t.summaries, [])
  {
  }

  /** A cached empty summary is a miss: the resolver looks the chapter up again and does not return "" from the cache. */
  lemma EmptyCachedSummaryIsMiss(t: Tables, chapterId: string, o: Oracles)
    requires SummariesTable in t.installed
    requires ChapterKey(chapterId).Some? && ChapterKey(chapterId).value in t.summaries
    requires t.summaries[ChapterKey(chapterId).value].summary == ""
    ensures Resolve(t, chapterId, o).calls != [] && Resolve(t, chapterId, o).calls[0] == InfoQuery
  {
  }

  /** With no chapter row joined to a novel row, the resolver throws 'Chapter not found' and writes nothing. */
  lemma MissingChapterFails(t: Tables, chapterId: string, o: Oracles)
    requires SummariesTable in t.installed && ChapterTable in t.installed && NovelTable in t.installed
    requires CachedSummary(t, ChapterKey(chapterId)).None?
    requires forall c :: c in t.chapters && Some(c.id) == ChapterKey(chapterId) ==> c.novelId !in t.novels
    ensures Resolve(t, chapterId, o) == Resolution(Err(ChapterNotFound), t.summaries, [InfoQuery])
  {
    var key := ChapterKey(chapterId);
    if key.Some? && key.value in IdsOf(t.chapters) {
      var c := FindChapter(t.chapters, key.value).value;
      assert c in t.chapters && c.id == key.value;
    }
  }

  /**
   * After the lookup, the text is read from the local file exactly when the chapter is
   * downloaded and its file exists; otherwise it is fetched from the plugin. The
   * completion request carries that text in the fixed prompt, model and token limit.
   */
  lemma TextSourceChoice(t: Tables, chapterId: string, o: Oracles)
    requires SummariesTable in t.installed && CachedSummary(t, ChapterKey(chapterId)).None?
    requires LookupInfo(t, ChapterKey(chapterId)).Ok?
    ensures var info := LookupInfo(t, ChapterKey(chapterId)).value;
            var path := ChapterFilePath(o.novelStorage, info.pluginId, info.novelId, chapterId);
            var calls := Resolve(t, chapterId, o).calls;
            && |calls| >= 2 && calls[0] == InfoQuery
            && (calls[1] == ReadChapter(LocalFile(path)) <==> info.isDownloaded != 0 && path in o.files)
            && (calls[1] == ReadChapter(Plugin(info.pluginId, info.path)) <==> !(info.isDownloaded != 0 && path in o.files))
            && (|calls| >= 3 ==>
                  calls[2].Completion? && calls[2].request.model == "text-davinci-003"
                  && calls[2].request.maxTokens == 150
                  && calls[2].request.prompt == "Summarize the following chapter:\n" + ReadText(calls[1].source, o).value + "\n")
  {
    var key := ChapterKey(chapterId);
    var info := LookupInfo(t, key).value;
    var source := TextSource(info, chapterId, o);
    assert Resolve(t, chapterId, o) == Generate(t, key.value, source, o);
    GenerateCalls(t, key.value, source, o);
    SourceAndRead(info, chapterId, o);
  }

  /** The calls after a lookup: the read of the source, then the completion request built from the text read. */
  lemma GenerateCalls(t: Tables, key: int, source: Source, o: Oracles)
    ensures var calls := Generate(t, key, source, o).calls;
            && |calls| >= 2 && calls[0] == InfoQuery && calls[1] == ReadChapter(source)
            && (|calls| >= 3 ==> ReadText(source, o).Ok? && calls[2] == Completion(RequestFor(ReadText(source, o).value)))
  {
  }

  /**
   * A resolution that misses the cache and succeeds returns the trimmed first choice
   * (or "") and leaves Summaries holding exactly that under the chapter's key, all
   * other rows untouched; a resolution that fails leaves Summaries as it was.
   */
  lemma MissThenStore(t: Tables, chapterId: string, o: Oracles)
    requires SummariesTable in t.installed && CachedSummary(t, ChapterKey(chapterId)).None?
    ensures var res := Resolve(t, chapterId, o);
            && (res.result.Err? ==> res.summaries == t.summaries)
            && (res.result.Ok? ==>
                  && ChapterKey(chapterId).Some?
                  && var key := ChapterKey(chapterId).value;
                  && res.summaries.Keys == t.summaries.Keys + {key}
                  && res.summaries[key] == SummaryRow(res.result.value, o.now)
                  && (forall k :: k in t.summaries && k != key ==> res.summaries[k] == t.summaries[k])
                  && NoEdgeSpace(res.result.value)
                  && |res.calls| == 4 && res.calls[3] == SummaryWrite(key, res.summaries[key]))
  {
    var res := Resolve(t, chapterId, o);
    if res.result.Ok? {
      var info := LookupInfo(t, ChapterKey(chapterId)).value;
      var text := ReadText(TextSource(info, chapterId, o), o).value;
      SummaryIsTrimmed(o.complete(RequestFor(text)).value);
    }
  }

  /**
   * Resolving twice: once a non-empty summary has been stored, the next resolution of
   * the same id returns it with no calls, whatever the backend would now answer; an
   * empty stored summary is generated again.
   */
  lemma ResolveTwice(t: Tables, chapterId: string, o1: Oracles, o2: Oracles)
    requires SummariesTable in t.installed
    requires Resolve(t, chapterId, o1).result.Ok?
    ensures var first := Resolve(t, chapterId, o1);
            var t2 := t.(summaries := first.summaries);
            var second := Resolve(t2, chapterId, o2);
            && (first.result.value != "" ==> second == Resolution(first.result, first.summaries, []))
            && (first.result.value == "" ==> second.calls != [] && second.calls[0] == InfoQuery)
  {
    var key := ChapterKey(chapterId);
    var first := Resolve(t, chapterId, o1);
    var t2 := t.(summaries := first.summaries);
    if CachedSummary(t, key).None? {
      MissThenStore(t, chapterId, o1);
    } else {
      CacheHitShortCircuits(t, chapterId, o1);
    }
    assert key.Some? && key.value in t2.summaries && t2.summaries[key.value].summary == first.result.value;
    if first.result.value != "" {
      CacheHitShortCircuits(t2, chapterId, o2);
    } else {
      EmptyCachedSummaryIsMiss(t2, chapterId, o2);
    }
  }

  /**
   * A store that reached version 1 by the migration has no Summaries table, so the
   * resolver's first query throws and nothing else happens.
   */
  lemma MigratedStoreCannotResolve(t: Tables, fault: Option<Fault>, chapterId: string, o: Oracles)
    requires SummariesTable !in t.installed
    requires Run(t, MigrationV1, fault, 0).Ok?
    ensures var t1 := Run(t, MigrationV1, fault, 0).value;
            Resolve(t1, chapterId, o) == Resolution(Err(QueryFailed("no such table: Summaries")), t1.summaries, [])
  {
    MigrationV1Succeeds(t, fault);
    MigrationV1Outcome(t, fault);
  }

  /**
   * With the summary triggers installed, inserting or updating chapter k leaves no cached
   * summary for k, so the next resolution of k regenerates instead of returning stale text.
   */
  lemma ChapterChangeForcesRegeneration(t: Tables, k: int, o: Oracles)
    requires SummariesTable in t.installed
    requires k !in t.summaries
    ensures Resolve(t, DecimalString(k), o).calls != []
    ensures Resolve(t, DecimalString(k), o).calls[0] == InfoQuery
  {
    ChapterKeyOfNumber(k);
  }

  // ---------------------------------------------------------------------------
  // A chapter change followed by a resolution, on one connection
  // ---------------------------------------------------------------------------

  /** Updating an existing chapter k with the update trigger installed makes the next resolution of k regenerate. */
  method UpdateThenSummarize(db: Database, c: Chapter, counters: CounterTriggers, o: Oracles)
    returns (r: Result<string, Failure>, calls: seq<Call>)
    requires db.Valid()
    requires SummariesTable in db.installed && SummaryUpdateTrigger in db.installed && ChapterTable in db.installed
    modifies db`chapters, db`summaries, db`novels
    ensures db.Valid()
    ensures c.id in IdsOf(old(db.chapters)) ==> calls != [] && calls[0] == InfoQuery
  {
    var u := db.UpdateChapter(c, counters);
    if c.id in IdsOf(old(db.chapters)) {
      ChapterChangeForcesRegeneration(db.Snapshot(), c.id, o);
    }
    r, calls := FetchOrGenerateSummary(db, DecimalString(c.id), o);
  }

  /** Deleting an existing chapter k with foreign keys enforced cascades to its summary, so a later resolution of k queries afresh. */
  method DeleteThenSummarize(db: Database, id: int, counters: CounterTriggers, o: Oracles)
    returns (r: Result<string, Failure>, calls: seq<Call>)
    requires db.Valid()
    requires SummariesTable in db.installed && ChapterTable in db.installed && db.foreignKeysOn
    modifies db`chapters, db`summaries, db`novels
    ensures db.Valid()
    ensures id in IdsOf(old(db.chapters)) ==> calls != [] && calls[0] == InfoQuery
  {
    var u := db.DeleteChapter(id, counters);
    if id in IdsOf(old(db.chapters)) {
      ChapterChangeForcesRegeneration(db.Snapshot(), id, o);
    }
    r, calls := FetchOrGenerateSummary(db, DecimalString(id), o);
  }
}
