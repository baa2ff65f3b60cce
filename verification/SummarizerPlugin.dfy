/**
 * The file-backed summary cache of src/plugins/SummarizerPlugin.ts: one text file per
 * chapter, `<STORAGE_DIR>/<chapterId>.txt`, read when present and otherwise filled
 * with a placeholder summary.
 *
 * The part of the file system the plugin touches is a `Disk`: the directories that
 * exist and the files with their contents. `Initialized`, `Summarized` and
 * `Invalidated` say what each operation does to a disk; the class performs them in
 * place and is proved to agree with them.
 */
module SummarizerPlugin {
  import opened Common

  // ---------------------------------------------------------------------------
  // Paths and the placeholder
  // ---------------------------------------------------------------------------

  const StorageSuffix: string := "summaries"

  /**
   * `(FileSystem.documentDirectory ?? FileSystem.cacheDirectory) + 'summaries'`. When
   * both are null, the concatenation renders the null as "null".
   */
  function StorageDir(documentDirectory: Option<string>, cacheDirectory: Option<string>): (dir: string)
    ensures |dir| >= |StorageSuffix| && dir[|dir| - |StorageSuffix|..] == StorageSuffix
    ensures documentDirectory.Some? ==>
              |dir| == |documentDirectory.value| + |StorageSuffix| && dir[..|documentDirectory.value|] == documentDirectory.value
    ensures documentDirectory.None? && cacheDirectory.Some? ==>
              |dir| == |cacheDirectory.value| + |StorageSuffix| && dir[..|cacheDirectory.value|] == cacheDirectory.value
    ensures documentDirectory.None? && cacheDirectory.None? ==> dir == "null" + StorageSuffix
  {
    var base := if documentDirectory.Some? then documentDirectory.value
                else if cacheDirectory.Some? then cacheDirectory.value
                else "null";
    base + StorageSuffix
  }

  /** `${STORAGE_DIR}/${chapterId}.txt`. */
  function CacheFile(dir: string, chapterId: string): (path: string)
    ensures |path| == |dir| + |chapterId| + 5
    ensures path[..|dir| + 1] == dir + "/" && path[|dir| + 1..|path| - 4] == chapterId
    ensures path[|path| - 4..] == ".txt"
  {
    dir + "/" + chapterId + ".txt"
  }

  /** Distinct chapter ids have distinct cache files. */
  lemma CacheFileInjective(dir: string, a: string, b: string)
    requires CacheFile(dir, a) == CacheFile(dir, b)
    ensures a == b
  {
    var head := dir + "/";
    assert CacheFile(dir, a) == head + (a + ".txt");
    assert CacheFile(dir, b) == head + (b + ".txt");
    assert a + ".txt" == (head + (a + ".txt"))[|head|..] == b + ".txt";
    assert a == (a + ".txt")[..|a|] == b;
  }

  /** `Summary for chapter ${chapterId}`. */
  function Placeholder(chapterId: string): (summary: string)
    ensures |summary| == |"Summary for chapter "| + |chapterId|
    ensures summary[..|"Summary for chapter "|] == "Summary for chapter "
    ensures summary[|"Summary for chapter "|..] == chapterId
  {
    "Summary for chapter " + chapterId
  }

  /** The placeholder names its chapter: distinct ids get distinct placeholders. */
  lemma PlaceholderInjective(a: string, b: string)
    requires Placeholder(a) == Placeholder(b)
    ensures a == b
  {
    var head := "Summary for chapter ";
    assert a == Placeholder(a)[|head|..] == b;
  }

  // ---------------------------------------------------------------------------
  // What each operation does to the disk
  // ---------------------------------------------------------------------------

  datatype Disk = Disk(dirs: set<string>, files: map<string, string>)

  /** `(await FileSystem.getInfoAsync(path)).exists`: a directory or a file is there. */
  predicate Exists(d: Disk, path: string) {
    path in d.dirs || path in d.files
  }

  /** Why `summarizeChapter` rejects. */
  datatype PluginError =
    | ReadFailed(path: string)   // something exists at the cache path but it is a directory
    | WriteFailed(path: string)  // the storage directory does not exist, so the file cannot be written

  /** `initialize()`: create the storage directory unless something exists at that path. */
  function Initialized(dir: string, d: Disk): (r: Disk)
    ensures r.files == d.files
    ensures d.dirs <= r.dirs && r.dirs - d.dirs <= {dir}
    ensures Exists(r, dir)
    ensures Exists(d, dir) ==> r == d
  {
    if Exists(d, dir) then d else d.(dirs := d.dirs + {dir})
  }

  datatype Answer = Answer(result: Result<string, PluginError>, disk: Disk)

  /** `summarizeChapter(chapterId)`: the stored file, or else a new placeholder file. */
  function Summarized(dir: string, d: Disk, chapterId: string): (a: Answer)
    ensures a.disk.dirs == d.dirs
    ensures a.result.Err? ==> a.disk == d && a.result.error.path == CacheFile(dir, chapterId)
    ensures a.result.Ok? ==> CacheFile(dir, chapterId) in a.disk.files && a.disk.files[CacheFile(dir, chapterId)] == a.result.value
    ensures a.result.Ok? ==> a.disk.files == d.files[CacheFile(dir, chapterId) := a.result.value]
    ensures a.result.Ok? <==> CacheFile(dir, chapterId) in d.files || (CacheFile(dir, chapterId) !in d.dirs && dir in d.dirs)
  {
    var path := CacheFile(dir, chapterId);
    if path in d.files then Answer(Ok(d.files[path]), d)
    else if path in d.dirs then Answer(Err(ReadFailed(path)), d)
    else if dir !in d.dirs then Answer(Err(WriteFailed(path)), d)
    else Answer(Ok(Placeholder(chapterId)), d.(files := d.files[path := Placeholder(chapterId)]))
  }

  /** `invalidateCache(chapterId)`: delete whatever is at the cache path. */
  function Invalidated(dir: string, d: Disk, chapterId: string): (r: Disk)
    ensures !Exists(r, CacheFile(dir, chapterId))
    ensures r.files == d.files - {CacheFile(dir, chapterId)} && r.dirs == d.dirs - {CacheFile(dir, chapterId)}
  {
    var path := CacheFile(dir, chapterId);
    if Exists(d, path) then Disk(d.dirs - {path}, d.files - {path}) else d
  }

  // ---------------------------------------------------------------------------
  // What the operations promise
  // ---------------------------------------------------------------------------

  /** Initializing twice is initializing once. */
  lemma InitializeIdempotent(dir: string, d: Disk)
    ensures Initialized(dir, Initialized(dir, d)) == Initialized(dir, d)
    ensures Initialized(dir, d).files == d.files && d.dirs <= Initialized(dir, d).dirs
  {
  }

  /** Unless a file occupies the storage path, after initialization summarizing never fails to write. */
  lemma InitializeAllowsWrites(dir: string, d: Disk, chapterId: string)
    requires dir !in d.files
    requires CacheFile(dir, chapterId) !in d.dirs
    ensures Summarized(dir, Initialized(dir, d), chapterId).result.Ok?
  {
  }

  /** A cached file is returned as stored and nothing is written. */
  lemma SummarizeReturnsStored(dir: string, d: Disk, chapterId: string)
    requires CacheFile(dir, chapterId) in d.files
    ensures Summarized(dir, d, chapterId) == Answer(Ok(d.files[CacheFile(dir, chapterId)]), d)
  {
  }

  /** On a miss with the directory in place, the placeholder is stored under the chapter's file and returned; nothing else changes. */
  lemma SummarizeStoresPlaceholder(dir: string, d: Disk, chapterId: string)
    requires !Exists(d, CacheFile(dir, chapterId)) && dir in d.dirs
    ensures var a := Summarized(dir, d, chapterId);
            && a.result == Ok("Summary for chapter " + chapterId)
            && a.disk.dirs == d.dirs
            && a.disk.files.Keys == d.files.Keys + {CacheFile(dir, chapterId)}
            && a.disk.files[CacheFile(dir, chapterId)] == a.result.value
            && forall p :: p in d.files ==> a.disk.files[p] == d.files[p]
  {
  }

  /** Summarizing twice returns the same string both times, and the second call writes nothing. */
  lemma SummarizeTwice(dir: string, d: Disk, chapterId: string)
    requires Summarized(dir, d, chapterId).result.Ok?
    ensures var first := Summarized(dir, d, chapterId);
            Summarized(dir, first.disk, chapterId) == Answer(first.result, first.disk)
  {
  }

  /** Invalidation removes that chapter's file and leaves every other chapter's cached summary as it was. */
  lemma InvalidateRemovesOnlyThat(dir: string, d: Disk, chapterId: string, other: string)
    requires other != chapterId
    ensures CacheFile(dir, chapterId) !in Invalidated(dir, d, chapterId).files
    ensures Invalidated(dir, d, chapterId).files == d.files - {CacheFile(dir, chapterId)}
    ensures CacheFile(dir, other) in d.files <==> CacheFile(dir, other) in Invalidated(dir, d, chapterId).files
    ensures CacheFile(dir, other) in d.files ==>
              Invalidated(dir, d, chapterId).files[CacheFile(dir, other)] == d.files[CacheFile(dir, other)]
  {
    if CacheFile(dir, other) == CacheFile(dir, chapterId) {
      CacheFileInjective(dir, other, chapterId);
    }
  }

  /** Invalidating an absent entry changes nothing, and invalidating twice is invalidating once. */
  lemma InvalidateIdempotent(dir: string, d: Disk, chapterId: string)
    ensures !Exists(d, CacheFile(dir, chapterId)) ==> Invalidated(dir, d, chapterId) == d
    ensures Invalidated(dir, Invalidated(dir, d, chapterId), chapterId) == Invalidated(dir, d, chapterId)
  {
  }

  /** After invalidation the next summary is the placeholder again (when the storage directory is there). */
  lemma InvalidateThenSummarize(dir: string, d: Disk, chapterId: string)
    requires dir in d.dirs
    ensures Summarized(dir, Invalidated(dir, d, chapterId), chapterId).result == Ok(Placeholder(chapterId))
  {
  }

  // ---------------------------------------------------------------------------
  // The plugin object
  // ---------------------------------------------------------------------------

  class SummarizerPlugin {
    /** STORAGE_DIR, fixed when the module loads. */
    const storageDir: string
    var dirs: set<string>
    var files: map<string, string>

    function State(): Disk
      reads this
    {
      Disk(dirs, files)
    }

    constructor (documentDirectory: Option<string>, cacheDirectory: Option<string>, disk: Disk)
      ensures storageDir == StorageDir(documentDirectory, cacheDirectory)
      ensures State() == disk
    {
      storageDir := StorageDir(documentDirectory, cacheDirectory);
      dirs, files := disk.dirs, disk.files;
    }

    /** `initialize()`. */
    method Initialize()
      modifies this
      ensures State() == Initialized(storageDir, old(State()))
    {
      var present := storageDir in dirs || storageDir in files;
      if !present {
        dirs := dirs + {storageDir};
      }
    }

    /** `summarizeChapter(chapterId)`. */
    method SummarizeChapter(chapterId: string) returns (r: Result<string, PluginError>)
      modifies this
      ensures Answer(r, State()) == Summarized(storageDir, old(State()), chapterId)
    {
      var filePath := CacheFile(storageDir, chapterId);
      if filePath in files || filePath in dirs {
        if filePath in dirs && filePath !in files {
          return Err(ReadFailed(filePath));
        }
        return Ok(files[filePath]);
      }
      var summary := Placeholder(chapterId);
      if storageDir !in dirs {
        return Err(WriteFailed(filePath));
      }
      files := files[filePath := summary];
      r := Ok(summary);
    }

    /** `invalidateCache(chapterId)`. */
    method InvalidateCache(chapterId: string)
      modifies this
      ensures State() == Invalidated(storageDir, old(State()), chapterId)
    {
      var filePath := CacheFile(storageDir, chapterId);
      var present := filePath in dirs || filePath in files;
      if present {
        dirs := dirs - {filePath};
        files := files - {filePath};
      }
    }
  }
}
