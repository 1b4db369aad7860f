/**
 * The processed-ID store of modules/processed_store.py: an in-memory set of file
 * IDs, loaded once from a JSON file and rewritten in full on every mark.
 *
 * The file system is an object holding what each path contains; whether a write
 * succeeds is decided by the environment and given to `MarkProcessed`.
 */
module Processed {
  import opened Wrappers

  /** What an existing store file holds. */
  datatype FileState =
    | Stored(ids: seq<string>)  // a JSON list of IDs
    | Unreadable                // cannot be read, is not JSON, or holds JSON `set()` rejects

  /** The part of the file system the store touches: the files that exist, by path. */
  class FileSystem {
    var files: map<string, FileState>

    constructor(files: map<string, FileState>)
      ensures this.files == files
    {
      this.files := files;
    }
  }

  /** How a rewrite of the store file ends. */
  datatype WriteOutcome =
    | Written     // the whole list was dumped
    | OpenFailed  // `open(path, 'w')` raised: the file is untouched
    | DumpFailed  // the file was truncated, then `json.dump` raised part-way

  const DefaultPath: string := "processed.json"

  /** `store_path or "processed.json"`: a missing or empty path selects the default. */
  function StorePath(storePath: Option<string>): (path: string)
    ensures path != ""
    ensures storePath.Some? && storePath.value != "" ==> path == storePath.value
    ensures storePath.None? || storePath.value == "" ==> path == DefaultPath
  {
    if storePath.Some? && storePath.value != "" then storePath.value else DefaultPath
  }

  /** The elements of a stored list. */
  function Elements(ids: seq<string>): set<string> {
    set x | x in ids
  }

  /** The set loaded at startup: a missing or unreadable file gives the empty set. */
  function Load(files: map<string, FileState>, path: string): set<string> {
    if path in files && files[path].Stored? then Elements(files[path].ids) else {}
  }

  class ProcessedStore {
    const path: string
    const fs: FileSystem
    var processed: set<string>

    /** What is on disk never claims more than the in-memory set. */
    ghost predicate Valid()
      reads this, fs
    {
      Load(fs.files, path) <= processed
    }

    /** `__init__`: picks the path and loads the set once; load failures give the empty set. */
    constructor(storePath: Option<string>, fs: FileSystem)
      ensures Valid()
      ensures path == StorePath(storePath) && this.fs == fs
      ensures path !in fs.files ==> processed == {}
      ensures path in fs.files && fs.files[path].Unreadable? ==> processed == {}
      ensures path in fs.files && fs.files[path].Stored? ==> processed == Elements(fs.files[path].ids)
    {
      path := StorePath(storePath);
      this.fs := fs;
      new;
      processed := Load(fs.files, path);
    }

    /** `has_processed`: membership in the in-memory set, whatever the file now holds. */
    function HasProcessed(id: string): (seen: bool)
      reads this
      ensures seen <==> id in processed
    {
      id in processed
    }

    /**
     * `mark_processed`: adds the ID and rewrites the file with the whole set; a write
     * error is swallowed and the in-memory set keeps the new ID regardless. Any ID
     * another writer put in the file since this store loaded it is overwritten.
     */
    method MarkProcessed(id: string, outcome: WriteOutcome)
      modifies this, fs
      ensures old(Valid()) || outcome != OpenFailed ==> Valid()
      ensures HasProcessed(id)
      ensures processed == old(processed) + {id}
      ensures outcome == Written ==> fs.files.Keys == old(fs.files).Keys + {path}
      ensures outcome == Written ==> fs.files[path].Stored? && Load(fs.files, path) == processed
      ensures outcome == OpenFailed ==> fs.files == old(fs.files)
      ensures outcome == DumpFailed ==> fs.files == old(fs.files)[path := Unreadable]
      ensures forall p :: p in old(fs.files) && p != path ==> p in fs.files && fs.files[p] == old(fs.files)[p]
    {
      processed := processed + {id};
      match outcome
      case OpenFailed =>
      case DumpFailed =>
        fs.files := fs.files[path := Unreadable];
      case Written =>
        var listed: seq<string> := [];
        var rest := processed;
        while rest != {}
          invariant rest <= processed
          invariant Elements(listed) + rest == processed
          decreases rest
        {
          var x :| x in rest;
          listed := listed + [x];
          rest := rest - {x};
        }
        fs.files := fs.files[path := Stored(listed)];
    }
  }

  /** After a successful write, a store reloaded from the same path knows the marked ID. */
  method RestartAfterMark(fs: FileSystem, storePath: Option<string>, id: string) returns (seen: bool)
    modifies fs
    ensures seen
  {
    var store := new ProcessedStore(storePath, fs);
    store.MarkProcessed(id, Written);
    var reloaded := new ProcessedStore(storePath, fs);
    seen := reloaded.HasProcessed(id);
  }

  /**
   * A write that fails after truncating the file loses every ID on the next start,
   * not just the one being marked: the reloaded store is empty.
   */
  method RestartAfterTruncatedWrite(fs: FileSystem, storePath: Option<string>, id: string)
    returns (reloaded: set<string>)
    modifies fs
    ensures reloaded == {}
  {
    var store := new ProcessedStore(storePath, fs);
    store.MarkProcessed(id, DumpFailed);
    var again := new ProcessedStore(storePath, fs);
    reloaded := again.processed;
  }

  /**
   * Two stores on one file lose an update: the store loaded first rewrites the file
   * with its own set, dropping the ID the other store marked in between.
   */
  method InterleavedMarksLoseUpdate(first: string, second: string) returns (reloaded: set<string>)
    requires first != second
    ensures second in reloaded && first !in reloaded
  {
    var fs := new FileSystem(map[]);
    var older := new ProcessedStore(None, fs);
    var newer := new ProcessedStore(None, fs);
    newer.MarkProcessed(first, Written);
    older.MarkProcessed(second, Written);
    var again := new ProcessedStore(None, fs);
    reloaded := again.processed;
  }
}
