/**
  The folder watcher: it keeps the files of a folder and the documents of
  the knowledge base in step. Two dicts keyed by path record, for every
  tracked file, the hash it had when it was added and the id of its
  document; each cycle of the watch loop compares the scanned files with
  the tracked ones and adds, removes or re-ingests.

  The folder is a map from path to hash ("" when the file cannot be read).
  The knowledge base is an oracle for one cycle: the id an add of each path
  yields (no entry when the add raises) and the document ids whose delete
  reports success. The registry `Tracked()` pairs the two dicts into one
  map from path to (hash, document id).
*/
module FolderWatchers {
  import opened Wrappers
  import opened Strings
  import opened Seqs
  import Document
  import KnowledgeBases

  type Path = string
  type Hash = string
  /** The watcher records the ids the knowledge base returns. */
  type DocId = KnowledgeBases.DocId

  /** `config.SUPPORTED_EXTENSIONS`. */
  const SupportedExtensions: seq<string> := [".txt"]

  /**
    `PurePath.suffix` of a file name: from its last '.', when that dot is
    neither the first nor the last character of the name; "" otherwise.
  */
  function Suffix(name: string): string
  {
    var i := RFind(name, '.', 0, |name|);
    if 0 < i < |name| - 1 then name[i..] else ""
  }

  /** `_is_supported_file`: the lower-cased suffix is a supported extension. */
  predicate IsSupportedFile(p: Path)
  {
    Lower(Suffix(BaseName(p))) in SupportedExtensions
  }

  /** The files of the watched folder with their hashes; "" is the hash of an unreadable file. */
  type FileSystem = map<Path, Hash>

  /** `_scan_folder`: the supported files of the folder. */
  function Scan(fs: FileSystem): set<Path>
  {
    set p | p in fs && IsSupportedFile(p)
  }

  /** `_get_file_hash`: the file's hash, or "" when it cannot be read. */
  function HashOf(fs: FileSystem, p: Path): Hash
  {
    if p in fs then fs[p] else ""
  }

  /** What the two dicts hold for one tracked path. */
  datatype Entry = Entry(hash: Hash, documentId: DocId)

  type Registry = map<Path, Entry>

  /**
    The knowledge base as seen during one cycle: the id `add_document`
    returns for each path whose add succeeds, and the ids whose
    `delete_document` returns true.
  */
  datatype KbOracle = KbOracle(added: map<Path, DocId>, deletable: set<DocId>)

  /** What the registry holds for a path. */
  function Lookup(r: Registry, p: Path): Option<Entry>
  {
    if p in r then Some(r[p]) else None
  }

  /** A tracked file whose hash is readable and differs from the recorded one. */
  predicate Modified(r: Registry, fs: FileSystem, p: Path)
    requires p in r
  {
    HashOf(fs, p) != "" && HashOf(fs, p) != r[p].hash
  }

  /** The entry `_add_file_to_kb` records when the add succeeds. */
  function AddedEntry(fs: FileSystem, kb: KbOracle, p: Path): Entry
    requires p in kb.added
  {
    Entry(HashOf(fs, p), kb.added[p])
  }

  /**
    What one cycle of the watch loop leaves for path p, given the registry
    r before the cycle:
    - a scanned, untracked file is added; it is tracked afterwards exactly
      when the add succeeds;
    - a tracked file that is gone is removed; it stays tracked when the
      delete fails;
    - a tracked file whose hash changed is re-ingested: the old document is
      deleted, then the file is added again. A successful add replaces the
      entry whatever the delete did; a failed add leaves the entry only when
      the delete failed too;
    - any other tracked file keeps its entry.
  */
  function CycleAt(r: Registry, current: set<Path>, fs: FileSystem, kb: KbOracle, p: Path): Option<Entry>
  {
    if p !in r then
      if p in current && p in kb.added then Some(AddedEntry(fs, kb, p)) else None
    else if p !in current then
      if r[p].documentId in kb.deletable then None else Some(r[p])
    else if Modified(r, fs, p) then
      if p in kb.added then Some(AddedEntry(fs, kb, p))
      else if r[p].documentId in kb.deletable then None
      else Some(r[p])
    else Some(r[p])
  }

  /** The registry after one cycle whose scan found the files `current`. */
  function Cycle(r: Registry, current: set<Path>, fs: FileSystem, kb: KbOracle): Registry
  {
    map p | p in r.Keys + current && CycleAt(r, current, fs, kb, p).Some? :: CycleAt(r, current, fs, kb, p).value
  }

  lemma CycleLookup(r: Registry, current: set<Path>, fs: FileSystem, kb: KbOracle, p: Path)
    ensures Lookup(Cycle(r, current, fs, kb), p) == CycleAt(r, current, fs, kb, p)
  {
  }

  lemma LookupExtensional(r1: Registry, r2: Registry)
    requires forall p :: Lookup(r1, p) == Lookup(r2, p)
    ensures r1 == r2
  {
    assert forall p :: p in r1 <==> Lookup(r1, p).Some?;
  }

  /**
    What `_initial_scan` over the files `files` leaves for path p: a file
    whose add succeeds gets a fresh entry, tracked or not; every other
    entry stays.
  */
  function RescanAt(r: Registry, files: set<Path>, fs: FileSystem, kb: KbOracle, p: Path): Option<Entry>
  {
    if p in files && p in kb.added then Some(AddedEntry(fs, kb, p)) else Lookup(r, p)
  }

  /** The registry after `_initial_scan` over the files `files`. */
  function Rescanned(r: Registry, files: set<Path>, fs: FileSystem, kb: KbOracle): Registry
  {
    map p | p in r.Keys + (files * kb.added.Keys) :: RescanAt(r, files, fs, kb, p).value
  }

  lemma RescannedLookup(r: Registry, files: set<Path>, fs: FileSystem, kb: KbOracle, p: Path)
    ensures Lookup(Rescanned(r, files, fs, kb), p) == RescanAt(r, files, fs, kb, p)
  {
  }

  /** The registry after the removals of `force_rescan`: the entries whose delete failed. */
  function Purged(r: Registry, kb: KbOracle): Registry
  {
    map p | p in r && r[p].documentId !in kb.deletable :: r[p]
  }

  // ---------------------------------------------------------------------
  // What the scan picks up

  /** Lower-casing a string gives ".txt" exactly when it is '.' followed by "txt" in any case. */
  lemma LowerIsTxt(s: string)
    ensures Lower(s) == ".txt" <==>
      |s| == 4 && s[0] == '.' && LowerChar(s[1]) == 't' && LowerChar(s[2]) == 'x' && LowerChar(s[3]) == 't'
  {
    if |s| == 4 {
      var l := Lower(s);
      assert l == [l[0], l[1], l[2], l[3]];
    }
  }

  /** The name is longer than ".txt" and ends in ".txt", in any case. */
  predicate EndsInTxt(name: string)
  {
    |name| >= 5 && Lower(name[|name| - 4..]) == ".txt"
  }

  /** A name's suffix is ".txt" in any case exactly when the name is longer than ".txt" and ends in it. */
  lemma SuffixIsTxt(name: string)
    ensures Lower(Suffix(name)) == ".txt" <==> EndsInTxt(name)
  {
    var i := RFind(name, '.', 0, |name|);
    LowerIsTxt(Suffix(name));
    if |name| >= 4 {
      LowerIsTxt(name[|name| - 4..]);
    }
    if EndsInTxt(name) {
      assert name[|name| - 4] == '.';
      assert i == |name| - 4;
    }
  }

  /**
    A file is scanned exactly when its name is longer than ".txt" and ends
    in ".txt" in any case: a hidden file named ".txt" has no suffix.
  */
  lemma SupportedIffTxtSuffix(p: Path)
    ensures IsSupportedFile(p) <==> EndsInTxt(BaseName(p))
  {
    var name := BaseName(p);
    SuffixIsTxt(name);
    assert SupportedExtensions == [".txt"];
  }

  /** The scan picks up exactly the files of the folder whose name is longer than ".txt" and ends in it, in any case. */
  lemma ScanIsTxtFiles(fs: FileSystem)
    ensures forall p :: p in Scan(fs) <==> p in fs && EndsInTxt(BaseName(p))
  {
    forall p ensures IsSupportedFile(p) <==> EndsInTxt(BaseName(p)) {
      SupportedIffTxtSuffix(p);
    }
  }

  /** A name whose lower-cased form extraction accepts ends in ".txt" in any case. */
  lemma TxtNameEndsInTxt(name: string)
    requires Document.TxtName(Lower(name))
    ensures EndsInTxt(name)
  {
    var l := Lower(name);
    var k :| 0 <= k < |l| - 4 && l[k] != '.';
    assert l[|l| - 4..] == Lower(name[|name| - 4..]);
  }

  /** Every file that extraction accepts is one the scan picks up. */
  lemma ExtractableIsSupported(p: Path)
    requires Document.NamedTxt(p)
    ensures IsSupportedFile(p)
  {
    var name := BaseName(p);
    LowerBaseName(p);
    TxtNameEndsInTxt(name);
    SupportedIffTxtSuffix(p);
  }

  /** A file named "..txt", in any case and in any folder, has the suffix ".txt", so the scan picks it up. */
  lemma DotDotTxtIsScanned(p: Path)
    requires Lower(BaseName(p)) == "..txt"
    ensures IsSupportedFile(p)
  {
    var name := BaseName(p);
    assert Lower(name[1..]) == Lower(name)[1..];
    SupportedIffTxtSuffix(p);
  }

  /**
    The converse of `ExtractableIsSupported` fails: a file named "..txt" is
    scanned, but it has no extension for `os.path.splitext`, so extraction
    refuses it and every add of that file fails.
  */
  lemma DotDotTxtIsNotExtracted(p: Path, contents: Option<string>)
    requires Lower(BaseName(p)) == "..txt"
    ensures Document.ExtractText(p, contents).Err?
  {
    LowerBaseName(p);
    var name := BaseName(Lower(p));
    assert !Document.HasNonDotBefore(name, 1);
    Document.ExtractAcceptsOnlyTxt(p, contents);
  }

  // ---------------------------------------------------------------------
  // What a cycle does

  /**
    The three actions of a cycle: a scanned, untracked file whose add
    succeeds becomes tracked; a vanished file whose delete succeeds is
    dropped; a scanned, tracked file whose hash is unchanged or unreadable
    keeps its entry. A path the cycle starts to track is always a scanned
    file whose add succeeded.
  */
  lemma CycleActions(r: Registry, current: set<Path>, fs: FileSystem, kb: KbOracle)
    ensures forall p :: p in current && p !in r && p in kb.added ==> Lookup(Cycle(r, current, fs, kb), p) == Some(AddedEntry(fs, kb, p))
    ensures forall p :: p !in current && p in r && r[p].documentId in kb.deletable ==> p !in Cycle(r, current, fs, kb)
    ensures forall p :: p in current && p in r && !Modified(r, fs, p) ==> Lookup(Cycle(r, current, fs, kb), p) == Some(r[p])
    ensures forall p :: p in Cycle(r, current, fs, kb) && p !in r ==> p in current && p in kb.added
  {
    forall p ensures Lookup(Cycle(r, current, fs, kb), p) == CycleAt(r, current, fs, kb, p) {
      CycleLookup(r, current, fs, kb, p);
    }
  }

  /**
    A scanned file whose add fails stays untracked, so the next cycle sees
    it as new and tries again; it is tracked then exactly when that add
    succeeds.
  */
  lemma FailedAddIsRetried(r: Registry, current: set<Path>, fs: FileSystem, kb: KbOracle, kb': KbOracle, p: Path)
    requires p in current && p !in r && p !in kb.added
    ensures p !in Cycle(r, current, fs, kb)
    ensures Lookup(Cycle(Cycle(r, current, fs, kb), current, fs, kb'), p) ==
      if p in kb'.added then Some(AddedEntry(fs, kb', p)) else None
  {
    CycleLookup(r, current, fs, kb, p);
    CycleLookup(Cycle(r, current, fs, kb), current, fs, kb', p);
  }

  /** A vanished file whose delete fails keeps its entry. */
  lemma FailedDeleteKeepsEntry(r: Registry, current: set<Path>, fs: FileSystem, kb: KbOracle, p: Path)
    requires p in r && p !in current && r[p].documentId !in kb.deletable
    ensures Lookup(Cycle(r, current, fs, kb), p) == Some(r[p])
  {
    CycleLookup(r, current, fs, kb, p);
  }

  /** A tracked file that cannot be read is left alone, whatever the knowledge base would do. */
  lemma UnreadableFileIsSkipped(r: Registry, current: set<Path>, fs: FileSystem, kb: KbOracle, p: Path)
    requires p in r && p in current && HashOf(fs, p) == ""
    ensures Lookup(Cycle(r, current, fs, kb), p) == Some(r[p])
  {
    CycleLookup(r, current, fs, kb, p);
  }

  /** No entry of the registry refers to the document `id`. */
  ghost predicate Unreferenced(r: Registry, id: DocId)
  {
    forall q :: q in r ==> r[q].documentId != id
  }

  /**
    When the delete of a modified file's old document fails but the re-add
    succeeds, the entry takes the new document, and (document ids being
    unique) nothing refers to the old one any more. A delete that answers
    false finds no such document; a delete that raises, which
    `_remove_file_from_kb` absorbs, leaves it stored as an orphan.
  */
  lemma FailedDeleteOrphansOldDocument(r: Registry, current: set<Path>, fs: FileSystem, kb: KbOracle, p: Path)
    requires p in r && p in current && Modified(r, fs, p)
    requires p in kb.added && r[p].documentId !in kb.deletable
    requires forall q :: q in r && q != p ==> r[q].documentId != r[p].documentId
    requires forall q :: q in kb.added ==> kb.added[q] != r[p].documentId
    ensures Lookup(Cycle(r, current, fs, kb), p) == Some(AddedEntry(fs, kb, p))
    ensures Unreferenced(Cycle(r, current, fs, kb), r[p].documentId)
  {
    var r' := Cycle(r, current, fs, kb);
    forall q | q in r' ensures r'[q].documentId != r[p].documentId {
      CycleLookup(r, current, fs, kb, q);
    }
    CycleLookup(r, current, fs, kb, p);
  }

  /** Every add of a scanned file succeeds and every delete of a vanished file's document succeeds. */
  predicate AllCallsSucceed(r: Registry, current: set<Path>, kb: KbOracle)
  {
    && (forall p :: p in current ==> p in kb.added)
    && (forall p :: p in r && p !in current ==> r[p].documentId in kb.deletable)
  }

  /**
    When every call succeeds and the folder holds still, one cycle tracks
    exactly the scanned files, each with its current hash unless that hash
    is unreadable.
  */
  lemma CycleConverges(r: Registry, current: set<Path>, fs: FileSystem, kb: KbOracle)
    requires AllCallsSucceed(r, current, kb)
    ensures Cycle(r, current, fs, kb).Keys == current
    ensures forall p :: p in current && HashOf(fs, p) != "" ==> Cycle(r, current, fs, kb)[p].hash == HashOf(fs, p)
  {
    forall p ensures Lookup(Cycle(r, current, fs, kb), p) == CycleAt(r, current, fs, kb, p) {
      CycleLookup(r, current, fs, kb, p);
    }
  }

  /**
    After such a cycle the registry is a fixed point: the next cycle over
    the same folder changes nothing, whatever the knowledge base answers.
  */
  lemma ConvergedCycleIsStable(r: Registry, current: set<Path>, fs: FileSystem, kb: KbOracle, kb': KbOracle)
    requires AllCallsSucceed(r, current, kb)
    ensures Cycle(Cycle(r, current, fs, kb), current, fs, kb') == Cycle(r, current, fs, kb)
  {
    var r1 := Cycle(r, current, fs, kb);
    CycleConverges(r, current, fs, kb);
    forall p ensures Lookup(Cycle(r1, current, fs, kb'), p) == Lookup(r1, p) {
      CycleLookup(r1, current, fs, kb', p);
      CycleLookup(r, current, fs, kb, p);
    }
    LookupExtensional(Cycle(r1, current, fs, kb'), r1);
  }

  // ---------------------------------------------------------------------
  // What a rescan does

  /**
    `force_rescan` with every call succeeding: every old document is
    deleted and every scanned file is added afresh, so the registry holds
    exactly the scanned files with their new documents.
  */
  lemma RescanConverges(r: Registry, files: set<Path>, fs: FileSystem, kb: KbOracle)
    requires forall p :: p in r ==> r[p].documentId in kb.deletable
    requires forall p :: p in files ==> p in kb.added
    ensures Rescanned(Purged(r, kb), files, fs, kb) == map p | p in files :: AddedEntry(fs, kb, p)
  {
    var r1 := Rescanned(Purged(r, kb), files, fs, kb);
    var r2 := map p | p in files :: AddedEntry(fs, kb, p);
    forall p ensures Lookup(r1, p) == Lookup(r2, p) {
      RescannedLookup(Purged(r, kb), files, fs, kb, p);
    }
    LookupExtensional(r1, r2);
  }

  /**
    `_initial_scan` adds every scanned file without looking at the dicts,
    so starting again after a stop re-adds tracked files without deleting
    their documents: with unique document ids, the old document of a
    re-added file is no longer referenced, yet still stored.
  */
  lemma RestartOrphansTrackedDocuments(r: Registry, files: set<Path>, fs: FileSystem, kb: KbOracle, p: Path)
    requires p in r && p in files && p in kb.added
    requires forall q :: q in r && q != p ==> r[q].documentId != r[p].documentId
    requires forall q :: q in kb.added ==> kb.added[q] != r[p].documentId
    ensures Unreferenced(Rescanned(r, files, fs, kb), r[p].documentId)
  {
    var r' := Rescanned(r, files, fs, kb);
    forall q | q in r' ensures r'[q].documentId != r[p].documentId {
      RescannedLookup(r, files, fs, kb, q);
    }
  }

  // ---------------------------------------------------------------------
  // Status

  datatype FileStatus = FileStatus(path: Path, name: string, documentId: Option<DocId>)

  datatype Status = Status(
    isRunning: bool,
    watchFolder: string,
    trackedFiles: nat,
    supportedExtensions: seq<string>,
    files: seq<FileStatus>)

  /** Some entry of `files` is about path p. */
  ghost predicate Lists(files: seq<FileStatus>, p: Path)
  {
    exists k :: 0 <= k < |files| && files[k].path == p
  }

  /** The status entry of a tracked path: its path, its file name and its document id. */
  function Described(mapping: map<Path, DocId>, p: Path): FileStatus
    requires p in mapping
  {
    FileStatus(p, BaseName(p), Some(mapping[p]))
  }

  /** Entries listing each key of a set exactly once are as many as the keys. */
  lemma ListedCount(files: seq<FileStatus>, keys: set<Path>)
    requires forall k :: 0 <= k < |files| ==> files[k].path in keys
    requires forall p :: p in keys ==> Lists(files, p)
    requires forall j, k :: 0 <= j < k < |files| ==> files[j].path != files[k].path
    ensures |files| == |keys|
  {
    var paths := seq(|files|, k requires 0 <= k < |files| => files[k].path);
    forall x ensures x in paths <==> x in keys {
      if x in keys {
        var k :| 0 <= k < |files| && files[k].path == x;
        assert paths[k] == x;
      }
    }
    DistinctCard(paths, keys);
  }

  /** `files` describes the keys `seen` of the mapping, each exactly once. */
  ghost predicate DescribesExactly(mapping: map<Path, DocId>, files: seq<FileStatus>, seen: set<Path>)
  {
    && (forall k :: 0 <= k < |files| ==> files[k].path in seen && files[k].path in mapping && files[k] == Described(mapping, files[k].path))
    && (forall p :: p in seen ==> Lists(files, p))
    && (forall j, k :: 0 <= j < k < |files| ==> files[j].path != files[k].path)
  }

  /** Describing one more key keeps the description exact. */
  lemma DescribeOneMore(mapping: map<Path, DocId>, files: seq<FileStatus>, seen: set<Path>, p: Path)
    requires DescribesExactly(mapping, files, seen) && p in mapping && p !in seen
    ensures DescribesExactly(mapping, files + [Described(mapping, p)], seen + {p})
  {
    DescribedEntries(mapping, files, seen, p);
    ListsOneMore(files, seen, Described(mapping, p));
    NewPathKeepsDistinct(files, seen, Described(mapping, p));
  }

  /** Every entry, old or new, is the description of a key seen so far. */
  lemma DescribedEntries(mapping: map<Path, DocId>, files: seq<FileStatus>, seen: set<Path>, p: Path)
    requires forall k :: 0 <= k < |files| ==> files[k].path in seen && files[k].path in mapping && files[k] == Described(mapping, files[k].path)
    requires p in mapping
    ensures var files' := files + [Described(mapping, p)];
      forall k :: 0 <= k < |files'| ==> files'[k].path in seen + {p} && files'[k].path in mapping && files'[k] == Described(mapping, files'[k].path)
  {
    var e := Described(mapping, p);
    var files' := files + [e];
    assert e.path == p;
    assert forall k :: 0 <= k < |files| ==> files'[k] == files[k];
    assert files'[|files|] == e;
  }

  /** After appending an entry, every key listed before and the entry's own path are listed. */
  lemma ListsOneMore(files: seq<FileStatus>, seen: set<Path>, e: FileStatus)
    requires forall q :: q in seen ==> Lists(files, q)
    ensures forall q :: q in seen + {e.path} ==> Lists(files + [e], q)
  {
    var files' := files + [e];
    assert files'[|files|].path == e.path;
    forall q | q in seen ensures Lists(files', q) {
      var k :| 0 <= k < |files| && files[k].path == q;
      assert files'[k] == files[k];
    }
  }

  /** Appending an entry whose path was not yet described keeps the paths distinct. */
  lemma NewPathKeepsDistinct(files: seq<FileStatus>, seen: set<Path>, e: FileStatus)
    requires forall k :: 0 <= k < |files| ==> files[k].path in seen
    requires forall j, k :: 0 <= j < k < |files| ==> files[j].path != files[k].path
    requires e.path !in seen
    ensures forall j, k :: 0 <= j < k < |files + [e]| ==> (files + [e])[j].path != (files + [e])[k].path
  {
    var files' := files + [e];
    forall j, k | 0 <= j < k < |files'| ensures files'[j].path != files'[k].path {
      assert files'[j] == files[j];
      if k < |files| {
        assert files'[k] == files[k];
      }
    }
  }

  /** Each described entry carries its path's name and document id. */
  lemma DescribedFields(mapping: map<Path, DocId>, files: seq<FileStatus>)
    requires forall k :: 0 <= k < |files| ==> files[k].path in mapping && files[k] == Described(mapping, files[k].path)
    ensures forall k :: 0 <= k < |files| ==>
      && files[k].path in mapping
      && files[k].name == BaseName(files[k].path)
      && files[k].documentId == Some(mapping[files[k].path])
  {
  }

  /** The loop of `get_status`: one entry per key of the mapping, each key once. */
  method DescribeAll(mapping: map<Path, DocId>) returns (files: seq<FileStatus>)
    ensures forall k :: 0 <= k < |files| ==> files[k].path in mapping && files[k] == Described(mapping, files[k].path)
    ensures forall p :: p in mapping ==> Lists(files, p)
    ensures forall j, k :: 0 <= j < k < |files| ==> files[j].path != files[k].path
  {
    files := [];
    var rest := mapping.Keys;
    ghost var seen: set<Path> := {};
    while rest != {}
      invariant rest + seen == mapping.Keys && rest !! seen
      invariant DescribesExactly(mapping, files, seen)
      decreases rest
    {
      var p :| p in rest;
      DescribeOneMore(mapping, files, seen, p);
      files := files + [Described(mapping, p)];
      rest := rest - {p};
      seen := seen + {p};
    }
    assert seen == mapping.Keys;
  }

  // ---------------------------------------------------------------------
  // The watcher

  class FolderWatcher {
    const watchFolder: string
    var fileHashes: map<Path, Hash>
    var documentMapping: map<Path, DocId>
    var isRunning: bool

    /** Both dicts always have the same keys. */
    ghost predicate Valid()
      reads this
    {
      fileHashes.Keys == documentMapping.Keys
    }

    /** The two dicts as one registry. */
    ghost function Tracked(): Registry
      reads this
      requires Valid()
    {
      map p | p in fileHashes :: Entry(fileHashes[p], documentMapping[p])
    }

    /**
      `__init__` followed, when `autoStart` holds, by `start_watching`; the
      folder and the knowledge base are those of the initial scan.
    */
    constructor (folder: string, autoStart: bool, fs: FileSystem, kb: KbOracle)
      ensures Valid() && watchFolder == folder
      ensures isRunning == autoStart
      ensures Tracked() == if autoStart then Rescanned(map[], Scan(fs), fs, kb) else map[]
    {
      watchFolder := folder;
      fileHashes := map[];
      documentMapping := map[];
      isRunning := false;
      new;
      assert Tracked() == map[];
      if autoStart {
        StartWatching(fs, kb);
      }
    }

    /**
      `_add_file_to_kb`: on success both dicts record the path, with the
      new document id and the file's current hash; a failed add changes
      nothing.
    */
    method AddFileToKb(p: Path, fs: FileSystem, kb: KbOracle) returns (ok: bool)
      requires Valid()
      modifies this
      ensures Valid() && isRunning == old(isRunning)
      ensures forall q :: q != p ==> At(q) == old(At(q))
      ensures ok == (p in kb.added)
      ensures ok ==> documentMapping == old(documentMapping)[p := kb.added[p]]
      ensures ok ==> fileHashes == old(fileHashes)[p := HashOf(fs, p)]
      ensures !ok ==> fileHashes == old(fileHashes) && documentMapping == old(documentMapping)
    {
      if p !in kb.added {
        return false;
      }
      documentMapping := documentMapping[p := kb.added[p]];
      fileHashes := fileHashes[p := HashOf(fs, p)];
      ok := true;
    }

    /**
      `_remove_file_from_kb`: an untracked path, or a tracked one whose
      delete fails, changes nothing and answers false; otherwise both
      entries go.
    */
    method RemoveFileFromKb(p: Path, kb: KbOracle) returns (ok: bool)
      requires Valid()
      modifies this
      ensures Valid() && isRunning == old(isRunning)
      ensures forall q :: q != p ==> At(q) == old(At(q))
      ensures ok == (p in old(documentMapping) && old(documentMapping)[p] in kb.deletable)
      ensures ok ==> documentMapping == old(documentMapping) - {p} && fileHashes == old(fileHashes) - {p}
      ensures !ok ==> fileHashes == old(fileHashes) && documentMapping == old(documentMapping)
    {
      if p in documentMapping {
        var docId := documentMapping[p];
        if docId in kb.deletable {
          documentMapping := documentMapping - {p};
          fileHashes := fileHashes - {p};
          return true;
        }
      }
      return false;
    }

    /**
      `_update_file_in_kb`: delete the old document of a tracked path, then
      add the file again. The answer is the add's; the add runs and
      replaces the entry even when the delete failed.
    */
    method UpdateFileInKb(p: Path, fs: FileSystem, kb: KbOracle) returns (ok: bool)
      requires Valid()
      modifies this
      ensures Valid() && isRunning == old(isRunning)
      ensures forall q :: q != p ==> At(q) == old(At(q))
      ensures ok == (p in kb.added)
      ensures ok ==> documentMapping == old(documentMapping)[p := kb.added[p]]
      ensures ok ==> fileHashes == old(fileHashes)[p := HashOf(fs, p)]
      ensures !ok && p in old(documentMapping) && old(documentMapping)[p] in kb.deletable ==>
        documentMapping == old(documentMapping) - {p} && fileHashes == old(fileHashes) - {p}
      ensures !ok && !(p in old(documentMapping) && old(documentMapping)[p] in kb.deletable) ==>
        documentMapping == old(documentMapping) && fileHashes == old(fileHashes)
    {
      if p in documentMapping {
        var _ := RemoveFileFromKb(p, kb);
      }
      ok := AddFileToKb(p, fs, kb);
    }

    /** What the two dicts hold for one path. */
    ghost function At(p: Path): Option<Entry>
      reads this
      requires Valid()
    {
      if p in fileHashes then Some(Entry(fileHashes[p], documentMapping[p])) else None
    }

    /** The loops of the cycle have handled exactly the paths in `done`. */
    ghost predicate HandledSoFar(r0: Registry, current: set<Path>, fs: FileSystem, kb: KbOracle, done: set<Path>)
      reads this
      requires Valid()
    {
      forall p :: At(p) == if p in done then CycleAt(r0, current, fs, kb, p) else Lookup(r0, p)
    }

    /** The first loop of the cycle: add every scanned file that is not tracked. */
    method AddNewFiles(newFiles: set<Path>, ghost current: set<Path>, fs: FileSystem, kb: KbOracle, ghost r0: Registry, ghost done: set<Path>)
      requires Valid() && HandledSoFar(r0, current, fs, kb, done)
      requires forall p :: p in newFiles ==> p in current && p !in r0 && p !in done
      modifies this
      ensures Valid() && isRunning == old(isRunning)
      ensures HandledSoFar(r0, current, fs, kb, done + newFiles)
    {
      var rest := newFiles;
      ghost var handled := done;
      while rest != {}
        invariant Valid() && isRunning == old(isRunning)
        invariant rest <= newFiles
        invariant forall p :: p in handled <==> p in done || (p in newFiles && p !in rest)
        invariant HandledSoFar(r0, current, fs, kb, handled)
        decreases rest
      {
        var p :| p in rest;
        assert At(p) == None;
        label before:
        var _ := AddFileToKb(p, fs, kb);
        assert HandledSoFar(r0, current, fs, kb, handled + {p}) by {
          forall q ensures At(q) == if q in handled + {p} then CycleAt(r0, current, fs, kb, q) else Lookup(r0, q) {
            if q != p {
              assert At(q) == old@before(At(q));
            }
          }
        }
        rest := rest - {p};
        handled := handled + {p};
      }
      assert handled == done + newFiles;
    }

    /** The second loop of the cycle: remove every tracked file that is gone. */
    method RemoveVanishedFiles(deletedFiles: set<Path>, ghost current: set<Path>, fs: FileSystem, kb: KbOracle, ghost r0: Registry, ghost done: set<Path>)
      requires Valid() && HandledSoFar(r0, current, fs, kb, done)
      requires forall p :: p in deletedFiles ==> p !in current && p in r0 && p !in done
      modifies this
      ensures Valid() && isRunning == old(isRunning)
      ensures HandledSoFar(r0, current, fs, kb, done + deletedFiles)
    {
      var rest := deletedFiles;
      ghost var handled := done;
      while rest != {}
        invariant Valid() && isRunning == old(isRunning)
        invariant rest <= deletedFiles
        invariant forall p :: p in handled <==> p in done || (p in deletedFiles && p !in rest)
        invariant HandledSoFar(r0, current, fs, kb, handled)
        decreases rest
      {
        var p :| p in rest;
        assert At(p) == Lookup(r0, p);
        label before:
        var _ := RemoveFileFromKb(p, kb);
        assert HandledSoFar(r0, current, fs, kb, handled + {p}) by {
          forall q ensures At(q) == if q in handled + {p} then CycleAt(r0, current, fs, kb, q) else Lookup(r0, q) {
            if q != p {
              assert At(q) == old@before(At(q));
            }
          }
        }
        rest := rest - {p};
        handled := handled + {p};
      }
      assert handled == done + deletedFiles;
    }

    /** The third loop of the cycle: re-ingest every tracked, scanned file whose hash changed. */
    method UpdateModifiedFiles(common: set<Path>, ghost current: set<Path>, fs: FileSystem, kb: KbOracle, ghost r0: Registry, ghost done: set<Path>)
      requires Valid() && HandledSoFar(r0, current, fs, kb, done)
      requires forall p :: p in common ==> p in current && p in r0 && p !in done
      modifies this
      ensures Valid() && isRunning == old(isRunning)
      ensures HandledSoFar(r0, current, fs, kb, done + common)
    {
      var rest := common;
      ghost var handled := done;
      while rest != {}
        invariant Valid() && isRunning == old(isRunning)
        invariant rest <= common
        invariant forall p :: p in handled <==> p in done || (p in common && p !in rest)
        invariant HandledSoFar(r0, current, fs, kb, handled)
        decreases rest
      {
        var p :| p in rest;
        assert At(p) == Lookup(r0, p);
        var currentHash := HashOf(fs, p);
        label before:
        if currentHash != "" && currentHash != fileHashes[p] {
          var _ := UpdateFileInKb(p, fs, kb);
        }
        assert HandledSoFar(r0, current, fs, kb, handled + {p}) by {
          forall q ensures At(q) == if q in handled + {p} then CycleAt(r0, current, fs, kb, q) else Lookup(r0, q) {
            if q != p {
              assert At(q) == old@before(At(q));
            }
          }
        }
        rest := rest - {p};
        handled := handled + {p};
      }
      assert handled == done + common;
    }

    /**
      One iteration of `_watch_loop`: add the new files, remove the vanished
      ones, re-ingest the modified ones. The registry afterwards is `Cycle`
      of the registry before.
    */
    method Step(fs: FileSystem, kb: KbOracle)
      requires Valid()
      modifies this
      ensures Valid() && isRunning == old(isRunning)
      ensures Tracked() == Cycle(old(Tracked()), Scan(fs), fs, kb)
    {
      ghost var r0 := Tracked();
      var current := Scan(fs);
      var known := fileHashes.Keys;
      assert known == r0.Keys;
      assert forall p :: At(p) == Lookup(r0, p);
      AddNewFiles(current - known, current, fs, kb, r0, {});
      RemoveVanishedFiles(known - current, current, fs, kb, r0, current - known);
      UpdateModifiedFiles(current * known, current, fs, kb, r0, (current - known) + (known - current));
      forall p ensures Lookup(Tracked(), p) == Lookup(Cycle(r0, current, fs, kb), p) {
        assert At(p) == Lookup(Tracked(), p);
        CycleLookup(r0, current, fs, kb, p);
      }
      LookupExtensional(Tracked(), Cycle(r0, current, fs, kb));
    }

    /** The loop of `_initial_scan` has tried exactly the files in `done`. */
    ghost predicate RescannedSoFar(r0: Registry, files: set<Path>, fs: FileSystem, kb: KbOracle, done: set<Path>)
      reads this
      requires Valid()
    {
      forall p :: At(p) == if p in done then RescanAt(r0, files, fs, kb, p) else Lookup(r0, p)
    }

    /** The loop of `_initial_scan`: try to add each of `files`, counting the successes. */
    method AddAllFiles(files: set<Path>, fs: FileSystem, kb: KbOracle, ghost r0: Registry) returns (successCount: nat)
      requires Valid() && forall p :: At(p) == Lookup(r0, p)
      modifies this
      ensures Valid() && isRunning == old(isRunning)
      ensures successCount == |files * kb.added.Keys|
      ensures forall p :: At(p) == RescanAt(r0, files, fs, kb, p)
    {
      assert RescannedSoFar(r0, files, fs, kb, {});
      successCount := 0;
      var rest := files;
      ghost var done: set<Path> := {};
      ghost var hits: set<Path> := {};
      while rest != {}
        invariant Valid() && isRunning == old(isRunning)
        invariant rest <= files
        invariant forall p :: p in done <==> p in files && p !in rest
        invariant successCount == |hits|
        invariant forall p :: p in hits <==> p in done && p in kb.added
        invariant RescannedSoFar(r0, files, fs, kb, done)
        decreases rest
      {
        var p :| p in rest;
        label before:
        var ok := AddFileToKb(p, fs, kb);
        if ok {
          successCount := successCount + 1;
          hits := hits + {p};
        }
        assert RescannedSoFar(r0, files, fs, kb, done + {p}) by {
          forall q ensures At(q) == if q in done + {p} then RescanAt(r0, files, fs, kb, q) else Lookup(r0, q) {
            if q != p {
              assert At(q) == old@before(At(q));
            }
          }
        }
        rest := rest - {p};
        done := done + {p};
      }
      assert done == files;
      assert hits == files * kb.added.Keys;
      assert RescannedSoFar(r0, files, fs, kb, files);
    }

    /**
      `_initial_scan`: try to add every scanned file, tracked or not, and
      count the successes, which never exceed the number of files.
    */
    method InitialScan(fs: FileSystem, kb: KbOracle) returns (successCount: nat, total: nat)
      requires Valid()
      modifies this
      ensures Valid() && isRunning == old(isRunning)
      ensures total == |Scan(fs)|
      ensures successCount == |Scan(fs) * kb.added.Keys|
      ensures successCount <= total
      ensures Tracked() == Rescanned(old(Tracked()), Scan(fs), fs, kb)
    {
      ghost var r0 := Tracked();
      var files := Scan(fs);
      total := |files|;
      successCount := 0;
      assert forall p :: At(p) == Lookup(r0, p);
      if files != {} {
        successCount := AddAllFiles(files, fs, kb, r0);
      }
      SubsetCard(files * kb.added.Keys, files);
      forall p ensures Lookup(Tracked(), p) == Lookup(Rescanned(r0, files, fs, kb), p) {
        assert At(p) == Lookup(Tracked(), p);
        RescannedLookup(r0, files, fs, kb, p);
      }
      LookupExtensional(Tracked(), Rescanned(r0, files, fs, kb));
    }

    /** `start_watching`: nothing when running; otherwise the initial scan, then running. */
    method StartWatching(fs: FileSystem, kb: KbOracle)
      requires Valid()
      modifies this
      ensures Valid() && isRunning
      ensures old(isRunning) ==> Tracked() == old(Tracked())
      ensures !old(isRunning) ==> Tracked() == Rescanned(old(Tracked()), Scan(fs), fs, kb)
    {
      if isRunning {
        return;
      }
      var _, _ := InitialScan(fs, kb);
      isRunning := true;
    }

    /** `stop_watching`: clears the running flag; the dicts are kept. */
    method StopWatching()
      requires Valid()
      modifies this
      ensures Valid() && !isRunning
      ensures fileHashes == old(fileHashes) && documentMapping == old(documentMapping)
    {
      if !isRunning {
        return;
      }
      isRunning := false;
    }

    /** The loop of `force_rescan`: try to remove each of the files tracked before it. */
    method RemoveAllFiles(oldFiles: set<Path>, kb: KbOracle, ghost r0: Registry)
      requires Valid() && oldFiles == r0.Keys && forall p :: At(p) == Lookup(r0, p)
      modifies this
      ensures Valid() && isRunning == old(isRunning)
      ensures forall p :: At(p) == Lookup(Purged(r0, kb), p)
    {
      var rest := oldFiles;
      while rest != {}
        invariant Valid() && isRunning == old(isRunning)
        invariant rest <= oldFiles
        invariant forall p :: At(p) == if p in rest then Lookup(r0, p) else Lookup(Purged(r0, kb), p)
        decreases rest
      {
        var p :| p in rest;
        label before:
        var _ := RemoveFileFromKb(p, kb);
        forall q ensures At(q) == if q in rest - {p} then Lookup(r0, q) else Lookup(Purged(r0, kb), q) {
          if q != p {
            assert At(q) == old@before(At(q));
          }
        }
        rest := rest - {p};
      }
    }

    /** `force_rescan`: remove every tracked file, then run the initial scan. */
    method ForceRescan(fs: FileSystem, kb: KbOracle)
      requires Valid()
      modifies this
      ensures Valid() && isRunning == old(isRunning)
      ensures Tracked() == Rescanned(Purged(old(Tracked()), kb), Scan(fs), fs, kb)
    {
      ghost var r0 := Tracked();
      assert forall p :: At(p) == Lookup(r0, p);
      var oldFiles := fileHashes.Keys;
      RemoveAllFiles(oldFiles, kb, r0);
      forall p ensures Lookup(Tracked(), p) == Lookup(Purged(r0, kb), p) {
        assert At(p) == Lookup(Tracked(), p);
      }
      LookupExtensional(Tracked(), Purged(r0, kb));
      var _, _ := InitialScan(fs, kb);
    }

    /**
      `get_status`: the running flag, the folder, the number of tracked
      files and one entry per tracked file with its name and document id.
    */
    method GetStatus() returns (s: Status)
      requires Valid()
      ensures s.isRunning == isRunning && s.watchFolder == watchFolder
      ensures s.supportedExtensions == SupportedExtensions
      ensures s.trackedFiles == |fileHashes| == |s.files|
      ensures forall k :: 0 <= k < |s.files| ==>
        && s.files[k].path in fileHashes
        && s.files[k].name == BaseName(s.files[k].path)
        && s.files[k].documentId == Some(documentMapping[s.files[k].path])
      ensures forall p :: p in fileHashes ==> Lists(s.files, p)
      ensures forall j, k :: 0 <= j < k < |s.files| ==> s.files[j].path != s.files[k].path
    {
      var files := DescribeAll(documentMapping);
      DescribedFields(documentMapping, files);
      ListedCount(files, documentMapping.Keys);
      assert |fileHashes| == |fileHashes.Keys| == |documentMapping.Keys|;
      s := Status(isRunning, watchFolder, |fileHashes|, SupportedExtensions, files);
    }
  }
}
