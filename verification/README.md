# Private knowledge base: document store and folder watcher in Dafny

This project models the logic of a small private knowledge-base service.
Text files dropped into a watched folder are split into overlapping chunks
and stored in a knowledge base. The knowledge base answers substring
searches and lists its documents. It has two parts: an in-memory store and
the bookkeeping of a vector-store mode. A folder watcher keeps the files
and the stored documents in step.

- `wrappers.dfy`, module `Wrappers`: `Option` and `Result`.
- `strings.dfy`, module `Strings`: the string primitives the Python code
  relies on. These are ASCII `str.lower`, substring `in`, `str.rfind` of one
  character, `str(n)` and `Path.name`.
- `seqs.dfy`, module `Seqs`: the list idioms the code relies on. These are
  distinct keys, deletion from an insertion-ordered dict, and the slice
  `s[:k]` with Python's meaning for a negative `k`.
- `document.dfy`, module `Document`: `DocumentProcessor`.
  - `Spans` specifies which ranges `chunk_text` cuts. It is `None` exactly
    when some cut fails to move the next window forward.
  - `ChunkText` is the loop of `chunk_text`, proved to compute `Chunk`.
  - `PyChunk` is the loop as written, over Python's slice and `rfind`
    bounds, for every input. It returns `Chunk` wherever `Spans` is
    defined; two witnesses show a text on which it never returns and one
    on which it skips text.
  - `ExtractText` is the extension dispatch of `extract_text`. The file
    read is a parameter.
- `knowledge_base.dfy`, module `KnowledgeBases`:
  - `SimpleKnowledgeBase` is a class over a map and the insertion order of
    its keys. The order is kept because search results and the document
    list follow Python's dict order.
  - The search is proved against the specification function `StoreHits`.
  - The vector-store mode keeps its collection as a sequence of chunk
    records. Three of its parts are modelled: the chunk ids and metadata of
    an add, the delete that reports whether a lookup found chunks, and the
    grouping of metadata into a document list.
  - `KnowledgeBase` chooses its mode once, in its constructor. In the
    vector mode the collection is persistent, so it starts with the records
    of earlier runs, while the folder watcher starts with empty dicts and
    adds every scanned file again.
- `folder_watcher.dfy`, module `FolderWatchers`: `FolderWatcher`, a class
  holding the two dicts `file_hashes` and `document_mapping` and the
  `is_running` flag.
  - The folder is a map from path to hash, with `""` for an unreadable
    file.
  - For one cycle, the knowledge base is an oracle, `KbOracle`. It gives
    the document id each add returns (no entry when the add raises) and the
    set of document ids whose delete succeeds. Other clients of the
    knowledge base may add or delete documents between calls, so the
    watcher cannot assume more than this.
  - `Step` is one iteration of the watch loop. It is proved to turn the
    registry into `Cycle` of the old registry. The convergence, stability
    and orphaning lemmas are stated about `Cycle`.

## Model

| member | source | states |
|---|---|---|
| `Strings.Lower` | models/knowledge_base.py:50 | `str.lower` on ASCII: the same length, each character folded |
| `Strings.Contains` | models/knowledge_base.py:54 | `q in s` holds exactly when `q` occurs in `s` at some index |
| `Strings.RFind` | models/document.py:51 | `rfind(c, lo, hi)` is -1 when no index of [lo, hi) holds `c`, otherwise the largest index that does |
| `Strings.NatToString` | models/knowledge_base.py:142 | `str(i)` is a non-empty run of decimal digits, and a single digit exactly when i < 10 |
| `Strings.NatToStringInjective` | models/knowledge_base.py:142 | distinct chunk indexes render as distinct strings |
| `Strings.BaseName` | services/folder_watcher.py:62 | `Path.name`, the last '/'-separated component; its shape is stated by `BaseNameShape`, its commuting with lower-casing by `LowerBaseName` |
| `Strings.BaseNameShape` | services/folder_watcher.py:194 | `Path(p).name` holds no '/', is a suffix of `p`, and is preceded by '/' unless it is all of `p` |
| `Strings.LowerBaseName` | models/document.py:24 | lower-casing a path and taking its last component commute |
| `Seqs.Without` | models/knowledge_base.py:70 | deleting a key from an insertion-ordered dict removes exactly that key, keeps every other key once, and with `WithoutAppend` keeps their relative order |
| `Seqs.WithoutAppend` | models/knowledge_base.py:70 | removal distributes over concatenation, so the remaining keys keep their relative order |
| `Seqs.WithoutSingleton` | models/knowledge_base.py:70 | a single key goes exactly when it is the deleted one |
| `Seqs.PyTake` | models/knowledge_base.py:65 | `results[:top_k]` is a prefix, of length `top_k` capped by the length, and for negative `top_k` all but the last `-top_k` |
| `Seqs.DistinctCard` | models/knowledge_base.py:90 | a key list without repetitions that lists a dict's keys has the dict's length |
| `Document.CutPoint` | models/document.py:50-53 | the cut lies at the last '.' of the window, or one past the window when the window has no '.' |
| `Document.SpansFrom` | models/document.py:43-56 | the ranges the loop cuts from window start `start` on, `None` when a cut does not advance the window; `SpansFromStep` and `SpansFromChained` state its shape |
| `Document.Spans` | models/document.py:36-58 | the ranges `chunk_text` cuts, one range for a text that fits one window; `ChunkingShape`, `ChunkingCovers` and `SpansFromChained` state their shape |
| `Document.Chunk` | models/document.py:36-58 | the strings of `Spans`; `ChunksAreSlices` states that chunk k is `text[lo..hi]` of range k, and `ChunkText` is proved to return it |
| `Document.CutWindows` | models/document.py:44-56 | the window loop returns the chunks of `SpansFrom(text, 0, size, overlap)`, which every successful `Spans` is |
| `Document.ChunkText` | models/document.py:36-58 | the loop returns `Chunk(text, size, overlap)` whenever every cut makes progress, so it terminates; exactly `[text]` when the text fits one window; never empty |
| `Document.SpansFromChained` | models/document.py:44-56 | from any window start, each chunk but the last is a cut; the next window starts `overlap` before its end and after its start; the last chunk is the tail or a final cut |
| `Document.ChunkingShape` | models/document.py:42-56 | the first chunk starts at 0; with overlap >= 0 the last chunk ends at the end of the text; no chunk is longer than size + 1 |
| `Document.ChunksAreSlices` | models/document.py:47-55 | chunk k is exactly `text[lo..hi]` of span k, inside the text |
| `Document.ChunkingCovers` | models/document.py:55-56 | with overlap >= 0 every character of the text lies in some chunk of at most size + 1 characters |
| `Document.GaplessCovers` | models/document.py:55-56 | ranges whose starts never pass the previous end cover everything from the first start to the last end |
| `Document.SpansDefinedWithoutOverlap` | models/document.py:56 | with overlap <= 0 every cut makes progress, so the loop always ends |
| `Document.SpansDefinedWithoutDots` | models/document.py:51-56 | on a text without '.', `Spans` is defined whenever overlap <= size, so the loop ends |
| `Document.DefaultParametersCutWithoutProgress` | models/document.py:36-56 | with the defaults 1000 and 200, "a." followed by 999 letters makes a first cut after index 1, so the next window would start at -198 and `Spans` is `None` |
| `Document.DefaultParametersRepeatWindow` | models/document.py:44-56 | with the defaults, a window whose last '.' is at offset 199 gives a next start equal to the current one, 0, so the source loop appends `text[0:200]` forever and never returns; `Spans` is `None` |
| `Document.PyBound` | models/document.py:51-55 | a Python slice or `rfind` bound lies in [0, n] and is the index itself when that is already in range |
| `Document.PyChunksFrom` | models/document.py:44-56 | the `while` loop as written, from a possibly negative start, with Python's slice and `rfind` bounds, `None` when it has not returned within `fuel` turns; `PyChunksFromAgrees`, `DefaultParametersSkipText` and `DefaultParametersNeverReturn` state what it does |
| `Document.PyCutPoint` | models/document.py:51-53 | inside the text, the split point by `rfind` (its last '.', or the window's end) is `CutPoint` |
| `Document.PyChunk` | models/document.py:36-58 | `chunk_text` as written; `PyChunkAgrees` ties it to `Chunk` |
| `Document.PyChunksFromAgrees` | models/document.py:44-56 | from a start inside the text, wherever `SpansFrom` is defined, the loop as written returns the chunks of `SpansFrom` within one turn more than there are chunks |
| `Document.PyChunkAgrees` | models/document.py:36-58 | wherever `Spans` is defined, `chunk_text` as written returns exactly `Chunk(text, size, overlap)` |
| `Document.DefaultParametersSkipText` | models/document.py:44-56 | with the defaults, on "a." followed by 999 letters `chunk_text` as written returns `["a.", "", text[603:]]`: the second window starts at -198, its `rfind` range is empty and its slice is "", so characters 2 to 602 are in no chunk |
| `Document.DefaultParametersNeverReturn` | models/document.py:44-56 | with the defaults, on a text whose first window's last '.' is at offset 199, `chunk_text` as written has not returned after any number of turns |
| `Document.SpansNonEmpty` | models/document.py:44-58 | whenever every cut makes progress there is at least one chunk |
| `Document.TxtNameHasTxtExtension` | models/document.py:24 | a file name ending in ".txt", with something other than dots before it, has the extension ".txt" |
| `Document.TxtExtensionIsTxtName` | models/document.py:24 | a file name with the extension ".txt" ends in ".txt" and has something other than dots before it |
| `Document.NameExt` | models/document.py:24 | the extension `os.path.splitext` gives a file name: from its last '.', empty when only dots precede that dot; `TxtNameHasTxtExtension` and `TxtExtensionIsTxtName` state when it is ".txt" |
| `Document.SplitExt` | models/document.py:24 | `os.path.splitext(path)[1]`, the extension of the last path component |
| `Document.ExtractText` | models/document.py:22-29 | the dispatch on the extension of the lower-cased path; `ExtractAcceptsOnlyTxt` states when it succeeds and what it returns |
| `Document.ExtractAcceptsOnlyTxt` | models/document.py:22-29 | extraction succeeds exactly for a readable file whose lower-cased name has the extension ".txt", and returns its text; every other name is refused as an unsupported type |
| `KnowledgeBases.Matches` | models/knowledge_base.py:54 | the lower-cased query occurs in the lower-cased chunk |
| `KnowledgeBases.ChunkHits` | models/knowledge_base.py:53-63 | the hits of one document in chunk order; `ChunkHitsSound`, `ChunkHitsComplete` and `ChunkHitsOrdered` state them |
| `KnowledgeBases.StoreHits` | models/knowledge_base.py:52-63 | the hits of the whole store, document after document; `HitsAreMatchingChunks`, `MatchingChunksAreHits` and `HitsInDocumentThenChunkOrder` state them |
| `KnowledgeBases.ChunkHitsSound` | models/knowledge_base.py:53-63 | every hit of one document names one of its chunks, carries that chunk's text and matches the query |
| `KnowledgeBases.ChunkHitsComplete` | models/knowledge_base.py:53-63 | every matching chunk of a document is among its hits |
| `KnowledgeBases.ChunkHitsOrdered` | models/knowledge_base.py:53 | the hits of one document come in increasing chunk index |
| `KnowledgeBases.HitsAreMatchingChunks` | models/knowledge_base.py:52-63 | every hit is a stored chunk whose lower-cased text contains the lower-cased query; its metadata names its document, the document's file name and its own index |
| `KnowledgeBases.MatchingChunksAreHits` | models/knowledge_base.py:52-63 | every matching chunk of a stored document is a hit |
| `KnowledgeBases.HitsInDocumentThenChunkOrder` | models/knowledge_base.py:52-53 | hits come in the documents' insertion order, and within one document in chunk order |
| `KnowledgeBases.Summaries` | models/knowledge_base.py:76-83 | one entry per stored document, in insertion order, each holding the file name and the chunk count |
| `KnowledgeBases.TotalChunksIsSumOfCounts` | models/knowledge_base.py:87 | the chunk total equals the sum of the chunk counts of the document list |
| `KnowledgeBases.EmptyQueryHitsEveryChunk` | models/knowledge_base.py:52-63 | the hits for the empty query are every chunk of every listed document, in document-then-chunk order (`AllHits`), and there are as many as the chunk total |
| `KnowledgeBases.EveryChunkMatchesEmpty` | models/knowledge_base.py:53-54 | the hits of a document for the empty query are its chunks, in chunk order |
| `KnowledgeBases.EmptySearchReturnsLeadingChunks` | models/knowledge_base.py:52-65 | `search("", k)` with k >= 0 returns the first k entries of `AllHits`, the listing of every chunk in document-then-chunk order, or all of them when there are fewer |
| `KnowledgeBases.AllHitsStart` | models/knowledge_base.py:52-53 | the listing of all chunks starts with chunk 0 of the first listed document |
| `KnowledgeBases.EmptySearchStartsWithFirstChunk` | models/knowledge_base.py:52-65 | for a store with a document, every document holding a chunk, and k >= 1, `search("", k)` is not empty and starts with chunk 0 of the first stored document |
| `KnowledgeBases.AddedDocumentIsFound` | models/knowledge_base.py:32-65 | after an add, a query occurring in a chunk of the new document and in no chunk of another finds it: with k >= 1 the result is not empty and every hit names the new id |
| `KnowledgeBases.SimpleKnowledgeBase.constructor` | models/knowledge_base.py:28-30 | the store starts empty; its invariant is that the key order lists each key once and every document has a chunk |
| `KnowledgeBases.SimpleKnowledgeBase.AddDocument` | models/knowledge_base.py:32-45 | a failed extraction leaves the store unchanged and reports the error; otherwise the fresh id maps to the file name and the chunks of the text, last in order, and every other entry is kept |
| `KnowledgeBases.SearchDocument` | models/knowledge_base.py:53-63 | the inner loop returns the matching chunks of one document, in chunk order, as `ChunkHits` |
| `KnowledgeBases.SimpleKnowledgeBase.Search` | models/knowledge_base.py:47-65 | the nested loops return `StoreHits` for the lower-cased query, cut with `[:top_k]`, so never more than a non-negative `top_k` |
| `KnowledgeBases.SimpleKnowledgeBase.DeleteDocument` | models/knowledge_base.py:67-72 | true exactly when the id was stored; only that entry goes and the others keep their order, so a second delete answers false |
| `KnowledgeBases.SummariesOfListing` | models/knowledge_base.py:74-83 | over a key order that lists every stored document once, the summaries number the documents, each document appears, and no id repeats |
| `KnowledgeBases.SimpleKnowledgeBase.ListDocuments` | models/knowledge_base.py:74-83 | one entry per stored document, no id twice, each with its file name and chunk count |
| `KnowledgeBases.SimpleKnowledgeBase.GetStats` | models/knowledge_base.py:85-92 | the document total is the number of documents; the chunk total is the sum of the listed chunk counts |
| `KnowledgeBases.ChunkId` | models/knowledge_base.py:142 | the id `f"{doc_id}_chunk_{i}"`; `ChunkIdInjective` states that distinct pairs get distinct ids |
| `KnowledgeBases.ChunkIdInjective` | models/knowledge_base.py:142 | two equal chunk ids have the same document id and the same index |
| `KnowledgeBases.UnderscoreSuffix` | models/knowledge_base.py:142 | splitting a string at its last '_' is unique |
| `KnowledgeBases.BuildChunkRecords` | models/knowledge_base.py:141-152 | for n chunks, id i is `"{doc_id}_chunk_{i}"`, the ids are pairwise distinct, and metadata i carries the document id, the file name, index i and count n |
| `KnowledgeBases.LookupIds` | models/knowledge_base.py:204-206 | the lookup returns exactly the ids of the records of the document, and nothing exactly when there is none |
| `KnowledgeBases.RemoveIds` | models/knowledge_base.py:210 | the records left are exactly those whose id was not removed |
| `KnowledgeBases.DeleteFromCollection` | models/knowledge_base.py:204-212 | true exactly when some record belongs to the document; afterwards none does, and every record whose id the lookup did not return is kept |
| `KnowledgeBases.GroupedDistinct` | models/knowledge_base.py:227-237 | the grouped list holds no document id twice |
| `KnowledgeBases.GroupedFirstSeen` | models/knowledge_base.py:227-237 | the grouped list holds every input document id and no other, each with the file name and chunk count of its first record |
| `KnowledgeBases.GroupedInFirstSeenOrder` | models/knowledge_base.py:227-237 | the entries are in first-seen order: every chunk of a later entry's document comes after some chunk of each earlier entry's document |
| `KnowledgeBases.Grouped` | models/knowledge_base.py:227-237 | the document list grouped from chunk metadata in first-seen order; `GroupedDistinct`, `GroupedFirstSeen` and `GroupedInFirstSeenOrder` state it |
| `KnowledgeBases.GroupByDocument` | models/knowledge_base.py:227-237 | the dict-filling loop returns the grouping `Grouped` |
| `KnowledgeBases.KnowledgeBase.constructor` | models/knowledge_base.py:97-119 | the mode is the vector store exactly when both libraries are available; the vector mode reopens the records the persistent collection already holds, and the in-memory store starts empty |
| `KnowledgeBases.KnowledgeBase.AddDocument` | models/knowledge_base.py:121-165 | succeeds exactly when extraction does, with the fresh id; in the in-memory mode the store changes exactly as `SimpleKnowledgeBase.AddDocument` says; in the vector mode the collection is extended by the chunk records of `BuildChunkRecords`; the other store is untouched |
| `KnowledgeBases.KnowledgeBase.DeleteDocument` | models/knowledge_base.py:197-212 | in the in-memory mode true exactly when the id was stored, the entry goes and the key order keeps the rest; in the vector mode `DeleteFromCollection` |
| `KnowledgeBases.KnowledgeBase.ListDocuments` | models/knowledge_base.py:217-237 | the in-memory list, or the grouping of the collection's metadata |
| `KnowledgeBases.KnowledgeBase.GetStats` | models/knowledge_base.py:242-255 | the in-memory statistics, or the record count with the grouped list and its length |
| `FolderWatchers.LowerIsTxt` | services/folder_watcher.py:46 | a string lower-cases to ".txt" exactly when it is '.' followed by "txt" in any case |
| `FolderWatchers.SuffixIsTxt` | services/folder_watcher.py:46 | a name's lower-cased suffix is ".txt" exactly when the name is longer than ".txt" and ends in it in any case |
| `FolderWatchers.Suffix` | services/folder_watcher.py:46 | `PurePath.suffix` of a file name; `SuffixIsTxt` states when it is ".txt" in any case |
| `FolderWatchers.IsSupportedFile` | services/folder_watcher.py:44-46 | `_is_supported_file`; `SupportedIffTxtSuffix` characterises it by the last path component |
| `FolderWatchers.SupportedIffTxtSuffix` | services/folder_watcher.py:44-46 | a file is supported exactly when its name is longer than ".txt" and ends in ".txt" in any case |
| `FolderWatchers.Scan` | services/folder_watcher.py:48-57 | `_scan_folder`, the supported files of the folder; `ScanIsTxtFiles` states which they are |
| `FolderWatchers.ScanIsTxtFiles` | services/folder_watcher.py:48-57 | the scan picks up exactly the folder's files whose name is longer than ".txt" and ends in it, in any case |
| `FolderWatchers.HashOf` | services/folder_watcher.py:33-42 | `_get_file_hash`: the file's hash, or "" when it cannot be read; `UnreadableFileIsSkipped` states that such a file keeps its entry |
| `FolderWatchers.TxtNameEndsInTxt` | services/folder_watcher.py:44-46 | a name that extraction accepts ends in ".txt" |
| `FolderWatchers.ExtractableIsSupported` | services/folder_watcher.py:44-46 | every file extraction accepts is picked up by the scan |
| `FolderWatchers.DotDotTxtIsScanned` | services/folder_watcher.py:44-46 | a file whose name is "..txt" in any case, in any folder, is picked up by the scan |
| `FolderWatchers.DotDotTxtIsNotExtracted` | models/document.py:24-29 | extraction refuses every file whose name is "..txt" in any case, in any folder, so every add of it fails |
| `FolderWatchers.CycleAt` | services/folder_watcher.py:104-124 | what one cycle leaves for one path; `CycleActions`, `FailedAddIsRetried`, `FailedDeleteKeepsEntry` and `UnreadableFileIsSkipped` state it case by case |
| `FolderWatchers.Cycle` | services/folder_watcher.py:104-124 | the registry after one cycle; `FolderWatcher.Step` is proved to produce it, and `CycleConverges` and `ConvergedCycleIsStable` state where it leads |
| `FolderWatchers.RescanAt` | services/folder_watcher.py:166-182 | what `_initial_scan` leaves for one path: a scanned file whose add succeeds takes the new entry, every other entry stays |
| `FolderWatchers.Rescanned` | services/folder_watcher.py:166-182 | the registry after `_initial_scan`; `FolderWatcher.InitialScan` is proved to produce it, and `RescanConverges` and `RestartOrphansTrackedDocuments` state it |
| `FolderWatchers.Purged` | services/folder_watcher.py:205-207 | the entries whose delete fails in `force_rescan`; `FolderWatcher.RemoveAllFiles` is proved to produce it |
| `FolderWatchers.CycleActions` | services/folder_watcher.py:110-124 | new files whose add succeeds become tracked; vanished files whose delete succeeds are dropped; unmodified common files keep their entry; only scanned files whose add succeeded become tracked |
| `FolderWatchers.FailedAddIsRetried` | services/folder_watcher.py:59-69 | a file whose add fails stays untracked and is tried again as new in the next cycle |
| `FolderWatchers.FailedDeleteKeepsEntry` | services/folder_watcher.py:71-85 | a vanished file whose delete fails keeps both entries |
| `FolderWatchers.UnreadableFileIsSkipped` | services/folder_watcher.py:122-124 | a tracked file with an empty hash is not updated, whatever the knowledge base would answer |
| `FolderWatchers.FailedDeleteOrphansOldDocument` | services/folder_watcher.py:87-95 | when the old delete fails and the re-add succeeds, the mapping takes the new document and nothing refers to the old one (which stays stored when the delete raised rather than answered false) |
| `FolderWatchers.CycleConverges` | services/folder_watcher.py:106-124 | when every call succeeds, the tracked paths after one cycle are exactly the scanned files, with their current readable hash |
| `FolderWatchers.ConvergedCycleIsStable` | services/folder_watcher.py:106-124 | after such a cycle the next cycle over the same folder changes nothing, whatever the knowledge base answers |
| `FolderWatchers.RescanConverges` | services/folder_watcher.py:201-211 | a forced rescan in which every call succeeds tracks exactly the scanned files, each with its new document |
| `FolderWatchers.RestartOrphansTrackedDocuments` | services/folder_watcher.py:166-182 | the initial scan re-adds tracked files without deleting their documents, so the old document of a re-added file is no longer referenced |
| `FolderWatchers.ListedCount` | services/folder_watcher.py:189-197 | a status list naming each tracked path exactly once has one entry per tracked path |
| `FolderWatchers.Described` | services/folder_watcher.py:191-198 | the status entry of one tracked path: the path, `Path(path).name` and its document id |
| `FolderWatchers.DescribeAll` | services/folder_watcher.py:191-198 | one status entry per tracked path, each path once, with its name and document id |
| `FolderWatchers.FolderWatcher.constructor` | services/folder_watcher.py:16-31 | the dicts start empty, and with auto-start the initial scan runs and the watcher is running |
| `FolderWatchers.FolderWatcher.AddFileToKb` | services/folder_watcher.py:59-69 | true exactly when the add succeeds; then both dicts record the path with the new id and the current hash; otherwise nothing changes |
| `FolderWatchers.FolderWatcher.RemoveFileFromKb` | services/folder_watcher.py:71-85 | true exactly when the path is tracked and its delete succeeds; then both entries go; otherwise nothing changes |
| `FolderWatchers.FolderWatcher.UpdateFileInKb` | services/folder_watcher.py:87-98 | the answer is the re-add's; a successful re-add overwrites both entries whatever the delete did |
| `FolderWatchers.FolderWatcher.AddNewFiles` | services/folder_watcher.py:111-113 | the first loop of a cycle leaves each new file as `CycleAt` says |
| `FolderWatchers.FolderWatcher.RemoveVanishedFiles` | services/folder_watcher.py:116-118 | the second loop leaves each vanished file as `CycleAt` says |
| `FolderWatchers.FolderWatcher.UpdateModifiedFiles` | services/folder_watcher.py:121-124 | the third loop re-ingests a common file only when its hash is readable and changed |
| `FolderWatchers.FolderWatcher.Step` | services/folder_watcher.py:104-124 | one iteration keeps both dicts on the same keys and leaves the registry `Cycle(old registry, scanned files)` |
| `FolderWatchers.FolderWatcher.AddAllFiles` | services/folder_watcher.py:177-180 | every scanned file is tried; the success count is the number of files whose add succeeded |
| `FolderWatchers.FolderWatcher.InitialScan` | services/folder_watcher.py:166-182 | the total is the number of scanned files; the success count is the number of them whose add succeeded, so never more; the registry is `Rescanned` of the old one: successful adds overwrite, every other entry stays |
| `FolderWatchers.FolderWatcher.StartWatching` | services/folder_watcher.py:132-150 | a no-op when running; otherwise the initial scan runs, then the watcher is running |
| `FolderWatchers.FolderWatcher.StopWatching` | services/folder_watcher.py:152-164 | the watcher is stopped and the dicts are kept |
| `FolderWatchers.FolderWatcher.RemoveAllFiles` | services/folder_watcher.py:205-207 | every tracked file whose delete succeeds is dropped, the rest stay with their hashes |
| `FolderWatchers.FolderWatcher.ForceRescan` | services/folder_watcher.py:201-211 | every tracked file whose delete succeeds is dropped, then the initial scan runs |
| `FolderWatchers.FolderWatcher.GetStatus` | services/folder_watcher.py:184-199 | the flag and folder, `tracked_files` equal to the number of tracked paths, and one entry per tracked path with its name and document id |

## Left out

- Threads, `time.sleep`, `join` and all printing. The watch loop is modelled as one iteration, `Step`, repeated by the caller.
- File I/O and MD5 are abstracted away. The folder is a map from path to hash, with "" for an unreadable file. The text of a file is an `Option<string>` parameter of `ExtractText`.
- ChromaDB and sentence-transformers are out. Embeddings, the vector search of the advanced `search` and its similarity scores are not modelled. The collection is a sequence of chunk records in insertion order.
- The fixed similarity 0.8 of the in-memory search is not modelled.
- `uuid4` is replaced by a fresh id passed in, which must not be stored yet.
- In the watcher, the knowledge base is an oracle for one cycle rather than the store class. Other clients can change the store behind the watcher's back, so the watcher may only rely on what each call answers.
- `str.lower` is modelled on ASCII letters only.
- `chunk_size` is a natural number. A negative chunk size is not modelled.
- Document.ChunkText: only inputs on which every cut moves the next window forward are modelled; `Spans` is `None` on the others. A cut of a full window moves the window forward exactly when the window's last '.' is not among its first `overlap` characters. When that '.' is at offset `overlap - 1`, the next window starts where the current one did, and the source's `chunk_text` never returns: it appends the same chunk forever (`Document.DefaultParametersRepeatWindow`). When the '.' is earlier, the next start lies below the current one. A next start in [0, start) goes back over earlier text. A negative next start comes from a cut among the first `overlap - 1` characters of the text, and Python's negative indexing reads it from the end of the text, so the source stores an empty or misplaced chunk and skips text (`Document.DefaultParametersSkipText`). `Document.PyChunk` models the loop as written for these inputs too; `Document.PyChunkAgrees` shows it returns `Chunk` wherever `Spans` is defined.
- KnowledgeBases.SimpleKnowledgeBase.AddDocument: requires that chunking the extracted text makes progress. The same holds for KnowledgeBases.KnowledgeBase.AddDocument. With the defaults, a text with a full window whose last '.' is among its first 200 characters violates this. On such a text the source's add either never returns, which stalls the watcher thread that called it, or stores chunks that go back over the text or skip part of it.
- The errors the vector-store calls can raise are not modelled.
- `Strings.BaseNameShape`: a path ending in '/' has the empty name here, whereas `pathlib` drops trailing slashes.
- Paths are POSIX paths. `Strings.BaseName` and `Document.SplitExt` split at '/' only; on Windows, `pathlib` and `os.path` also treat '\\' and a drive prefix as separators.
- The order in which Python iterates a set is not modelled. The loops over sets pick any remaining element, and `GetStatus` promises no particular order of its entries.
- `mkdir` of the watched folder and `absolute()` of its path are out. The folder is kept as the string it was given.
- The advanced-mode `search` is out because it is a call into the vector store. In the in-memory mode it is `SimpleKnowledgeBase.Search`.
