/**
 * Change detection and context assembly of core/rag_engine.py (`CodebaseRAG`).
 *
 * The project scan is given as the sequence of paths `rglob('*')` yields, each
 * with what reading it gives (`FileEntry`): its SHA-256 digest, or None when
 * hashing raised, and its UTF-8 text, or None when reading raised.  The vector
 * store is represented by the documents it holds; Chroma, the embeddings and the
 * text splitter are not part of this model, so the store holds whole documents
 * rather than chunks.  A similarity search is an oracle: the hits it returns are
 * an argument.
 */
module RagEngine {
  import opened Text

  const ValidExtensions: set<string> :=
    {".py", ".js", ".ts", ".tsx", ".go", ".rs", ".java", ".c", ".cpp", ".h", ".yaml", ".yml", ".md"}
  const IgnoredDirs: set<string> :=
    {"node_modules", ".git", "__pycache__", ".chroma_db", "venv", "env", "dist", "build"}

  datatype FileEntry = FileEntry(
    path: string,            // str(file_path), the absolute path
    relPath: string,         // str(file_path.relative_to(project_path))
    name: string,            // file_path.name
    isFile: bool,
    digest: Option<string>,  // None: hashing raised
    content: Option<string>) // None: reading as UTF-8 raised

  /** The index of the last '.' in `s`, if any. */
  function LastDot(s: string): (r: Option<nat>)
    ensures r.Some? ==> r.value < |s| && s[r.value] == '.' && forall j :: r.value < j < |s| ==> s[j] != '.'
    ensures r.None? ==> forall j :: 0 <= j < |s| ==> s[j] != '.'
  {
    if |s| == 0 then None
    else if s[|s| - 1] == '.' then Some(|s| - 1)
    else LastDot(s[..|s| - 1])
  }

  /** `PurePath.suffix`: from the last dot on, unless that dot starts or ends the name. */
  function Suffix(name: string): (r: string)
    ensures r == "" || (
      && 2 <= |r| < |name| && r[0] == '.' && name[|name| - |r|..] == r
      && forall j :: 1 <= j < |r| ==> r[j] != '.')
  {
    match LastDot(name)
    case None => ""
    case Some(i) => if 0 < i < |name| - 1 then name[i..] else ""
  }

  /** The suffix is the tail from the last dot exactly when that dot neither
      starts nor ends the name, and empty otherwise: "main.py" has ".py", while
      ".md", "notes." and "Makefile" have none. */
  lemma SuffixIsLastDotTail(name: string)
    ensures LastDot(name).Some? && 0 < LastDot(name).value < |name| - 1 ==>
      Suffix(name) == name[LastDot(name).value..]
    ensures Suffix(name) == "" <==> !(LastDot(name).Some? && 0 < LastDot(name).value < |name| - 1)
    ensures Suffix("main.py") == ".py" && Suffix("app.test.ts") == ".ts"
    ensures Suffix(".md") == "" && Suffix("notes.") == "" && Suffix("Makefile") == ""
  {
    assert LastDot("main.py") == Some(4);
    assert LastDot("app.test.ts") == Some(8);
    assert LastDot(".md") == Some(0);
    assert LastDot("notes.") == Some(5);
    assert LastDot("Makefile") == None;
  }

  /** One of the ignored names occurs anywhere in the path string. */
  predicate Ignored(path: string)
  {
    exists d | d in IgnoredDirs :: Contains(path, d)
  }

  /** The scan's filter: a regular file with a listed suffix whose path mentions
      no ignored name. */
  predicate Eligible(f: FileEntry)
  {
    f.isFile && Suffix(f.name) in ValidExtensions && !Ignored(f.path)
  }

  /** The ignore list matches substrings of the whole path, not path components:
      any path containing "env" (such as ".../environment/x.py") is skipped. */
  lemma IgnoreMatchesSubstrings(f: FileEntry, before: string, after: string)
    requires f.path == before + "env" + after
    ensures !Eligible(f)
  {
    assert OccursAt("env", "env", 0);
    ContainsSuffixed("env", after, "env");
    assert before + "env" + after == before + ("env" + after);
    ContainsPrefixed(before, "env" + after, "env");
    assert Contains(f.path, "env");
  }

  /** Rglob yields each file once, so relative paths are distinct. */
  predicate DistinctRelPaths(files: seq<FileEntry>)
  {
    forall i, j :: 0 <= i < j < |files| ==> files[i].relPath != files[j].relPath
  }

  // ---- the scan, as functions of the prefix scanned so far ----

  /** The eligible files that were hashed, in scan order: the keys of `new_hashes`
      in their insertion order. */
  function Hashed(files: seq<FileEntry>): seq<FileEntry>
  {
    if |files| == 0 then []
    else
      var prev := Hashed(files[..|files| - 1]);
      var f := files[|files| - 1];
      if Eligible(f) && f.digest.Some? then prev + [f] else prev
  }

  /** `new_hashes` built from hashed entries. */
  function HashMap(entries: seq<FileEntry>): map<string, string>
  {
    if |entries| == 0 then map[]
    else
      var f := entries[|entries| - 1];
      var prev := HashMap(entries[..|entries| - 1]);
      if f.digest.Some? then prev[f.relPath := f.digest.value] else prev
  }

  predicate NeedsIndexing(f: FileEntry, current: map<string, string>, force: bool)
  {
    f.digest.Some? && (force || f.relPath !in current || current[f.relPath] != f.digest.value)
  }

  /** `files_to_index`: the hashed entries that are forced, new or changed. */
  function Selected(entries: seq<FileEntry>, current: map<string, string>, force: bool): seq<FileEntry>
  {
    if |entries| == 0 then []
    else
      var prev := Selected(entries[..|entries| - 1], current, force);
      var f := entries[|entries| - 1];
      if NeedsIndexing(f, current, force) then prev + [f] else prev
  }

  datatype Doc = Doc(content: string, source: string, filename: string, extension: string)

  function DocOf(f: FileEntry): Doc
    requires f.content.Some?
  {
    Doc(f.content.value, f.relPath, f.name, Suffix(f.name))
  }

  predicate HasText(f: FileEntry)
  {
    f.content.Some? && Strip(f.content.value) != ""
  }

  /** The documents built from entries: unreadable and blank files are skipped. */
  function Docs(entries: seq<FileEntry>): seq<Doc>
  {
    if |entries| == 0 then []
    else
      var prev := Docs(entries[..|entries| - 1]);
      var f := entries[|entries| - 1];
      if HasText(f) then prev + [DocOf(f)] else prev
  }

  lemma {:induction false} HashedMembersOnly(files: seq<FileEntry>)
    ensures forall f :: f in Hashed(files) <==> f in files && Eligible(f) && f.digest.Some?
  {
    if |files| > 0 {
      var init := files[..|files| - 1];
      HashedMembersOnly(init);
      assert files == init + [files[|files| - 1]];
    }
  }

  lemma {:induction false} HashedDistinct(files: seq<FileEntry>)
    requires DistinctRelPaths(files)
    ensures DistinctRelPaths(Hashed(files))
  {
    if |files| > 0 {
      var init := files[..|files| - 1];
      var last := files[|files| - 1];
      assert DistinctRelPaths(init);
      HashedDistinct(init);
      HashedMembersOnly(init);
      forall g | g in Hashed(init) ensures g.relPath != last.relPath {
        var i :| 0 <= i < |init| && init[i] == g;
        assert files[i] == g;
      }
    }
  }

  /** The hashed entries are the eligible files that could be hashed, and keep
      the scan's distinct paths. */
  lemma HashedMembers(files: seq<FileEntry>)
    ensures forall f :: f in Hashed(files) <==> f in files && Eligible(f) && f.digest.Some?
    ensures forall k :: 0 <= k < |Hashed(files)| ==> Hashed(files)[k].digest.Some?
    ensures DistinctRelPaths(files) ==> DistinctRelPaths(Hashed(files))
  {
    HashedMembersOnly(files);
    var h := Hashed(files);
    forall k | 0 <= k < |h| ensures h[k].digest.Some? {
      assert h[k] in h;
    }
    if DistinctRelPaths(files) {
      HashedDistinct(files);
    }
  }

  lemma {:induction false} HashMapKeys(entries: seq<FileEntry>)
    requires forall k :: 0 <= k < |entries| ==> entries[k].digest.Some?
    ensures forall p :: p in HashMap(entries) <==> exists k | 0 <= k < |entries| :: entries[k].relPath == p
    ensures DistinctRelPaths(entries) ==>
      forall k :: 0 <= k < |entries| ==> HashMap(entries)[entries[k].relPath] == entries[k].digest.value
  {
    if |entries| > 0 {
      var init := entries[..|entries| - 1];
      HashMapKeys(init);
      forall p ensures p in HashMap(entries) <==> exists k | 0 <= k < |entries| :: entries[k].relPath == p {
        if p in HashMap(init) {
          var k :| 0 <= k < |init| && init[k].relPath == p;
          assert entries[k].relPath == p;
        }
        if k :| 0 <= k < |entries| && entries[k].relPath == p {
          if k < |init| { assert init[k].relPath == p; }
        }
      }
      if DistinctRelPaths(entries) {
        assert DistinctRelPaths(init);
        forall k | 0 <= k < |entries|
          ensures HashMap(entries)[entries[k].relPath] == entries[k].digest.value
        {
          if k < |init| { assert init[k] == entries[k]; }
        }
      }
    }
  }

  /** `new_hashes` has exactly the eligible, hashed files as keys: a file that
      has disappeared or can no longer be hashed drops out. */
  lemma NewHashesKeys(files: seq<FileEntry>)
    ensures forall p :: p in HashMap(Hashed(files)) <==>
      exists f :: f in files && Eligible(f) && f.digest.Some? && f.relPath == p
  {
    HashedMembers(files);
    var h := Hashed(files);
    HashMapKeys(h);
    forall p ensures p in HashMap(h) <==> exists f :: f in files && Eligible(f) && f.digest.Some? && f.relPath == p {
      if p in HashMap(h) {
        var k :| 0 <= k < |h| && h[k].relPath == p;
        assert h[k] in h;
      }
      if f :| f in files && Eligible(f) && f.digest.Some? && f.relPath == p {
        var k :| 0 <= k < |h| && h[k] == f;
      }
    }
  }

  /** Each key of `new_hashes` maps to its file's current digest. */
  lemma NewHashesValues(files: seq<FileEntry>)
    requires DistinctRelPaths(files)
    ensures forall f :: f in files && Eligible(f) && f.digest.Some? ==>
      f.relPath in HashMap(Hashed(files)) && HashMap(Hashed(files))[f.relPath] == f.digest.value
  {
    HashedMembers(files);
    var h := Hashed(files);
    HashMapKeys(h);
    forall f | f in files && Eligible(f) && f.digest.Some?
      ensures f.relPath in HashMap(h) && HashMap(h)[f.relPath] == f.digest.value
    {
      var k :| 0 <= k < |h| && h[k] == f;
    }
  }

  lemma {:induction false} SelectedMembers(entries: seq<FileEntry>, current: map<string, string>, force: bool)
    ensures forall f :: f in Selected(entries, current, force) <==>
      f in entries && NeedsIndexing(f, current, force)
  {
    if |entries| > 0 {
      SelectedMembers(entries[..|entries| - 1], current, force);
      assert entries == entries[..|entries| - 1] + [entries[|entries| - 1]];
    }
  }

  /** A file is selected for indexing exactly when it is eligible and hashed, and
      indexing is forced, or its path is new, or its digest changed. */
  lemma SelectionIsChangeDetection(files: seq<FileEntry>, current: map<string, string>, force: bool)
    ensures forall f :: f in Selected(Hashed(files), current, force) <==>
      && f in files && Eligible(f) && f.digest.Some?
      && (force || f.relPath !in current || current[f.relPath] != f.digest.value)
  {
    HashedMembers(files);
    SelectedMembers(Hashed(files), current, force);
  }

  /** A forced run selects every hashed file. */
  lemma {:induction false} ForceSelectsAll(entries: seq<FileEntry>, current: map<string, string>)
    requires forall k :: 0 <= k < |entries| ==> entries[k].digest.Some?
    ensures Selected(entries, current, true) == entries
  {
    if |entries| > 0 {
      ForceSelectsAll(entries[..|entries| - 1], current);
    }
  }

  lemma {:induction false} NothingNeedsIndexing(entries: seq<FileEntry>, current: map<string, string>, force: bool)
    requires forall k :: 0 <= k < |entries| ==> !NeedsIndexing(entries[k], current, force)
    ensures Selected(entries, current, force) == []
  {
    if |entries| > 0 {
      NothingNeedsIndexing(entries[..|entries| - 1], current, force);
    }
  }

  /** With nothing forced and every hashed file's digest already recorded,
      nothing is selected. */
  lemma UnchangedSelectsNothing(files: seq<FileEntry>, current: map<string, string>)
    requires forall f :: f in files && Eligible(f) && f.digest.Some? ==>
      f.relPath in current && current[f.relPath] == f.digest.value
    ensures Selected(Hashed(files), current, false) == []
  {
    HashedMembers(files);
    var h := Hashed(files);
    forall k | 0 <= k < |h| ensures !NeedsIndexing(h[k], current, false) {
      assert h[k] in h;
    }
    NothingNeedsIndexing(h, current, false);
  }

  lemma {:induction false} DocsMembers(entries: seq<FileEntry>)
    ensures forall d :: d in Docs(entries) <==> exists f :: f in entries && HasText(f) && d == DocOf(f)
  {
    if |entries| > 0 {
      var init := entries[..|entries| - 1];
      DocsMembers(init);
      assert entries == init + [entries[|entries| - 1]];
    }
  }

  /** Documents built from entries with distinct paths have distinct sources:
      one document per key of `new_hashes`. */
  lemma {:induction false} DocsDistinctSources(entries: seq<FileEntry>)
    requires DistinctRelPaths(entries)
    ensures forall i, j :: 0 <= i < j < |Docs(entries)| ==> Docs(entries)[i].source != Docs(entries)[j].source
  {
    if |entries| > 0 {
      var init := entries[..|entries| - 1];
      var last := entries[|entries| - 1];
      assert DistinctRelPaths(init);
      DocsDistinctSources(init);
      if HasText(last) {
        DocsMembers(init);
        forall d | d in Docs(init) ensures d.source != last.relPath {
          var f :| f in init && HasText(f) && d == DocOf(f);
          var k :| 0 <= k < |init| && init[k] == f;
          assert entries[k] == f;
        }
        var ds := Docs(entries);
        forall i, j | 0 <= i < j < |ds| ensures ds[i].source != ds[j].source {
          if j == |ds| - 1 {
            assert ds[i] in Docs(init);
          }
        }
      }
    }
  }

  // ---- the hash file ----

  datatype HashFile = Missing | Unreadable | Stored(hashes: map<string, string>)

  /** How `_save_hashes` fares: the open fails (nothing written), the dump fails
      after the file was truncated, or it succeeds. */
  datatype SaveFault = SaveOk | OpenFails | DumpFails

  /** `_load_hashes`: the stored map, or an empty one when the file is missing or
      cannot be read as JSON. */
  function LoadedHashes(hf: HashFile): (m: map<string, string>)
    ensures hf.Stored? ==> m == hf.hashes
    ensures !hf.Stored? ==> m == map[]
  {
    if hf.Stored? then hf.hashes else map[]
  }

  function AfterSave(hf: HashFile, hashes: map<string, string>, fault: SaveFault): HashFile
  {
    match fault
    case SaveOk => Stored(hashes)
    case OpenFails => hf
    case DumpFails => Unreadable
  }

  /** A successful save is read back unchanged; a save that breaks the file
      makes the next load start from nothing. */
  lemma SaveLoadRoundTrip(hf: HashFile, hashes: map<string, string>)
    ensures LoadedHashes(AfterSave(hf, hashes, SaveOk)) == hashes
    ensures LoadedHashes(AfterSave(hf, hashes, DumpFails)) == map[]
    ensures LoadedHashes(AfterSave(hf, hashes, OpenFails)) == LoadedHashes(hf)
  {
  }

  // ---- search results and the context summary ----

  /** One similarity-search hit, as `search` formats it: page content and the
      "source" and "filename" metadata (None when absent). */
  datatype Hit = Hit(content: string, source: Option<string>, filename: Option<string>)

  function SourcesOf(rs: seq<Hit>): set<Option<string>>
  {
    set r | r in rs :: r.source
  }

  /** The sources `search` lists: the truthy ones (present and non-empty). */
  function TruthySources(rs: seq<Hit>): set<string>
  {
    set r | r in rs && r.source.Some? && r.source.value != "" :: r.source.value
  }

  const NoContext: string := "No related codebase context found."
  const SummaryHeader: string := "Related codebase context found via RAG:\n\n"
  const PreviewLimit: nat := 500

  /** The content shown for one file: its first 500 characters and "..." when
      longer than that. */
  function Preview(content: string): (p: string)
    ensures |content| <= PreviewLimit ==> p == content
    ensures |content| > PreviewLimit ==> |p| == PreviewLimit + 3 && p[..PreviewLimit] == content[..PreviewLimit]
    ensures |content| > PreviewLimit ==> p == content[..PreviewLimit] + "..."
    ensures |p| <= PreviewLimit + 3
  {
    if |content| > PreviewLimit then content[..PreviewLimit] + "..." else content
  }

  /** Python's `str()` of the source: None prints as "None". */
  function SourceText(source: Option<string>): string
  {
    if source.Some? then source.value else "None"
  }

  function Block(r: Hit): string
  {
    "--- File: " + SourceText(r.source) + " ---\n" + Preview(r.content) + "\n\n"
  }

  /** The hits that get a block: the first one of each source, in order. */
  function Entries(rs: seq<Hit>): seq<Hit>
  {
    if |rs| == 0 then []
    else
      var init := rs[..|rs| - 1];
      var last := rs[|rs| - 1];
      if last.source in SourcesOf(init) then Entries(init) else Entries(init) + [last]
  }

  function Render(es: seq<Hit>): string
  {
    if |es| == 0 then "" else Render(es[..|es| - 1]) + Block(es[|es| - 1])
  }

  /** What `get_context_summary` produces from the search results. */
  function SummaryText(rs: seq<Hit>): string
  {
    if |rs| == 0 then NoContext else SummaryHeader + Render(Entries(rs))
  }

  /** The blocks cover every result's source. */
  lemma {:induction false} EntriesCoverSources(rs: seq<Hit>)
    ensures SourcesOf(Entries(rs)) == SourcesOf(rs)
  {
    if |rs| > 0 {
      var init := rs[..|rs| - 1];
      var last := rs[|rs| - 1];
      EntriesCoverSources(init);
      assert rs == init + [last];
      assert SourcesOf(rs) == SourcesOf(init) + {last.source};
      if last.source !in SourcesOf(init) {
        assert SourcesOf(Entries(init) + [last]) == SourcesOf(Entries(init)) + {last.source};
      }
    }
  }

  /** No two blocks share a source, and every block is the block of a hit. */
  lemma {:induction false} EntriesDistinct(rs: seq<Hit>)
    ensures forall i, j :: 0 <= i < j < |Entries(rs)| ==> Entries(rs)[i].source != Entries(rs)[j].source
    ensures forall e :: e in Entries(rs) ==> e in rs
  {
    if |rs| > 0 {
      var init := rs[..|rs| - 1];
      var last := rs[|rs| - 1];
      EntriesDistinct(init);
      EntriesCoverSources(init);
      assert rs == init + [last];
      if last.source !in SourcesOf(init) {
        var es := Entries(init);
        forall i | 0 <= i < |es| ensures es[i].source != last.source {
          assert es[i].source in SourcesOf(es);
        }
      }
    }
  }

  /** A hit whose source did not occur earlier gets a block: the first hit of
      each source wins. */
  lemma {:induction false} FirstHitGetsBlock(rs: seq<Hit>, k: nat)
    requires k < |rs|
    requires forall i :: 0 <= i < k ==> rs[i].source != rs[k].source
    ensures rs[k] in Entries(rs)
    decreases |rs|
  {
    var init := rs[..|rs| - 1];
    var last := rs[|rs| - 1];
    if k < |init| {
      assert init[k] == rs[k];
      assert forall i :: 0 <= i < k ==> init[i].source == rs[i].source;
      FirstHitGetsBlock(init, k);
    }
  }

  /** Each source gets one block, the one of its first hit: the blocks' sources
      are distinct and cover every result's source, and every hit whose source did
      not occur earlier has a block. */
  lemma OneBlockPerSource(rs: seq<Hit>)
    ensures SourcesOf(Entries(rs)) == SourcesOf(rs)
    ensures forall i, j :: 0 <= i < j < |Entries(rs)| ==> Entries(rs)[i].source != Entries(rs)[j].source
    ensures forall e :: e in Entries(rs) ==> e in rs
    ensures forall k :: 0 <= k < |rs| && (forall i :: 0 <= i < k ==> rs[i].source != rs[k].source) ==>
      rs[k] in Entries(rs)
  {
    EntriesCoverSources(rs);
    EntriesDistinct(rs);
    forall k | 0 <= k < |rs| && (forall i :: 0 <= i < k ==> rs[i].source != rs[k].source)
      ensures rs[k] in Entries(rs)
    {
      FirstHitGetsBlock(rs, k);
    }
  }

  /** Every entry's block appears in the rendered text. */
  lemma {:induction false} RenderShowsEntries(es: seq<Hit>)
    ensures forall e :: e in es ==> Contains(Render(es), Block(e))
  {
    if |es| > 0 {
      var init := es[..|es| - 1];
      RenderShowsEntries(init);
      var last := es[|es| - 1];
      assert es == init + [last];
      assert OccursAt(Block(last), Block(last), 0);
      ContainsPrefixed(Render(init), Block(last), Block(last));
      forall e | e in init ensures Contains(Render(es), Block(e)) {
        ContainsSuffixed(Render(init), Block(last), Block(e));
      }
    }
  }

  /** The summary of a non-empty result list is the header followed by one block
      per distinct source, and each of those blocks appears in it. */
  lemma SummaryShowsEverySource(rs: seq<Hit>)
    requires |rs| > 0
    ensures SummaryText(rs)[..|SummaryHeader|] == SummaryHeader
    ensures forall s :: s in SourcesOf(rs) ==> exists e :: e in Entries(rs) && e.source == s
    ensures forall e :: e in Entries(rs) ==> Contains(SummaryText(rs), Block(e))
  {
    OneBlockPerSource(rs);
    RenderShowsEntries(Entries(rs));
    forall s | s in SourcesOf(rs) ensures exists e :: e in Entries(rs) && e.source == s {
      assert s in SourcesOf(Entries(rs));
    }
    forall e | e in Entries(rs) ensures Contains(SummaryText(rs), Block(e)) {
      ContainsPrefixed(SummaryHeader, Render(Entries(rs)), Block(e));
    }
  }

  /** One step of the assembly loop: hit i gets a block exactly when its
      source is new. */
  lemma SummaryStep(rs: seq<Hit>, i: nat)
    requires i < |rs|
    ensures SourcesOf(rs[..i + 1]) == SourcesOf(rs[..i]) + {rs[i].source}
    ensures Entries(rs[..i + 1]) ==
      if rs[i].source in SourcesOf(rs[..i]) then Entries(rs[..i]) else Entries(rs[..i]) + [rs[i]]
  {
    assert rs[..i + 1][..i] == rs[..i];
    assert rs[..i + 1] == rs[..i] + [rs[i]];
    assert SourcesOf(rs[..i] + [rs[i]]) == SourcesOf(rs[..i]) + {rs[i].source};
  }

  /** Rendering one more entry appends its block (kept apart from the assembly
      loop so that its proof stays small). */
  lemma RenderSnoc(es: seq<Hit>, e: Hit)
    ensures Render(es + [e]) == Render(es) + Block(e)
  {
    assert (es + [e])[..|es|] == es;
  }

  /** Regrouping stated apart from the assembly loop, whose own proof exceeds
      its budget when it has to find this step itself. */
  lemma AppendAssoc(a: string, b: string, c: string)
    ensures a + b + c == a + (b + c)
  {
  }

  /** The two appends of the assembly loop add exactly one block. */
  lemma BlockAppended(pre: string, r: Hit)
    ensures pre + "--- File: " + SourceText(r.source) + " ---\n" + Preview(r.content) + "\n\n"
      == pre + Block(r)
  {
    var a, b, c, d, e := "--- File: ", SourceText(r.source), " ---\n", Preview(r.content), "\n\n";
    assert pre + a + b + c + d + e == pre + (a + b + c + d + e);
  }

  /** `list(referenced_files)`: the set's elements once each, in some order. */
  method ListOfSet(s: set<string>) returns (r: seq<string>)
    ensures forall i, j :: 0 <= i < j < |r| ==> r[i] != r[j]
    ensures forall x :: x in r <==> x in s
  {
    r := [];
    var rest := s;
    while rest != {}
      invariant rest !! (set x | x in r)
      invariant forall x :: x in s <==> x in r || x in rest
      invariant forall i, j :: 0 <= i < j < |r| ==> r[i] != r[j]
      decreases |rest|
    {
      var x :| x in rest;
      r := r + [x];
      rest := rest - {x};
    }
  }

  class CodebaseRag {
    var hasStore: bool   // `self.vector_store` is set
    var store: seq<Doc>  // what the vector store holds
    var hashFile: HashFile

    constructor(storeAvailable: bool, hashes: HashFile)
      ensures hasStore == storeAvailable && store == [] && hashFile == hashes
    {
      hasStore := storeAvailable;
      store := [];
      hashFile := hashes;
    }

    /** `_load_hashes`. */
    method LoadHashes() returns (m: map<string, string>)
      ensures m == LoadedHashes(hashFile)
      ensures hashFile.Stored? ==> m == hashFile.hashes
    {
      if hashFile.Stored? {
        m := hashFile.hashes;
      } else {
        m := map[];
      }
    }

    /** `_save_hashes`: errors are logged, never raised. */
    method SaveHashes(hashes: map<string, string>, fault: SaveFault)
      modifies this
      ensures hashFile == AfterSave(old(hashFile), hashes, fault)
      ensures hasStore == old(hasStore) && store == old(store)
    {
      match fault {
        case SaveOk => hashFile := Stored(hashes);
        case OpenFails =>
        case DumpFails => hashFile := Unreadable;
      }
    }

    /** The scan loop of `index_project`: `new_hashes` (with its keys' insertion
        order) and `files_to_index`. */
    static method ScanProject(files: seq<FileEntry>, currentHashes: map<string, string>, force: bool)
      returns (newHashes: map<string, string>, hashedEntries: seq<FileEntry>, filesToIndex: seq<FileEntry>)
      ensures hashedEntries == Hashed(files)
      ensures newHashes == HashMap(Hashed(files))
      ensures filesToIndex == Selected(Hashed(files), currentHashes, force)
    {
      newHashes := map[];
      hashedEntries := [];
      filesToIndex := [];
      for i := 0 to |files|
        invariant hashedEntries == Hashed(files[..i])
        invariant newHashes == HashMap(hashedEntries)
        invariant filesToIndex == Selected(hashedEntries, currentHashes, force)
      {
        var file := files[i];
        assert files[..i + 1][..i] == files[..i];
        if file.isFile && Suffix(file.name) in ValidExtensions {
          if Ignored(file.path) {
            continue;
          }
          if file.digest.Some? {
            var fileHash := file.digest.value;
            newHashes := newHashes[file.relPath := fileHash];
            hashedEntries := hashedEntries + [file];
            assert hashedEntries[..|hashedEntries| - 1] == Hashed(files[..i]);
            if force || file.relPath !in currentHashes || currentHashes[file.relPath] != fileHash {
              filesToIndex := filesToIndex + [file];
            }
          }
        }
      }
      assert files[..|files|] == files;
    }

    /** The reading loops of `index_project`: one document per readable,
        non-blank file, in order. */
    static method ReadDocuments(entries: seq<FileEntry>) returns (documents: seq<Doc>)
      ensures documents == Docs(entries)
      ensures forall d :: d in documents <==> exists f :: f in entries && HasText(f) && d == DocOf(f)
    {
      documents := [];
      for j := 0 to |entries|
        invariant documents == Docs(entries[..j])
      {
        var file := entries[j];
        assert entries[..j + 1][..j] == entries[..j];
        if file.content.None? {
          continue;
        }
        if Strip(file.content.value) == "" {
          continue;
        }
        documents := documents + [DocOf(file)];
      }
      assert entries[..|entries|] == entries;
      DocsMembers(entries);
    }

    /** `index_project(force)`: nothing changes when the project is missing, when
        no file is new or changed, or when none of the selected files has text;
        otherwise, with a store, the store ends up holding the documents of every
        hashed file with text (in both modes) and the new hashes are saved. */
    method IndexProject(projectExists: bool, files: seq<FileEntry>, force: bool, saveFault: SaveFault)
      requires DistinctRelPaths(files)
      modifies this
      ensures hasStore == old(hasStore)
      ensures var sel := Selected(Hashed(files), LoadedHashes(old(hashFile)), force);
        if !projectExists || Docs(sel) == [] || !hasStore then
          store == old(store) && hashFile == old(hashFile)
        else
          && store == Docs(Hashed(files))
          && (forall i, j :: 0 <= i < j < |store| ==> store[i].source != store[j].source)
          && hashFile == AfterSave(old(hashFile), HashMap(Hashed(files)), saveFault)
    {
      if !projectExists {
        return;
      }
      var currentHashes := LoadHashes();
      var newHashes, hashedEntries, filesToIndex := ScanProject(files, currentHashes, force);
      if filesToIndex == [] {
        return;
      }
      var documents := ReadDocuments(filesToIndex);
      if documents == [] {
        return;
      }
      if hasStore {
        HashedMembers(files);
        DocsDistinctSources(hashedEntries);
        if force {
          ForceSelectsAll(hashedEntries, currentHashes);
          store := documents;
        } else {
          // the collection is rebuilt from every entry of new_hashes
          var allDocs := ReadDocuments(hashedEntries);
          store := allDocs;
        }
        SaveHashes(newHashes, saveFault);
      }
    }

    /** `search`: the hits unchanged when there is a store, and each truthy
        source once. */
    method Search(hits: seq<Hit>) returns (results: seq<Hit>, referenced: seq<string>)
      ensures !hasStore ==> results == [] && referenced == []
      ensures hasStore ==> results == hits
      ensures forall i, j :: 0 <= i < j < |referenced| ==> referenced[i] != referenced[j]
      ensures hasStore ==> forall s :: s in referenced <==> s in TruthySources(hits)
    {
      if !hasStore {
        return [], [];
      }
      results := [];
      var referencedFiles: set<string> := {};
      for i := 0 to |hits|
        invariant results == hits[..i]
        invariant referencedFiles == TruthySources(hits[..i])
      {
        var doc := hits[i];
        assert hits[..i + 1] == hits[..i] + [doc];
        results := results + [doc];
        if doc.source.Some? && doc.source.value != "" {
          referencedFiles := referencedFiles + {doc.source.value};
        }
      }
      assert hits[..|hits|] == hits;
      referenced := ListOfSet(referencedFiles);
    }

    /** The assembly loop of `get_context_summary`. */
    static method AssembleSummary(results: seq<Hit>) returns (summary: string)
      ensures summary == SummaryHeader + Render(Entries(results))
    {
      summary := SummaryHeader;
      var addedFiles: set<Option<string>> := {};
      ghost var shown: seq<Hit> := [];
      for i := 0 to |results|
        invariant addedFiles == SourcesOf(results[..i])
        invariant shown == Entries(results[..i])
        invariant summary == SummaryHeader + Render(shown)
      {
        var res := results[i];
        SummaryStep(results, i);
        var source := res.source;
        if source !in addedFiles {
          var before := summary;
          summary := summary + "--- File: " + SourceText(source) + " ---\n";
          var contentPreview := if |res.content| > 500 then res.content[..500] + "..." else res.content;
          summary := summary + contentPreview + "\n\n";
          assert contentPreview == Preview(res.content);
          BlockAppended(before, res);
          assert summary == before + Block(res);
          RenderSnoc(shown, res);
          AppendAssoc(SummaryHeader, Render(shown), Block(res));
          shown := shown + [res];
          addedFiles := addedFiles + {source};
        }
      }
      assert results[..|results|] == results;
    }

    /** `get_context_summary`: the fixed message and no files when nothing was
        found, otherwise the header and one block per source, first hit first. */
    method GetContextSummary(hits: seq<Hit>) returns (summary: string, referenced: seq<string>)
      ensures !hasStore || hits == [] ==> summary == NoContext && referenced == []
      ensures hasStore ==> summary == SummaryText(hits)
      ensures hasStore ==> forall s :: s in referenced <==> s in TruthySources(hits)
    {
      var results, referencedFiles := Search(hits);
      if results == [] {
        return NoContext, [];
      }
      summary := AssembleSummary(results);
      referenced := referencedFiles;
    }
  }
}
