/** Stage 1 of the corpus build: raw `.rst` files become document records.
    The directory walk (`rglob` followed by `sorted`), file reading, the
    SHA-256 digest, the absolute path of a file and the clock are inputs:
    `files` is the sorted file list with each file's decoded text. */
module Ingest {
  import opened Util
  import opened PyStr
  import opened Json

  datatype Source = Source(path: string, kind: string)

  /** One line of docs.jsonl. */
  datatype DocRecord = DocRecord(
    id: string,
    moduleName: string,
    source: Source,
    text: string,
    sha256: string,
    createdAt: string)

  /** A file found under the raw directory: its path relative to that
      directory (POSIX form) and its text. */
  datatype RawFile = RawFile(relPath: string, text: string)

  datatype LoadOptions = LoadOptions(idPrefix: string, includeEmpty: bool, storeRepoRelativePaths: bool)

  /** What the source reads from the outside world: the digest function,
      the absolute POSIX path of a relative path, and the one timestamp
      taken at the start of the load. */
  datatype Environment = Environment(sha256: string -> string, absolutePath: string -> string, now: string)

  datatype IngestError = RawDirNotFound

  const DefaultOptions := LoadOptions("py-stdlib", false, true)
  const RepoRawPrefix := "data/raw/python_stdlib/"
  const SourceType := "rst"

  /** Position of the last `c` in `s`, or -1 (Python's `s.rfind(c)`). */
  function LastIndexOf(s: string, c: char): (r: int)
    ensures -1 <= r < |s|
    ensures r >= 0 ==> s[r] == c
    ensures forall i :: r < i < |s| ==> s[i] != c
  {
    if s == [] then -1
    else if s[|s| - 1] == c then |s| - 1
    else LastIndexOf(s[..|s| - 1], c)
  }

  /** `PurePath(p).name`: the last path component. */
  function FileName(p: string): string {
    p[LastIndexOf(p, '/') + 1..]
  }

  /** `PurePath(p).stem`: the last component without its final suffix; a
      leading dot or a trailing dot is not a suffix. */
  function ModuleNameFromPath(p: string): string {
    var name := FileName(p);
    var i := LastIndexOf(name, '.');
    if 0 < i < |name| - 1 then name[..i] else name
  }

  /** The module of `dir/base.rst` is `base`, dots inside `base` included
      (`os.path.rst` gives `os.path`). */
  lemma ModuleOfRstFile(dir: string, base: string)
    requires dir == [] || dir[|dir| - 1] == '/'
    requires base != [] && forall i :: 0 <= i < |base| ==> base[i] != '/'
    ensures ModuleNameFromPath(dir + base + ".rst") == base
  {
    var p := dir + base + ".rst";
    var k := LastIndexOf(p, '/');
    forall i | |dir| <= i < |p| ensures p[i] != '/' {
      if i < |dir| + |base| { assert p[i] == base[i - |dir|]; }
    }
    assert k == |dir| - 1 by {
      if dir != [] { assert p[|dir| - 1] == '/'; }
    }
    var name := FileName(p);
    assert name == base + ".rst";
    var d := LastIndexOf(name, '.');
    assert name[|base|] == '.';
    assert d == |base|;
    assert name[..d] == base;
  }

  lemma OsPathModule()
    ensures ModuleNameFromPath("os.path.rst") == "os.path"
  {
    var base := "os.path";
    assert forall i :: 0 <= i < |base| ==> base[i] != '/' by {
      assert base == ['o', 's', '.', 'p', 'a', 't', 'h'];
    }
    ModuleOfRstFile("", base);
    assert "" + base + ".rst" == "os.path.rst";
  }

  function DocId(idPrefix: string, relPath: string): string {
    idPrefix + ":" + relPath
  }

  function SourcePathOf(relPath: string, opts: LoadOptions, env: Environment): string {
    if opts.storeRepoRelativePaths then RepoRawPrefix + relPath else env.absolutePath(relPath)
  }

  function DocOf(f: RawFile, opts: LoadOptions, env: Environment): DocRecord {
    DocRecord(
      DocId(opts.idPrefix, f.relPath),
      ModuleNameFromPath(f.relPath),
      Source(SourcePathOf(f.relPath, opts, env), SourceType),
      f.text,
      env.sha256(f.text),
      env.now)
  }

  /** A file is kept unless it is whitespace only and empty files are excluded. */
  predicate Kept(f: RawFile, includeEmpty: bool) {
    NonBlank(f.text) || includeEmpty
  }

  /** The kept files, in input order. */
  function KeptFiles(files: seq<RawFile>, includeEmpty: bool): (k: seq<RawFile>)
    ensures |k| <= |files|
  {
    if files == [] then []
    else
      var last := files[|files| - 1];
      KeptFiles(files[..|files| - 1], includeEmpty) + (if Kept(last, includeEmpty) then [last] else [])
  }

  function DocsOf(kept: seq<RawFile>, opts: LoadOptions, env: Environment): (ds: seq<DocRecord>)
    ensures |ds| == |kept|
  {
    seq(|kept|, j requires 0 <= j < |kept| => DocOf(kept[j], opts, env))
  }

  /** The records `load_raw_docs` returns for an existing directory. */
  function LoadedDocs(files: seq<RawFile>, opts: LoadOptions, env: Environment): seq<DocRecord> {
    DocsOf(KeptFiles(files, opts.includeEmpty), opts, env)
  }

  /** `load_raw_docs`: one record per kept file, in file order. */
  method LoadRawDocs(rootExists: bool, files: seq<RawFile>, opts: LoadOptions, env: Environment)
    returns (r: Result<seq<DocRecord>, IngestError>)
    ensures !rootExists ==> r == Err(RawDirNotFound)
    ensures rootExists ==> r == Ok(LoadedDocs(files, opts, env))
  {
    if !rootExists {
      return Err(RawDirNotFound);
    }
    var createdAt := env.now;
    var records: seq<DocRecord> := [];
    var i := 0;
    while i < |files|
      invariant 0 <= i <= |files|
      invariant records == DocsOf(KeptFiles(files[..i], opts.includeEmpty), opts, env)
    {
      var f := files[i];
      DocsOfStep(files, i, opts, env);
      if NonBlank(f.text) || opts.includeEmpty {
        var sourcePath := if opts.storeRepoRelativePaths then RepoRawPrefix + f.relPath else env.absolutePath(f.relPath);
        var doc := DocRecord(opts.idPrefix + ":" + f.relPath, ModuleNameFromPath(f.relPath),
                             Source(sourcePath, "rst"), f.text, env.sha256(f.text), createdAt);
        records := records + [doc];
      }
      i := i + 1;
    }
    assert files[..|files|] == files;
    return Ok(records);
  }

  /** One more file adds its record, if it is kept, after the others. */
  lemma DocsOfStep(files: seq<RawFile>, i: nat, opts: LoadOptions, env: Environment)
    requires i < |files|
    ensures DocsOf(KeptFiles(files[..i + 1], opts.includeEmpty), opts, env)
      == DocsOf(KeptFiles(files[..i], opts.includeEmpty), opts, env)
         + (if Kept(files[i], opts.includeEmpty) then [DocOf(files[i], opts, env)] else [])
  {
    assert files[..i + 1][..i] == files[..i];
    var before := KeptFiles(files[..i], opts.includeEmpty);
    var here := if Kept(files[i], opts.includeEmpty) then [files[i]] else [];
    assert KeptFiles(files[..i + 1], opts.includeEmpty) == before + here;
    assert DocsOf(before + here, opts, env) == DocsOf(before, opts, env) + DocsOf(here, opts, env);
  }

  /** The kept files are a subsequence of the input: `idx` says where each
      came from, in increasing order, and every input file left out of
      `idx` was skipped because it is blank and empty files are excluded. */
  lemma {:induction false} KeptIsOrderedSubsequence(files: seq<RawFile>, includeEmpty: bool) returns (idx: seq<nat>)
    ensures |idx| == |KeptFiles(files, includeEmpty)|
    ensures forall j :: 0 <= j < |idx| ==> idx[j] < |files| && files[idx[j]] == KeptFiles(files, includeEmpty)[j]
    ensures forall a, b :: 0 <= a < b < |idx| ==> idx[a] < idx[b]
    ensures forall i :: 0 <= i < |files| && Kept(files[i], includeEmpty) ==> i in idx
    ensures forall j :: 0 <= j < |idx| ==> Kept(files[idx[j]], includeEmpty)
  {
    if files == [] {
      idx := [];
    } else {
      var n := |files| - 1;
      var front := files[..n];
      var prev := KeptIsOrderedSubsequence(front, includeEmpty);
      if Kept(files[n], includeEmpty) {
        idx := prev + [n];
      } else {
        idx := prev;
      }
    }
  }

  /** Every record is built from one kept file, in file order; with the
      default options no record holds a whitespace-only text. */
  lemma LoadedDocsShape(files: seq<RawFile>, opts: LoadOptions, env: Environment)
    ensures forall j :: 0 <= j < |LoadedDocs(files, opts, env)| ==>
      var d := LoadedDocs(files, opts, env)[j];
      exists i :: 0 <= i < |files| && d.id == opts.idPrefix + ":" + files[i].relPath
        && d.text == files[i].text && d.moduleName == ModuleNameFromPath(files[i].relPath)
        && d.source.kind == "rst" && d.createdAt == env.now
        && (opts.storeRepoRelativePaths ==> d.source.path == RepoRawPrefix + files[i].relPath)
        && (!opts.includeEmpty ==> NonBlank(d.text))
  {
    var idx := KeptIsOrderedSubsequence(files, opts.includeEmpty);
    forall j | 0 <= j < |LoadedDocs(files, opts, env)|
      ensures var d := LoadedDocs(files, opts, env)[j];
        exists i :: 0 <= i < |files| && d.id == opts.idPrefix + ":" + files[i].relPath
          && d.text == files[i].text && d.moduleName == ModuleNameFromPath(files[i].relPath)
          && d.source.kind == "rst" && d.createdAt == env.now
          && (opts.storeRepoRelativePaths ==> d.source.path == RepoRawPrefix + files[i].relPath)
          && (!opts.includeEmpty ==> NonBlank(d.text))
    {
      var i := idx[j];
      var kept := KeptFiles(files, opts.includeEmpty);
      assert files[i] == kept[j];
      assert LoadedDocs(files, opts, env)[j] == DocOf(kept[j], opts, env);
      assert Kept(files[i], opts.includeEmpty);
    }
  }

  lemma DocIdInjective(prefix: string, a: string, b: string)
    requires DocId(prefix, a) == DocId(prefix, b)
    ensures a == b
  {
    var x := prefix + ":";
    assert DocId(prefix, a)[|x|..] == a;
    assert DocId(prefix, b)[|x|..] == b;
  }

  /** Distinct relative paths (as a directory listing has) give distinct
      document ids. */
  lemma LoadedDocIdsDistinct(files: seq<RawFile>, opts: LoadOptions, env: Environment)
    requires forall a, b :: 0 <= a < b < |files| ==> files[a].relPath != files[b].relPath
    ensures var ds := LoadedDocs(files, opts, env);
      forall a, b :: 0 <= a < b < |ds| ==> ds[a].id != ds[b].id
  {
    var idx := KeptIsOrderedSubsequence(files, opts.includeEmpty);
    var ds := LoadedDocs(files, opts, env);
    forall a, b | 0 <= a < b < |ds| ensures ds[a].id != ds[b].id {
      var k := KeptFiles(files, opts.includeEmpty);
      assert k[a] == files[idx[a]] && k[b] == files[idx[b]];
      if ds[a].id == ds[b].id {
        DocIdInjective(opts.idPrefix, k[a].relPath, k[b].relPath);
      }
    }
  }

  /** The JSON object written to docs.jsonl for a record. */
  function DocJson(d: DocRecord): Object {
    map[
      "id" := JStr(d.id),
      "module" := JStr(d.moduleName),
      "source" := JObj(map["path" := JStr(d.source.path), "type" := JStr(d.source.kind)]),
      "text" := JStr(d.text),
      "sha256" := JStr(d.sha256),
      "created_at" := JStr(d.createdAt)]
  }

  /** The lines of docs.jsonl for a list of records, in order. */
  function DocsJson(ds: seq<DocRecord>): (js: seq<Object>)
    ensures |js| == |ds| && forall j :: 0 <= j < |ds| ==> js[j] == DocJson(ds[j])
  {
    seq(|ds|, j requires 0 <= j < |ds| => DocJson(ds[j]))
  }
}
