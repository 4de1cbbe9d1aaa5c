/**
 * The incremental backup engine of backup_utility.py over an abstract
 * filesystem.  The source tree is a value of `FsNode`; the destination is a
 * map from destination-relative path to file content.  MD5 and SHA-256 are
 * the two uninterpreted functions of a `Hasher`.
 */
module Backup {
  import opened Common
  import opened Sorting

  newtype byte = x | 0 <= x < 256

  type Content = seq<byte>

  /** A hex digest string. */
  type Digest = string

  /** The two digest algorithms, left uninterpreted. */
  datatype Hasher = Hasher(md5: Content -> Digest, sha256: Content -> Digest)

  /** Modification times are integer ticks of one microsecond. */
  const MtimeTolerance: int := 1000  // 0.001 s

  /** Files strictly larger than this are gzip-compressed when compression is on. */
  const CompressThreshold: nat := 1024

  const ChunkSize: nat := 65536

  /** What `stat` reports of a file and what reading it yields. */
  datatype FileStat = FileStat(size: nat, mtime: int, content: Content, readable: bool)

  /** The source filesystem: files and directories (an unreadable directory cannot be listed). */
  datatype FsNode =
    | File(name: string, stat: FileStat)
    | Dir(name: string, children: seq<FsNode>, readable: bool)

  /** `FileHash` of the source: one record of the digest table. */
  datatype FileHash = FileHash(path: string, size: nat, mtime: int, md5: Digest, sha256: Digest)

  /** The failure descriptions appended to `manifest.errors`. */
  datatype BackupError =
    | CannotHash(file: string)
    | BackupFailed(file: string)
    | CannotRemove(file: string)

  /** `BackupManifest`: the run summary. */
  datatype BackupManifest = BackupManifest(
    backupId: string,
    timestamp: string,
    sourcePath: string,
    destPath: string,
    filesBackedUp: nat,
    filesSkipped: nat,
    filesRemoved: nat,
    bytesTransferred: nat,
    totalSize: nat,
    errors: seq<BackupError>)

  /**
   * The destination filesystem's behaviour: directories whose creation
   * raises OSError (a read-only location, a regular file in the way), paths
   * whose write or unlink raises OSError, what actually lands on disk for
   * given bytes (the identity on a sound medium), and the gzip encoding.
   */
  datatype DestEnv = DestEnv(
    mkdirFails: set<string>,
    writeFails: set<string>,
    unlinkFails: set<string>,
    store: Content -> Content,
    gzip: Content -> Content)

  /** The run's settings: the source's own name, `-c`, `-n`, `-a`, and the environment. */
  datatype Config = Config(
    sourceName: string,
    compress: bool,
    dryRun: bool,
    algorithm: string,
    env: DestEnv,
    hasher: Hasher)

  // ---------------------------------------------------------------------
  // File collection

  /** A file reached by the walk: full path (the string the exclusion test reads), source-relative path, and the directories entered to reach it. */
  datatype Candidate = Candidate(path: string, rel: string, stat: FileStat, dirs: seq<string>)

  function JoinPath(dir: string, name: string): string {
    dir + "/" + name
  }

  function JoinRel(relDir: string, name: string): string {
    if relDir == "" then name else relDir + "/" + name
  }

  /**
   * `os.walk` top-down with the in-place pruning of `dirs`: the files listed
   * in this directory (all of them; the caller filters), then the walk of
   * every subdirectory that is not excluded.  A directory that cannot be
   * listed contributes nothing (os.walk ignores the error).
   */
  function Walk(dir: string, relDir: string, children: seq<FsNode>, patterns: seq<string>): seq<Candidate>
    decreases children, 1
  {
    LevelFiles(dir, relDir, children) + SubWalks(dir, relDir, children, patterns)
  }

  function LevelFiles(dir: string, relDir: string, children: seq<FsNode>): seq<Candidate>
  {
    if children == [] then []
    else
      var rest := LevelFiles(dir, relDir, children[1..]);
      match children[0]
      case File(name, stat) => [Candidate(JoinPath(dir, name), JoinRel(relDir, name), stat, [])] + rest
      case Dir(_, _, _) => rest
  }

  function SubWalks(dir: string, relDir: string, children: seq<FsNode>, patterns: seq<string>): seq<Candidate>
    decreases children, 0
  {
    if children == [] then []
    else
      var rest := SubWalks(dir, relDir, children[1..], patterns);
      match children[0]
      case File(_, _) => rest
      case Dir(name, sub, readable) =>
        var path := JoinPath(dir, name);
        if ShouldExclude(patterns, path) || !readable then rest
        else EnterDir(path, Walk(path, JoinRel(relDir, name), sub, patterns)) + rest
  }

  /** Records that `d` was entered on the way to each candidate. */
  function EnterDir(d: string, cs: seq<Candidate>): (r: seq<Candidate>)
    ensures |r| == |cs|
    ensures forall i :: 0 <= i < |cs| ==> r[i] == cs[i].(dirs := [d] + cs[i].dirs)
  {
    if cs == [] then [] else [cs[0].(dirs := [d] + cs[0].dirs)] + EnterDir(d, cs[1..])
  }

  /** What the walk of the source yields before the per-file exclusion test. */
  function Walked(source: string, tree: FsNode, patterns: seq<string>): seq<Candidate>
    requires tree.Dir?
  {
    if tree.readable then Walk(source, "", tree.children, patterns) else []
  }

  /** Keeps the walked files that are not excluded (the loop body of `_collect_files`). */
  function KeepIncluded(cs: seq<Candidate>, patterns: seq<string>): seq<Candidate>
  {
    if cs == [] then []
    else if ShouldExclude(patterns, cs[0].path) then KeepIncluded(cs[1..], patterns)
    else [cs[0]] + KeepIncluded(cs[1..], patterns)
  }

  /** The candidate list `_collect_files` returns. */
  function Collected(source: string, tree: FsNode, patterns: seq<string>): seq<Candidate>
  {
    match tree
    case File(_, stat) => [Candidate(source, ".", stat, [])]
    case Dir(_, _, _) => KeepIncluded(Walked(source, tree, patterns), patterns)
  }

  /** The total size of some candidates. */
  function SizeSum(cs: seq<Candidate>): nat {
    if cs == [] then 0 else cs[0].stat.size + SizeSum(cs[1..])
  }

  lemma {:induction false} SizeSumAppend(a: seq<Candidate>, b: seq<Candidate>)
    ensures SizeSum(a + b) == SizeSum(a) + SizeSum(b)
  {
    if a == [] {
      assert a + b == b;
    } else {
      assert (a + b)[1..] == a[1..] + b;
      SizeSumAppend(a[1..], b);
    }
  }

  /** A regular-file source is returned alone, unfiltered. */
  lemma CollectedSingleFile(source: string, tree: FsNode, patterns: seq<string>)
    requires tree.File?
    ensures Collected(source, tree, patterns) == [Candidate(source, ".", tree.stat, [])]
  {
  }

  lemma {:induction false} KeepIncludedSound(cs: seq<Candidate>, patterns: seq<string>)
    ensures forall c :: c in KeepIncluded(cs, patterns) ==> c in cs && !ShouldExclude(patterns, c.path)
    ensures forall c :: c in cs && !ShouldExclude(patterns, c.path) ==> c in KeepIncluded(cs, patterns)
  {
    if cs != [] {
      KeepIncludedSound(cs[1..], patterns);
      assert forall c :: c in cs ==> c == cs[0] || c in cs[1..];
    }
  }

  /** Every walked file lies below `dir`, and below every directory recorded as entered; no entered directory is excluded. */
  ghost predicate WellPlaced(dir: string, patterns: seq<string>, c: Candidate) {
    && IsPrefix(dir + "/", c.path)
    && forall k :: 0 <= k < |c.dirs| ==> !ShouldExclude(patterns, c.dirs[k]) && IsPrefix(c.dirs[k] + "/", c.path)
  }

  lemma PrefixTransitive(a: string, b: string, c: string)
    requires IsPrefix(a, b) && IsPrefix(b, c)
    ensures IsPrefix(a, c)
  {
    assert c[..|a|] == c[..|b|][..|a|];
  }

  lemma JoinHasPrefix(dir: string, name: string)
    ensures IsPrefix(dir + "/", JoinPath(dir, name))
  {
    assert JoinPath(dir, name) == (dir + "/") + name;
  }

  lemma {:induction false} LevelFilesPlaced(dir: string, relDir: string, children: seq<FsNode>, patterns: seq<string>)
    ensures forall c :: c in LevelFiles(dir, relDir, children) ==> WellPlaced(dir, patterns, c)
  {
    if children != [] {
      LevelFilesPlaced(dir, relDir, children[1..], patterns);
      if children[0].File? { JoinHasPrefix(dir, children[0].name); }
    }
  }

  lemma {:induction false} WalkPlaced(dir: string, relDir: string, children: seq<FsNode>, patterns: seq<string>)
    ensures forall c :: c in Walk(dir, relDir, children, patterns) ==> WellPlaced(dir, patterns, c)
    decreases children, 1
  {
    LevelFilesPlaced(dir, relDir, children, patterns);
    SubWalksPlaced(dir, relDir, children, patterns);
  }

  lemma {:induction false} SubWalksPlaced(dir: string, relDir: string, children: seq<FsNode>, patterns: seq<string>)
    ensures forall c :: c in SubWalks(dir, relDir, children, patterns) ==> WellPlaced(dir, patterns, c)
    decreases children, 0
  {
    if children != [] {
      SubWalksPlaced(dir, relDir, children[1..], patterns);
      match children[0]
      case File(_, _) =>
      case Dir(name, sub, readable) =>
        var path := JoinPath(dir, name);
        if !ShouldExclude(patterns, path) && readable {
          var inner := Walk(path, JoinRel(relDir, name), sub, patterns);
          WalkPlaced(path, JoinRel(relDir, name), sub, patterns);
          JoinHasPrefix(dir, name);
          var entered := EnterDir(path, inner);
          forall c | c in entered ensures WellPlaced(dir, patterns, c) {
            var i :| 0 <= i < |entered| && entered[i] == c;
            assert WellPlaced(path, patterns, inner[i]);
            PrefixTransitive(dir + "/", path + "/", c.path);
            assert IsPrefix(path + "/", c.path);
            forall k | 0 <= k < |c.dirs|
              ensures !ShouldExclude(patterns, c.dirs[k]) && IsPrefix(c.dirs[k] + "/", c.path)
            {
              if k > 0 { assert c.dirs[k] == inner[i].dirs[k - 1]; }
            }
          }
        }
    }
  }

  /**
   * `_collect_files` on a directory: no returned file is excluded, and every
   * directory the walk entered to reach a returned file (a proper ancestor of
   * it) passes the exclusion test, so nothing below an excluded directory is
   * returned.
   */
  lemma CollectedNotExcluded(source: string, tree: FsNode, patterns: seq<string>)
    requires tree.Dir?
    ensures forall c :: c in Collected(source, tree, patterns) ==>
      && !ShouldExclude(patterns, c.path)
      && IsPrefix(source + "/", c.path)
      && forall k :: 0 <= k < |c.dirs| ==> !ShouldExclude(patterns, c.dirs[k]) && IsPrefix(c.dirs[k] + "/", c.path)
  {
    var walked := Walked(source, tree, patterns);
    if tree.readable { WalkPlaced(source, "", tree.children, patterns); }
    KeepIncludedSound(walked, patterns);
  }

  // ---------------------------------------------------------------------
  // Digests

  /** `_hash_file`: the record for a candidate, nothing for an excluded one, or a failure. */
  datatype HashResult = Hashed(fh: FileHash) | Excluded | HashFailed

  function HashOutcome(c: Candidate, patterns: seq<string>, h: Hasher): HashResult
  {
    if ShouldExclude(patterns, c.path) then Excluded
    else if !c.stat.readable then HashFailed
    else Hashed(FileHash(c.rel, c.stat.size, c.stat.mtime, h.md5(c.stat.content), h.sha256(c.stat.content)))
  }

  /**
   * `_calculate_hash`: reads the content in chunks of at most 64 KiB and feeds
   * every chunk to both digests; the digests are those of the whole content.
   */
  method CalculateHash(h: Hasher, content: Content) returns (md5: Digest, sha256: Digest)
    ensures md5 == h.md5(content) && sha256 == h.sha256(content)
  {
    var fed: Content := [];
    var pos := 0;
    while pos < |content|
      invariant 0 <= pos <= |content|
      invariant fed == content[..pos]
    {
      var end := if |content| - pos < ChunkSize then |content| else pos + ChunkSize;
      var chunk := content[pos..end];
      assert 0 < |chunk| <= ChunkSize;
      fed := fed + chunk;
      pos := end;
    }
    assert fed == content;
    md5, sha256 := h.md5(fed), h.sha256(fed);
  }

  // ---------------------------------------------------------------------
  // Change detection

  function Abs(x: int): nat {
    if x < 0 then -x else x
  }

  /** The digest the configured algorithm selects: `md5` for "md5", SHA-256 for anything else. */
  function SelectedDigest(algorithm: string, fh: FileHash): Digest {
    if algorithm == "md5" then fh.md5 else fh.sha256
  }

  /** `_needs_backup`: new file, then size, then mtime beyond 1 ms, then the selected digest. */
  predicate NeedsBackup(fh: FileHash, previous: map<string, FileHash>, algorithm: string) {
    if fh.path !in previous then true
    else
      var prev := previous[fh.path];
      if prev.size != fh.size then true
      else if Abs(prev.mtime - fh.mtime) > MtimeTolerance then true
      else if algorithm == "md5" then prev.md5 != fh.md5
      else prev.sha256 != fh.sha256
  }

  /** The decision, stated as the precedence of its four checks. */
  lemma NeedsBackupDecision(fh: FileHash, previous: map<string, FileHash>, algorithm: string)
    ensures fh.path !in previous ==> NeedsBackup(fh, previous, algorithm)
    ensures fh.path in previous && previous[fh.path].size != fh.size ==> NeedsBackup(fh, previous, algorithm)
    ensures fh.path in previous && Abs(previous[fh.path].mtime - fh.mtime) > MtimeTolerance ==> NeedsBackup(fh, previous, algorithm)
    ensures fh.path in previous && previous[fh.path].size == fh.size && Abs(previous[fh.path].mtime - fh.mtime) <= MtimeTolerance ==>
      (NeedsBackup(fh, previous, algorithm) <==> SelectedDigest(algorithm, previous[fh.path]) != SelectedDigest(algorithm, fh))
  {
  }

  /** A record identical to its previous-table entry is never selected. */
  lemma UnchangedNotSelected(fh: FileHash, previous: map<string, FileHash>, algorithm: string)
    requires fh.path in previous && previous[fh.path] == fh
    ensures !NeedsBackup(fh, previous, algorithm)
  {
  }

  /** Metadata within tolerance and an equal selected digest mean "skip"; the other digest is never consulted. */
  lemma OtherDigestIgnored(fh: FileHash, previous: map<string, FileHash>, algorithm: string)
    requires fh.path in previous
    requires previous[fh.path].size == fh.size && Abs(previous[fh.path].mtime - fh.mtime) <= MtimeTolerance
    requires SelectedDigest(algorithm, previous[fh.path]) == SelectedDigest(algorithm, fh)
    ensures !NeedsBackup(fh, previous, algorithm)
  {
  }

  /** The records selected for copying, in the order of the current table. */
  function ToBackup(order: seq<string>, current: map<string, FileHash>, previous: map<string, FileHash>, algorithm: string): seq<FileHash>
    requires forall p :: p in order ==> p in current
  {
    if order == [] then []
    else
      var rest := ToBackup(order[1..], current, previous, algorithm);
      if NeedsBackup(current[order[0]], previous, algorithm) then [current[order[0]]] + rest else rest
  }

  /** The records the change detector skips. */
  function Unchanged(order: seq<string>, current: map<string, FileHash>, previous: map<string, FileHash>, algorithm: string): (r: seq<FileHash>)
    requires forall p :: p in order ==> p in current
  {
    if order == [] then []
    else
      var rest := Unchanged(order[1..], current, previous, algorithm);
      if NeedsBackup(current[order[0]], previous, algorithm) then rest else [current[order[0]]] + rest
  }

  /** `fh` is the record of some key of `order`. */
  ghost predicate InTable(fh: FileHash, order: seq<string>, current: map<string, FileHash>)
    requires forall p :: p in order ==> p in current
  {
    exists k :: 0 <= k < |order| && current[order[k]] == fh
  }

  /** The selected records are exactly the table's records that need a backup; the skipped ones are those that do not. */
  lemma {:induction false} SelectionSound(order: seq<string>, current: map<string, FileHash>, previous: map<string, FileHash>, algorithm: string)
    requires forall p :: p in order ==> p in current
    ensures forall fh :: fh in ToBackup(order, current, previous, algorithm) <==>
      InTable(fh, order, current) && NeedsBackup(fh, previous, algorithm)
    ensures forall fh :: fh in Unchanged(order, current, previous, algorithm) <==>
      InTable(fh, order, current) && !NeedsBackup(fh, previous, algorithm)
  {
    if order != [] {
      SelectionSound(order[1..], current, previous, algorithm);
      forall fh ensures InTable(fh, order, current) <==> current[order[0]] == fh || InTable(fh, order[1..], current) {
        if InTable(fh, order, current) {
          var k :| 0 <= k < |order| && current[order[k]] == fh;
          if k > 0 { assert current[order[1..][k - 1]] == fh; }
        }
        if InTable(fh, order[1..], current) {
          var k :| 0 <= k < |order[1..]| && current[order[1..][k]] == fh;
          assert current[order[k + 1]] == fh;
        }
      }
    }
  }

  /** Every record is either selected or skipped: `files_skipped` counts exactly the unchanged records. */
  lemma {:induction false} SelectionPartition(order: seq<string>, current: map<string, FileHash>, previous: map<string, FileHash>, algorithm: string)
    requires forall p :: p in order ==> p in current
    ensures |ToBackup(order, current, previous, algorithm)| + |Unchanged(order, current, previous, algorithm)| == |order|
  {
    if order != [] { SelectionPartition(order[1..], current, previous, algorithm); }
  }

  /** Idempotence: against a previous table equal to the current one, nothing is selected. */
  lemma {:induction false} SecondRunSelectsNothing(order: seq<string>, current: map<string, FileHash>, algorithm: string)
    requires forall p :: p in order ==> p in current && current[p].path == p
    ensures ToBackup(order, current, current, algorithm) == []
  {
    if order != [] {
      UnchangedNotSelected(current[order[0]], current, algorithm);
      SecondRunSelectsNothing(order[1..], current, algorithm);
    }
  }

  /** With an empty previous table (what `run` actually consults), every record is selected. */
  lemma {:induction false} EmptyPreviousSelectsAll(order: seq<string>, current: map<string, FileHash>, algorithm: string)
    requires forall p :: p in order ==> p in current
    ensures |ToBackup(order, current, map[], algorithm)| == |order|
  {
    if order != [] { EmptyPreviousSelectsAll(order[1..], current, algorithm); }
  }

  // ---------------------------------------------------------------------
  // Copying

  /** The destination path `_backup_file` writes: ".gz" is appended iff compression is on and the file exceeds 1 KiB. */
  function WrittenName(rel: string, size: nat, compress: bool): (r: string)
    ensures r == rel + ".gz" <==> compress && size > CompressThreshold
    ensures !(compress && size > CompressThreshold) ==> r == rel
  {
    if compress && size > CompressThreshold then rel + ".gz" else rel
  }

  /** The result of one `_backup_file` call: its return value and the destination afterwards. */
  datatype CopyResult = CopyResult(ok: bool, files: map<string, Content>, dirs: set<string>)

  /**
   * The directory part of a destination-relative path ("" for the
   * destination root): the prefix before the last `/`.
   */
  function ParentDir(rel: string): (r: string)
    ensures IsPrefix(r, rel) && (|rel| > 0 ==> |r| < |rel|)
    ensures r == "" || rel[|r|] == '/'
    ensures forall i :: |r| < i < |rel| ==> rel[i] != '/'
  {
    if |rel| == 0 then ""
    else if rel[|rel| - 1] == '/' then rel[..|rel| - 1]
    else ParentDir(rel[..|rel| - 1])
  }

  /**
   * The directories `mkdir(parents=True)` makes sure of for directory `d`:
   * `d` itself and every ancestor up to the destination root "".
   */
  function CreatedDirs(d: string): set<string>
    decreases |d|
  {
    if d == "" then {""} else {d} + CreatedDirs(ParentDir(d))
  }

  /** The created directories are the root, `d`, and every prefix of `d` that ends just before a `/`. */
  lemma {:induction false} CreatedDirsMeaning(d: string)
    ensures forall p :: p in CreatedDirs(d) <==> p == "" || p == d || (|p| < |d| && d[..|p|] == p && d[|p|] == '/')
    decreases |d|
  {
    if d != "" {
      var q := ParentDir(d);
      CreatedDirsMeaning(q);
      forall p ensures p in CreatedDirs(d) <==> p == "" || p == d || (|p| < |d| && d[..|p|] == p && d[|p|] == '/') {
        if |p| < |q| && q[..|p|] == p && q[|p|] == '/' {
          assert d[..|p|] == q[..|p|] && d[|p|] == q[|p|];
        }
        if |p| < |d| && d[..|p|] == p && d[|p|] == '/' && p != "" {
          assert |p| <= |q|;
          if |p| < |q| {
            assert q[..|p|] == d[..|p|] && q[|p|] == d[|p|];
          } else {
            assert p == d[..|q|] == q;
          }
        }
      }
    }
  }

  /**
   * `_backup_file`.  The parent directory is created first, with every
   * missing ancestor (`CreatedDirs`), even in dry-run, and a failure to
   * create it makes the call fail, also in dry-run.  In
   * dry-run nothing is written and the call otherwise succeeds.  Otherwise the
   * content is written (gzip-compressed under `WrittenName` when large and
   * compression is on) and then the destination is re-digested, at the
   * written name when compression is off but at the UNCOMPRESSED name when it
   * is on.  A write failure, a missing file to re-digest or a digest mismatch
   * makes the call fail.  The relative path "." (a single-file source)
   * denotes the destination directory itself: the copy lands under the
   * source's own name, and re-digesting a directory fails.
   */
  function CopyOutcome(cfg: Config, fh: FileHash, content: Content, files: map<string, Content>, dirs: set<string>): CopyResult
  {
    var parent := ParentDir(fh.path);
    var dirs' := dirs + CreatedDirs(parent);
    if parent in cfg.env.mkdirFails then CopyResult(false, files, dirs)
    else if cfg.dryRun then CopyResult(true, files, dirs')
    else if fh.path == "." then CopyResult(false, CopyIntoDestRoot(cfg, fh, content, files), dirs')
    else CopyAndCheck(cfg, fh, content, files, dirs')
  }

  /**
   * A parent directory that cannot be created fails the call with nothing
   * changed; otherwise it and its ancestors are recorded (even in dry
   * run); a dry run writes nothing and succeeds exactly when the parent
   * could be created;
   * otherwise (for a real relative path) exactly the written name is added
   * to the destination, or the call fails having written nothing.
   */
  lemma CopyOutcomeShape(cfg: Config, fh: FileHash, content: Content, files: map<string, Content>, dirs: set<string>)
    ensures var r := CopyOutcome(cfg, fh, content, files, dirs);
      && (ParentDir(fh.path) in cfg.env.mkdirFails ==> !r.ok && r.files == files && r.dirs == dirs)
      && (ParentDir(fh.path) !in cfg.env.mkdirFails ==> r.dirs == dirs + CreatedDirs(ParentDir(fh.path)))
      && (cfg.dryRun ==> r.files == files && (r.ok <==> ParentDir(fh.path) !in cfg.env.mkdirFails))
      && (!cfg.dryRun && fh.path != "." ==>
            || r.files.Keys == files.Keys + {WrittenName(fh.path, fh.size, cfg.compress)}
            || (!r.ok && r.files == files))
  {
  }

  /**
   * Copying a single-file source, whose relative path "." names the
   * destination directory itself: an uncompressed copy lands under the
   * source's own name inside it.  A compressed copy goes to `<dest>.gz`
   * beside the destination, which lies outside the modelled map, so the map
   * is unchanged.  (The parent created first is then the destination's own
   * parent, which the model records as "".)
   */
  function CopyIntoDestRoot(cfg: Config, fh: FileHash, content: Content, files: map<string, Content>): map<string, Content> {
    if cfg.compress && fh.size > CompressThreshold then files
    else if cfg.sourceName in cfg.env.writeFails then files
    else files[cfg.sourceName := cfg.env.store(content)]
  }

  /** The write under `WrittenName` and the re-digest of the checked path. */
  function CopyAndCheck(cfg: Config, fh: FileHash, content: Content, files: map<string, Content>, dirs: set<string>): CopyResult
    requires fh.path != "."
  {
    var name := WrittenName(fh.path, fh.size, cfg.compress);
    if name in cfg.env.writeFails then CopyResult(false, files, dirs)
    else
      var written := if name == fh.path then content else cfg.env.gzip(content);
      var files' := files[name := cfg.env.store(written)];
      var checked := if cfg.compress then fh.path else name;
      if checked !in files' then CopyResult(false, files', dirs)
      else CopyResult(DigestOf(cfg, files'[checked]) == SelectedDigest(cfg.algorithm, fh), files', dirs)
  }

  /**
   * For a real relative path outside dry run, the call succeeds exactly when
   * the parent can be created, the written name can be written, the checked
   * path exists afterwards and its digest is the record's: any write error,
   * missing file or digest mismatch returns False.
   */
  lemma CopySucceedsIff(cfg: Config, fh: FileHash, content: Content, files: map<string, Content>, dirs: set<string>)
    requires !cfg.dryRun && fh.path != "."
    ensures var name := WrittenName(fh.path, fh.size, cfg.compress);
      var written := if name == fh.path then content else cfg.env.gzip(content);
      var files' := files[name := cfg.env.store(written)];
      var checked := if cfg.compress then fh.path else name;
      CopyOutcome(cfg, fh, content, files, dirs).ok <==>
        && ParentDir(fh.path) !in cfg.env.mkdirFails
        && name !in cfg.env.writeFails
        && checked in files'
        && DigestOf(cfg, files'[checked]) == SelectedDigest(cfg.algorithm, fh)
  {
  }

  /** The configured algorithm's digest of some content. */
  function DigestOf(cfg: Config, c: Content): Digest {
    if cfg.algorithm == "md5" then cfg.hasher.md5(c) else cfg.hasher.sha256(c)
  }

  /** With compression off, a sound medium and a writable path, a record whose digests are those of the content is copied verbatim and succeeds. */
  lemma SoundCopySucceeds(cfg: Config, fh: FileHash, content: Content, files: map<string, Content>, dirs: set<string>)
    requires !cfg.compress && !cfg.dryRun
    requires fh.path != "." && fh.path !in cfg.env.writeFails
    requires ParentDir(fh.path) !in cfg.env.mkdirFails
    requires forall c :: cfg.env.store(c) == c
    requires fh.md5 == cfg.hasher.md5(content) && fh.sha256 == cfg.hasher.sha256(content)
    ensures CopyOutcome(cfg, fh, content, files, dirs).ok
    ensures CopyOutcome(cfg, fh, content, files, dirs).files == files[fh.path := content]
  {
  }

  /**
   * The post-copy check with compression on re-digests the uncompressed
   * name: a large file with no stale uncompressed copy there always fails,
   * although its compressed copy was written.
   */
  lemma CompressedCopyChecksWrongPath(cfg: Config, fh: FileHash, content: Content, files: map<string, Content>, dirs: set<string>)
    requires cfg.compress && !cfg.dryRun
    requires fh.path != "." && fh.size > CompressThreshold && fh.path !in files
    requires fh.path + ".gz" !in cfg.env.writeFails
    requires ParentDir(fh.path) !in cfg.env.mkdirFails
    ensures !CopyOutcome(cfg, fh, content, files, dirs).ok
    ensures fh.path + ".gz" in CopyOutcome(cfg, fh, content, files, dirs).files
  {
    assert fh.path + ".gz" != fh.path by {
      assert |fh.path + ".gz"| == |fh.path| + 3;
    }
  }

  /** A single-file source (relative path ".") is never reported as backed up outside dry-run. */
  lemma SingleFileCopyFails(cfg: Config, fh: FileHash, content: Content, files: map<string, Content>, dirs: set<string>)
    requires fh.path == "." && !cfg.dryRun
    ensures !CopyOutcome(cfg, fh, content, files, dirs).ok
  {
  }

  /** The copying phase: `_backup_file` on each selected record in turn, with the files that succeeded and one error per failure. */
  datatype CopyRun = CopyRun(backed: seq<FileHash>, errors: seq<BackupError>, files: map<string, Content>, dirs: set<string>)

  /** A run that already copied `backed` and failed `errors`, followed by `rest`. */
  function Glue(backed: seq<FileHash>, errors: seq<BackupError>, rest: CopyRun): CopyRun {
    CopyRun(backed + rest.backed, errors + rest.errors, rest.files, rest.dirs)
  }

  function CopyAll(cfg: Config, hs: seq<FileHash>, contents: map<string, Content>, files: map<string, Content>, dirs: set<string>): CopyRun
    requires forall fh :: fh in hs ==> fh.path in contents
  {
    if hs == [] then CopyRun([], [], files, dirs)
    else
      var one := CopyOutcome(cfg, hs[0], contents[hs[0].path], files, dirs);
      var rest := CopyAll(cfg, hs[1..], contents, one.files, one.dirs);
      if one.ok then CopyRun([hs[0]] + rest.backed, rest.errors, rest.files, rest.dirs)
      else CopyRun(rest.backed, [BackupFailed(hs[0].path)] + rest.errors, rest.files, rest.dirs)
  }

  /** One step of the copying fold: the first record's outcome, then the rest from the state it left. */
  lemma CopyAllStep(cfg: Config, hs: seq<FileHash>, contents: map<string, Content>,
                    files: map<string, Content>, dirs: set<string>, one: CopyResult)
    requires hs != [] && forall fh :: fh in hs ==> fh.path in contents
    requires one == CopyOutcome(cfg, hs[0], contents[hs[0].path], files, dirs)
    ensures var rest := CopyAll(cfg, hs[1..], contents, one.files, one.dirs);
      CopyAll(cfg, hs, contents, files, dirs)
        == if one.ok then Glue([hs[0]], [], rest) else Glue([], [BackupFailed(hs[0].path)], rest)
  {
  }

  /** Every selected record is either backed up or reported as failed. */
  lemma {:induction false} CopyAllCount(cfg: Config, hs: seq<FileHash>, contents: map<string, Content>,
                                        files: map<string, Content>, dirs: set<string>)
    requires forall fh :: fh in hs ==> fh.path in contents
    ensures |CopyAll(cfg, hs, contents, files, dirs).backed| + |CopyAll(cfg, hs, contents, files, dirs).errors| == |hs|
  {
    if hs != [] {
      var one := CopyOutcome(cfg, hs[0], contents[hs[0].path], files, dirs);
      CopyAllCount(cfg, hs[1..], contents, one.files, one.dirs);
    }
  }

  /** Every copied record was selected, in order, and every error names a selected record that failed. */
  lemma {:induction false} CopyAllShape(cfg: Config, hs: seq<FileHash>, contents: map<string, Content>,
                                        files: map<string, Content>, dirs: set<string>)
    requires forall fh :: fh in hs ==> fh.path in contents
    ensures multiset(CopyAll(cfg, hs, contents, files, dirs).backed) <= multiset(hs)
    ensures forall e :: e in CopyAll(cfg, hs, contents, files, dirs).errors ==> e.BackupFailed? && exists fh :: fh in hs && e.file == fh.path
  {
    if hs != [] {
      var one := CopyOutcome(cfg, hs[0], contents[hs[0].path], files, dirs);
      CopyAllShape(cfg, hs[1..], contents, one.files, one.dirs);
      assert hs == [hs[0]] + hs[1..];
    }
  }

  /** The records whose parent directory in the destination can be created. */
  function ParentCreatable(cfg: Config): FileHash -> bool {
    (fh: FileHash) => ParentDir(fh.path) !in cfg.env.mkdirFails
  }

  /** In dry-run the records backed up are those whose parent can be created, and no file is written. */
  lemma {:induction false} DryRunBacked(cfg: Config, hs: seq<FileHash>, contents: map<string, Content>,
                                        files: map<string, Content>, dirs: set<string>)
    requires cfg.dryRun
    requires forall fh :: fh in hs ==> fh.path in contents
    ensures CopyAll(cfg, hs, contents, files, dirs).backed == Filter(hs, ParentCreatable(cfg))
    ensures CopyAll(cfg, hs, contents, files, dirs).files == files
  {
    if hs != [] {
      var one := CopyOutcome(cfg, hs[0], contents[hs[0].path], files, dirs);
      var ok := ParentDir(hs[0].path) !in cfg.env.mkdirFails;
      CopyOutcomeShape(cfg, hs[0], contents[hs[0].path], files, dirs);
      CopyAllStep(cfg, hs, contents, files, dirs, one);
      DryRunBacked(cfg, hs[1..], contents, files, one.dirs);
      assert ParentCreatable(cfg)(hs[0]) == ok;
    }
  }

  /** In dry-run every copy error names a selected record whose parent cannot be created. */
  lemma {:induction false} DryRunErrors(cfg: Config, hs: seq<FileHash>, contents: map<string, Content>,
                                        files: map<string, Content>, dirs: set<string>)
    requires cfg.dryRun
    requires forall fh :: fh in hs ==> fh.path in contents
    ensures forall e :: e in CopyAll(cfg, hs, contents, files, dirs).errors ==>
      exists fh :: fh in hs && ParentDir(fh.path) in cfg.env.mkdirFails && e == BackupFailed(fh.path)
  {
    if hs != [] {
      var one := CopyOutcome(cfg, hs[0], contents[hs[0].path], files, dirs);
      CopyOutcomeShape(cfg, hs[0], contents[hs[0].path], files, dirs);
      DryRunErrors(cfg, hs[1..], contents, files, one.dirs);
      forall fh | fh in hs[1..] ensures fh in hs { }
    }
  }

  /**
   * In dry-run no file is written; a selected record counts as backed up
   * exactly when its parent directory can be created, and every other one
   * leaves one "Backup failed".  When every directory can be created, every
   * selected record counts and no error is recorded.
   */
  lemma DryRunCopiesNothing(cfg: Config, hs: seq<FileHash>, contents: map<string, Content>,
                            files: map<string, Content>, dirs: set<string>)
    requires cfg.dryRun
    requires forall fh :: fh in hs ==> fh.path in contents
    ensures CopyAll(cfg, hs, contents, files, dirs).backed == Filter(hs, ParentCreatable(cfg))
    ensures forall e :: e in CopyAll(cfg, hs, contents, files, dirs).errors ==>
      exists fh :: fh in hs && ParentDir(fh.path) in cfg.env.mkdirFails && e == BackupFailed(fh.path)
    ensures CopyAll(cfg, hs, contents, files, dirs).files == files
    ensures cfg.env.mkdirFails == {} ==>
      CopyAll(cfg, hs, contents, files, dirs).backed == hs && CopyAll(cfg, hs, contents, files, dirs).errors == []
  {
    DryRunBacked(cfg, hs, contents, files, dirs);
    DryRunErrors(cfg, hs, contents, files, dirs);
    if cfg.env.mkdirFails == {} {
      FilterKeepsAll(hs, ParentCreatable(cfg));
      CopyAllCount(cfg, hs, contents, files, dirs);
    }
  }

  /** The total size of some records. */
  function ByteSum(hs: seq<FileHash>): nat {
    if hs == [] then 0 else hs[0].size + ByteSum(hs[1..])
  }

  lemma {:induction false} ByteSumAppend(a: seq<FileHash>, b: seq<FileHash>)
    ensures ByteSum(a + b) == ByteSum(a) + ByteSum(b)
  {
    if a == [] {
      assert a + b == b;
    } else {
      assert (a + b)[1..] == a[1..] + b;
      ByteSumAppend(a[1..], b);
    }
  }

  // ---------------------------------------------------------------------
  // The hashing phase over all candidates

  /** The digest table of a run, the insertion order of its keys, and the source content read for each key. */
  datatype Tables = Tables(table: map<string, FileHash>, order: seq<string>, contents: map<string, Content>)

  /** `current_hashes[rel] = fh`: a new key goes to the end of the order, an existing key keeps its place. */
  function Store(t: Tables, fh: FileHash, content: Content): Tables {
    Tables(t.table[fh.path := fh], if fh.path in t.table then t.order else t.order + [fh.path], t.contents[fh.path := content])
  }

  /** The hashing phase: every record computed for a candidate is stored under its path, in candidate order. */
  function AddHashes(t: Tables, cs: seq<Candidate>, patterns: seq<string>, h: Hasher): Tables
    decreases cs
  {
    if cs == [] then t
    else
      var o := HashOutcome(cs[0], patterns, h);
      AddHashes(if o.Hashed? then Store(t, o.fh, cs[0].stat.content) else t, cs[1..], patterns, h)
  }

  /** One "Cannot hash" error per candidate that is not excluded but cannot be read, in order. */
  function HashErrors(cs: seq<Candidate>, patterns: seq<string>, h: Hasher): seq<BackupError>
  {
    if cs == [] then []
    else if HashOutcome(cs[0], patterns, h).HashFailed? then [CannotHash(cs[0].path)] + HashErrors(cs[1..], patterns, h)
    else HashErrors(cs[1..], patterns, h)
  }

  /** A path is a key after hashing exactly when it was one before or some readable, non-excluded candidate has it as relative path. */
  lemma {:induction false} AddHashesHas(t: Tables, cs: seq<Candidate>, patterns: seq<string>, h: Hasher, p: string)
    ensures p in AddHashes(t, cs, patterns, h).table
        <==> p in t.table || exists i :: 0 <= i < |cs| && cs[i].rel == p && HashOutcome(cs[i], patterns, h).Hashed?
    decreases cs
  {
    if cs != [] {
      var o := HashOutcome(cs[0], patterns, h);
      var t' := if o.Hashed? then Store(t, o.fh, cs[0].stat.content) else t;
      AddHashesHas(t', cs[1..], patterns, h, p);
      assert p in t'.table <==> p in t.table || (o.Hashed? && cs[0].rel == p);
      if exists i :: 0 <= i < |cs| && cs[i].rel == p && HashOutcome(cs[i], patterns, h).Hashed? {
        var i :| 0 <= i < |cs| && cs[i].rel == p && HashOutcome(cs[i], patterns, h).Hashed?;
        if i > 0 { assert cs[1..][i - 1] == cs[i]; }
      }
      if exists i :: 0 <= i < |cs[1..]| && cs[1..][i].rel == p && HashOutcome(cs[1..][i], patterns, h).Hashed? {
        var i :| 0 <= i < |cs[1..]| && cs[1..][i].rel == p && HashOutcome(cs[1..][i], patterns, h).Hashed?;
        assert cs[i + 1] == cs[1..][i];
      }
    }
  }

  /** Every stored record sits under its own path. */
  lemma {:induction false} AddHashesPaths(t: Tables, cs: seq<Candidate>, patterns: seq<string>, h: Hasher)
    requires forall p :: p in t.table ==> t.table[p].path == p
    ensures var r := AddHashes(t, cs, patterns, h).table;
      forall p :: p in r ==> r[p].path == p
    decreases cs
  {
    if cs != [] {
      var o := HashOutcome(cs[0], patterns, h);
      var t' := if o.Hashed? then Store(t, o.fh, cs[0].stat.content) else t;
      assert forall p :: p in t'.table ==> t'.table[p].path == p;
      AddHashesPaths(t', cs[1..], patterns, h);
      assert AddHashes(t, cs, patterns, h) == AddHashes(t', cs[1..], patterns, h);
    }
  }

  /** The table holds exactly the old keys plus the relative path of every readable, non-excluded candidate, each under its own path. */
  lemma AddHashesKeys(t: Tables, cs: seq<Candidate>, patterns: seq<string>, h: Hasher)
    requires forall p :: p in t.table ==> t.table[p].path == p
    ensures var r := AddHashes(t, cs, patterns, h).table;
      && (forall p :: p in r <==> p in t.table || exists i :: 0 <= i < |cs| && cs[i].rel == p && HashOutcome(cs[i], patterns, h).Hashed?)
      && (forall p :: p in r ==> r[p].path == p)
  {
    forall p ensures p in AddHashes(t, cs, patterns, h).table
        <==> p in t.table || exists i :: 0 <= i < |cs| && cs[i].rel == p && HashOutcome(cs[i], patterns, h).Hashed? {
      AddHashesHas(t, cs, patterns, h, p);
    }
    AddHashesPaths(t, cs, patterns, h);
  }

  /** A digest table keyed by its records' paths, with an order listing each key once and the source content of every key. */
  ghost predicate TableValid(t: Tables) {
    && Distinct(t.order)
    && (forall p :: p in t.order <==> p in t.table)
    && (forall p :: p in t.table ==> t.table[p].path == p && p in t.contents)
  }

  predicate IsPrefixSeq<T(==)>(a: seq<T>, b: seq<T>) {
    |a| <= |b| && b[..|a|] == a
  }

  lemma StoreValid(t: Tables, fh: FileHash, content: Content)
    requires TableValid(t)
    ensures TableValid(Store(t, fh, content))
    ensures IsPrefixSeq(t.order, Store(t, fh, content).order)
  {
    if fh.path !in t.table {
      var o := t.order + [fh.path];
      forall i, j | 0 <= i < j < |o| ensures o[i] != o[j] {
        if j == |t.order| { assert o[i] in t.order; }
      }
    }
  }

  /** Hashing keeps the table valid and only appends to its order. */
  lemma {:induction false} AddHashesValid(t: Tables, cs: seq<Candidate>, patterns: seq<string>, h: Hasher)
    requires TableValid(t)
    ensures TableValid(AddHashes(t, cs, patterns, h))
    ensures IsPrefixSeq(t.order, AddHashes(t, cs, patterns, h).order)
    decreases cs
  {
    if cs != [] {
      var o := HashOutcome(cs[0], patterns, h);
      var t' := if o.Hashed? then Store(t, o.fh, cs[0].stat.content) else t;
      if o.Hashed? { StoreValid(t, o.fh, cs[0].stat.content); }
      AddHashesValid(t', cs[1..], patterns, h);
      var r := AddHashes(t, cs, patterns, h).order;
      assert r == AddHashes(t', cs[1..], patterns, h).order;
      assert r[..|t'.order|] == t'.order;
      assert r[..|t.order|] == r[..|t'.order|][..|t.order|];
    }
  }

  // ---------------------------------------------------------------------
  // Pruning

  /** The destination artifact the pruner looks for: ".gz" is appended whenever compression is on (whatever the size). */
  function PrunedName(rel: string, compress: bool): string {
    if compress then rel + ".gz" else rel
  }

  lemma PrunedNameInjective(a: string, b: string, compress: bool)
    requires PrunedName(a, compress) == PrunedName(b, compress)
    ensures a == b
  {
    if compress {
      assert |a| == |b|;
      assert a == (a + ".gz")[..|a|];
    }
  }

  /** Previous paths absent from the current table. */
  function Stale(previous: map<string, FileHash>, current: map<string, FileHash>): set<string> {
    previous.Keys - current.Keys
  }

  /** The stale paths whose unlink raises: only outside dry-run and only for an artifact that exists. */
  function UnlinkFailures(stale: set<string>, compress: bool, dryRun: bool, env: DestEnv, files: map<string, Content>): (r: set<string>)
    ensures r <= stale
    ensures dryRun ==> r == {}
  {
    set p | p in stale && !dryRun && PrunedName(p, compress) in files && PrunedName(p, compress) in env.unlinkFails
  }

  /** The destination names of some pruned paths. */
  function PrunedNames(ps: set<string>, compress: bool): set<string> {
    set p | p in ps :: PrunedName(p, compress)
  }

  /** The stale paths whose artifact the pruner deletes. */
  function Unlinked(stale: set<string>, compress: bool, dryRun: bool, env: DestEnv, files: map<string, Content>): (r: set<string>)
    ensures r <= stale
    ensures dryRun ==> r == {}
    ensures r !! UnlinkFailures(stale, compress, dryRun, env, files)
  {
    set p | p in stale && !dryRun && PrunedName(p, compress) in files && PrunedName(p, compress) !in env.unlinkFails
  }

  /** The "Cannot remove" errors of the pruner: one for each failed path and nothing else. */
  predicate RemovalErrors(errs: seq<BackupError>, failed: set<string>) {
    && |errs| == |failed|
    && (forall e :: e in errs ==> e.CannotRemove? && e.file in failed)
    && (forall p :: p in failed ==> CannotRemove(p) in errs)
  }

  /** A path not yet pruned has a destination name no earlier path had. */
  lemma PrunedNameFresh(done: set<string>, p: string, compress: bool)
    requires p !in done
    ensures PrunedName(p, compress) !in PrunedNames(done, compress)
  {
    if PrunedName(p, compress) in PrunedNames(done, compress) {
      var q :| q in done && PrunedName(q, compress) == PrunedName(p, compress);
      PrunedNameInjective(q, p, compress);
    }
  }

  lemma PrunedNamesAdd(done: set<string>, p: string, compress: bool)
    ensures PrunedNames(done + {p}, compress) == PrunedNames(done, compress) + {PrunedName(p, compress)}
  {
  }

  /** The result of the pruner: its count, the destination afterwards, and the errors it appended. */
  datatype PruneRun = PruneRun(removed: nat, files: map<string, Content>, errors: seq<BackupError>)

  /** `_remove_deleted_files` over the previous table's keys in order. */
  function PruneAll(order: seq<string>, current: set<string>, compress: bool, dryRun: bool,
                    env: DestEnv, files: map<string, Content>): PruneRun
  {
    if order == [] then PruneRun(0, files, [])
    else
      var p := order[0];
      var name := PrunedName(p, compress);
      if p in current then PruneAll(order[1..], current, compress, dryRun, env, files)
      else if !dryRun && name in files then
        if name in env.unlinkFails then
          var r := PruneAll(order[1..], current, compress, dryRun, env, files);
          r.(errors := [CannotRemove(p)] + r.errors)
        else
          var r := PruneAll(order[1..], current, compress, dryRun, env, files - {name});
          r.(removed := r.removed + 1)
      else
        var r := PruneAll(order[1..], current, compress, dryRun, env, files);
        r.(removed := r.removed + 1)
  }

  /** A dry run removes nothing: it only counts what it would remove. */
  lemma {:induction false} DryRunPrunesNothing(order: seq<string>, current: set<string>, compress: bool,
                                               env: DestEnv, files: map<string, Content>)
    ensures PruneAll(order, current, compress, true, env, files).files == files
  {
    if order != [] {
      DryRunPrunesNothing(order[1..], current, compress, env, files);
    }
  }

  /** An artifact of a path outside `ps` is not touched by pruning `ps`. */
  lemma {:induction false} PruneAllKeepsOthers(order: seq<string>, current: set<string>, compress: bool, dryRun: bool,
                                               env: DestEnv, files: map<string, Content>, q: string)
    requires q !in order
    ensures var r := PruneAll(order, current, compress, dryRun, env, files);
      (PrunedName(q, compress) in r.files <==> PrunedName(q, compress) in files)
  {
    if order != [] {
      var name := PrunedName(order[0], compress);
      if name == PrunedName(q, compress) { PrunedNameInjective(order[0], q, compress); }
      PruneAllKeepsOthers(order[1..], current, compress, dryRun, env, files, q);
      PruneAllKeepsOthers(order[1..], current, compress, dryRun, env, files - {name}, q);
    }
  }

  /** The stale paths of a key order. */
  function StaleOf(order: seq<string>, current: set<string>): set<string> {
    (set p | p in order) - current
  }

  /** Deleting the artifact of the first key changes nothing the later keys see. */
  lemma SameForLaterKeys(p: string, stale: set<string>, compress: bool, dryRun: bool, env: DestEnv, files: map<string, Content>)
    requires p !in stale
    ensures var files' := files - {PrunedName(p, compress)};
      && UnlinkFailures(stale, compress, dryRun, env, files') == UnlinkFailures(stale, compress, dryRun, env, files)
      && Unlinked(stale, compress, dryRun, env, files') == Unlinked(stale, compress, dryRun, env, files)
  {
    forall q | q in stale ensures (PrunedName(q, compress) in files - {PrunedName(p, compress)}) <==> (PrunedName(q, compress) in files) {
      if PrunedName(q, compress) == PrunedName(p, compress) { PrunedNameInjective(q, p, compress); }
    }
  }

  /** Splitting off the first key of a distinct order. */
  lemma StaleSplit(order: seq<string>, current: set<string>)
    requires Distinct(order) && order != []
    ensures Distinct(order[1..]) && order[0] !in StaleOf(order[1..], current)
    ensures StaleOf(order, current) == StaleOf(order[1..], current) + (if order[0] in current then {} else {order[0]})
  {
    assert (set q | q in order) == (set q | q in order[1..]) + {order[0]};
  }

  /** Adding one stale path adds it to the failures exactly when its unlink raises. */
  lemma FailuresStep(p: string, stale: set<string>, compress: bool, dryRun: bool, env: DestEnv, files: map<string, Content>)
    requires p !in stale
    ensures var name := PrunedName(p, compress);
      UnlinkFailures(stale + {p}, compress, dryRun, env, files)
        == UnlinkFailures(stale, compress, dryRun, env, files) + (if !dryRun && name in files && name in env.unlinkFails then {p} else {})
  {
  }

  /** Counting what the first key of a distinct order adds to the stale paths and to the failures. */
  lemma StaleCardStep(order: seq<string>, current: set<string>, compress: bool, dryRun: bool,
                      env: DestEnv, files: map<string, Content>)
    requires Distinct(order) && order != [] && order[0] !in current
    ensures var name := PrunedName(order[0], compress);
      && |StaleOf(order, current)| == |StaleOf(order[1..], current)| + 1
      && |UnlinkFailures(StaleOf(order, current), compress, dryRun, env, files)|
         == |UnlinkFailures(StaleOf(order[1..], current), compress, dryRun, env, files)|
            + (if !dryRun && name in files && name in env.unlinkFails then 1 else 0)
  {
    StaleSplit(order, current);
    var staleT := StaleOf(order[1..], current);
    FailuresStep(order[0], staleT, compress, dryRun, env, files);
    assert order[0] !in UnlinkFailures(staleT, compress, dryRun, env, files);
  }

  /** Over distinct keys, every stale path is counted as removed except those whose unlink raises. */
  lemma {:induction false} PruneAllCount(order: seq<string>, current: set<string>, compress: bool, dryRun: bool,
                                         env: DestEnv, files: map<string, Content>)
    requires Distinct(order)
    ensures PruneAll(order, current, compress, dryRun, env, files).removed
         == |StaleOf(order, current)| - |UnlinkFailures(StaleOf(order, current), compress, dryRun, env, files)|
  {
    if order == [] {
      assert StaleOf(order, current) == {};
    } else {
      var p, name := order[0], PrunedName(order[0], compress);
      StaleSplit(order, current);
      if p in current {
        assert StaleOf(order, current) == StaleOf(order[1..], current);
        PruneAllCount(order[1..], current, compress, dryRun, env, files);
      } else {
        StaleCardStep(order, current, compress, dryRun, env, files);
        if !dryRun && name in files && name !in env.unlinkFails {
          SameForLaterKeys(p, StaleOf(order[1..], current), compress, dryRun, env, files);
          PruneAllCount(order[1..], current, compress, dryRun, env, files - {name});
        } else {
          PruneAllCount(order[1..], current, compress, dryRun, env, files);
        }
      }
    }
  }

  /** Over distinct keys, exactly the artifacts of the unlinked paths leave the destination. */
  lemma {:induction false} PruneAllFiles(order: seq<string>, current: set<string>, compress: bool, dryRun: bool,
                                         env: DestEnv, files: map<string, Content>)
    requires Distinct(order)
    ensures PruneAll(order, current, compress, dryRun, env, files).files
         == files - PrunedNames(Unlinked(StaleOf(order, current), compress, dryRun, env, files), compress)
  {
    if order == [] {
      assert StaleOf(order, current) == {};
    } else {
      var p, name := order[0], PrunedName(order[0], compress);
      StaleSplit(order, current);
      var staleT := StaleOf(order[1..], current);
      SameForLaterKeys(p, staleT, compress, dryRun, env, files);
      PruneAllFiles(order[1..], current, compress, dryRun, env, files);
      PruneAllFiles(order[1..], current, compress, dryRun, env, files - {name});
      var unlT := Unlinked(staleT, compress, dryRun, env, files);
      var unl := Unlinked(StaleOf(order, current), compress, dryRun, env, files);
      if p !in current && !dryRun && name in files && name !in env.unlinkFails {
        assert unl == unlT + {p};
        PrunedNamesAdd(unlT, p, compress);
      } else {
        assert unl == unlT;
      }
    }
  }

  /** The failures over a distinct order: those of its tail, plus the first key when its unlink raises. */
  lemma FailuresSplit(order: seq<string>, current: set<string>, compress: bool, dryRun: bool,
                      env: DestEnv, files: map<string, Content>)
    requires Distinct(order) && order != [] && order[0] !in current
    ensures var name := PrunedName(order[0], compress);
      var failT := UnlinkFailures(StaleOf(order[1..], current), compress, dryRun, env, files);
      && order[0] !in failT
      && UnlinkFailures(StaleOf(order, current), compress, dryRun, env, files)
         == failT + (if !dryRun && name in files && name in env.unlinkFails then {order[0]} else {})
  {
    StaleSplit(order, current);
    FailuresStep(order[0], StaleOf(order[1..], current), compress, dryRun, env, files);
  }

  /** One more failed path puts one more "Cannot remove" error in front. */
  lemma RemovalErrorsCons(errs: seq<BackupError>, failed: set<string>, p: string)
    requires RemovalErrors(errs, failed) && p !in failed
    ensures RemovalErrors([CannotRemove(p)] + errs, failed + {p})
  {
  }

  /** Over distinct keys, the pruner reports exactly the stale paths whose unlink raises. */
  lemma {:induction false} PruneAllErrors(order: seq<string>, current: set<string>, compress: bool, dryRun: bool,
                                          env: DestEnv, files: map<string, Content>)
    requires Distinct(order)
    ensures RemovalErrors(PruneAll(order, current, compress, dryRun, env, files).errors,
                          UnlinkFailures(StaleOf(order, current), compress, dryRun, env, files))
  {
    if order == [] {
      assert StaleOf(order, current) == {};
    } else {
      var p, name := order[0], PrunedName(order[0], compress);
      StaleSplit(order, current);
      if p in current {
        assert StaleOf(order, current) == StaleOf(order[1..], current);
        PruneAllErrors(order[1..], current, compress, dryRun, env, files);
      } else {
        FailuresSplit(order, current, compress, dryRun, env, files);
        var failT := UnlinkFailures(StaleOf(order[1..], current), compress, dryRun, env, files);
        if !dryRun && name in files && name !in env.unlinkFails {
          SameForLaterKeys(p, StaleOf(order[1..], current), compress, dryRun, env, files);
          PruneAllErrors(order[1..], current, compress, dryRun, env, files - {name});
        } else if !dryRun && name in files {
          PruneAllErrors(order[1..], current, compress, dryRun, env, files);
          RemovalErrorsCons(PruneAll(order[1..], current, compress, dryRun, env, files).errors, failT, p);
        } else {
          PruneAllErrors(order[1..], current, compress, dryRun, env, files);
        }
      }
    }
  }

  /** `_remove_deleted_files`: the loop over the previous keys, as `PruneAll` describes. */
  method Prune(previousOrder: seq<string>, currentPaths: set<string>, compress: bool, dryRun: bool,
               env: DestEnv, files0: map<string, Content>)
    returns (removed: nat, files: map<string, Content>, added: seq<BackupError>)
    ensures PruneRun(removed, files, added) == PruneAll(previousOrder, currentPaths, compress, dryRun, env, files0)
  {
    files := files0;
    added := [];
    removed := 0;
    var i := 0;
    while i < |previousOrder|
      invariant 0 <= i <= |previousOrder|
      invariant var rest := PruneAll(previousOrder[i..], currentPaths, compress, dryRun, env, files);
        PruneAll(previousOrder, currentPaths, compress, dryRun, env, files0)
          == PruneRun(removed + rest.removed, rest.files, added + rest.errors)
    {
      var p := previousOrder[i];
      assert previousOrder[i..][1..] == previousOrder[i + 1..];
      if p !in currentPaths {
        var name := PrunedName(p, compress);
        if !dryRun && name in files {
          if name in env.unlinkFails {
            ghost var rest := PruneAll(previousOrder[i + 1..], currentPaths, compress, dryRun, env, files);
            assert added + ([CannotRemove(p)] + rest.errors) == (added + [CannotRemove(p)]) + rest.errors;
            added := added + [CannotRemove(p)];
          } else {
            files := files - {name};
            removed := removed + 1;
          }
        } else {
          removed := removed + 1;
        }
      }
      i := i + 1;
    }
    assert previousOrder[i..] == [];
  }

  /** `PruneAll` over a table's key order, stated on the stale set of that table. */
  lemma PruneMeaning(order: seq<string>, previous: map<string, FileHash>, current: map<string, FileHash>,
                     compress: bool, dryRun: bool, env: DestEnv, files: map<string, Content>)
    requires Distinct(order) && forall p :: p in order <==> p in previous
    ensures var stale := Stale(previous, current);
      var r := PruneAll(order, current.Keys, compress, dryRun, env, files);
      && r.removed == |stale| - |UnlinkFailures(stale, compress, dryRun, env, files)|
      && r.files == files - PrunedNames(Unlinked(stale, compress, dryRun, env, files), compress)
      && RemovalErrors(r.errors, UnlinkFailures(stale, compress, dryRun, env, files))
  {
    assert StaleOf(order, current.Keys) == Stale(previous, current);
    PruneAllCount(order, current.Keys, compress, dryRun, env, files);
    PruneAllFiles(order, current.Keys, compress, dryRun, env, files);
    PruneAllErrors(order, current.Keys, compress, dryRun, env, files);
  }

  // ---------------------------------------------------------------------
  // The digest table on disk (`.backup_hashes.json`)

  /** The JSON values the two state files use. */
  datatype Json = JStr(s: string) | JInt(i: int) | JObject(fields: seq<(string, Json)>)

  function Lookup(fields: seq<(string, Json)>, key: string): Option<Json> {
    if fields == [] then None
    else if fields[0].0 == key then Some(fields[0].1)
    else Lookup(fields[1..], key)
  }

  /** `Lookup` finds the first field with the key. */
  lemma {:induction false} LookupFirst(fields: seq<(string, Json)>, i: nat, key: string)
    requires i < |fields| && fields[i].0 == key
    requires forall j :: 0 <= j < i ==> fields[j].0 != key
    ensures Lookup(fields, key) == Some(fields[i].1)
  {
    if i > 0 { LookupFirst(fields[1..], i - 1, key); }
  }

  /** `FileHash.to_dict`: an object with fields path, size, mtime, md5, sha256. */
  function ToDict(fh: FileHash): Json {
    JObject([("path", JStr(fh.path)), ("size", JInt(fh.size)), ("mtime", JInt(fh.mtime)),
             ("md5", JStr(fh.md5)), ("sha256", JStr(fh.sha256))])
  }

  const HashFields: set<string> := {"path", "size", "mtime", "md5", "sha256"}

  /**
   * `FileHash.from_dict` (`cls(**data)`): an object with exactly the five
   * field names.  `cls(**data)` itself checks only the names; the check that
   * each value has the right kind, and that the size is not negative, is
   * this model's own.  Only what `_save_hashes` wrote is ever read back, and
   * that always passes it (`RecordRoundTrip`).
   */
  function FromDict(j: Json): (r: Option<FileHash>)
    ensures r.Some? ==> j.JObject? && (set f | f in j.fields :: f.0) == HashFields
  {
    if !j.JObject? || (set f | f in j.fields :: f.0) != HashFields then None
    else
      match (Lookup(j.fields, "path"), Lookup(j.fields, "size"), Lookup(j.fields, "mtime"), Lookup(j.fields, "md5"), Lookup(j.fields, "sha256"))
      case (Some(JStr(p)), Some(JInt(s)), Some(JInt(m)), Some(JStr(d1)), Some(JStr(d2))) =>
        if s >= 0 then Some(FileHash(p, s, m, d1, d2)) else None
      case _ => None
  }

  /** The five field names of a record are pairwise different. */
  lemma HashFieldNamesDistinct()
    ensures "path" != "size" && "path" != "mtime" && "path" != "md5" && "path" != "sha256"
    ensures "size" != "mtime" && "size" != "md5" && "size" != "sha256"
    ensures "mtime" != "md5" && "mtime" != "sha256" && "md5" != "sha256"
  {
    assert "path"[0] == 'p' && "size"[0] == 's' && "mtime"[0] == 'm' && "md5"[0] == 'm' && "sha256"[0] == 's';
  }

  /** `to_dict` writes exactly the five field names. */
  lemma ToDictNames(fh: FileHash)
    ensures (set f | f in ToDict(fh).fields :: f.0) == HashFields
  {
    var fs := ToDict(fh).fields;
    assert forall f :: f in fs <==> f == fs[0] || f == fs[1] || f == fs[2] || f == fs[3] || f == fs[4];
  }

  /** Each field of `to_dict` is found under its own name. */
  lemma ToDictLookups(fh: FileHash)
    ensures var fs := ToDict(fh).fields;
      && Lookup(fs, "path") == Some(JStr(fh.path))
      && Lookup(fs, "size") == Some(JInt(fh.size))
      && Lookup(fs, "mtime") == Some(JInt(fh.mtime))
      && Lookup(fs, "md5") == Some(JStr(fh.md5))
      && Lookup(fs, "sha256") == Some(JStr(fh.sha256))
  {
    var fs := ToDict(fh).fields;
    HashFieldNamesDistinct();
    LookupFirst(fs, 0, "path");
    LookupFirst(fs, 1, "size");
    LookupFirst(fs, 2, "mtime");
    LookupFirst(fs, 3, "md5");
    LookupFirst(fs, 4, "sha256");
  }

  lemma RecordRoundTrip(fh: FileHash)
    ensures FromDict(ToDict(fh)) == Some(fh)
  {
    ToDictNames(fh);
    ToDictLookups(fh);
  }

  /** `_save_hashes`: the table written to `.backup_hashes.json`. */
  function SaveHashes(current: map<string, FileHash>): (r: map<string, Json>)
    ensures r.Keys == current.Keys
  {
    map k | k in current :: ToDict(current[k])
  }

  /** Loading what was saved gives back the current table. */
  lemma SaveLoadRoundTrip(current: map<string, FileHash>)
    ensures forall k :: k in SaveHashes(current) ==> FromDict(SaveHashes(current)[k]) == Some(current[k])
  {
    forall k | k in current ensures FromDict(SaveHashes(current)[k]) == Some(current[k]) {
      RecordRoundTrip(current[k]);
    }
  }

  // ---------------------------------------------------------------------
  // Verification (`verify_backup`)

  /** One problem `verify_backup` lists. */
  datatype Problem = Missing(file: string) | Corrupted(file: string)

  /** A recorded path checks out: the file exists under its recorded name and both digests match. */
  predicate EntryValid(p: string, fh: FileHash, files: map<string, Content>, h: Hasher) {
    p in files && h.md5(files[p]) == fh.md5 && h.sha256(files[p]) == fh.sha256
  }

  /** What one entry of the hash file contributes: nothing, "Missing" or "Corrupted". */
  function EntryProblems(p: string, fh: FileHash, files: map<string, Content>, h: Hasher): seq<Problem> {
    if p !in files then [Missing(p)]
    else if h.md5(files[p]) != fh.md5 || h.sha256(files[p]) != fh.sha256 then [Corrupted(p)]
    else []
  }

  /** The problems of the entries of the hash file, in file order. */
  function Problems(entries: seq<(string, FileHash)>, files: map<string, Content>, h: Hasher): seq<Problem> {
    if entries == [] then []
    else EntryProblems(entries[0].0, entries[0].1, files, h) + Problems(entries[1..], files, h)
  }

  lemma {:induction false} ProblemsAppend(a: seq<(string, FileHash)>, b: seq<(string, FileHash)>, files: map<string, Content>, h: Hasher)
    ensures Problems(a + b, files, h) == Problems(a, files, h) + Problems(b, files, h)
  {
    if a == [] {
      assert a + b == b;
    } else {
      assert (a + b)[1..] == a[1..] + b;
      ProblemsAppend(a[1..], b, files, h);
    }
  }

  /**
   * A path is reported missing exactly when some entry names it and no such
   * file exists, and corrupted exactly when some entry names it, the file
   * exists and a digest differs; at most one problem is listed per entry.
   */
  lemma {:induction false} ProblemsMeaning(entries: seq<(string, FileHash)>, files: map<string, Content>, h: Hasher, p: string)
    ensures Missing(p) in Problems(entries, files, h) <==> p !in files && exists i :: 0 <= i < |entries| && entries[i].0 == p
    ensures Corrupted(p) in Problems(entries, files, h)
        <==> exists i :: 0 <= i < |entries| && entries[i].0 == p && p in files && !EntryValid(p, entries[i].1, files, h)
    ensures |Problems(entries, files, h)| <= |entries|
  {
    if entries != [] {
      ProblemsMeaning(entries[1..], files, h, p);
      var e := entries[0];
      if exists i :: 0 <= i < |entries[1..]| && entries[1..][i].0 == p {
        var i :| 0 <= i < |entries[1..]| && entries[1..][i].0 == p;
        assert entries[i + 1] == entries[1..][i];
      }
      if exists i :: 0 <= i < |entries[1..]| && entries[1..][i].0 == p && p in files && !EntryValid(p, entries[1..][i].1, files, h) {
        var i :| 0 <= i < |entries[1..]| && entries[1..][i].0 == p && p in files && !EntryValid(p, entries[1..][i].1, files, h);
        assert entries[i + 1] == entries[1..][i];
      }
      if exists i :: 0 <= i < |entries| && entries[i].0 == p {
        var i :| 0 <= i < |entries| && entries[i].0 == p;
        if i > 0 { assert entries[1..][i - 1] == entries[i]; }
      }
      if exists i :: 0 <= i < |entries| && entries[i].0 == p && p in files && !EntryValid(p, entries[i].1, files, h) {
        var i :| 0 <= i < |entries| && entries[i].0 == p && p in files && !EntryValid(p, entries[i].1, files, h);
        if i > 0 { assert entries[1..][i - 1] == entries[i]; }
      }
    }
  }

  /** No problem is listed exactly when every entry checks out. */
  lemma {:induction false} NoProblemsIffAllValid(entries: seq<(string, FileHash)>, files: map<string, Content>, h: Hasher)
    ensures Problems(entries, files, h) == [] <==> forall i :: 0 <= i < |entries| ==> EntryValid(entries[i].0, entries[i].1, files, h)
  {
    if entries != [] {
      NoProblemsIffAllValid(entries[1..], files, h);
      assert forall i :: 0 < i < |entries| ==> entries[i] == entries[1..][i - 1];
    }
  }

  /** One iteration of `verify_backup`'s loop: the existence test, then the re-digest. */
  method CheckEntry(p: string, fh: FileHash, files: map<string, Content>, h: Hasher) returns (found: seq<Problem>)
    ensures found == EntryProblems(p, fh, files, h)
  {
    if p !in files {
      return [Missing(p)];
    }
    var md5, sha256 := CalculateHash(h, files[p]);
    if md5 != fh.md5 || sha256 != fh.sha256 {
      return [Corrupted(p)];
    }
    return [];
  }

  /** The problems listed so far and those of the remaining entries, one entry further on. */
  lemma ProblemsAdvance(entries: seq<(string, FileHash)>, i: nat, done: seq<Problem>, files: map<string, Content>, h: Hasher)
    requires i < |entries| && done + Problems(entries[i..], files, h) == Problems(entries, files, h)
    ensures (done + EntryProblems(entries[i].0, entries[i].1, files, h)) + Problems(entries[i + 1..], files, h)
      == Problems(entries, files, h)
  {
    ProblemsStep(entries, i, files, h);
    var found, rest := EntryProblems(entries[i].0, entries[i].1, files, h), Problems(entries[i + 1..], files, h);
    assert done + (found + rest) == (done + found) + rest;
  }

  /** The problems from entry `i` on are those of entry `i` followed by those of the entries after it. */
  lemma ProblemsStep(entries: seq<(string, FileHash)>, i: nat, files: map<string, Content>, h: Hasher)
    requires i < |entries|
    ensures Problems(entries[i..], files, h)
      == EntryProblems(entries[i].0, entries[i].1, files, h) + Problems(entries[i + 1..], files, h)
  {
    assert entries[i..][0] == entries[i] && entries[i..][1..] == entries[i + 1..];
  }

  /**
   * The loop of `verify_backup`: every entry of the hash file (read back as
   * records, in file order) is checked under the backup directory, and the
   * backup is valid exactly when no problem was listed.
   */
  method CheckEntries(entries: seq<(string, FileHash)>, files: map<string, Content>, h: Hasher)
    returns (valid: bool, problems: seq<Problem>)
    ensures problems == Problems(entries, files, h)
    ensures valid <==> problems == []
  {
    valid, problems := true, [];
    var i := 0;
    while i < |entries|
      invariant 0 <= i <= |entries|
      invariant problems + Problems(entries[i..], files, h) == Problems(entries, files, h)
      invariant valid <==> problems == []
    {
      var p, fh := entries[i].0, entries[i].1;
      ProblemsAdvance(entries, i, problems, files, h);
      var found := CheckEntry(p, fh, files, h);
      if found != [] {
        valid := false;
      }
      problems := problems + found;
      i := i + 1;
    }
    assert entries[i..] == [];
  }

  /**
   * `verify_backup`: without the manifest or the hash file it fails with
   * nothing listed; otherwise the entries of the hash file are checked.
   */
  method VerifyBackup(manifestExists: bool, hashFile: Option<seq<(string, FileHash)>>, files: map<string, Content>, h: Hasher)
    returns (valid: bool, problems: seq<Problem>)
    ensures !manifestExists || hashFile.None? ==> !valid && problems == []
    ensures manifestExists && hashFile.Some? ==>
      && problems == Problems(hashFile.value, files, h)
      && (valid <==> problems == [])
  {
    if !manifestExists || hashFile.None? {
      return false, [];
    }
    valid, problems := CheckEntries(hashFile.value, files, h);
  }

  /** Verification reads the uncompressed name: an entry stored only as "<path>.gz" is reported missing. */
  lemma CompressedEntryMissing(entries: seq<(string, FileHash)>, k: nat, files: map<string, Content>, h: Hasher)
    requires k < |entries| && entries[k].0 !in files && entries[k].0 + ".gz" in files
    ensures Missing(entries[k].0) in Problems(entries, files, h)
  {
    ProblemsMeaning(entries, files, h, entries[k].0);
  }

  /** A destination holding, under every saved key, content with the saved digests verifies. */
  lemma SavedTableVerifies(current: map<string, FileHash>, entries: seq<(string, FileHash)>, files: map<string, Content>, h: Hasher)
    requires forall i :: 0 <= i < |entries| ==> entries[i].0 in current && entries[i].1 == current[entries[i].0]
    requires forall p :: p in current ==> p in files && h.md5(files[p]) == current[p].md5 && h.sha256(files[p]) == current[p].sha256
    ensures Problems(entries, files, h) == []
  {
    NoProblemsIffAllValid(entries, files, h);
  }

  // ---------------------------------------------------------------------
  // Exit status of `main`

  datatype MainOutcome =
    | Verified(success: bool)
    | SourceMissing
    | Completed(manifest: BackupManifest)
    | Interrupted
    | Crashed

  function ExitCode(o: MainOutcome): (code: int)
    ensures code in {0, 1, 130}
    ensures code == 0 <==> (o.Verified? && o.success) || (o.Completed? && o.manifest.errors == [])
    ensures code == 130 <==> o.Interrupted?
  {
    match o
    case Verified(ok) => if ok then 0 else 1
    case SourceMissing => 1
    case Completed(m) => if |m.errors| == 0 then 0 else 1
    case Interrupted => 130
    case Crashed => 1
  }
  // ---------------------------------------------------------------------
  // The phases of `run`

  /** `_hash_file` without its error report: the record, nothing for an excluded path, or a failure. */
  method HashOne(c: Candidate, patterns: seq<string>, h: Hasher) returns (r: HashResult)
    ensures r == HashOutcome(c, patterns, h)
  {
    if ShouldExclude(patterns, c.path) {
      return Excluded;
    }
    if !c.stat.readable {
      return HashFailed;
    }
    var md5, sha256 := CalculateHash(h, c.stat.content);
    return Hashed(FileHash(c.rel, c.stat.size, c.stat.mtime, md5, sha256));
  }

  /**
   * The hashing loop of `run`: each record is stored under its path (a new
   * path is appended to the order), and each candidate that cannot be read
   * yields one "Cannot hash".
   */
  method HashFiles(files: seq<Candidate>, patterns: seq<string>, h: Hasher, t0: Tables)
    returns (t: Tables, errors: seq<BackupError>)
    ensures t == AddHashes(t0, files, patterns, h)
    ensures errors == HashErrors(files, patterns, h)
  {
    t, errors := t0, [];
    var i := 0;
    while i < |files|
      invariant 0 <= i <= |files|
      invariant AddHashes(t, files[i..], patterns, h) == AddHashes(t0, files, patterns, h)
      invariant errors + HashErrors(files[i..], patterns, h) == HashErrors(files, patterns, h)
    {
      var c := files[i];
      assert files[i..][0] == c && files[i..][1..] == files[i + 1..];
      var r := HashOne(c, patterns, h);
      match r {
      case Hashed(fh) =>
        t := Store(t, fh, c.stat.content);
      case HashFailed =>
        assert errors + ([CannotHash(c.path)] + HashErrors(files[i + 1..], patterns, h))
            == (errors + [CannotHash(c.path)]) + HashErrors(files[i + 1..], patterns, h);
        errors := errors + [CannotHash(c.path)];
      case Excluded =>
      }
      i := i + 1;
    }
    assert files[i..] == [];
  }

  /** `_backup_file` without its error report, as `CopyOutcome` describes. */
  method CopyFile(cfg: Config, fh: FileHash, content: Content, files0: map<string, Content>, dirs0: set<string>)
    returns (ok: bool, files: map<string, Content>, dirs: set<string>)
    ensures CopyResult(ok, files, dirs) == CopyOutcome(cfg, fh, content, files0, dirs0)
  {
    files := files0;
    dirs := dirs0;
    if ParentDir(fh.path) in cfg.env.mkdirFails {
      return false, files, dirs;
    }
    dirs := dirs + CreatedDirs(ParentDir(fh.path));
    if cfg.dryRun {
      return true, files, dirs;
    }
    ok := false;
    if fh.path == "." {
      // the destination of "." is the destination directory itself
      if !(cfg.compress && fh.size > CompressThreshold) && cfg.sourceName !in cfg.env.writeFails {
        files := files[cfg.sourceName := cfg.env.store(content)];
      }
    } else {
      var name := fh.path;
      var written := content;
      if cfg.compress && fh.size > CompressThreshold {
        name := fh.path + ".gz";
        written := cfg.env.gzip(content);
      }
      if name !in cfg.env.writeFails {
        files := files[name := cfg.env.store(written)];
        var checked := if cfg.compress then fh.path else name;
        if checked in files {
          var md5, sha256 := CalculateHash(cfg.hasher, files[checked]);
          ok := if cfg.algorithm == "md5" then md5 == fh.md5 else sha256 == fh.sha256;
        }
      }
    }
  }

  /** Moving one record's outcome from the rest of the run into what was already done. */
  lemma GlueStep(backed: seq<FileHash>, errors: seq<BackupError>, fh: FileHash, ok: bool, rest: CopyRun)
    ensures Glue(backed, errors, if ok then Glue([fh], [], rest) else Glue([], [BackupFailed(fh.path)], rest))
         == if ok then Glue(backed + [fh], errors, rest) else Glue(backed, errors + [BackupFailed(fh.path)], rest)
  {
    assert backed + ([fh] + rest.backed) == (backed + [fh]) + rest.backed;
    assert errors + ([BackupFailed(fh.path)] + rest.errors) == (errors + [BackupFailed(fh.path)]) + rest.errors;
  }

  /** The copying loop of `run`: the records copied and one "Backup failed" per failure. */
  method CopyFiles(cfg: Config, hs: seq<FileHash>, contents: map<string, Content>, files0: map<string, Content>, dirs0: set<string>)
    returns (backedUp: seq<FileHash>, errors: seq<BackupError>, files: map<string, Content>, dirs: set<string>)
    requires forall fh :: fh in hs ==> fh.path in contents
    ensures CopyRun(backedUp, errors, files, dirs) == CopyAll(cfg, hs, contents, files0, dirs0)
  {
    backedUp, errors, files, dirs := [], [], files0, dirs0;
    var i := 0;
    while i < |hs|
      invariant 0 <= i <= |hs|
      invariant CopyAll(cfg, hs, contents, files0, dirs0) == Glue(backedUp, errors, CopyAll(cfg, hs[i..], contents, files, dirs))
    {
      var fh := hs[i];
      assert hs[i..][0] == fh && hs[i..][1..] == hs[i + 1..];
      var ok, files', dirs' := CopyFile(cfg, fh, contents[fh.path], files, dirs);
      CopyAllStep(cfg, hs[i..], contents, files, dirs, CopyResult(ok, files', dirs'));
      GlueStep(backedUp, errors, fh, ok, CopyAll(cfg, hs[i + 1..], contents, files', dirs'));
      if ok {
        backedUp := backedUp + [fh];
      } else {
        errors := errors + [BackupFailed(fh.path)];
      }
      files, dirs := files', dirs';
      i := i + 1;
    }
    assert hs[i..] == [];
  }

  /**
   * `_collect_files`: the walk's non-excluded files, and the sum of their
   * sizes that is added to `total_size`.  A single-file source is returned
   * alone and adds nothing.
   */
  method CollectFiles(source: string, tree: FsNode, patterns: seq<string>) returns (files: seq<Candidate>, total: nat)
    ensures files == Collected(source, tree, patterns)
    ensures total == if tree.File? then 0 else SizeSum(files)
  {
    if tree.File? {
      return [Candidate(source, ".", tree.stat, [])], 0;
    }
    var walked := Walked(source, tree, patterns);
    files, total := [], 0;
    var i := 0;
    while i < |walked|
      invariant 0 <= i <= |walked|
      invariant files + KeepIncluded(walked[i..], patterns) == KeepIncluded(walked, patterns)
      invariant total == SizeSum(files)
    {
      var c := walked[i];
      assert walked[i..][1..] == walked[i + 1..];
      if !ShouldExclude(patterns, c.path) {
        SizeSumAppend(files, [c]);
        files := files + [c];
        total := total + c.stat.size;
      }
      i := i + 1;
    }
    assert walked[i..] == [];
  }

  /** Every record the change detector selects from a valid table has known source content. */
  lemma SelectedHaveContent(t: Tables, previous: map<string, FileHash>, algorithm: string)
    requires TableValid(t)
    ensures forall fh :: fh in ToBackup(t.order, t.table, previous, algorithm) ==> fh.path in t.contents
  {
    SelectionSound(t.order, t.table, previous, algorithm);
    forall fh | fh in ToBackup(t.order, t.table, previous, algorithm) ensures fh.path in t.contents {
      var k :| 0 <= k < |t.order| && t.table[t.order[k]] == fh;
    }
  }

  /** The change detector's two counts split a valid table. */
  lemma SkippedCount(t: Tables, previous: map<string, FileHash>, algorithm: string)
    requires TableValid(t)
    ensures |ToBackup(t.order, t.table, previous, algorithm)| <= |t.table|
    ensures |t.table| - |ToBackup(t.order, t.table, previous, algorithm)| == |Unchanged(t.order, t.table, previous, algorithm)|
  {
    SelectionPartition(t.order, t.table, previous, algorithm);
    DistinctCard(t.order);
    assert (set x | x in t.order) == t.table.Keys;
  }

  /** The state a backup run reads and writes: the manifest, the current table, and the destination. */
  datatype RunState = RunState(manifest: BackupManifest, tables: Tables, destFiles: map<string, Content>, destDirs: set<string>)

  /**
   * The copying and pruning phases of `run` on a valid table: the selected
   * records are copied in order, then the stale artifacts of `previousOrder`
   * are pruned from what the copies left.
   */
  ghost function TransferOutcome(cfg: Config, previous: map<string, FileHash>, previousOrder: seq<string>,
                                 t: Tables, files0: map<string, Content>, dirs0: set<string>): (CopyRun, PruneRun)
    requires TableValid(t)
  {
    SelectedHaveContent(t, previous, cfg.algorithm);
    var copies := CopyAll(cfg, ToBackup(t.order, t.table, previous, cfg.algorithm), t.contents, files0, dirs0);
    (copies, PruneAll(previousOrder, t.table.Keys, cfg.compress, cfg.dryRun, cfg.env, copies.files))
  }

  /**
   * The manifest after a run: the source size and the bytes and records
   * copied are added, the skipped and removed counts are set, and the
   * errors of hashing, copying and pruning are appended in that order.
   */
  function Tally(m: BackupManifest, total: nat, skipped: nat, hashErrors: seq<BackupError>,
                 copies: CopyRun, pruned: PruneRun): BackupManifest
  {
    m.(totalSize := m.totalSize + total,
       filesSkipped := skipped,
       filesBackedUp := m.filesBackedUp + |copies.backed|,
       bytesTransferred := m.bytesTransferred + ByteSum(copies.backed),
       filesRemoved := pruned.removed,
       errors := m.errors + hashErrors + copies.errors + pruned.errors)
  }

  /**
   * What `run` does to that state: collect and hash the source into the
   * table, copy the selected records (outside dry-run the destination
   * root is created first), prune stale artifacts, and grow the counters and
   * the error list by what each phase reports.
   */
  ghost function RunOutcome(source: string, tree: FsNode, patterns: seq<string>, cfg: Config,
                            previous: map<string, FileHash>, previousOrder: seq<string>, s: RunState): (r: RunState)
    requires TableValid(s.tables)
    ensures TableValid(r.tables)
  {
    var collected := Collected(source, tree, patterns);
    AddHashesValid(s.tables, collected, patterns, cfg.hasher);
    Settle(cfg, previous, previousOrder, s, if tree.File? then 0 else SizeSum(collected),
           AddHashes(s.tables, collected, patterns, cfg.hasher), HashErrors(collected, patterns, cfg.hasher))
  }

  /**
   * The phases of `run` after hashing, from the new table `t`: copy the
   * selected records (outside dry-run the destination root is created
   * first), prune, and count.
   */
  ghost function Settle(cfg: Config, previous: map<string, FileHash>, previousOrder: seq<string>, s: RunState,
                        total: nat, t: Tables, hashErrors: seq<BackupError>): (r: RunState)
    requires TableValid(t)
    ensures r.tables == t
  {
    SkippedCount(t, previous, cfg.algorithm);
    var tr := TransferOutcome(cfg, previous, previousOrder, t, s.destFiles, s.destDirs + (if cfg.dryRun then {} else {""}));
    RunState(Tally(s.manifest, total, |t.table| - |ToBackup(t.order, t.table, previous, cfg.algorithm)|, hashErrors, tr.0, tr.1),
             t, tr.1.files, tr.0.dirs)
  }

  /** The copying loop and then the pruning loop of `run`. */
  method Transfer(cfg: Config, previous: map<string, FileHash>, previousOrder: seq<string>,
                  t: Tables, files0: map<string, Content>, dirs0: set<string>)
    returns (copies: CopyRun, pruned: PruneRun)
    requires TableValid(t)
    ensures (copies, pruned) == TransferOutcome(cfg, previous, previousOrder, t, files0, dirs0)
  {
    var toBackup := ToBackup(t.order, t.table, previous, cfg.algorithm);
    SelectedHaveContent(t, previous, cfg.algorithm);
    copies := CopyRun([], [], files0, dirs0);
    if |toBackup| > 0 {
      var backedUp, errors, files, dirs := CopyFiles(cfg, toBackup, t.contents, files0, dirs0);
      copies := CopyRun(backedUp, errors, files, dirs);
    }
    var removed, files, errors := Prune(previousOrder, t.table.Keys, cfg.compress, cfg.dryRun, cfg.env, copies.files);
    pruned := PruneRun(removed, files, errors);
  }

  /** The collecting and hashing phases of `run`. */
  method Scan(source: string, tree: FsNode, patterns: seq<string>, h: Hasher, t0: Tables)
    returns (collected: seq<Candidate>, total: nat, t: Tables, hashErrors: seq<BackupError>)
    requires TableValid(t0)
    ensures collected == Collected(source, tree, patterns)
    ensures total == if tree.File? then 0 else SizeSum(collected)
    ensures t == AddHashes(t0, collected, patterns, h) && TableValid(t)
    ensures hashErrors == HashErrors(collected, patterns, h)
  {
    collected, total := CollectFiles(source, tree, patterns);
    t, hashErrors := HashFiles(collected, patterns, h, t0);
    AddHashesValid(t0, collected, patterns, h);
  }

  /**
   * The phases of `run` over explicit state: collect, hash, select, copy and
   * prune.
   */
  method RunPhases(source: string, tree: FsNode, patterns: seq<string>, cfg: Config,
                   previous: map<string, FileHash>, previousOrder: seq<string>, s: RunState)
    returns (r: RunState)
    requires TableValid(s.tables)
    ensures r == RunOutcome(source, tree, patterns, cfg, previous, previousOrder, s)
  {
    var collected, total, t, hashErrors := Scan(source, tree, patterns, cfg.hasher, s.tables);
    r := Finish(cfg, previous, previousOrder, s, total, t, hashErrors);
  }

  /** Copying, pruning and counting, as `Settle` describes. */
  method Finish(cfg: Config, previous: map<string, FileHash>, previousOrder: seq<string>, s: RunState,
                total: nat, t: Tables, hashErrors: seq<BackupError>)
    returns (r: RunState)
    requires TableValid(t)
    ensures r == Settle(cfg, previous, previousOrder, s, total, t, hashErrors)
  {
    var dirs := s.destDirs + (if cfg.dryRun then {} else {""});  // the destination root is created outside dry-run
    var toBackup := ToBackup(t.order, t.table, previous, cfg.algorithm);
    SkippedCount(t, previous, cfg.algorithm);
    var copies, pruned := Transfer(cfg, previous, previousOrder, t, s.destFiles, dirs);
    r := RunState(Tally(s.manifest, total, |t.table| - |toBackup|, hashErrors, copies, pruned), t, pruned.files, copies.dirs);
  }

  /**
   * What a run promises: the table is the old one with every hashed
   * candidate stored and its order extended; `files_skipped` counts the
   * unchanged records and, with the selected ones, the whole table; the
   * counters and errors only grow; and a dry run leaves the destination's
   * files as they were and counts as backed up every selected record whose
   * parent directory can be created (all of them when none fails).
   */
  lemma RunFacts(source: string, tree: FsNode, patterns: seq<string>, cfg: Config,
                 previous: map<string, FileHash>, previousOrder: seq<string>, s: RunState)
    requires TableValid(s.tables)
    ensures var r := RunOutcome(source, tree, patterns, cfg, previous, previousOrder, s);
      var t := r.tables;
      && t == AddHashes(s.tables, Collected(source, tree, patterns), patterns, cfg.hasher)
      && IsPrefixSeq(s.tables.order, t.order)
      && r.manifest.filesSkipped == |Unchanged(t.order, t.table, previous, cfg.algorithm)|
      && r.manifest.filesSkipped + |ToBackup(t.order, t.table, previous, cfg.algorithm)| == |t.table|
      && r.manifest.(filesBackedUp := 0, filesSkipped := 0, filesRemoved := 0, bytesTransferred := 0, totalSize := 0, errors := [])
         == s.manifest.(filesBackedUp := 0, filesSkipped := 0, filesRemoved := 0, bytesTransferred := 0, totalSize := 0, errors := [])
      && IsPrefixSeq(s.manifest.errors, r.manifest.errors)
      && r.manifest.filesBackedUp >= s.manifest.filesBackedUp
      && r.manifest.totalSize >= s.manifest.totalSize
      && (cfg.dryRun ==>
            && r.destFiles == s.destFiles
            && r.manifest.filesBackedUp == s.manifest.filesBackedUp + |Filter(ToBackup(t.order, t.table, previous, cfg.algorithm), ParentCreatable(cfg))|
            && (cfg.env.mkdirFails == {} ==>
                  r.manifest.filesBackedUp == s.manifest.filesBackedUp + |ToBackup(t.order, t.table, previous, cfg.algorithm)|))
  {
    var collected := Collected(source, tree, patterns);
    AddHashesValid(s.tables, collected, patterns, cfg.hasher);
    var t := AddHashes(s.tables, collected, patterns, cfg.hasher);
    SkippedCount(t, previous, cfg.algorithm);
    if cfg.dryRun {
      SelectedHaveContent(t, previous, cfg.algorithm);
      var selected := ToBackup(t.order, t.table, previous, cfg.algorithm);
      DryRunCopiesNothing(cfg, selected, t.contents, s.destFiles, s.destDirs + {});
      DryRunPrunesNothing(previousOrder, t.table.Keys, cfg.compress, cfg.env, s.destFiles);
    }
  }

  /**
   * The counters of a run: `files_backed_up` and `bytes_transferred` grow by
   * the number and the total size of the records whose copy succeeded,
   * which are selected records; every selected record either succeeded or
   * left one "Backup failed"; and `files_removed` is what pruning counted,
   * the stale keys less those whose unlink raised.
   */
  lemma RunCounters(source: string, tree: FsNode, patterns: seq<string>, cfg: Config,
                    previous: map<string, FileHash>, previousOrder: seq<string>, s: RunState)
    requires TableValid(s.tables)
    ensures var r := RunOutcome(source, tree, patterns, cfg, previous, previousOrder, s);
      var t := r.tables;
      var selected := ToBackup(t.order, t.table, previous, cfg.algorithm);
      var tr := TransferOutcome(cfg, previous, previousOrder, t, s.destFiles, s.destDirs + (if cfg.dryRun then {} else {""}));
      && r.manifest.filesBackedUp == s.manifest.filesBackedUp + |tr.0.backed|
      && r.manifest.bytesTransferred == s.manifest.bytesTransferred + ByteSum(tr.0.backed)
      && |tr.0.backed| + |tr.0.errors| == |selected|
      && multiset(tr.0.backed) <= multiset(selected)
      && r.manifest.filesRemoved == tr.1.removed
      && (Distinct(previousOrder) ==>
            tr.1.removed == |StaleOf(previousOrder, t.table.Keys)|
                            - |UnlinkFailures(StaleOf(previousOrder, t.table.Keys), cfg.compress, cfg.dryRun, cfg.env, tr.0.files)|)
  {
    var collected := Collected(source, tree, patterns);
    AddHashesValid(s.tables, collected, patterns, cfg.hasher);
    var t := AddHashes(s.tables, collected, patterns, cfg.hasher);
    SelectedHaveContent(t, previous, cfg.algorithm);
    var selected := ToBackup(t.order, t.table, previous, cfg.algorithm);
    var dirs := s.destDirs + (if cfg.dryRun then {} else {""});
    CopyAllCount(cfg, selected, t.contents, s.destFiles, dirs);
    CopyAllShape(cfg, selected, t.contents, s.destFiles, dirs);
    if Distinct(previousOrder) {
      var copies := CopyAll(cfg, selected, t.contents, s.destFiles, dirs);
      PruneAllCount(previousOrder, t.table.Keys, cfg.compress, cfg.dryRun, cfg.env, copies.files);
    }
  }

  // ---------------------------------------------------------------------
  // The backup run (`BackupUtility`)

  /**
   * One backup run.  The source is the value `sourceTree` found at `source`;
   * the destination is `destFiles` (destination-relative path to content)
   * and the set of directories created in it, each parent with all its
   * ancestors (`CreatedDirs`).  `sourceAt` is what reading
   * `source / p` yields for every path of the current table.  The two state
   * files are `savedManifest` and `savedHashes`.
   */
  class BackupUtility {
    const source: string
    const sourceTree: FsNode
    const excludePatterns: seq<string>
    const cfg: Config

    var manifest: BackupManifest
    const previousHashes: map<string, FileHash>  // never loaded: stays as the constructor left it
    const previousOrder: seq<string>             // the insertion order of previousHashes
    var currentHashes: map<string, FileHash>
    var currentOrder: seq<string>   // the insertion order of currentHashes
    var sourceAt: map<string, Content>
    var destFiles: map<string, Content>
    var destDirs: set<string>
    var savedManifest: Option<BackupManifest>
    var savedHashes: Option<map<string, Json>>

    /** Both tables list their keys once in order; the current one is keyed by path and its sources are known. */
    ghost predicate Valid()
      reads this`currentHashes, this`currentOrder, this`sourceAt
    {
      && Distinct(previousOrder)
      && (forall p :: p in previousOrder <==> p in previousHashes)
      && TableValid(Tables(currentHashes, currentOrder, sourceAt))
    }

    /** `__init__`: a fresh manifest with zero counters and empty tables; the previous table starts (and stays) empty. */
    constructor(source: string, sourceTree: FsNode, excludePatterns: seq<string>, cfg: Config,
                backupId: string, timestamp: string, destPath: string, destFiles: map<string, Content>)
      ensures Valid()
      ensures this.source == source && this.sourceTree == sourceTree
      ensures this.excludePatterns == excludePatterns && this.cfg == cfg
      ensures manifest == BackupManifest(backupId, timestamp, source, destPath, 0, 0, 0, 0, 0, [])
      ensures previousHashes == map[] && previousOrder == []
      ensures currentHashes == map[] && currentOrder == [] && sourceAt == map[]
      ensures this.destFiles == destFiles && destDirs == {}
      ensures savedManifest == None && savedHashes == None
    {
      this.source := source;
      this.sourceTree := sourceTree;
      this.excludePatterns := excludePatterns;
      this.cfg := cfg;
      manifest := BackupManifest(backupId, timestamp, source, destPath, 0, 0, 0, 0, 0, []);
      previousHashes := map[];
      previousOrder := [];
      currentHashes := map[];
      currentOrder := [];
      sourceAt := map[];
      this.destFiles := destFiles;
      destDirs := {};
      savedManifest := None;
      savedHashes := None;
    }

    /** The part of the object a run reads and writes, as one value. */
    function State(): RunState
      reads this`manifest, this`currentHashes, this`currentOrder, this`sourceAt, this`destFiles, this`destDirs
    {
      RunState(manifest, Tables(currentHashes, currentOrder, sourceAt), destFiles, destDirs)
    }

    /**
     * `run`: the state becomes what `RunOutcome` says and, outside dry-run,
     * the manifest and the hash table are saved.
     */
    method Run() returns (m: BackupManifest)
      requires Valid()
      modifies this
      ensures Valid()
      ensures m == manifest
      ensures State() == RunOutcome(source, sourceTree, excludePatterns, cfg, previousHashes, previousOrder, old(State()))
      ensures cfg.dryRun ==> savedManifest == old(savedManifest) && savedHashes == old(savedHashes)
      ensures !cfg.dryRun ==> savedManifest == Some(m) && savedHashes == Some(SaveHashes(currentHashes))
    {
      var s0 := State();
      var r := RunPhases(source, sourceTree, excludePatterns, cfg, previousHashes, previousOrder, s0);
      Commit(r, !cfg.dryRun);
      m := r.manifest;
    }

    /**
     * The object takes on a run's resulting state; when `save` holds,
     * `_save_manifest` and `_save_hashes` then write the two state files from
     * the new manifest and the new current table.
     */
    method Commit(r: RunState, save: bool)
      requires Valid() && TableValid(r.tables)
      modifies this`manifest, this`currentHashes, this`currentOrder, this`sourceAt, this`destFiles, this`destDirs
      modifies this`savedManifest, this`savedHashes
      ensures Valid()
      ensures State() == r
      ensures !save ==> savedManifest == old(savedManifest) && savedHashes == old(savedHashes)
      ensures save ==> savedManifest == Some(r.manifest) && savedHashes == Some(SaveHashes(r.tables.table))
    {
      manifest := r.manifest;
      currentHashes, currentOrder, sourceAt := r.tables.table, r.tables.order, r.tables.contents;
      destFiles, destDirs := r.destFiles, r.destDirs;
      if save {
        savedManifest := Some(manifest);
        savedHashes := Some(SaveHashes(currentHashes));
      }
    }
  }
}
