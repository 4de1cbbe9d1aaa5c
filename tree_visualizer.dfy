/**
 * The directory tree visualizer: a depth-limited scan of a directory into a
 * tree of `FileInfo` records with running statistics, the `ls -l` style
 * permission string, the box-drawing rendering of the tree and its JSON form.
 */
module Tree {
  import opened Common
  import opened Sorting

  // ---------------------------------------------------------------------
  // The scanned filesystem

  /** What `stat` reports: size, modification time (integer ticks) and `st_mode`. */
  datatype Stat = Stat(size: nat, mtime: int, mode: bv32)

  /**
   * A filesystem entry: `stat` is `None` when `path.stat()` fails,
   * `readable` says whether `os.scandir` succeeds, and `listing` holds a
   * directory's entries in the order `scandir` yields them.
   */
  datatype Entry = Entry(path: string, name: string, stat: Option<Stat>, readable: bool, listing: seq<Entry>)

  /** `FileInfo`. */
  datatype Info = Info(path: string, name: string, isDir: bool, size: nat, modified: int,
                       permissions: string, depth: nat, children: seq<Info>)

  /**
   * The settings of a `TreeVisualizer`, with the three library routines it
   * relies on as parameters: `Path.match` (glob matching of a path),
   * `FileInfo._format_size` and the `strftime` rendering of a time stamp.
   */
  datatype TreeConfig = TreeConfig(
    maxDepth: Option<int>, showHidden: bool, showSize: bool, showDate: bool, showPermissions: bool,
    filterPattern: Option<string>, sortBy: string, reverse: bool, onlyDirs: bool,
    matches: (string, string) -> bool, sizeText: int -> string, dateText: int -> string)

  // ---------------------------------------------------------------------
  // Permissions (`get_permissions`)

  const S_IFMT: bv32 := 0xF000
  const S_IFDIR: bv32 := 0x4000
  const S_IRUSR: bv32 := 0x100
  const S_IWUSR: bv32 := 0x80
  const S_IXUSR: bv32 := 0x40
  const S_IRGRP: bv32 := 0x20
  const S_IWGRP: bv32 := 0x10
  const S_IXGRP: bv32 := 0x8
  const S_IROTH: bv32 := 0x4
  const S_IWOTH: bv32 := 0x2
  const S_IXOTH: bv32 := 0x1

  /** The nine permission bits in the order they are printed, and their letters. */
  const PermissionBits: seq<bv32> := [S_IRUSR, S_IWUSR, S_IXUSR, S_IRGRP, S_IWGRP, S_IXGRP, S_IROTH, S_IWOTH, S_IXOTH]
  const PermissionLetters: string := "rwxrwxrwx"

  /** The permission string of an entry whose second `stat` fails. */
  const UnknownPermissions: string := "?---------"

  /** `stat.S_ISDIR`. */
  predicate IsDirMode(mode: bv32) {
    mode & S_IFMT == S_IFDIR
  }

  /** One position of the string: the letter when the bit is set, `-` otherwise. */
  function Flag(mode: bv32, bit: bv32, letter: char): char {
    if mode & bit != 0 then letter else '-'
  }

  /** The string `get_permissions` builds from a mode, one character at a time. */
  function ModeString(mode: bv32): (r: string)
    ensures |r| == 10
  {
    [if IsDirMode(mode) then 'd' else '-',
     Flag(mode, S_IRUSR, 'r'), Flag(mode, S_IWUSR, 'w'), Flag(mode, S_IXUSR, 'x'),
     Flag(mode, S_IRGRP, 'r'), Flag(mode, S_IWGRP, 'w'), Flag(mode, S_IXGRP, 'x'),
     Flag(mode, S_IROTH, 'r'), Flag(mode, S_IWOTH, 'w'), Flag(mode, S_IXOTH, 'x')]
  }

  /**
   * Ten characters: `d` for a directory and `-` otherwise, then for each of
   * the nine permission bits its letter when it is set and `-` when not.
   */
  lemma ModeStringMeaning(mode: bv32)
    ensures ModeString(mode)[0] == if IsDirMode(mode) then 'd' else '-'
    ensures forall k :: 0 <= k < 9 ==>
      ModeString(mode)[k + 1] == if mode & PermissionBits[k] != 0 then PermissionLetters[k] else '-'
  {
    var r := ModeString(mode);
    forall k | 0 <= k < 9
      ensures r[k + 1] == if mode & PermissionBits[k] != 0 then PermissionLetters[k] else '-'
    {
      ModeStringAt(mode, k);
    }
  }

  lemma ModeStringAt(mode: bv32, k: nat)
    requires k < 9
    ensures ModeString(mode)[k + 1] == Flag(mode, PermissionBits[k], PermissionLetters[k])
  {
    if k < 3 {
      assert PermissionLetters[k] == "rwx"[k];
    } else if k < 6 {
      assert PermissionLetters[k] == "rwx"[k - 3];
    } else {
      assert PermissionLetters[k] == "rwx"[k - 6];
    }
  }

  /** `get_permissions`: `mode` is `None` when `stat` fails. */
  function GetPermissions(mode: Option<bv32>): (r: string)
    ensures |r| == 10
    ensures mode.None? ==> r == UnknownPermissions
    ensures mode.Some? ==> r == ModeString(mode.value)
  {
    match mode
    case None => UnknownPermissions
    case Some(m) => ModeString(m)
  }

  /** The mode bits a permission string shows: the inverse of `ModeString` on the low nine bits. */
  function ShownBits(s: string): bv32
    requires |s| == 10
  {
    ShownGroup(s, 1, S_IRUSR, S_IWUSR, S_IXUSR) | ShownGroup(s, 4, S_IRGRP, S_IWGRP, S_IXGRP)
    | ShownGroup(s, 7, S_IROTH, S_IWOTH, S_IXOTH)
  }

  /** The bits one `rwx` group at index `i` shows. */
  function ShownGroup(s: string, i: nat, r: bv32, w: bv32, x: bv32): bv32
    requires i + 3 <= |s|
  {
    (if s[i] != '-' then r else 0) | (if s[i + 1] != '-' then w else 0) | (if s[i + 2] != '-' then x else 0)
  }

  /**
   * Reading the string back gives the nine permission bits of the mode, and
   * its first character tells a directory; a failed `stat` is told apart by
   * its `?`.
   */
  lemma PermissionsRoundTrip(mode: bv32)
    ensures ShownBits(ModeString(mode)) == mode & 0x1FF
    ensures ModeString(mode)[0] == 'd' <==> IsDirMode(mode)
    ensures ModeString(mode) != UnknownPermissions
  {
    ShownFlags(mode);
    LowBits(mode);
    assert ModeString(mode)[0] != UnknownPermissions[0];
  }

  /** Each position of the string reads back as its own bit of the mode. */
  lemma ShownFlags(mode: bv32)
    ensures ShownBits(ModeString(mode)) == (mode & S_IRUSR) | (mode & S_IWUSR) | (mode & S_IXUSR)
      | (mode & S_IRGRP) | (mode & S_IWGRP) | (mode & S_IXGRP) | (mode & S_IROTH) | (mode & S_IWOTH) | (mode & S_IXOTH)
  {
    UserFlags(mode);
    GroupFlags(mode);
    OtherFlags(mode);
  }

  lemma UserFlags(mode: bv32)
    ensures ShownGroup(ModeString(mode), 1, S_IRUSR, S_IWUSR, S_IXUSR) == (mode & S_IRUSR) | (mode & S_IWUSR) | (mode & S_IXUSR)
  {
    FlagBit(mode, S_IRUSR, 'r');
    FlagBit(mode, S_IWUSR, 'w');
    FlagBit(mode, S_IXUSR, 'x');
  }

  lemma GroupFlags(mode: bv32)
    ensures ShownGroup(ModeString(mode), 4, S_IRGRP, S_IWGRP, S_IXGRP) == (mode & S_IRGRP) | (mode & S_IWGRP) | (mode & S_IXGRP)
  {
    FlagBit(mode, S_IRGRP, 'r');
    FlagBit(mode, S_IWGRP, 'w');
    FlagBit(mode, S_IXGRP, 'x');
  }

  lemma OtherFlags(mode: bv32)
    ensures ShownGroup(ModeString(mode), 7, S_IROTH, S_IWOTH, S_IXOTH) == (mode & S_IROTH) | (mode & S_IWOTH) | (mode & S_IXOTH)
  {
    FlagBit(mode, S_IROTH, 'r');
    FlagBit(mode, S_IWOTH, 'w');
    FlagBit(mode, S_IXOTH, 'x');
  }

  /** A set letter reads back as its bit. */
  lemma FlagBit(mode: bv32, bit: bv32, letter: char)
    requires bit != 0 && bit & (bit - 1) == 0 && letter != '-'
    ensures (if Flag(mode, bit, letter) != '-' then bit else 0) == mode & bit
  {
  }

  lemma LowBits(mode: bv32)
    ensures mode & 0x1FF == (mode & S_IRUSR) | (mode & S_IWUSR) | (mode & S_IXUSR)
      | (mode & S_IRGRP) | (mode & S_IWGRP) | (mode & S_IXGRP) | (mode & S_IROTH) | (mode & S_IWOTH) | (mode & S_IXOTH)
  {
  }

  // ---------------------------------------------------------------------
  // Inclusion (`should_include`)

  /** `path.is_dir()`: follows links, and is false when `stat` fails. */
  predicate IsDirEntry(e: Entry) {
    e.stat.Some? && IsDirMode(e.stat.value.mode)
  }

  /** A pattern filter is in force: `filter_pattern` is neither `None` nor empty. */
  predicate Filtering(cfg: TreeConfig) {
    cfg.filterPattern.Some? && cfg.filterPattern.value != ""
  }

  /** `should_include`: hidden names, the glob filter (on the whole path) and the directories-only switch. */
  predicate ShouldInclude(cfg: TreeConfig, e: Entry) {
    if !cfg.showHidden && StartsWithDot(e.name) then false
    else if Filtering(cfg) && !cfg.matches(e.path, cfg.filterPattern.value) then false
    else if cfg.onlyDirs && !IsDirEntry(e) then false
    else true
  }

  /** What `should_include` lets through, stated on the node that is built for the entry. */
  predicate Admitted(cfg: TreeConfig, n: Info) {
    && (cfg.showHidden || !StartsWithDot(n.name))
    && (Filtering(cfg) ==> cfg.matches(n.path, cfg.filterPattern.value))
    && (cfg.onlyDirs ==> n.isDir)
  }

  // ---------------------------------------------------------------------
  // Child order

  predicate NotDir(n: Info) {
    !n.isDir
  }

  function LowerName(n: Info): string {
    Lower(n.name)
  }

  function InfoSize(n: Info): int {
    n.size
  }

  function Modified(n: Info): int {
    n.modified
  }

  /** The key `(not x.is_dir, x.name.lower())`: directories first, then by lower-cased name. */
  function NameKey(): (Info, Info) -> bool {
    FlagThen(NotDir, ByStringKey(LowerName, false))
  }

  /** The key `(not x.is_dir, x.size)`. */
  function SizeKey(): (Info, Info) -> bool {
    FlagThen(NotDir, ByIntKey(InfoSize, false))
  }

  /** The sort modes for which `scan_directory` sorts the children. */
  predicate Sorts(sortBy: string) {
    sortBy == "name" || sortBy == "size" || sortBy == "time"
  }

  /**
   * The order `children.sort` uses: by name with `reverse`, by size and by
   * time with `reverse` negated (largest and newest first by default).
   */
  function ChildOrder(sortBy: string, reverse: bool): (Info, Info) -> bool {
    (a: Info, b: Info) => ChildLess(sortBy, reverse, a, b)
  }

  predicate ChildLess(sortBy: string, reverse: bool, a: Info, b: Info) {
    if sortBy == "name" then Directed(NameKey(), reverse)(a, b)
    else if sortBy == "size" then Directed(SizeKey(), !reverse)(a, b)
    else ByIntKey(Modified, !reverse)(a, b)
  }

  lemma ChildOrderIsOrder(sortBy: string, reverse: bool)
    ensures StrictWeakOrder(ChildOrder(sortBy, reverse))
  {
    if sortBy == "name" {
      ByStringKeyOrder(LowerName, false);
      FlagThenOrder(NotDir, ByStringKey(LowerName, false));
      DirectedOrder(NameKey(), reverse);
      assert forall a, b :: ChildOrder(sortBy, reverse)(a, b) == Directed(NameKey(), reverse)(a, b);
    } else if sortBy == "size" {
      ByIntKeyOrder(InfoSize, false);
      FlagThenOrder(NotDir, ByIntKey(InfoSize, false));
      DirectedOrder(SizeKey(), !reverse);
      assert forall a, b :: ChildOrder(sortBy, reverse)(a, b) == Directed(SizeKey(), !reverse)(a, b);
    } else {
      ByIntKeyOrder(Modified, !reverse);
      assert forall a, b :: ChildOrder(sortBy, reverse)(a, b) == ByIntKey(Modified, !reverse)(a, b);
    }
  }

  /** The children as `scan_directory` leaves them: sorted for a known mode, in listing order otherwise. */
  function Arrange(cfg: TreeConfig, kids: seq<Info>): seq<Info> {
    if Sorts(cfg.sortBy) then SortBy(kids, ChildOrder(cfg.sortBy, cfg.reverse)) else kids
  }

  /** Under the name sort directories come before files (after them when reversed), each group by lower-cased name. */
  lemma NameSortDirsFirst(s: seq<Info>, reverse: bool)
    requires SortedBy(s, ChildOrder("name", reverse))
    ensures forall i, j :: 0 <= i < j < |s| && !reverse ==> (s[j].isDir ==> s[i].isDir)
    ensures forall i, j :: 0 <= i < j < |s| && reverse ==> (s[i].isDir ==> s[j].isDir)
    ensures forall i, j :: 0 <= i < j < |s| && s[i].isDir == s[j].isDir && !reverse ==> !LexLess(Lower(s[j].name), Lower(s[i].name))
    ensures forall i, j :: 0 <= i < j < |s| && s[i].isDir == s[j].isDir && reverse ==> !LexLess(Lower(s[i].name), Lower(s[j].name))
  {
    forall i, j | 0 <= i < j < |s|
      ensures !reverse ==> (s[j].isDir ==> s[i].isDir)
      ensures reverse ==> (s[i].isDir ==> s[j].isDir)
      ensures s[i].isDir == s[j].isDir && !reverse ==> !LexLess(Lower(s[j].name), Lower(s[i].name))
      ensures s[i].isDir == s[j].isDir && reverse ==> !LexLess(Lower(s[i].name), Lower(s[j].name))
    {
      assert !ChildOrder("name", reverse)(s[j], s[i]);
      DirectedApply(NameKey(), reverse, s[j], s[i]);
      var (a, b) := if reverse then (s[i], s[j]) else (s[j], s[i]);
      FlagThenApply(NotDir, ByStringKey(LowerName, false), a, b);
      ByStringKeyApply(LowerName, false, a, b);
    }
  }

  /**
   * Under the size sort the key `(not is_dir, size)` is sorted in reverse:
   * FILES come before directories unless `reverse` is set, and each group
   * is largest first.
   */
  lemma SizeSortFilesFirst(s: seq<Info>, reverse: bool)
    requires SortedBy(s, ChildOrder("size", reverse))
    ensures forall i, j :: 0 <= i < j < |s| && !reverse ==> (s[i].isDir ==> s[j].isDir)
    ensures forall i, j :: 0 <= i < j < |s| && reverse ==> (s[j].isDir ==> s[i].isDir)
    ensures forall i, j :: 0 <= i < j < |s| && s[i].isDir == s[j].isDir && !reverse ==> s[j].size <= s[i].size
    ensures forall i, j :: 0 <= i < j < |s| && s[i].isDir == s[j].isDir && reverse ==> s[i].size <= s[j].size
  {
    forall i, j | 0 <= i < j < |s|
      ensures !reverse ==> (s[i].isDir ==> s[j].isDir)
      ensures reverse ==> (s[j].isDir ==> s[i].isDir)
      ensures s[i].isDir == s[j].isDir && !reverse ==> s[j].size <= s[i].size
      ensures s[i].isDir == s[j].isDir && reverse ==> s[i].size <= s[j].size
    {
      assert !ChildOrder("size", reverse)(s[j], s[i]);
      DirectedApply(SizeKey(), !reverse, s[j], s[i]);
      var (a, b) := if reverse then (s[j], s[i]) else (s[i], s[j]);
      FlagThenApply(NotDir, ByIntKey(InfoSize, false), a, b);
      ByIntKeyApply(InfoSize, false, a, b);
    }
  }

  /** Under the time sort the newest entry comes first unless `reverse` is set. */
  lemma TimeSortNewestFirst(s: seq<Info>, reverse: bool)
    requires SortedBy(s, ChildOrder("time", reverse))
    ensures forall i, j :: 0 <= i < j < |s| && !reverse ==> s[j].modified <= s[i].modified
    ensures forall i, j :: 0 <= i < j < |s| && reverse ==> s[i].modified <= s[j].modified
  {
    forall i, j | 0 <= i < j < |s|
      ensures !reverse ==> s[j].modified <= s[i].modified
      ensures reverse ==> s[i].modified <= s[j].modified
    {
      assert !ChildOrder("time", reverse)(s[j], s[i]);
      ByIntKeyApply(Modified, !reverse, s[j], s[i]);
    }
  }

  // ---------------------------------------------------------------------
  // The scan (`scan_directory`)

  /** Past the depth limit there is no node. */
  predicate TooDeep(cfg: TreeConfig, depth: int) {
    cfg.maxDepth.Some? && depth > cfg.maxDepth.value
  }

  /** The leaf for an entry whose `stat` fails: not a directory, size and time 0, unknown permissions. */
  function ErrorInfo(e: Entry, depth: nat): Info {
    Info(e.path, e.name, false, 0, 0, UnknownPermissions, depth, [])
  }

  /** The node of an entry that could be `stat`ed, before its children are added. */
  function StatInfo(e: Entry, st: Stat, depth: nat): Info {
    Info(e.path, e.name, IsDirMode(st.mode), st.size, st.mtime, GetPermissions(Some(st.mode)), depth, [])
  }

  /**
   * `scan_directory(path, depth)`: nothing past the depth limit; an
   * unreadable entry is an error leaf; a directory that can be listed
   * gets the nodes of its included entries one level deeper, arranged
   * for the sort mode; any other node has no children.
   */
  function ScanTree(cfg: TreeConfig, e: Entry, depth: nat): (r: Option<Info>)
    decreases e
  {
    if TooDeep(cfg, depth) then None
    else match e.stat
      case None => Some(ErrorInfo(e, depth))
      case Some(st) =>
        var node := StatInfo(e, st, depth);
        if node.isDir && e.readable then Some(node.(children := Arrange(cfg, ScanChildren(cfg, e.listing, depth + 1))))
        else Some(node)
  }

  /** The nodes of the included entries of a listing that are not past the depth limit, in listing order. */
  function ScanChildren(cfg: TreeConfig, es: seq<Entry>, depth: nat): seq<Info>
    decreases es
  {
    if es == [] then []
    else
      (if ShouldInclude(cfg, es[0]) && ScanTree(cfg, es[0], depth).Some? then [ScanTree(cfg, es[0], depth).value] else [])
      + ScanChildren(cfg, es[1..], depth)
  }

  /** `scan_directory` returns `None` exactly past the depth limit. */
  lemma ScanNoneIff(cfg: TreeConfig, e: Entry, depth: nat)
    ensures ScanTree(cfg, e, depth).None? <==> cfg.maxDepth.Some? && depth > cfg.maxDepth.value
  {
  }

  lemma ScanChildrenStep(cfg: TreeConfig, es: seq<Entry>, i: nat, depth: nat)
    requires i < |es|
    ensures ScanChildren(cfg, es[i..], depth)
      == (if ShouldInclude(cfg, es[i]) && ScanTree(cfg, es[i], depth).Some? then [ScanTree(cfg, es[i], depth).value] else [])
         + ScanChildren(cfg, es[i + 1..], depth)
  {
    assert es[i..][0] == es[i] && es[i..][1..] == es[i + 1..];
  }

  /** The nodes collected so far and those of the rest of the listing, one entry further on. */
  lemma ScanChildrenAdvance(cfg: TreeConfig, es: seq<Entry>, i: nat, depth: nat, done: seq<Info>)
    requires i < |es| && done + ScanChildren(cfg, es[i..], depth) == ScanChildren(cfg, es, depth)
    ensures ShouldInclude(cfg, es[i]) && ScanTree(cfg, es[i], depth).Some? ==>
      (done + [ScanTree(cfg, es[i], depth).value]) + ScanChildren(cfg, es[i + 1..], depth) == ScanChildren(cfg, es, depth)
    ensures !(ShouldInclude(cfg, es[i]) && ScanTree(cfg, es[i], depth).Some?) ==>
      done + ScanChildren(cfg, es[i + 1..], depth) == ScanChildren(cfg, es, depth)
  {
    ScanChildrenStep(cfg, es, i, depth);
    var rest := ScanChildren(cfg, es[i + 1..], depth);
    if ShouldInclude(cfg, es[i]) && ScanTree(cfg, es[i], depth).Some? {
      var c := ScanTree(cfg, es[i], depth).value;
      assert done + ([c] + rest) == (done + [c]) + rest;
    } else {
      assert [] + rest == rest;
    }
  }

  /**
   * The shape of a scanned tree: no node past the depth limit, no children
   * under a file, children arranged for the sort mode, each one level
   * deeper than its parent and admitted by `should_include`.
   */
  ghost predicate WellFormed(cfg: TreeConfig, n: Info)
    decreases n
  {
    && !TooDeep(cfg, n.depth)
    && (!n.isDir ==> n.children == [])
    && (Sorts(cfg.sortBy) ==> SortedBy(n.children, ChildOrder(cfg.sortBy, cfg.reverse)))
    && (forall c :: c in n.children ==> c.depth == n.depth + 1 && Admitted(cfg, c) && WellFormed(cfg, c))
  }

  lemma {:induction false} ScanWellFormed(cfg: TreeConfig, e: Entry, depth: nat)
    ensures var r := ScanTree(cfg, e, depth);
      r.Some? ==> (r.value.depth == depth && r.value.path == e.path && r.value.name == e.name
                   && r.value.isDir == IsDirEntry(e) && WellFormed(cfg, r.value))
    decreases e, 1
  {
    if !TooDeep(cfg, depth) && e.stat.Some? {
      var node := StatInfo(e, e.stat.value, depth);
      if node.isDir && e.readable {
        var kids := ScanChildren(cfg, e.listing, depth + 1);
        ScanChildrenWellFormed(cfg, e.listing, depth + 1);
        var arranged := Arrange(cfg, kids);
        if Sorts(cfg.sortBy) {
          SortByPermutes(kids, ChildOrder(cfg.sortBy, cfg.reverse));
          ChildOrderIsOrder(cfg.sortBy, cfg.reverse);
          SortBySorted(kids, ChildOrder(cfg.sortBy, cfg.reverse));
          forall c | c in arranged ensures c in kids {
            assert c in multiset(arranged);
          }
        }
      }
    }
  }

  lemma {:induction false} ScanChildrenWellFormed(cfg: TreeConfig, es: seq<Entry>, depth: nat)
    ensures forall c :: c in ScanChildren(cfg, es, depth) ==> c.depth == depth && Admitted(cfg, c) && WellFormed(cfg, c)
    decreases es, 0
  {
    if es != [] {
      ScanWellFormed(cfg, es[0], depth);
      ScanChildrenWellFormed(cfg, es[1..], depth);
    }
  }

  // ---------------------------------------------------------------------
  // Statistics (`self.stats`)

  datatype Stats = Stats(dirs: int, files: int, totalSize: int, maxDepthReached: int)

  const NoStats := Stats(0, 0, 0, 0)

  /** Two tallies together: counts and sizes add, the deepest level is the larger. */
  function Plus(a: Stats, b: Stats): Stats {
    Stats(a.dirs + b.dirs, a.files + b.files, a.totalSize + b.totalSize, Max(a.maxDepthReached, b.maxDepthReached))
  }

  lemma PlusAssociative(a: Stats, b: Stats, c: Stats)
    ensures Plus(Plus(a, b), c) == Plus(a, Plus(b, c))
  {
  }

  /** A file the scan counted; a leaf whose `stat` failed shows the unknown permissions and is not counted. */
  predicate Counted(n: Info) {
    !n.isDir && n.permissions != UnknownPermissions
  }

  /** What one node adds to the statistics. */
  function Own(n: Info): Stats {
    Stats(if n.isDir then 1 else 0, if Counted(n) then 1 else 0, if Counted(n) then n.size else 0, n.depth)
  }

  /** The statistics of a tree: directories, counted files, their total size and the deepest level. */
  function Tally(n: Info): Stats
    decreases n
  {
    Plus(Own(n), TallyAll(n.children))
  }

  function TallyAll(ns: seq<Info>): Stats
    decreases ns
  {
    if ns == [] then NoStats else Plus(Tally(ns[0]), TallyAll(ns[1..]))
  }

  function DirsOf(n: Info): int { Tally(n).dirs }
  function FilesOf(n: Info): int { Tally(n).files }
  function BytesOf(n: Info): int { Tally(n).totalSize }
  function DeepestOf(n: Info): int { Tally(n).maxDepthReached }

  lemma {:induction false} TallyAllParts(ns: seq<Info>)
    ensures TallyAll(ns) == Stats(SumBy(ns, DirsOf), SumBy(ns, FilesOf), SumBy(ns, BytesOf), MaxBy(ns, DeepestOf))
  {
    if ns != [] {
      TallyAllParts(ns[1..]);
    }
  }

  /** The statistics of a list of trees do not depend on its order. */
  lemma TallyPermutation(a: seq<Info>, b: seq<Info>)
    requires multiset(a) == multiset(b)
    ensures TallyAll(a) == TallyAll(b)
  {
    TallyAllParts(a);
    TallyAllParts(b);
    SumByPermutation(a, b, DirsOf);
    SumByPermutation(a, b, FilesOf);
    SumByPermutation(a, b, BytesOf);
    MaxByPermutation(a, b, DeepestOf);
  }

  lemma {:induction false} TallySnoc(ns: seq<Info>, c: Info)
    ensures TallyAll(ns + [c]) == Plus(TallyAll(ns), Tally(c))
  {
    if ns == [] {
      assert ns + [c] == [c];
    } else {
      assert (ns + [c])[1..] == ns[1..] + [c];
      TallySnoc(ns[1..], c);
      PlusAssociative(Tally(ns[0]), TallyAll(ns[1..]), Tally(c));
    }
  }

  /** The running statistics after one more child is appended. */
  lemma TallyAdvance(base: Stats, ns: seq<Info>, c: Info)
    ensures Plus(Plus(base, TallyAll(ns)), Tally(c)) == Plus(base, TallyAll(ns + [c]))
  {
    TallySnoc(ns, c);
    PlusAssociative(base, TallyAll(ns), Tally(c));
  }

  /** `m` is `n` or a node of one of its children's subtrees. */
  ghost predicate NodeOf(m: Info, n: Info)
    decreases n
  {
    m == n || exists k :: 0 <= k < |n.children| && NodeOf(m, n.children[k])
  }

  /** A child's deepest level is reached by its list of siblings. */
  lemma {:induction false} TallyAllDepth(ns: seq<Info>, k: int)
    requires 0 <= k < |ns|
    ensures TallyAll(ns).maxDepthReached >= Tally(ns[k]).maxDepthReached
  {
    if k > 0 { TallyAllDepth(ns[1..], k - 1); }
  }

  /** The deepest level counted is at least the depth of every node of the tree. */
  lemma {:induction false} TallyDepth(n: Info)
    ensures Tally(n).maxDepthReached >= n.depth
    ensures forall m :: NodeOf(m, n) ==> Tally(n).maxDepthReached >= m.depth
  {
    forall m | NodeOf(m, n) ensures Tally(n).maxDepthReached >= m.depth {
      if m != n {
        var k :| 0 <= k < |n.children| && NodeOf(m, n.children[k]);
        TallyDepth(n.children[k]);
        TallyAllDepth(n.children, k);
      }
    }
  }

  /** Raising the deepest level to a node's depth first changes nothing once its tally is added. */
  lemma TallyAfterRaise(base: Stats, n: Info)
    ensures Plus(base.(maxDepthReached := Max(base.maxDepthReached, n.depth)), Tally(n)) == Plus(base, Tally(n))
  {
    TallyDepth(n);
  }

  /** A leaf adds only itself; below the deepest level so far, its level adds nothing. */
  lemma LeafTally(base: Stats, n: Info)
    requires n.children == [] && base.maxDepthReached >= n.depth
    ensures Tally(n) == Own(n)
    ensures Plus(base, Tally(n)) == base.(dirs := base.dirs + Own(n).dirs, files := base.files + Own(n).files,
                                          totalSize := base.totalSize + Own(n).totalSize)
  {
  }

  /** A directory counted on entry and then filled with the tallied children, in any arranged order. */
  lemma DirTally(base: Stats, counted: Stats, n: Info, cfg: TreeConfig, kids: seq<Info>)
    requires n.isDir && n.children == [] && counted == Plus(base, Own(n))
    ensures Plus(counted, TallyAll(kids)) == Plus(base, Tally(n.(children := Arrange(cfg, kids))))
  {
    if Sorts(cfg.sortBy) {
      SortByPermutes(kids, ChildOrder(cfg.sortBy, cfg.reverse));
      TallyPermutation(kids, Arrange(cfg, kids));
    }
    PlusAssociative(base, Own(n), TallyAll(kids));
  }

  // ---------------------------------------------------------------------
  // Lines (`format_line`, `render_tree`)

  const Branch: string := "├── "
  const LastBranch: string := "└── "
  const Vertical: string := "│   "
  const Space: string := "    "
  const FolderIcon: string := "\U{1F4C1}"
  const FileIcon: string := "\U{1F4C4}"

  /** The connector of a child: the last one closes the branch. */
  function Connector(last: bool): string {
    if last then LastBranch else Branch
  }

  /** What a child's descendants add to the prefix: blank under the last child, a vertical bar otherwise. */
  function Extension(last: bool): string {
    if last then Space else Vertical
  }

  /** The name as shown: a folder with a trailing `/`, or a page. */
  function Label(n: Info): string {
    if n.isDir then FolderIcon + " " + n.name + "/" else FileIcon + " " + n.name
  }

  /** The optional columns before the name: permissions, date, and the size of a file. */
  function Columns(cfg: TreeConfig, n: Info): string {
    (if cfg.showPermissions then "[" + n.permissions + "] " else "")
    + (if cfg.showDate then cfg.dateText(n.modified) + " " else "")
    + (if cfg.showSize && !n.isDir then "(" + PadLeft(cfg.sizeText(n.size), 8) + ") " else "")
  }

  /** `format_line`. */
  function FormatLine(cfg: TreeConfig, n: Info, prefix: string): string {
    prefix + Columns(cfg, n) + Label(n)
  }

  /** A line starts with its prefix and ends with the label, so a directory's line ends with `/`. */
  lemma FormatLineEnds(cfg: TreeConfig, n: Info, prefix: string)
    ensures var r := FormatLine(cfg, n, prefix);
      && IsPrefix(prefix, r)
      && IsSuffix(Label(n), r)
      && (n.isDir ==> r[|r| - 1] == '/')
  {
    var cols, name := Columns(cfg, n), Label(n);
    assert FormatLine(cfg, n, prefix) == prefix + (cols + name) == (prefix + cols) + name;
    ConcatPrefix(prefix, cols + name);
    ConcatSuffix(prefix + cols, name);
  }

  /**
   * With no permission or date column, the character after the prefix
   * opens a size column exactly for a file when sizes are shown.
   */
  lemma SizeColumnShown(cfg: TreeConfig, n: Info, prefix: string)
    requires !cfg.showPermissions && !cfg.showDate
    ensures FormatLine(cfg, n, prefix)[|prefix|] == '(' <==> cfg.showSize && !n.isDir
  {
    var r := FormatLine(cfg, n, prefix);
    var cols := Columns(cfg, n);
    assert r == prefix + (cols + Label(n));
    assert r[|prefix|] == (cols + Label(n))[0];
    if cfg.showSize && !n.isDir {
      assert cols == "(" + PadLeft(cfg.sizeText(n.size), 8) + ") ";
      assert cols[0] == '(';
    } else {
      assert cols == "";
      assert Label(n)[0] == (if n.isDir then FolderIcon else FileIcon)[0];
    }
  }

  /**
   * `render_tree(node, prefix)`: the root (depth 0) is shown first with no
   * prefix, and then every child in turn.
   */
  function RenderTree(cfg: TreeConfig, n: Info, prefix: string): seq<string>
    decreases n
  {
    if n.depth == 0 then [FormatLine(cfg, n, "")] + RenderFrom(cfg, n.children, "", 0)
    else RenderFrom(cfg, n.children, prefix, 0)
  }

  /**
   * The loop of `render_tree` from child `i` on: the child's line behind
   * its connector, then its own descendants under the extended prefix.
   */
  function RenderFrom(cfg: TreeConfig, cs: seq<Info>, prefix: string, i: nat): seq<string>
    decreases cs, |cs| - i
  {
    if i >= |cs| then []
    else
      var last := i == |cs| - 1;
      [FormatLine(cfg, cs[i], prefix + Connector(last))]
      + (if cs[i].children != [] then RenderTree(cfg, cs[i], prefix + Extension(last)) else [])
      + RenderFrom(cfg, cs, prefix, i + 1)
  }

  /** The number of nodes below `n`. */
  function Descendants(n: Info): nat
    decreases n
  {
    DescendantsFrom(n.children, 0)
  }

  function DescendantsFrom(cs: seq<Info>, i: nat): nat
    decreases cs, |cs| - i
  {
    if i >= |cs| then 0 else 1 + Descendants(cs[i]) + DescendantsFrom(cs, i + 1)
  }

  /** No node strictly below `n` claims depth 0, which would make it render as a second root. */
  ghost predicate NoRootBelow(n: Info)
    decreases n
  {
    forall c :: c in n.children ==> c.depth != 0 && NoRootBelow(c)
  }

  /** Exactly one line per node: the root's own line and one for every node below it. */
  lemma {:induction false} RenderLineCount(cfg: TreeConfig, n: Info, prefix: string)
    requires NoRootBelow(n)
    ensures |RenderTree(cfg, n, prefix)| == (if n.depth == 0 then 1 else 0) + Descendants(n)
    ensures n.depth == 0 ==> RenderTree(cfg, n, prefix)[0] == FormatLine(cfg, n, "")
    decreases n, 1
  {
    RenderFromCount(cfg, n.children, if n.depth == 0 then "" else prefix, 0);
  }

  lemma {:induction false} RenderFromCount(cfg: TreeConfig, cs: seq<Info>, prefix: string, i: nat)
    requires forall c :: c in cs ==> c.depth != 0 && NoRootBelow(c)
    ensures |RenderFrom(cfg, cs, prefix, i)| == DescendantsFrom(cs, i)
    decreases cs, |cs| - i
  {
    if i < |cs| {
      assert cs[i] in cs;
      RenderFromCount(cfg, cs, prefix, i + 1);
      if cs[i].children != [] {
        RenderLineCount(cfg, cs[i], prefix + Extension(i == |cs| - 1));
      } else {
        assert Descendants(cs[i]) == DescendantsFrom([], 0) == 0;
      }
    }
  }

  lemma IsPrefixConcat(p: string, q: string, s: string)
    requires IsPrefix(p + q, s)
    ensures IsPrefix(p, s)
  {
    assert s[..|p|] == (p + q)[..|p|];
  }

  /** Below a node that is not the root, every line begins with the prefix it was given. */
  lemma {:induction false} RenderPrefix(cfg: TreeConfig, n: Info, prefix: string)
    requires n.depth != 0
    requires NoRootBelow(n)
    ensures forall line :: line in RenderTree(cfg, n, prefix) ==> IsPrefix(prefix, line)
    decreases n, 1
  {
    RenderFromPrefix(cfg, n.children, prefix, 0);
  }

  lemma {:induction false} RenderFromPrefix(cfg: TreeConfig, cs: seq<Info>, prefix: string, i: nat)
    requires forall c :: c in cs ==> c.depth != 0 && NoRootBelow(c)
    ensures forall line :: line in RenderFrom(cfg, cs, prefix, i) ==> IsPrefix(prefix, line)
    decreases cs, |cs| - i
  {
    if i < |cs| {
      var last := i == |cs| - 1;
      assert cs[i] in cs;
      RenderFromPrefix(cfg, cs, prefix, i + 1);
      FormatLineEnds(cfg, cs[i], prefix + Connector(last));
      IsPrefixConcat(prefix, Connector(last), FormatLine(cfg, cs[i], prefix + Connector(last)));
      if cs[i].children != [] {
        RenderPrefix(cfg, cs[i], prefix + Extension(last));
        forall line | line in RenderTree(cfg, cs[i], prefix + Extension(last)) ensures IsPrefix(prefix, line) {
          IsPrefixConcat(prefix, Extension(last), line);
        }
      }
    }
  }

  /**
   * The block of child `i`: its line behind `└── ` if it is the last child
   * and `├── ` otherwise, then one line for each of its descendants, each
   * under the prefix extended by four spaces after the last child and by
   * `│   ` otherwise; the blocks of the later children follow.
   */
  lemma BranchRules(cfg: TreeConfig, cs: seq<Info>, prefix: string, i: nat)
    requires i < |cs|
    requires forall c :: c in cs ==> c.depth != 0 && NoRootBelow(c)
    ensures var lines, last, d := RenderFrom(cfg, cs, prefix, i), i == |cs| - 1, Descendants(cs[i]);
      && |lines| >= 1 + d
      && lines[0] == FormatLine(cfg, cs[i], prefix + Connector(last))
      && (forall k :: 1 <= k <= d ==> IsPrefix(prefix + Extension(last), lines[k]))
      && lines[1 + d..] == RenderFrom(cfg, cs, prefix, i + 1)
  {
    var last := i == |cs| - 1;
    var head := [FormatLine(cfg, cs[i], prefix + Connector(last))];
    var sub := if cs[i].children != [] then RenderTree(cfg, cs[i], prefix + Extension(last)) else [];
    var rest := RenderFrom(cfg, cs, prefix, i + 1);
    var lines := RenderFrom(cfg, cs, prefix, i);
    assert cs[i] in cs;
    assert lines == head + sub + rest;
    if cs[i].children != [] {
      RenderLineCount(cfg, cs[i], prefix + Extension(last));
      RenderPrefix(cfg, cs[i], prefix + Extension(last));
    }
    assert |sub| == Descendants(cs[i]);
    forall k | 1 <= k <= Descendants(cs[i]) ensures IsPrefix(prefix + Extension(last), lines[k]) {
      assert lines[k] == sub[k - 1];
    }
    assert lines[1 + |sub|..] == rest;
  }

  /** A scanned tree from depth 0 renders one line per node, the root's first. */
  lemma ScanRendersEveryNode(cfg: TreeConfig, e: Entry)
    requires ScanTree(cfg, e, 0).Some?
    ensures var n := ScanTree(cfg, e, 0).value;
      |RenderTree(cfg, n, "")| == 1 + Descendants(n) && RenderTree(cfg, n, "")[0] == FormatLine(cfg, n, "")
  {
    var n := ScanTree(cfg, e, 0).value;
    ScanWellFormed(cfg, e, 0);
    WellFormedNoRootBelow(cfg, n);
    RenderLineCount(cfg, n, "");
  }

  lemma {:induction false} WellFormedNoRootBelow(cfg: TreeConfig, n: Info)
    requires WellFormed(cfg, n)
    ensures NoRootBelow(n)
    decreases n
  {
    forall c | c in n.children ensures c.depth != 0 && NoRootBelow(c) {
      WellFormedNoRootBelow(cfg, c);
    }
  }

  // ---------------------------------------------------------------------
  // JSON export (`node_to_dict`)

  datatype Json = JString(s: string) | JBool(b: bool) | JInt(i: int) | JArray(items: seq<Json>) | JObject(members: seq<(string, Json)>)

  /** `node_to_dict`: five keys, and a sixth, `children`, only when there are children. */
  function NodeToDict(n: Info): Json
    decreases n
  {
    JObject([("name", JString(n.name)), ("is_dir", JBool(n.isDir)), ("size", JInt(n.size)),
             ("modified", JInt(n.modified)), ("permissions", JString(n.permissions))]
            + (if n.children != [] then [("children", JArray(NodesToDicts(n.children)))] else []))
  }

  /** `[node_to_dict(c) for c in node.children]`. */
  function NodesToDicts(ns: seq<Info>): seq<Json>
    decreases ns
  {
    if ns == [] then [] else [NodeToDict(ns[0])] + NodesToDicts(ns[1..])
  }

  /** What the JSON keeps of a node: everything but the path and the depth. */
  datatype Exported = Exported(name: string, isDir: bool, size: int, modified: int, permissions: string, children: seq<Exported>)

  function Strip(n: Info): Exported
    decreases n
  {
    Exported(n.name, n.isDir, n.size, n.modified, n.permissions, StripAll(n.children))
  }

  function StripAll(ns: seq<Info>): seq<Exported>
    decreases ns
  {
    if ns == [] then [] else [Strip(ns[0])] + StripAll(ns[1..])
  }

  /** Reads an exported node back from its JSON object. */
  function FromDict(j: Json): Option<Exported>
    decreases j, 1
  {
    if !j.JObject? then None
    else
      var m := j.members;
      if !(|m| == 5 || |m| == 6) then None
      else if m[0].0 != "name" || !m[0].1.JString? || m[1].0 != "is_dir" || !m[1].1.JBool?
        || m[2].0 != "size" || !m[2].1.JInt? || m[3].0 != "modified" || !m[3].1.JInt?
        || m[4].0 != "permissions" || !m[4].1.JString? then None
      else if |m| == 5 then Some(Exported(m[0].1.s, m[1].1.b, m[2].1.i, m[3].1.i, m[4].1.s, []))
      else if m[5].0 != "children" || !m[5].1.JArray? then None
      else
        var kids := FromDicts(m[5].1.items);
        if kids.None? then None
        else Some(Exported(m[0].1.s, m[1].1.b, m[2].1.i, m[3].1.i, m[4].1.s, kids.value))
  }

  function FromDicts(js: seq<Json>): Option<seq<Exported>>
    decreases js, 0
  {
    if js == [] then Some([])
    else
      var head, tail := FromDict(js[0]), FromDicts(js[1..]);
      if head.None? || tail.None? then None else Some([head.value] + tail.value)
  }

  /** `children` is present exactly when the node has children, and the JSON reads back to the node. */
  lemma {:induction false} NodeToDictRoundTrip(n: Info)
    ensures var m := NodeToDict(n).members;
      && (|m| == 6 <==> n.children != [])
      && (forall k :: 0 <= k < |m| ==> (m[k].0 == "children" <==> k == 5))
      && FromDict(NodeToDict(n)) == Some(Strip(n))
    decreases n, 1
  {
    if n.children != [] {
      NodesToDictsRoundTrip(n.children);
    }
  }

  lemma {:induction false} NodesToDictsRoundTrip(ns: seq<Info>)
    ensures FromDicts(NodesToDicts(ns)) == Some(StripAll(ns))
    decreases ns, 0
  {
    if ns != [] {
      NodeToDictRoundTrip(ns[0]);
      NodesToDictsRoundTrip(ns[1..]);
      assert NodesToDicts(ns)[0] == NodeToDict(ns[0]) && NodesToDicts(ns)[1..] == NodesToDicts(ns[1..]);
    }
  }

  // ---------------------------------------------------------------------
  // The visualizer (`TreeVisualizer`)

  class TreeVisualizer {
    const maxDepth: Option<int>
    const showHidden: bool
    const showSize: bool
    const showDate: bool
    const showPermissions: bool
    const filterPattern: Option<string>
    const sortBy: string
    const reverse: bool
    const onlyDirs: bool
    const summary: bool
    const matches: (string, string) -> bool
    const sizeText: int -> string
    const dateText: int -> string
    var stats: Stats

    function Config(): TreeConfig {
      TreeConfig(maxDepth, showHidden, showSize, showDate, showPermissions, filterPattern, sortBy, reverse, onlyDirs,
                 matches, sizeText, dateText)
    }

    constructor(maxDepth: Option<int>, showHidden: bool, showSize: bool, showDate: bool, showPermissions: bool,
                filterPattern: Option<string>, sortBy: string, reverse: bool, onlyDirs: bool, summary: bool,
                matches: (string, string) -> bool, sizeText: int -> string, dateText: int -> string)
      ensures this.maxDepth == maxDepth && this.showHidden == showHidden && this.showSize == showSize
      ensures this.showDate == showDate && this.showPermissions == showPermissions
      ensures this.filterPattern == filterPattern && this.sortBy == sortBy && this.reverse == reverse
      ensures this.onlyDirs == onlyDirs && this.summary == summary
      ensures this.matches == matches && this.sizeText == sizeText && this.dateText == dateText
      ensures stats == NoStats
    {
      this.maxDepth := maxDepth;
      this.showHidden := showHidden;
      this.showSize := showSize;
      this.showDate := showDate;
      this.showPermissions := showPermissions;
      this.filterPattern := filterPattern;
      this.sortBy := sortBy;
      this.reverse := reverse;
      this.onlyDirs := onlyDirs;
      this.summary := summary;
      this.matches := matches;
      this.sizeText := sizeText;
      this.dateText := dateText;
      stats := NoStats;
    }

    /**
     * `scan_directory(path, depth)`: nothing past the depth limit; otherwise
     * the deepest level is raised to `depth` and the node of `e` is built.
     * The statistics grow by exactly what that node and the nodes below it
     * account for.
     */
    method ScanDirectory(e: Entry, depth: nat) returns (r: Option<Info>)
      modifies this`stats
      decreases e, 3
      ensures r == ScanTree(Config(), e, depth)
      ensures stats == if r.Some? then Plus(old(stats), Tally(r.value)) else old(stats)
    {
      if maxDepth.Some? && depth > maxDepth.value {
        return None;
      }
      stats := stats.(maxDepthReached := Max(stats.maxDepthReached, depth));
      var info := ScanNode(e, depth);
      TallyAfterRaise(old(stats), info);
      r := Some(info);
    }

    /**
     * The body of `scan_directory` once the depth is within the limit: an
     * error leaf when `stat` fails, a counted file, or a directory counted
     * and, when it can be listed, filled with its arranged children.
     */
    method ScanNode(e: Entry, depth: nat) returns (info: Info)
      requires !TooDeep(Config(), depth)
      requires stats.maxDepthReached >= depth
      modifies this`stats
      decreases e, 2
      ensures Some(info) == ScanTree(Config(), e, depth)
      ensures stats == Plus(old(stats), Tally(info))
    {
      if e.stat.None? {
        info := ErrorInfo(e, depth);
        LeafTally(stats, info);
        return;
      }
      var st := e.stat.value;
      info := Info(e.path, e.name, IsDirMode(st.mode), st.size, st.mtime, GetPermissions(Some(st.mode)), depth, []);
      PermissionsRoundTrip(st.mode);
      LeafTally(stats, info);
      if info.isDir {
        stats := stats.(dirs := stats.dirs + 1);
        if e.readable {
          ghost var counted := stats;
          var kids := ScanListing(e, depth);
          DirTally(old(stats), counted, info, Config(), kids);
          info := info.(children := Arrange(Config(), kids));
        }
      } else {
        stats := stats.(files := stats.files + 1, totalSize := stats.totalSize + st.size);
      }
    }

    /**
     * The loop of `scan_directory` over a directory's entries: each
     * included entry is scanned one level deeper and kept when it yields a
     * node.
     */
    method ScanListing(e: Entry, depth: nat) returns (kids: seq<Info>)
      requires stats.maxDepthReached >= depth
      modifies this`stats
      decreases e, 1
      ensures kids == ScanChildren(Config(), e.listing, depth + 1)
      ensures stats == Plus(old(stats), TallyAll(kids))
    {
      kids := [];
      var i := 0;
      while i < |e.listing|
        invariant 0 <= i <= |e.listing|
        invariant kids + ScanChildren(Config(), e.listing[i..], depth + 1) == ScanChildren(Config(), e.listing, depth + 1)
        invariant stats == Plus(old(stats), TallyAll(kids))
      {
        kids := ScanEntry(e, i, depth, kids, old(stats));
        i := i + 1;
      }
      assert e.listing[i..] == [];
    }

    /** One turn of that loop: entry `i` is scanned when it is included, and kept when it yields a node. */
    method ScanEntry(e: Entry, i: nat, depth: nat, kids: seq<Info>, ghost base: Stats) returns (more: seq<Info>)
      requires i < |e.listing|
      requires kids + ScanChildren(Config(), e.listing[i..], depth + 1) == ScanChildren(Config(), e.listing, depth + 1)
      requires stats == Plus(base, TallyAll(kids))
      modifies this`stats
      decreases e, 0
      ensures more + ScanChildren(Config(), e.listing[i + 1..], depth + 1) == ScanChildren(Config(), e.listing, depth + 1)
      ensures stats == Plus(base, TallyAll(more))
    {
      var entry := e.listing[i];
      ScanChildrenAdvance(Config(), e.listing, i, depth + 1, kids);
      more := kids;
      if ShouldInclude(Config(), entry) {
        var child := ScanDirectory(entry, depth + 1);
        if child.Some? {
          TallyAdvance(base, kids, child.value);
          more := kids + [child.value];
        }
      }
    }
  }
}
