# Verified model of four command-line file tools

This project models the core of four Python tools in Dafny and proves properties of the model.

- **The incremental backup utility** (`backup_utility.py`) is modelled in `backup.dfy`. It covers:
  - the exclusion test and file collection;
  - the digest records and the chunked digest computation;
  - the change detector, which decides which files to copy;
  - copying (with optional compression), pruning of deleted files and the run counters;
  - the `.backup_hashes.json` digest table;
  - `verify_backup` and the exit codes of `main`.

  The source tree is a value (`FsNode`). The destination is a map from destination-relative path to content. MD5 and SHA-256 are two uninterpreted functions of content (`Hasher`).
- **The log monitor** (`log_monitor.py`) is modelled in `log_monitor.dfy`. It covers:
  - highlight-rule set-up;
  - line parsing around the format matcher;
  - the include/exclude display decision;
  - colouring and output layout;
  - the statistics counters;
  - the rotation bookkeeping.
- **The disk analyzer** (`disk_analyzer.py`) is modelled in `disk_analyzer.dfy`. It covers:
  - the size-aggregating scan into a tree of `FileNode`s;
  - the browser state and its key-driven transitions: the visible list, cursor, scrolling, sort mode, hidden files, entering and leaving directories, and deletion.
- **The tree visualizer** (`tree_visualizer.py`) is modelled in `tree_visualizer.dfy`. It covers:
  - the permission string;
  - the inclusion filter;
  - the depth-limited scan with its statistics and child ordering;
  - the box-drawing renderer;
  - the line format;
  - the JSON form of a node.

Two support files are shared by all four models:
- `common.dfy` holds `Option`, string helpers and the substring exclusion test used by both the backup utility and the disk scanner.
- `sorting.dfy` holds Python's stable `sort`/`sorted` as a stable insertion sort under a strict weak order. The `key=` and `reverse=` arguments become orders built by `ByIntKey`, `ByStringKey`, `Directed` and `FlagThen`.

Objects whose fields the source updates are classes:
- `Backup.BackupUtility`;
- `Logs.LogMonitor`;
- `Disk.DiskScanner`;
- `Disk.DiskAnalyzerUI`;
- `Tree.TreeVisualizer`.

Their methods carry `modifies` clauses and are proved against specification functions. For example, `Tree.TreeVisualizer.ScanDirectory` returns `ScanTree(...)`, and its statistics grow by `Tally` of the result.

The model keeps the source's behaviour where it is surprising and proves it as stated behaviour:
- **Previous digest table is never loaded.** The previous table (`previous_hashes`) is never loaded: `run` finds the previous manifest but never reads the hash file. The class therefore keeps it empty, and every run copies every file (`Backup.EmptyPreviousSelectsAll`).
- **Post-copy check reads the wrong path.** With compression on, the check after a copy re-digests the uncompressed name (`Backup.CompressedCopyChecksWrongPath`).
- **Dry run still creates directories.** A dry run still creates the parent directory of every selected file, with every missing ancestor up to the destination root (`mkdir(parents=True)`). A directory that cannot be created fails the call even in a dry run (`Backup.CopyOutcomeShape`, `Backup.CreatedDirsMeaning`).
- **Compressed files count as missing.** `verify_backup` looks each path up without `.gz`, so a compressed copy is reported missing (`Backup.CompressedEntryMissing`).
- **A single-file source never backs up.** Its relative path is `.`, so outside a dry run it is never reported as backed up (`Backup.SingleFileCopyFails`).
- **Disk browser: cursor can reach -1.** On an empty list, Down, PgDn and End put the cursor at -1 (`Disk.MovedOnEmpty`).
- **Disk browser: going up uses the raw child list.** Going up places the cursor by position in the parent's unsorted, unfiltered children (`Disk.DiskAnalyzerUI.GoUp`).
- **Disk browser: deleting leaves ancestors stale.** A delete lowers only the parent's size; ancestors keep their old sizes (`Disk.ReplaceAtAncestors`).
- **Tree visualizer: files first under the size sort.** The size sort puts files before directories unless reversed (`Tree.SizeSortFilesFirst`).
- **Tree visualizer: the pattern filter also applies to directories.** A directory that does not match the pattern is not descended into (`ShouldInclude`).

## Model

| member | source | states |
|---|---|---|
| Common.ShouldExcludeMeaning | backup_utility.py:115-121 | a path is excluded exactly when some pattern occurs as a substring of its text (the same test as `DiskScanner.should_exclude`) |
| Common.NoPatternsExcludeNothing | backup_utility.py:118-121 | with no patterns nothing is excluded |
| Sorting.SortByPermutes | disk_analyzer.py:149 | the stable sort used for `children.sort(...)` and `sorted(...)` returns a permutation of its input |
| Sorting.SortBySorted | disk_analyzer.py:149 | under a strict weak order the result is sorted: no later element is strictly less than an earlier one |
| Sorting.SortByStable | disk_analyzer.py:149 | the sort is stable: elements of a class none of whose members is less than another (equal keys) keep their input order |
| Backup.CollectedSingleFile | backup_utility.py:168-169 | a regular-file source is returned alone, unfiltered, as relative path `.` |
| Backup.KeepIncludedSound | backup_utility.py:178-181 | the per-file loop keeps exactly the walked files that are not excluded, in both directions |
| Backup.WalkPlaced | backup_utility.py:172-176 | every walked file lies below the walked directory and below every directory entered to reach it, and none of those directories is excluded |
| Backup.CollectedNotExcluded | backup_utility.py:164-186 | on a directory source no returned file is excluded, each lies below the source, and none lies below an excluded directory |
| Backup.CollectFiles | backup_utility.py:164-186 | returns the collected files and adds exactly the sum of their sizes to `total_size` (nothing for a single-file source) |
| Backup.CalculateHash | backup_utility.py:123-139 | feeding the content to both digests in chunks of at most 65536 bytes yields the digests of the whole content |
| Backup.HashOne | backup_utility.py:141-162 | a readable, non-excluded file gives its record (relative path, size, mtime, both digests); an excluded one gives nothing; an unreadable one fails |
| Backup.NeedsBackupDecision | backup_utility.py:188-207 | selection precedence: new path, then size change, then mtime difference beyond 1 ms, then the digest chosen by the algorithm (`md5`, else SHA-256) |
| Backup.UnchangedNotSelected | backup_utility.py:188-207 | a record equal to its previous-table entry is never selected |
| Backup.OtherDigestIgnored | backup_utility.py:203-207 | with metadata within tolerance, an equal selected digest means skip, whatever the other digest says |
| Backup.SelectionSound | backup_utility.py:314-318 | the selected records are exactly the table's records that need a backup; the rest are exactly those that do not |
| Backup.SelectionPartition | backup_utility.py:314-320 | selected plus skipped records make up the whole table |
| Backup.SecondRunSelectsNothing | backup_utility.py:314-318 | against a previous table equal to the current one nothing is selected (idempotence) |
| Backup.EmptyPreviousSelectsAll | backup_utility.py:188-191 | with the empty previous table that `run` consults, every record is selected |
| Backup.SkippedCount | backup_utility.py:320 | `files_skipped` equals the number of unchanged records |
| Backup.WrittenName | backup_utility.py:218-219 | `.gz` is appended exactly when compression is on and the file is larger than 1024 bytes |
| Backup.ParentDir | backup_utility.py:211 | `dest_path.parent`, relative to the destination: the prefix before the last `/`, or the root `""` when there is none |
| Backup.CreatedDirsMeaning | backup_utility.py:213 | `mkdir(parents=True)` makes sure of exactly the directory, every prefix of it that ends before a `/`, and the destination root |
| Backup.CopyOutcomeShape | backup_utility.py:209-243 | a parent directory that cannot be created fails the call with nothing changed; otherwise it and all its ancestors up to the destination root are created, even in dry run; a dry run writes nothing and succeeds exactly when the parent could be created; otherwise exactly the written name is added, or the call fails |
| Backup.CopySucceedsIff | backup_utility.py:211-243 | outside dry run, for a real relative path, the call returns True exactly when the parent can be created, the written name can be written, the checked path then exists and its selected digest equals the record's; a write error, a missing file or a digest mismatch returns False |
| Backup.SoundCopySucceeds | backup_utility.py:223-238 | without compression, on a sound and writable medium, a record whose digests match its content is copied verbatim and succeeds |
| Backup.CompressedCopyChecksWrongPath | backup_utility.py:227-228 | with compression on, a large file with no stale uncompressed copy fails the post-copy check although its `.gz` file was written |
| Backup.SingleFileCopyFails | backup_utility.py:212-228 | a record with relative path `.` is never reported as backed up outside dry run |
| Backup.CopyFile | backup_utility.py:209-243 | `_backup_file`'s result and the destination afterwards are those of `CopyOutcome`, whose success and failure cases `CopyOutcomeShape` and `CopySucceedsIff` state |
| Backup.CopyAllCount | backup_utility.py:324-336 | every selected record is either backed up or reported with one "Backup failed" |
| Backup.CopyAllShape | backup_utility.py:332-336 | the backed-up records are selected records, and every copy error names a selected record |
| Backup.DryRunCopiesNothing | backup_utility.py:211-216 | in dry run no file is written; exactly the selected records whose parent directory can be created count as backed up, and every error names a selected record whose parent cannot be; with no such directory every record counts and no error is recorded |
| Backup.CopyFiles | backup_utility.py:324-336 | the copying loop produces the records backed up, the errors and the destination of the copying fold |
| Backup.StoreValid | backup_utility.py:306 | storing a record keeps the table keyed by path and appends a new key to the key order |
| Backup.AddHashesKeys | backup_utility.py:300-306 | after hashing, the keys are the old keys plus the relative path of every readable, non-excluded file, each record under its own path |
| Backup.AddHashesValid | backup_utility.py:300-306 | hashing keeps the table valid and only extends its key order |
| Backup.HashFiles | backup_utility.py:300-306 | the hashing loop builds the table of `AddHashes` and one "Cannot hash" per unreadable file |
| Backup.PrunedNameInjective | backup_utility.py:252-254 | different stale paths have different destination names |
| Backup.UnlinkFailures | backup_utility.py:256-263 | failing unlinks come only from stale paths, and none happen in dry run |
| Backup.PruneAllCount | backup_utility.py:245-267 | `files_removed` is the number of stale previous paths minus those whose unlink raised |
| Backup.PruneAllFiles | backup_utility.py:250-259 | exactly the artifacts of the unlinked stale paths leave the destination |
| Backup.PruneAllErrors | backup_utility.py:262-263 | one "Cannot remove" per stale path whose unlink raised, and nothing else |
| Backup.DryRunPrunesNothing | backup_utility.py:256-265 | a dry run deletes nothing, yet counts every stale path as removed |
| Backup.PruneAllKeepsOthers | backup_utility.py:250-258 | no artifact of a path outside the previous table is touched |
| Backup.Prune | backup_utility.py:245-267 | the pruning loop computes the count, destination and errors of `PruneAll` |
| Backup.PruneMeaning | backup_utility.py:248-251 | pruning over the previous table's keys is stated on the set of stale keys |
| Backup.FromDict | backup_utility.py:35-37 | a record is read only from an object with exactly the five field names |
| Backup.ToDictNames | backup_utility.py:32-33 | `to_dict` writes exactly the five field names |
| Backup.RecordRoundTrip | backup_utility.py:32-37 | `from_dict(to_dict(r)) == r` |
| Backup.SaveHashes | backup_utility.py:380-385 | the saved table has the current table's keys |
| Backup.SaveLoadRoundTrip | backup_utility.py:380-385 | every saved entry reads back as the current record under that key |
| Backup.ProblemsMeaning | backup_utility.py:419-432 | a path is listed missing exactly when recorded and absent, and corrupted exactly when recorded, present and a digest differs; at most one problem per entry |
| Backup.NoProblemsIffAllValid | backup_utility.py:416-436 | nothing is listed exactly when every recorded file exists with both recorded digests |
| Backup.CheckEntry | backup_utility.py:420-432 | one iteration yields no problem, "Missing" or "Corrupted" |
| Backup.CheckEntries | backup_utility.py:416-436 | the loop lists the entries' problems in file order, and the backup is valid exactly when none is listed |
| Backup.VerifyBackup | backup_utility.py:396-441 | without the manifest or the hash file the result is False with nothing listed; otherwise the entries are checked as `CheckEntries` states |
| Backup.CompressedEntryMissing | backup_utility.py:420-424 | an entry stored only under `<path>.gz` is reported missing |
| Backup.SavedTableVerifies | backup_utility.py:419-432 | a destination holding, under every saved key, content with the saved digests verifies with no problem |
| Backup.ExitCode | backup_utility.py:481-514 | the exit code is 0 exactly for a passed verification or an error-free run, 130 exactly on interruption, and 1 otherwise |
| Backup.Scan | backup_utility.py:289-311 | collection followed by hashing gives the collected files, the added size, the new table and the hash errors |
| Backup.Transfer | backup_utility.py:323-345 | the copying loop and then the pruning loop, as `TransferOutcome` describes |
| Backup.Finish | backup_utility.py:313-345 | copying, pruning and counting give the state `Settle` describes |
| Backup.RunPhases | backup_utility.py:289-345 | all phases of a run give the state `RunOutcome` describes |
| Backup.RunFacts | backup_utility.py:269-372 | a run stores every hashed file and extends the key order; `files_skipped` counts the unchanged records and, with the selected ones, the whole table; the identity fields stay; counters and errors only grow; a dry run leaves the destination files alone and counts as backed up the selected records whose parent directory can be created (all of them when none fails) |
| Backup.RunCounters | backup_utility.py:332-345 | `files_backed_up` and `bytes_transferred` grow by the number and total size of the successful copies; every selected record succeeded or failed once; `files_removed` is the stale count less the failed unlinks |
| Backup.BackupUtility.constructor | backup_utility.py:71-96 | a fresh manifest with zero counters and no errors; empty previous and current tables; nothing saved |
| Backup.BackupUtility.Run | backup_utility.py:269-372 | the object's state becomes `RunOutcome` of the old state; outside dry run the manifest and the current table are saved, and in dry run nothing is saved |
| Backup.BackupUtility.Commit | backup_utility.py:348-351 | the object takes on the run's state, and when saving, the two state files hold the new manifest and table |
| Logs.LevelRules | log_monitor.py:190-196 | one priority-1 rule per `LEVEL_COLORS` entry, in order (eight rules) |
| Logs.LastIndex | log_monitor.py:201 | the split point of `rsplit(':', 1)` is the last `:` |
| Logs.CustomRuleSplitsAtLastColon | log_monitor.py:199-207 | `before:name` with no `:` in `name` gives a priority-2, case-insensitive rule for `before` exactly when `name` is one of the eight colour names |
| Logs.NoColonNoRule | log_monitor.py:200 | a specification without `:` adds no rule |
| Logs.CustomRulesShape | log_monitor.py:198-207 | every kept custom rule comes from some specification and has priority 2; at most one rule per specification |
| Logs.SetupRulesSorted | log_monitor.py:276 | the rules as set up are already in priority order, so the stable sort in `_colorize` changes nothing |
| Logs.LogMonitor.SetupHighlighting | log_monitor.py:177-207 | the level rules and then the kept custom rules are appended |
| Logs.LogMonitor.constructor | log_monitor.py:108-159 | colour is off when asked for or when output is not a terminal; the statistics start at zero (and agree); the highlight rules are set up |
| Logs.RStripNewlines | log_monitor.py:211 | the result is a prefix of the line, without a trailing newline or carriage return, and only line breaks were removed |
| Logs.ParseKeepsRaw | log_monitor.py:209-245 | the entry's raw text is the line without trailing line breaks, and its source is kept |
| Logs.ParseFallback | log_monitor.py:238-245 | when no format matches, the level is `UNKNOWN`, the message is the raw text and the time is the current time |
| Logs.ParseFirstMatch | log_monitor.py:213-236 | the first format that matches decides the entry |
| Logs.PrefixedLine | log_monitor.py:217-220 | a `LEVEL: message` line matched by no earlier format gets that level and message |
| Logs.AnyFoundMeaning | log_monitor.py:252-261 | the filter loops find a hit exactly when some filter is found in the raw text |
| Logs.ShouldDisplayMeaning | log_monitor.py:247-263 | shown exactly when no exclude filter is found and, if there are include filters, one of them is found; an exclude wins over an include |
| Logs.Colorize | log_monitor.py:265-282 | the identity without colour; a known level's text is wrapped in its colour and a reset |
| Logs.SourceTail | log_monitor.py:290 | a source longer than a positive width keeps its last `width` characters; otherwise it is kept whole (`s[-0:]` is `s`) |
| Logs.SourceColumnCuts | log_monitor.py:289-291 | the source column of a longer name holds its last `width` characters in brackets |
| Logs.OutputStartsWithSource | log_monitor.py:284-309 | with several files a line starts with the source column and a space |
| Logs.PlainOutput | log_monitor.py:284-309 | without colour, timestamps or several files, a line is the eight-wide level column, a space and the message |
| Logs.SourceKey | log_monitor.py:330 | an empty source is counted under `unknown` |
| Logs.NoCountsAgree | log_monitor.py:145-151 | the zero counters are consistent |
| Logs.CountOneMore | log_monitor.py:318-335 | one more line keeps the counters consistent: matched ≤ total; the level counts and file totals each sum to the total; each file's matched count ≤ its total |
| Logs.LogMonitor.UpdateStats | log_monitor.py:318-335 | total +1; matched +1 exactly when matched; +1 under the level and under the source key; consistency preserved |
| Logs.LogMonitor.CheckRotation | log_monitor.py:377-392 | rotation exactly when the recorded inode is set, non-zero and different; then the position resets to 0; the current inode is always recorded; a failed `stat` changes nothing |
| Disk.NewNode | disk_analyzer.py:30-36 | a file takes its `stat` size, or size 0 with the error flag; a directory starts at size 0; the name is `path.name or str(path)` |
| Disk.ScanAggregated | disk_analyzer.py:131-149 | every scanned directory weighs the sum of its children, which are ordered largest first; files have no children |
| Disk.ScanAllMembers | disk_analyzer.py:131-136 | the scanned nodes of a listing are exactly the scans of its followed entries |
| Disk.ScanChildren | disk_analyzer.py:129-137 | a scanned directory's children are exactly the scans of its entries that are not symlinks skipped by the `follow_symlinks` setting |
| Disk.ScanLeaves | disk_analyzer.py:115-146 | an excluded path is a bare node; a directory across the filesystem boundary or one that cannot be listed is an error leaf of size 0 |
| Disk.DiskScanner.constructor | disk_analyzer.py:71-81 | the configuration is stored, the count is 0 and no root device is known |
| Disk.DiskScanner.Scan | disk_analyzer.py:91-102 | the root device is recorded in one-filesystem mode; the result is `ScanNode` of the root; the count grows by the number of nodes below it |
| Disk.DiskScanner.ScanRecursive | disk_analyzer.py:104-151 | `_scan_recursive` returns `ScanNode` and counts every node scanned below it |
| Disk.DiskScanner.ScanListing | disk_analyzer.py:129-149 | the loop over a listing appends the scan of each followed entry, and the size grows by exactly their sum |
| Disk.WithoutHiddenIsFilter | disk_analyzer.py:173-174 | hiding dot-names is an order-preserving filter |
| Disk.ModeOrderIsOrder | disk_analyzer.py:176-184 | each sort mode's order (size descending, lower-cased name, child count descending, or reversed) is a strict weak order |
| Disk.VisibleChildrenMeaning | disk_analyzer.py:169-186 | the visible children are a permutation of the children (of the non-hidden ones unless hidden files are shown), sorted for the mode |
| Disk.DiskAnalyzerUI.constructor | disk_analyzer.py:157-167 | the root is current; cursor and scroll are 0; no visible items yet; size sort, not reversed; show_hidden as given |
| Disk.DiskAnalyzerUI.RefreshVisible | disk_analyzer.py:211 | `visible_items` becomes `get_visible_children()` |
| Disk.ClampCursorMeaning | disk_analyzer.py:213-215 | a cursor past the end goes to the last item (0 on an empty list); a cursor in range stays |
| Disk.ScrollShowsCursor | disk_analyzer.py:217-222 | with at least one row, `scroll_top ≤ cursor_pos < scroll_top + content_height`, and a window already showing the cursor stays |
| Disk.Redrawn | disk_analyzer.py:210-222 | after drawing, every visible item is a child of the current node, and the cursor is still at least -1 |
| Disk.DiskAnalyzerUI.Draw | disk_analyzer.py:210-222 | fresh visible items, then the cursor clamped and the window scrolled to it; the new state is `Redrawn` of the old one |
| Disk.MovedInRange | disk_analyzer.py:283-294 | on a non-empty list every cursor key keeps a cursor in range |
| Disk.MovedOnEmpty | disk_analyzer.py:285-294 | on an empty list Down, PgDn and End put the cursor at -1 and the others at 0 |
| Disk.DiskAnalyzerUI.MoveCursor | disk_analyzer.py:283-294 | the cursor keys move the cursor as `Moved` states |
| Disk.DiskAnalyzerUI.OpenSelected | disk_analyzer.py:295-302 | Enter descends only into a selected directory with children, making it current and resetting cursor and scroll; otherwise nothing changes |
| Disk.IndexOf | disk_analyzer.py:307 | `list.index` is the first position holding the item |
| Disk.DiskAnalyzerUI.GoUp | disk_analyzer.py:303-309 | at a non-root node the parent becomes current, the cursor goes to the first position in its raw children holding the old node, and scroll is `max(0, cursor - 5)`; at the root nothing changes |
| Disk.DiskAnalyzerUI.ToggleHidden | disk_analyzer.py:310-313 | `h` flips showing hidden files and resets cursor and scroll to 0 |
| Disk.NextSortCycles | disk_analyzer.py:314-318 | `s` cycles size → name → count → size |
| Disk.DiskAnalyzerUI.CycleSort | disk_analyzer.py:314-318 | `s` moves to the next sort mode |
| Disk.DiskAnalyzerUI.ToggleReverse | disk_analyzer.py:319-320 | `r` flips the sort direction |
| Disk.RemoveFirstMeaning | disk_analyzer.py:366 | `list.remove` removes one occurrence: one fewer element, the multiset less that item, the sum less its share |
| Disk.WithoutChildKeepsSum | disk_analyzer.py:365-367 | after a delete the parent still weighs the sum of its children, with exactly that child gone |
| Disk.ReplaceAtAncestors | disk_analyzer.py:365-367 | every node above the updated parent keeps its size and all its other children (ancestor sizes are not lowered) |
| Disk.DiskAnalyzerUI.DeleteSelected | disk_analyzer.py:321-369 | a confirmed, successful delete takes the selected item out of the current node and lowers its size; otherwise the tree is unchanged |
| Disk.Handled | disk_analyzer.py:281-326 | every key keeps the visible items and a valid current node; only `d` can change the tree, and only Enter and Left change the current node |
| Disk.DiskAnalyzerUI.HandleKey | disk_analyzer.py:281-328 | `q` ends the loop; the new state is `Handled` of the old one: `q`, `?` and unknown keys change nothing; the cursor keys move the cursor as `Moved` states; Enter, Left and `d` act as `Opened`, `WentUp` and `Deleted`; `h`, `s` and `r` flip or cycle their setting |
| Disk.DiskAnalyzerUI.Step | disk_analyzer.py:276-281 | one turn's state is the key's `Handled` effect on the `Redrawn` state; it quits exactly on `q` |
| Disk.ReplayIgnoresAfterQuit | disk_analyzer.py:281-282 | the loop leaves at the first `q`: keys after it have no effect |
| Disk.DiskAnalyzerUI.Run | disk_analyzer.py:267-328 | keys are read until the first `q` (inclusive) or the end of the input, and the final state is `Replay` of the keys |
| Tree.ModeString | tree_visualizer.py:93-105 | the permission string has ten characters |
| Tree.ModeStringMeaning | tree_visualizer.py:95-104 | the first character is `d` for a directory and `-` otherwise; each later one is `r`/`w`/`x` exactly when its USR/GRP/OTH bit is set, else `-` |
| Tree.GetPermissions | tree_visualizer.py:90-107 | ten characters; `?---------` when `stat` fails; otherwise the mode's string |
| Tree.PermissionsRoundTrip | tree_visualizer.py:93-105 | reading the string back gives the nine permission bits; `d` exactly for a directory; never the failure string |
| Tree.ChildOrderIsOrder | tree_visualizer.py:170-177 | each sort mode's key order is a strict weak order |
| Tree.NameSortDirsFirst | tree_visualizer.py:172-173 | under the name sort directories precede files (files first when reversed), each group by lower-cased name |
| Tree.SizeSortFilesFirst | tree_visualizer.py:174-175 | under the size sort files precede directories (directories first when reversed), each group largest first (smallest when reversed) |
| Tree.TimeSortNewestFirst | tree_visualizer.py:176-177 | under the time sort the newest comes first (oldest when reversed) |
| Tree.ScanNoneIff | tree_visualizer.py:127-128 | the scan gives nothing exactly when a depth limit is set and the depth exceeds it |
| Tree.ScanWellFormed | tree_visualizer.py:125-187 | a scanned node has the entry's path, name and depth; it is a directory exactly when the entry is; no node is past the limit; files have no children; children are sorted for the mode, one level deeper and admitted by `should_include` |
| Tree.ScanChildrenWellFormed | tree_visualizer.py:162-168 | every kept child is one level deeper, admitted by the hidden, pattern and directories-only tests, and well formed |
| Tree.TallyAllParts | tree_visualizer.py:156-185 | the statistics of a list of trees are the sums of directories, files and sizes, and the deepest level |
| Tree.TallyPermutation | tree_visualizer.py:170-177 | sorting the children does not change the statistics |
| Tree.TallyDepth | tree_visualizer.py:130 | `max_depth_reached` of a tree's statistics is at least the depth of every node of the tree (the root and every node of every child's subtree) |
| Tree.LeafTally | tree_visualizer.py:183-185 | a file adds 1 to `files` and its size to `total_size`; a failed-`stat` leaf adds nothing |
| Tree.DirTally | tree_visualizer.py:156-179 | a directory adds 1 to `dirs` and then its children's statistics, whatever their order |
| Tree.FormatLineEnds | tree_visualizer.py:207-230 | a line starts with its prefix and ends with the name label, so a directory's line ends with `/` |
| Tree.SizeColumnShown | tree_visualizer.py:218-219 | with no permission or date column, a size column follows the prefix exactly for a file when sizes are shown |
| Tree.RenderLineCount | tree_visualizer.py:189-205 | exactly one line per node, the root first with an empty prefix |
| Tree.RenderPrefix | tree_visualizer.py:196-205 | below the root every line begins with the prefix it was given |
| Tree.BranchRules | tree_visualizer.py:197-205 | a child's line uses `└── ` if it is last and `├── ` otherwise; its descendants' lines extend the prefix by four spaces after the last child and by `│   ` otherwise |
| Tree.ScanRendersEveryNode | tree_visualizer.py:189-205 | a tree scanned from depth 0 renders one line per node, the root's line first |
| Tree.NodeToDictRoundTrip | tree_visualizer.py:267-277 | `children` is present exactly when the node has children, only as the sixth key, and the object reads back to the node without path and depth |
| Tree.NodesToDictsRoundTrip | tree_visualizer.py:276 | the list of child objects reads back to the children |
| Tree.TreeVisualizer.constructor | tree_visualizer.py:61-88 | the settings are stored and the statistics start at zero |
| Tree.TreeVisualizer.ScanDirectory | tree_visualizer.py:125-187 | returns `ScanTree` of the entry; the statistics grow by exactly the tally of the returned tree, and are unchanged past the limit |
| Tree.TreeVisualizer.ScanNode | tree_visualizer.py:132-187 | within the limit: the node of `ScanTree`, with the statistics grown by its tally |
| Tree.TreeVisualizer.ScanListing | tree_visualizer.py:158-168 | the loop over a listing keeps the scans of the included entries in order, and the statistics grow by their tally |
| Tree.TreeVisualizer.ScanEntry | tree_visualizer.py:163-168 | one iteration scans an included entry one level deeper and keeps its node |

## Left out

- `system_monitor.py` is not part of this model: it reads `/proc` and `statvfs`, draws with curses and computes floating-point percentages.
- **External algorithms and library calls**:
  - MD5 and SHA-256 are uninterpreted functions of content. Only the 64 KiB chunking loop of `_calculate_hash` is modelled.
  - gzip encoding is an uninterpreted function of content.
  - `shutil.copy2` and `copyfileobj` are modelled as writes to the destination map. Metadata copying is not modelled.
  - The regex engine is abstract: `LOG_PATTERNS` matching is a `FormatMatcher` parameter, filters are predicates on text, and `pattern.sub` is a `Substitute` parameter.
  - `Path.match` is a parameter of the tree configuration.
- **Concurrency**: the thread pools and the lock of the backup run are modelled as sequential folds over the table's insertion order. Completion order is not modelled; results land in a path-keyed table and additive counters.
- **I/O and system calls**:
  - `os.walk`, `os.scandir` and `stat` are values of a tree datatype.
  - JSON file reading and writing are modelled as the saved value.
  - `_load_previous_manifest` is modelled only by its effect: the result is never used.
  - A `PermissionError` raised by `stat` inside `_collect_files` (backup_utility.py:182-184) is not modelled: the walk's `stat` is taken to succeed.
  - An error from `os.scandir` midway through a listing is not modelled, and neither is the progress callback of the disk scanner.
- **Floating point and clocks**:
  - `format_size`, `FileInfo._format_size`, `_format_size`, `draw_bar` and `percent_of_parent` are left out. The tree's size and date columns are text parameters.
  - Modification times are integer ticks; the 1 ms tolerance is 1000 ticks.
  - `datetime.now()` is a parameter where it is used.
  - The `os.urandom`-based backup ID is left out.
- **Output and argument handling**:
  - curses drawing, `_confirm_delete` (its answer is part of the key) and `_show_help` are left out.
  - The signal handlers, `print`/`_print`/`_print_stats`, argparse and `main`'s use of `print_tree` are left out.
  - `_read_file_from_position`, `_tail_initial`, `_follow_files` and the context buffer are file-tailing I/O loops over real files.
- **`print_tree` and `export_json`**:
  - `print_tree`'s summary call at tree_visualizer.py:257 passes an extra argument and would fail if run, so it is left out with the rest of `print_tree`.
  - `export_json` is modelled only by `node_to_dict`; the file writing is left out.
- **How the model represents the source**:
  - The browser's key loop reads a finite sequence of keys.
  - `current_node` and the parent links are a path of child indexes from the root.
  - A delete is modelled by its effect on the tree when the removal succeeds.
  - Names are compared after ASCII-only lower-casing (`Lower`), and parsed log levels are upper-cased ASCII-only (`Upper`); Python's full Unicode `str.lower` and `str.upper` are not modelled.
  - `get_permissions`' own `stat` is taken to agree with the one `scan_directory` made just before, so a file that could be `stat`ed always shows its mode string.
  - Hash-file entries are read back as records. A malformed entry, which `verify_backup` would fail on with a `KeyError`, is not modelled.
- Backup.VerifyBackup: the destination map holds only readable files, so a recorded path that exists as a directory or an unreadable file cannot be represented. Such an entry, for example the `.` of a single-file source, is reported Missing. The source instead raises in `_calculate_hash`, outside `main`'s `try`, and ends with an uncaught exception.
- Tree.ScanTree: `scan_directory` catches only `PermissionError` around `os.scandir` (tree_visualizer.py:158-182). Any other OSError, such as a directory removed between `stat` and `scandir` or an I/O error, ends `print_tree`. The model turns every directory that cannot be listed into a node with no children.
- Backup.Finish: the run's own creation of the destination (backup_utility.py:295-296) lies outside any `try`, and a failure there would end the run. The model takes it to succeed; only `_backup_file`'s creation of a parent directory can fail (`mkdirFails`).
- Logs.CustomRuleSplitsAtLastColon: every highlight pattern is taken to compile. In the source, `re.compile` of a custom pattern (log_monitor.py:204) raises `re.error` for an invalid regex such as `([`, uncaught, and the program ends; the model keeps the rule.
- Logs.LogMonitor.SetupHighlighting: the same assumption. An uncompilable custom pattern ends `_setup_highlighting` with `re.error` in the source; the model appends the rule.
- Logs.LogMonitor.constructor: every include and exclude filter and every highlight pattern is taken to compile. With `use_regex`, an invalid filter (log_monitor.py:166, :172) or highlight pattern ends the constructor with `re.error` in the source; the model's constructor always succeeds. Escaped literal filters always compile in both.
- Backup.CopyOutcome: `mkdirFails` names the parent directories whose `mkdir(parents=True)` raises, and is taken to be closed under descendants: when `a` cannot be created, every directory below it that is asked for, such as `a/b`, is listed too. An environment listing only `a` lets `a/b/c.txt` succeed and records `a` as created. Ancestors created before a failing `mkdir` raises are not recorded in `dirs`.
- Backup.PruneAll: a stale path whose destination name is a directory (in `dirs`, not in the file map) is counted as removed without error. In the source `exists()` is true there and `unlink()` raises `IsADirectoryError`, which logs "Cannot remove" (backup_utility.py:256-263). The previous table is never loaded, so no stale path arises in a real run.
- Logs.Colorize: only the no-colour path and the level-colour path are stated; the custom-rule path is the `Substitute` parameter applied in priority order.
