# kyc in Dafny

kyc ("know your code") lets SQLite query a git repository through two virtual tables:

- `commits(hash, message, author_name, author_email, author_when, parents)`: the commit history
  from HEAD, or a single commit looked up by hash.
- `facts(commit_hash, file_name, file_blob, scanner, key, value)`: the facts that the
  registered scanners extract from the files of one commit.

A query runs in two phases:

1. **Planning.** SQLite's `xBestIndex` decides which constraints the table evaluates itself.
   It gives each such constraint an argument slot, and records one `op<<4 | col` byte per
   pushed constraint in a token.
2. **Execution.** `xFilter` reads the token back against the values SQLite passes. It then
   walks the repository, and a cursor hands the rows out.

The scanners turn files into facts. They are:

- the Dockerfile `FROM` extractor, over a syntax tree walked in post-order;
- `go.mod`;
- `package.json` and `package-lock.json`;
- file meta.

They are registered in a process-wide registry. A legacy indexer (`BuildIndex`) records the
files of a commit and runs a stub Dockerfile scanner over them.

## Modules

- `Wrappers` (wrappers.dfy): `Option` and `Result`, and the errors the system returns. A Go
  run-time panic is an `Error.Panic` value.
- `Collections` (collections.dfy): `strings.HasSuffix`, and the enumeration order of a Go
  `range` over a map.
- `Git` (git.dfy): file modes, tree files, commits, hash validation, and the commit iterator.
- `Sqlite` (sqlite.dfy): the planning interface, the token byte, and how many values SQLite
  passes to `xFilter`.
- `Pushdown` (pushdown.dfy): the planning loop both tables share. Each constraint is judged;
  a verdict refuses it, passes over it, or takes it with a byte and an omit flag. A taken
  constraint gets the next slot.
- `Facts` (facts.dfy): the `facts` table. It covers planning, decoding, the file × scanner
  extraction loop, and `FactCursor`.
- `Commits` (commits.dfy): the `commits` table. It covers planning as written and as
  intended, decoding, and `CommitsCursor`.
- `Scanner` (scanner.dfy): facts, the scanner registry, and `Register`/`All`.
- `TreeWalk` (tree_walk.dfy): the cursor-driven post-order `Walk`, and `Find`.
- `DockerScanner`, `GoModScanner`, `PackageJsonScanner`, `PackageLockScanner` and
  `FileMetaScanner`: the scanners.
- `Index` (index.dfy): `BuildIndex` and the legacy Dockerfile scanner.

## What the model takes as given

Whatever the Go code obtains from outside is a parameter:

- the working directory's repository, or the error opening it;
- commit lookup;
- the files of a tree, with the error or `io.EOF` that ends the iteration;
- blob reads;
- the steps of `repo.Log` and of a lookup iterator;
- `time.Parse` with RFC 3339 (section 5.6);
- doublestar's path matching;
- a scanner's `Supports`/`Scan` as seen by the `facts` table;
- the parsed syntax tree;
- the decoded manifest.

Go's randomised map iteration is an explicit visiting order. Each visit must list every key
exactly once: `IsEnumeration`, and `IsVisit` for the registry.

## Behaviour of the code worth knowing

- The registry keeps the last scanner registered under a name; registering a duplicate is not
  refused (pkg/scanner/scanner.go:26).
- Scanners are visited in Go map order, not registration order (facts.go:222).
- `facts` does not re-check the commit constraint at execution: a query that reaches `Filter`
  without one dereferences a nil commit (facts.go:214-215). `Facts.PlannedQueryHasCommit`
  shows that this cannot happen for the values of a plan `BestIndex` made.
- `commits` decodes the values before resolving HEAD. A hash lookup returns before HEAD is
  resolved (commits.go:130-142, 162-166).
- The Dockerfile scanner of the virtual tables matches by suffix, so `a/Dockerfile` and
  `x.Dockerfile` are supported (pkg/scanner/tools/docker/docker_file.go:23). Only the legacy
  scanner wants the exact name (scanner/files/docker/docker_file.go:13).
- `FactCursor.Filter` appends to the rows already held, and leaves `pos` where it was
  (facts.go:231); it does not reset the cursor.

## Model

| member | source | states |
|---|---|---|
| Git.ModeStringInjective | pkg/scanner/meta/files/file.go:15 | two modes with the same string form are the same mode, so the meta fact loses nothing |
| Git.CommitIter.Next | commits.go:197 | Next yields the first pending step, or io.EOF when none is left, and drops that step; the closed flag is kept |
| Git.CommitIter.Close | commits.go:211 | closing marks the iterator closed and keeps its remaining steps |
| Scanner.RegisteredKeys | pkg/scanner/scanner.go:23-29 | the registry's names are exactly the names registered so far |
| Scanner.LastWriteWins | pkg/scanner/scanner.go:26 | a name maps to the scanner of its latest registration |
| Scanner.Registry.constructor | pkg/scanner/scanner.go:23 | the registry starts empty, with no registrations |
| Scanner.Registry.Register | pkg/scanner/scanner.go:26 | the entry for the name becomes the scanner, and every other entry is unchanged; the registration history grows by one |
| Scanner.Registry.All | pkg/scanner/scanner.go:29 | All is the map built by the registrations so far |
| Sqlite.OpOf | facts.go:190 | the operator half of a byte is below 16 |
| Sqlite.ColumnOf | facts.go:190 | the column half of a byte is below 16 |
| Sqlite.NibbleRoundTrip | facts.go:70 | unpacking a packed byte recovers the operator and the column whenever both are below 16 |
| Sqlite.PackUnpack | facts.go:190 | every byte is the packing of its two halves |
| Sqlite.NoSlotsNoArguments | commits.go:54 | a plan whose usages have no slot of 1 or more receives no values |
| Pushdown.LastCode | facts.go:189-205 | the position found holds a byte of the kind sought and none after it does; none found means no such byte |
| Pushdown.Usages | facts.go:73 | there is one usage entry per constraint |
| Pushdown.JudgeStep | facts.go:78-149 | judging one more constraint appends its byte if it is taken, and makes its refusal the first if none came before |
| Pushdown.CodesPrefix | facts.go:70 | the token of a prefix of the constraints is a prefix of the whole token |
| Pushdown.ArgvAligned | facts.go:86-89 | a taken constraint gets slot k + 1, where k counts the bytes before it, and byte k is its code |
| Pushdown.ArgvIncreasing | facts.go:118-119 | slots increase in constraint order, so no two taken constraints share one |
| Pushdown.ArgvOnto | facts.go:68 | every byte of the token belongs to the taken constraint whose slot is its position plus one |
| Pushdown.ArgumentCountIsTokenLength | facts.go:68-70 | SQLite passes exactly one value per token byte |
| Pushdown.FirstRejectPersists | facts.go:83 | once a prefix is refused, the whole list is refused with the same message |
| Pushdown.FirstRejectFound | facts.go:78-149 | a refused list has a constraint refused with that message and none refused before it |
| Pushdown.FirstRejectOfFirst | facts.go:78-149 | the first refused constraint decides the message of the list |
| Pushdown.FirstRejectCharacterised | facts.go:78-149 | the list is refused with message m if and only if the first refused constraint is refused with m |
| Pushdown.NoRejectBefore | facts.go:78-149 | a list has no refusal if and only if no constraint is refused |
| Facts.VerdictCode | facts.go:78-148 | a taken constraint's byte names its own column and operator; only the scanner constraint is left for SQLite to re-check |
| Facts.FactsPlanSucceeds | facts.go:78-153 | planning succeeds if and only if no constraint is refused and some usable commit equality exists; each refusal rule is stated per column and operator, in both directions |
| Facts.FactsPlanTakes | facts.go:78-148 | a constraint is taken if and only if it is a usable commit equality, a usable file-name equality or GLOB, or a usable scanner equality or LIKE; it is passed over if and only if it is an unusable commit equality, a file-name `>=`/`<` hint, or on another column, and then gets no usage and no byte |
| Facts.FactsPlanSound | facts.go:68-156 | one value per byte; a taken constraint's slot, byte and omit flag agree; some byte asks for the commit by equality |
| Facts.Judge | facts.go:79-148 | the switch of BestIndex gives the verdict the plan is defined by |
| Facts.PlannedStep | facts.go:78-149 | taking or passing over one more constraint keeps the loop state consistent with the plan |
| Facts.PlannedRefused | facts.go:83 | a refusal after an unrefused prefix is the plan's error |
| Facts.PlannedDone | facts.go:151-158 | after the loop, the plan is the loop's output, or "commit hash is required" when no commit equality was taken |
| Facts.BestIndex | facts.go:67-159 | the method returns exactly the plan or the constraint error |
| Facts.DecodeFromSelected | facts.go:189-212 | from any position, decoding succeeds if and only if the rest of the values have bytes and their commits resolve, and it yields the last commit and the last pattern |
| Facts.DecodeCharacterised | facts.go:188-212 | decoding succeeds if and only if every value has a byte and every commit value resolves; the query is then the last commit looked up and the last pattern given |
| Facts.DecodeFromBadHash | facts.go:194-196 | from any position at or before the first malformed commit value, decoding fails with "invalid commit hash" |
| Facts.InvalidHashFails | facts.go:194-196 | the first commit value that is not a 40-digit hash fails decoding with "invalid commit hash" |
| Facts.DecodeFromErrors | facts.go:189-212 | with a byte for every value, decoding fails only with SQLite errors |
| Facts.PlannedQueryHasCommit | facts.go:214-217 | for the values of a successful plan, decoding never indexes past the token and, when it succeeds, has a commit |
| Facts.RowsOf | facts.go:229-232 | one row per fact of a scan |
| Facts.RowsOfContents | facts.go:229-232 | row k is fact k, tagged with the commit, the file and the scanner's name |
| Facts.FileRowProvenance | facts.go:222-233 | every row of a file comes from a fact that a scanner of the visit, supporting the selected file, found without error |
| Facts.WalkProvenance | facts.go:221-237 | every row of the first n files comes from a registered scanner supporting a selected file among them |
| Facts.RowProvenance | facts.go:221-239 | every row Filter appends is a fact that a registered scanner supporting a file of the tree, selected by the pattern, found in that file |
| Facts.NothingSelected | facts.go:223 | a pattern that selects no file yields no rows |
| Facts.FileRowsSucceed | facts.go:222-228 | a file's callback fails if and only if a scanner of the visit that supports the selected file fails on it |
| Facts.FileSucceeds | facts.go:222-228 | over a visit of the registry, a file's callback fails if and only if a registered scanner supporting the file fails |
| Facts.WalkSucceeds | facts.go:221-237 | the first n callbacks succeed if and only if each of them succeeds |
| Facts.TreeRowsSucceed | facts.go:221-239 | the walk ends without error if and only if the iterator ends cleanly and every supported scan of a selected file succeeds |
| Facts.FileRowsComplete | facts.go:222-233 | without an error, a file's callback has a row for every fact of every supporting scanner of the visit |
| Facts.WalkStops | facts.go:225-227 | after the first error no later file is visited, and the rows stay as they were |
| Facts.WalkPrefixSucceeds | facts.go:221-237 | a walk without error got through each of its prefixes without error |
| Facts.WalkKeeps | facts.go:221-237 | a walk without error keeps the rows of its earlier files |
| Facts.WalkComplete | facts.go:221-237 | without an error, the walk keeps a row for every fact of every supporting scanner of each file |
| Facts.RowsComplete | facts.go:221-239 | without an error, Filter appends a row for every fact of every registered scanner supporting a selected file |
| Facts.FileRowsStep | facts.go:222-234 | one scanner of a callback adds its rows or ends it with its error |
| Facts.FactCursor.constructor | facts.go:161 | Open gives a cursor with no rows at position 0 |
| Facts.FactCursor.AppendRows | facts.go:229-232 | the rows of a scan are appended in order |
| Facts.FactCursor.ScanFile | facts.go:222-236 | the callback appends exactly the file's rows and returns its error |
| Facts.FactCursor.DecodeValues | facts.go:188-212 | the decoding loop returns the query that decoding defines, or its error |
| Facts.FactCursor.ScanTree | facts.go:221-239 | ForEach appends exactly the tree's rows and returns the walk's error |
| Facts.FactCursor.Filter | facts.go:171-240 | Filter appends exactly the rows the repository, token and values define, returns their error, and leaves the position alone |
| Facts.FactCursor.Next | facts.go:264 | Next consumes the current row and never fails |
| Facts.FactCursor.Rowid | facts.go:265 | the row id is the position |
| Facts.FactCursor.Eof | facts.go:266 | the scan is over exactly when no row remains |
| Facts.FactCursor.Close | facts.go:267 | Close never fails |
| Commits.BestIndex | commits.go:53-98 | the method returns exactly the written plan: usages, token, cost, rows, unique flag and ORDER BY flag |
| Commits.WrittenPassesNoValues | commits.go:54 | as written, SQLite passes Filter no values for any query |
| Commits.WrittenHashUnread | commits.go:65-72 | `hash = ?` yields a one-byte token and a unique scan, but no value for the byte |
| Commits.WrittenOmitsUnpushed | commits.go:76-84 | `author_when < ?` is marked omitted although no byte is recorded for it |
| Commits.IntendedPlanAligned | commits.go:53-98 | with slots handed out, one value per byte, byte k describes slot k + 1, and a constraint is omitted exactly when it is a pushed bound |
| Commits.DecodeFromBounds | commits.go:144-157 | from any position, decoding yields the history if and only if the rest has bytes, no hash, and parsable bounds; the bounds are the last of each kind |
| Commits.DecodeHistory | commits.go:127-159 | decoding yields the history if and only if every value has a byte, none is a hash and every bound parses; a later bound of a kind overwrites an earlier one |
| Commits.DecodeFromLookup | commits.go:130-142 | a valid hash value ends decoding with its lookup, whatever follows |
| Commits.DecodeLookup | commits.go:130-142 | the first hash value, when well formed, decides a lookup and later values are ignored |
| Commits.DecodeFromErrors | commits.go:127-159 | with a byte for every value, the only errors are "invalid commit hash" and "invalid time format" |
| Commits.DecodeFromInvalidHash | commits.go:130-136 | from any position, a malformed value under the first hash byte ends decoding with "invalid commit hash", whatever the bounds before it and whatever follows |
| Commits.DecodeFromInvalidTime | commits.go:144-155 | from any position, an unparsable `<=` or `>=` value with no hash byte before it ends decoding with "invalid time format" |
| Commits.DecodeErrors | commits.go:127-159 | from the first value: a malformed first hash raises "invalid commit hash" and an unparsable bound before any hash raises "invalid time format" |
| Commits.WrittenFilterUnconstrained | commits.go:126-159 | as written, Filter always walks the whole history from HEAD without bounds |
| Commits.IntendedNeverPanics | commits.go:127-128 | for the values of the intended plan, decoding never indexes past the token |
| Commits.LookupRows | commits.go:196-205 | a lookup yields its commit as the only row, or no row; only an error other than not-found is reported |
| Commits.FirstHashDecides | commits.go:130-141 | a valid hash makes an iterator over that single lookup, never resolving HEAD |
| Commits.CommitsCursor.constructor | commits.go:100 | Open gives a cursor with no commit and no iterator |
| Commits.CommitsCursor.Next | commits.go:196-205 | the next step becomes the current commit; io.EOF and not-found end quietly, other errors are returned; without an iterator Next panics |
| Commits.CommitsCursor.Filter | commits.go:113-173 | Filter keeps, clears or replaces the iterator as the decoded selection, HEAD and Log decide, then reads the first commit |
| Commits.CommitsCursor.DecodeValues | commits.go:126-159 | the decoding loop returns the selection that decoding defines, or its error |
| Commits.CommitsCursor.Rowid | commits.go:208 | the row id is always 0 |
| Commits.CommitsCursor.Close | commits.go:209-214 | the iterator, if any, is closed; Close never fails |
| TreeWalk.PostOrder | pkg/tree-sitter-utils/tree_walk.go:5-7 | the walk has one entry per node and ends with the start node |
| TreeWalk.PostOrderForest | pkg/tree-sitter-utils/tree_walk.go:26-27 | walking siblings yields one entry per node of their subtrees |
| TreeWalk.PostOrderVisitsTree | pkg/tree-sitter-utils/tree_walk.go:5-7 | the walk visits exactly the nodes of the tree |
| TreeWalk.PostOrderForestVisitsForest | pkg/tree-sitter-utils/tree_walk.go:26-27 | walking siblings visits exactly the nodes of their subtrees |
| TreeWalk.PostOrderBlocks | pkg/tree-sitter-utils/tree_walk.go:16-22 | the entries ending at any node are exactly that node's own post-order walk |
| TreeWalk.PostOrderForestBlocks | pkg/tree-sitter-utils/tree_walk.go:16-27 | the same holds within a walk of siblings: each node's subtree ends at the node |
| TreeWalk.Filter | pkg/tree-sitter-utils/tree_walk.go:41-43 | filtering never yields more nodes than it is given |
| TreeWalk.FilterMembers | pkg/tree-sitter-utils/tree_walk.go:38-45 | Find keeps exactly the visited nodes that satisfy the predicate |
| TreeWalk.FilterConcat | pkg/tree-sitter-utils/tree_walk.go:40-44 | filtering distributes over concatenation, so the visit order is kept |
| TreeWalk.FilterNothing | pkg/tree-sitter-utils/tree_walk.go:38-45 | an always-false predicate finds nothing |
| TreeWalk.FilterEverything | pkg/tree-sitter-utils/tree_walk.go:38-45 | an always-true predicate finds every node, in visit order |
| TreeWalk.TreeCursor.constructor | pkg/tree-sitter-utils/tree_walk.go:8 | a new cursor is on the start node |
| TreeWalk.TreeCursor.GoToFirstChild | pkg/tree-sitter-utils/tree_walk.go:16 | the cursor descends exactly when the node has children |
| TreeWalk.TreeCursor.GoToNextSibling | pkg/tree-sitter-utils/tree_walk.go:26 | the cursor moves right exactly when a sibling follows on its level, and stays put otherwise |
| TreeWalk.TreeCursor.GoToParent | pkg/tree-sitter-utils/tree_walk.go:29 | the cursor climbs one level exactly when it is below the start node |
| TreeWalk.RestUnfold | pkg/tree-sitter-utils/tree_walk.go:24-30 | what is left on a level is the current subtree followed by its right siblings |
| TreeWalk.WalkFrom | pkg/tree-sitter-utils/tree_walk.go:15-31 | the inner walk visits the current subtree and those of its right siblings in post-order, and returns to the parent |
| TreeWalk.Walk | pkg/tree-sitter-utils/tree_walk.go:7-35 | Walk hands every node of the subtree to the callback in post-order |
| TreeWalk.Find | pkg/tree-sitter-utils/tree_walk.go:38-46 | Find returns the walk's nodes that satisfy the predicate, in visit order |
| DockerScanner.SupportsAnyDirectory | pkg/scanner/tools/docker/docker_file.go:22-24 | a supported file stays supported under any directory prefix, and so does a file named Dockerfile with the same mode |
| DockerScanner.FirstWithField | pkg/scanner/tools/docker/docker_file.go:80 | the child found carries the field asked for; none found means no child carries it |
| DockerScanner.FirstWithFieldIsFirst | pkg/scanner/tools/docker/docker_file.go:80 | the child found is the first child carrying the field, as ChildByFieldName returns it |
| DockerScanner.DropFirst | pkg/scanner/tools/docker/docker_file.go:87-89 | dropping the first character succeeds exactly on non-empty text, and loses only that character |
| DockerScanner.BaseImageMalformed | pkg/scanner/tools/docker/docker_file.go:74-83 | a FROM is malformed if and only if its subtree does not hold exactly one image spec, or the spec lacks a name, or it has neither digest nor tag |
| DockerScanner.BaseImageShape | pkg/scanner/tools/docker/docker_file.go:85-100 | the fact has the base-image key and the name; a digest without its first character if there is one, else the tag without it; an alias exactly when there is `as`, holding the text of the `as` name |
| DockerScanner.ExtractFacts | pkg/scanner/tools/docker/docker_file.go:72-104 | fact k is the fact of FROM k, and extraction stops at the first malformed FROM with its error |
| DockerScanner.ExtractStep | pkg/scanner/tools/docker/docker_file.go:73-102 | one FROM yields its fact and the rest follows, or its error ends the extraction |
| DockerScanner.ExtractSucceeds | pkg/scanner/tools/docker/docker_file.go:72-104 | extraction succeeds if and only if every FROM is well formed |
| DockerScanner.FromInstruction | pkg/scanner/tools/docker/docker_file.go:74-94 | the loop body builds the fact of a FROM, or its error |
| DockerScanner.DirectiveFrom | pkg/scanner/tools/docker/docker_file.go:67-105 | directiveFrom emits the facts of the FROM nodes in post-order up to the first error |
| DockerScanner.Scan | pkg/scanner/tools/docker/docker_file.go:26-64 | a read or parse failure gives no facts and the error; otherwise the extractor's facts, with its error if it failed |
| GoModScanner.NestedNotSupported | pkg/scanner/lang/golang/go_mod.go:14-16 | a go.mod below the root is not supported |
| GoModScanner.RequireRoundTrip | pkg/scanner/lang/golang/go_mod.go:40-41 | a require fact has its key and gives back the module path and version |
| GoModScanner.Scan | pkg/scanner/lang/golang/go_mod.go:18-45 | a failure gives no facts and the error; otherwise fact k is the fact of require k, with no error |
| PackageJsonScanner.SupportsAnyDirectory | pkg/scanner/lang/node/npm/package_json.go:22-24 | a regular file named package.json is supported in any directory |
| PackageJsonScanner.DependencyRoundTrip | pkg/scanner/lang/node/npm/package_json.go:43-51 | a dependency fact records its name, version and map (`dev`, `peer` or neither) |
| PackageJsonScanner.FactCount | pkg/scanner/lang/node/npm/package_json.go:42-53 | the number of facts is the sum of the sizes of the three maps |
| PackageJsonScanner.GroupsInOrder | pkg/scanner/lang/node/npm/package_json.go:42-53 | every fact has the dependency key, and runtime facts come before dev facts, which come before peer facts |
| PackageJsonScanner.EveryEntryReported | pkg/scanner/lang/node/npm/package_json.go:42-53 | every entry of each map is reported with its version and its map's flag |
| PackageJsonScanner.AppendGroup | pkg/scanner/lang/node/npm/package_json.go:42-45 | one range loop appends the facts of its map in visiting order |
| PackageJsonScanner.Scan | pkg/scanner/lang/node/npm/package_json.go:26-56 | a failure gives no facts and the error; otherwise the three groups of facts, with no error |
| PackageLockScanner.SupportsAnyDirectory | pkg/scanner/lang/node/npm/package_lock_json.go:25-27 | a regular file named package-lock.json is supported in any directory |
| PackageLockScanner.LockedRoundTrip | pkg/scanner/lang/node/npm/package_lock_json.go:45 | a locked fact gives back the path and the version, resolved URL and integrity |
| PackageLockScanner.OneFactPerPackage | pkg/scanner/lang/node/npm/package_lock_json.go:44-47 | one fact per entry of `packages`, every entry reported, and the top-level name and version never matter |
| PackageLockScanner.Scan | pkg/scanner/lang/node/npm/package_lock_json.go:29-50 | a failure gives no facts and the error; otherwise the facts of the entries, with no error |
| FileMetaScanner.MetaRoundTrip | pkg/scanner/meta/files/file.go:12-17 | every file is supported and yields one meta fact and no error; the fact gives back the name and mode |
| Index.EntryOf | index.go:35 | a file's index entry has its name and blob hash |
| Index.LegacyScan | scanner/files/docker/docker_file.go:16-29 | a successful read gives no facts; a failed copy gives its error; a reader that cannot be opened leaves nil and panics |
| Index.LegacySupportsNarrower | scanner/files/docker/docker_file.go:12-14 | the legacy scanner supports only the root Dockerfile, which the suffix-matching scanner also supports; a nested Dockerfile is supported only by the latter |
| Index.IndexedContents | index.go:26-45 | the loop gets through n files if and only if every supported one reads, and then lists each file in order, with no facts and the zero commit |
| Index.IndexedFailure | index.go:37-41 | the first supported file that does not read decides the loop's error |
| Index.IndexedStops | index.go:39-41 | after a failed scan no later file changes the outcome |
| Index.BuildSucceeds | index.go:19-48 | BuildIndex succeeds if and only if the tree is fetched, every supported file reads and the iteration ends with io.EOF; the index then lists every file in order, with no facts and an unassigned commit |
| Index.BuildFailure | index.go:39-41 | a failed scan wins over whatever ends the iteration later |
| Index.BuildIterationError | index.go:28-33 | when every supported file reads, an iteration error other than io.EOF is returned with no index |
| Index.BuildIndex | index.go:19-48 | the loop returns exactly the outcome the tree and the reads define |

## Left out

- Git I/O (`os.Getwd`, `git.PlainOpen`, `CommitObject`, `Tree`, `Files`, `Head`, `Log`, `file.Reader`, `io.Copy`) is foreign code. Its outcomes are parameters.
- `repo.Log` is an oracle. The model does not check that history comes in descending author time or that it respects the since/until bounds. It only checks which options Filter passes.
- Base64 (section 4 of RFC 4648) is a library. The token is the raw byte sequence.
- doublestar glob matching is a library. It is the `pathMatch` parameter.
- `time.Parse` (RFC 3339, section 5.6) is a library. It is the `parse` parameter.
- The JSON decoders and `modfile.ParseLax` are libraries. The scanner models start from decoded records.
- Tree-sitter parsing is a library. Trees are values of the `Node` datatype.
- The errgroup fan-out, the result channel and context cancellation in the Dockerfile scanner are concurrency. There is exactly one extractor, so `Scan` runs it sequentially, and cancellation is not modelled.
- `Column` of both cursors, including JSON encoding of fact values, writes results to SQLite's context. It is left out.
- `Connect`, the schema strings, `Disconnect` and `Destroy` are SQLite module plumbing with no decisions.
- Registration happens in each scanner's `init`. Only `Register` itself is modelled; the order of package initialisation is not.
- The following are not part of this model: functions.go (a YAML-to-JSON helper and a blob reader), kyc.go's `Open`/`ScanHead` (a go-git wrapper), cmd/shared/shared.go, and scanner/tools/docker/docker_file.go (a placeholder).
- Commits.CommitsCursor.Eof: stated by its body alone (`commit` is absent). It has no separate contract.
- Facts.FactCursor.Filter: requires that each file's visit of the registry lists every registered scanner exactly once. This is what Go's `range` does, and the model does not derive it.
- Integer widths: argv slots, positions and row ids are unbounded. The Go `int`/`int64` cannot overflow at the sizes involved.

## Findings

| source | as written | input that shows it | evidently intended | confidence | as-written member | corrected member |
|---|---|---|---|---|---|---|
| commits.go:54 | `argv` starts at 0 and is never incremented, so every usage has argument slot 0 (commits.go:69,78). SQLite passes `xFilter` only values whose slot is 1 or more, so Filter receives no values at all. | `SELECT * FROM commits WHERE hash = '<40 hex digits>'` plans token `[0x10]` with usage `ArgvIndex 0`. Filter gets no values and walks the whole history from HEAD, although the plan promised a unique scan. | slots 1, 2, 3, … in constraint order, one per token byte, as facts.go:68,88 does | not executed | Commits.WrittenPassesNoValues, Commits.WrittenHashUnread, Commits.WrittenFilterUnconstrained | Commits.IntendedPlanAligned, Commits.IntendedNeverPanics |
| commits.go:78 | every `author_when` constraint gets a usage with `Omit=true`, whatever its operator or usability, but only `<=` and `>=` get a token byte | `author_when < '<time>'` gives usage `(0, omit)` and an empty token. Once slots are handed out, SQLite would drop its own check of a bound the table never applies. | a usage, omitted, only for a usable `<=` or `>=` bound that is pushed | not executed | Commits.WrittenOmitsUnpushed | Commits.IntendedPlanAligned |
