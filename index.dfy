/**
 * The legacy indexer (index.go and scanner/files/docker): BuildIndex walks the tree of one
 * commit, records every file it meets, and hands the files the legacy Dockerfile scanner
 * supports to that scanner. Reading a blob is outside the model: BuildIndex is given the
 * outcome of reading each file.
 */
module Index {
  import opened Wrappers
  import opened Git
  import opened Scanner
  import DockerScanner

  /** kyc.File: a file of the index, by path and blob hash. */
  datatype IndexFile = IndexFile(name: string, blobHash: string)

  /** kyc.Fact: a fact about one file of the index. */
  datatype IndexFact = IndexFact(file: IndexFile, scope: string, key: string, value: Value)

  /** kyc.Index: the commit it was built for, its files and its facts. */
  datatype Index = Index(commit: string, files: seq<IndexFile>, facts: seq<IndexFact>)

  /** The entry a tree file gets in the index. */
  function EntryOf(file: File): (e: IndexFile)
    ensures e.name == file.name && e.blobHash == file.hash
  {
    IndexFile(file.name, file.hash)
  }

  /**
   * What happens when the scanner reads a file: the blob opens and is copied whole, the blob
   * cannot be opened (the reader is then nil), or the copy fails with an error.
   */
  datatype ContentRead = Readable | ReaderFailed(error: Error) | CopyFailed(error: Error)

  /** The panic of calling a method through a nil pointer (the reader, or the tree). */
  const NilDereference: Error := Panic("nil pointer dereference")

  /** DockerfileScanner.Supports: a regular file (or link) named exactly "Dockerfile". */
  predicate LegacySupports(file: File) {
    file.mode.IsFile() && file.name == "Dockerfile"
  }

  /**
   * DockerfileScanner.Scan: the error of opening the blob is discarded, so a blob that cannot
   * be opened leaves a nil reader, and the copy panics reading from it; a failed copy yields
   * that error; a successful copy yields no facts.
   */
  function LegacyScan(read: ContentRead): (r: Result<seq<IndexFact>>)
    ensures r.Success? <==> read.Readable?
    ensures r.Success? ==> r.value == []
    ensures read.ReaderFailed? ==> r == Failure(NilDereference)
    ensures read.CopyFailed? ==> r == Failure(read.error)
  {
    match read
    case Readable => Success([])
    case ReaderFailed(_) => Failure(NilDereference)
    case CopyFailed(e) => Failure(e)
  }

  /**
   * The legacy scanner supports only the Dockerfile at the root of the tree; the scanner the
   * virtual tables use supports it too, and also Dockerfiles in any directory.
   */
  lemma LegacySupportsNarrower(file: File)
    ensures LegacySupports(file) ==> DockerScanner.Supports(file)
    ensures file.mode.IsFile() ==> DockerScanner.Supports(File("docker/Dockerfile", file.mode, file.hash))
    ensures !LegacySupports(File("docker/Dockerfile", file.mode, file.hash))
  {
    if LegacySupports(file) {
      DockerScanner.SupportsAnyDirectory("", file);
      assert "" + file.name == file.name;
    }
    if file.mode.IsFile() {
      var root := File("Dockerfile", file.mode, file.hash);
      assert LegacySupports(root);
      DockerScanner.SupportsAnyDirectory("docker/", root);
      assert "docker/" + root.name == "docker/Dockerfile";
    }
  }

  /**
   * The index after the loop of BuildIndex has handled the first `n` files: each file appends
   * its entry and, when the legacy scanner supports it, the facts of its scan; the first failed
   * scan ends the walk with its error.
   */
  function Indexed(files: seq<File>, read: File -> ContentRead, n: nat): Result<Index>
    requires n <= |files|
  {
    if n == 0 then Success(Index(ZeroHash, [], []))
    else
      var before := Indexed(files, read, n - 1);
      if before.Failure? then before
      else
        var file := files[n - 1];
        var index := before.value.(files := before.value.files + [EntryOf(file)]);
        if !LegacySupports(file) then Success(index)
        else match LegacyScan(read(file))
          case Failure(e) => Failure(e)
          case Success(facts) => Success(index.(facts := index.facts + facts))
  }

  /**
   * BuildIndex over the commit's tree: the error of fetching the tree is discarded, so a tree
   * that cannot be fetched is nil and listing its files panics. Otherwise the walk over the
   * files, then the error that ended the iteration, if it was not io.EOF.
   */
  function Build(tree: Result<Listing<File>>, read: File -> ContentRead): Result<Index> {
    if tree.Failure? then Failure(NilDereference)
    else
      var walked := Indexed(tree.value.items, read, |tree.value.items|);
      if walked.Failure? then walked
      else if tree.value.end.Some? then Failure(tree.value.end.value)
      else walked
  }

  /** Every supported file among the first `n` reads without error. */
  ghost predicate ScansSucceed(files: seq<File>, read: File -> ContentRead, n: nat)
    requires n <= |files|
  {
    forall i | 0 <= i < n :: LegacySupports(files[i]) ==> read(files[i]).Readable?
  }

  /**
   * A walk that gets through its first `n` files has one entry per file, in tree order, no
   * facts, and the zero commit hash; it gets through exactly when every supported file reads.
   */
  lemma {:induction false} IndexedContents(files: seq<File>, read: File -> ContentRead, n: nat)
    requires n <= |files|
    ensures Indexed(files, read, n).Success? <==> ScansSucceed(files, read, n)
    ensures Indexed(files, read, n).Success? ==>
      var index := Indexed(files, read, n).value;
      && index.commit == ZeroHash
      && |index.files| == n
      && (forall i | 0 <= i < n :: index.files[i] == EntryOf(files[i]))
      && index.facts == []
  {
    if n > 0 {
      IndexedContents(files, read, n - 1);
    }
  }

  /**
   * A walk that fails, fails with the error of the first supported file that does not read:
   * the panic of the nil reader, or the error of the copy.
   */
  lemma {:induction false} IndexedFailure(files: seq<File>, read: File -> ContentRead, n: nat, i: nat)
    requires i < n <= |files|
    requires LegacySupports(files[i]) && !read(files[i]).Readable?
    requires ScansSucceed(files, read, i)
    ensures Indexed(files, read, n) == Failure(LegacyScan(read(files[i])).error)
  {
    if n == i + 1 {
      IndexedContents(files, read, i);
    } else {
      IndexedFailure(files, read, n - 1, i);
    }
  }

  /**
   * BuildIndex succeeds exactly when the tree is fetched, every supported file reads, and the
   * iteration ends with io.EOF; the index then lists every file of the tree in order, with no
   * facts and the zero commit hash.
   */
  lemma BuildSucceeds(tree: Result<Listing<File>>, read: File -> ContentRead)
    ensures Build(tree, read).Success? <==>
      tree.Success? && tree.value.end.None? && ScansSucceed(tree.value.items, read, |tree.value.items|)
    ensures Build(tree, read).Success? ==>
      var items, index := tree.value.items, Build(tree, read).value;
      && index.commit == ZeroHash
      && |index.files| == |items|
      && (forall i | 0 <= i < |items| :: index.files[i] == EntryOf(items[i]))
      && index.facts == []
  {
    if tree.Success? {
      IndexedContents(tree.value.items, read, |tree.value.items|);
    }
  }

  /**
   * A failed scan wins over the error that ends the iteration: BuildIndex fails with the error
   * of the first supported file that does not read, whatever follows.
   */
  lemma BuildFailure(tree: Result<Listing<File>>, read: File -> ContentRead, i: nat)
    requires tree.Success? && i < |tree.value.items|
    requires LegacySupports(tree.value.items[i]) && !read(tree.value.items[i]).Readable?
    requires ScansSucceed(tree.value.items, read, i)
    ensures Build(tree, read) == Failure(LegacyScan(read(tree.value.items[i])).error)
  {
    IndexedFailure(tree.value.items, read, |tree.value.items|, i);
  }

  /** With every supported file read, a fetched tree fails only with the iteration's error. */
  lemma BuildIterationError(tree: Result<Listing<File>>, read: File -> ContentRead)
    requires tree.Success? && tree.value.end.Some?
    requires ScansSucceed(tree.value.items, read, |tree.value.items|)
    ensures Build(tree, read) == Failure(tree.value.end.value)
  {
    IndexedContents(tree.value.items, read, |tree.value.items|);
  }

  /**
   * BuildIndex, the loop over the tree's files: `tree` is the outcome of fetching the commit's
   * tree and `read` the outcome of reading each blob.
   */
  method BuildIndex(tree: Result<Listing<File>>, read: File -> ContentRead) returns (r: Result<Index>)
    ensures r == Build(tree, read)
  {
    if tree.Failure? {
      return Failure(NilDereference);
    }
    var files := tree.value.items;
    var index := Index(ZeroHash, [], []);
    for i := 0 to |files|
      invariant Indexed(files, read, i) == Success(index)
    {
      var file := files[i];
      index := index.(files := index.files + [IndexFile(file.name, file.hash)]);
      if LegacySupports(file) {
        var scanned := LegacyScan(read(file));
        if scanned.Failure? {
          IndexedStops(files, read, i + 1, |files|);
          return Failure(scanned.error);
        }
        index := index.(facts := index.facts + scanned.value);
      }
    }
    if tree.value.end.Some? {
      return Failure(tree.value.end.value);
    }
    r := Success(index);
  }

  /** Once the walk has failed, handling further files keeps its error. */
  lemma {:induction false} IndexedStops(files: seq<File>, read: File -> ContentRead, i: nat, n: nat)
    requires i <= n <= |files|
    requires Indexed(files, read, i).Failure?
    ensures Indexed(files, read, n) == Indexed(files, read, i)
    decreases n - i
  {
    if i < n {
      IndexedStops(files, read, i, n - 1);
    }
  }
}
