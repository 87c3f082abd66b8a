/**
 * The package-lock.json scanner (pkg/scanner/lang/node/npm): one fact per entry of the lock
 * file's `packages` map. Reading and JSON decoding are outside the model; Scan is given the
 * decoded document and the order in which Go ranges over the map.
 */
module PackageLockScanner {
  import opened Wrappers
  import opened Collections
  import opened Git
  import opened Scanner

  const LockedKey: string := "@node/npm/dependency-locked"

  /** One entry of `packages`. */
  datatype Package = Package(version: string, resolved: string, integrity: string)

  /** The decoded package-lock.json, restricted to the fields the scanner declares. */
  datatype PackageLock = PackageLock(name: string, version: string, packages: map<string, Package>)

  /** Supports: regular files (and links) whose path ends in "package-lock.json". */
  predicate Supports(file: File) {
    file.mode.IsFile() && HasSuffix(file.name, "package-lock.json")
  }

  /** A package-lock.json in any directory is supported. */
  lemma SupportsAnyDirectory(dir: string, mode: FileMode, hash: string)
    requires mode.IsFile()
    ensures Supports(File(dir + "/package-lock.json", mode, hash))
  {
    SuffixUnderPrefix(dir + "/", "package-lock.json", "package-lock.json");
    assert dir + "/package-lock.json" == (dir + "/") + "package-lock.json";
  }

  /** The fact of one entry: its path (the map key) and the entry's three fields. */
  function LockedFact(path: string, pkg: Package): Fact {
    Fact(LockedKey, map["path" := Str(path), "version" := Str(pkg.version),
                        "resolved" := Str(pkg.resolved), "integrity" := Str(pkg.integrity)])
  }

  /** Reads the entry back from a fact, if the fact is a locked-dependency fact. */
  function EntryOf(fact: Fact): Option<(string, Package)> {
    var v := fact.value;
    if fact.key == LockedKey && "path" in v && "version" in v && "resolved" in v && "integrity" in v
       && v["path"].Str? && v["version"].Str? && v["resolved"].Str? && v["integrity"].Str?
    then Some((v["path"].text, Package(v["version"].text, v["resolved"].text, v["integrity"].text)))
    else None
  }

  /** Nothing of an entry is lost in its fact. */
  lemma LockedRoundTrip(path: string, pkg: Package)
    ensures EntryOf(LockedFact(path, pkg)) == Some((path, pkg))
  {
    var v := LockedFact(path, pkg).value;
    assert v["path"] == Str(path) && v["version"] == Str(pkg.version);
    assert v["resolved"] == Str(pkg.resolved) && v["integrity"] == Str(pkg.integrity);
  }

  /** The facts of a lock file whose `packages` map is visited in `order`. */
  function LockFacts(lock: PackageLock, order: seq<string>): seq<Fact>
    requires IsEnumeration(order, lock.packages.Keys)
  {
    seq(|order|, i requires 0 <= i < |order| => LockedFact(order[i], lock.packages[order[i]]))
  }

  /**
   * Exactly one fact per entry of `packages`, and every entry is reported; the top-level name
   * and version never reach a fact.
   */
  lemma OneFactPerPackage(lock: PackageLock, order: seq<string>)
    requires IsEnumeration(order, lock.packages.Keys)
    ensures |LockFacts(lock, order)| == |lock.packages|
    ensures forall path | path in lock.packages :: LockedFact(path, lock.packages[path]) in LockFacts(lock, order)
    ensures forall name, version :: LockFacts(PackageLock(name, version, lock.packages), order) == LockFacts(lock, order)
  {
    EnumerationLength(order, lock.packages.Keys);
    forall path | path in lock.packages ensures LockedFact(path, lock.packages[path]) in LockFacts(lock, order) {
      var i :| 0 <= i < |order| && order[i] == path;
      assert LockFacts(lock, order)[i] == LockedFact(path, lock.packages[path]);
    }
  }

  /**
   * Scan: `decoded` is the outcome of reading and decoding the file. A failure yields no facts
   * and that error; otherwise the facts of the lock file and no error.
   */
  method Scan(file: File, decoded: Result<PackageLock>, order: seq<string>) returns (r: Scanned)
    requires decoded.Success? ==> IsEnumeration(order, decoded.value.packages.Keys)
    ensures decoded.Failure? ==> r == Scanned([], Some(decoded.error))
    ensures decoded.Success? ==> r == Scanned(LockFacts(decoded.value, order), None)
  {
    if decoded.Failure? {
      return Scanned([], Some(decoded.error));
    }
    var packages := decoded.value.packages;
    var facts := [];
    for i := 0 to |order|
      invariant |facts| == i
      invariant forall k | 0 <= k < i :: facts[k] == LockedFact(order[k], packages[order[k]])
    {
      var name := order[i];
      var pkg := packages[name];
      var value := map["path" := Str(name), "version" := Str(pkg.version), "resolved" := Str(pkg.resolved), "integrity" := Str(pkg.integrity)];
      facts := facts + [Fact(LockedKey, value)];
    }
    r := Scanned(facts, None);
  }
}
