/**
 * The package.json scanner (pkg/scanner/lang/node/npm): one fact per entry of the dependencies,
 * devDependencies and peerDependencies maps. Reading and JSON decoding are outside the model;
 * Scan is given the decoded document, and the order in which Go ranges over each map.
 */
module PackageJsonScanner {
  import opened Wrappers
  import opened Collections
  import opened Git
  import opened Scanner

  const DependencyKey: string := "@node/npm/dependency"

  /** The decoded package.json, restricted to the fields the scanner declares. */
  datatype PackageJson = PackageJson(lockfileVersion: string, dependencies: map<string, string>,
                                     devDependencies: map<string, string>, peerDependencies: map<string, string>)

  /** The map a dependency is declared in. */
  datatype Group = Runtime | Dev | Peer

  /** Supports: regular files (and links) whose path ends in "package.json". */
  predicate Supports(file: File) {
    file.mode.IsFile() && HasSuffix(file.name, "package.json")
  }

  /** A package.json in any directory is supported. */
  lemma SupportsAnyDirectory(dir: string, mode: FileMode, hash: string)
    requires mode.IsFile()
    ensures Supports(File(dir + "/package.json", mode, hash))
  {
    SuffixUnderPrefix(dir + "/", "package.json", "package.json");
    assert dir + "/package.json" == (dir + "/") + "package.json";
  }

  /** The fact of one dependency: its name and version, flagged `dev` or `peer` by its map. */
  function DependencyFact(name: string, version: string, group: Group): Fact {
    var value := map["name" := Str(name), "version" := Str(version)];
    Fact(DependencyKey, match group
      case Runtime => value
      case Dev => value["dev" := Flag(true)]
      case Peer => value["peer" := Flag(true)])
  }

  /** The map a dependency fact says its dependency came from. */
  function GroupOf(fact: Fact): Group {
    if "dev" in fact.value then Dev else if "peer" in fact.value then Peer else Runtime
  }

  /** A fact records its dependency's name, version and map. */
  lemma DependencyRoundTrip(name: string, version: string, group: Group)
    ensures var f := DependencyFact(name, version, group);
      && f.key == DependencyKey
      && f.value["name"] == Str(name) && f.value["version"] == Str(version)
      && GroupOf(f) == group
  {
  }

  /** The facts of one map, visited in `order`. */
  function GroupFacts(deps: map<string, string>, order: seq<string>, group: Group): (r: seq<Fact>)
    requires forall name | name in order :: name in deps
  {
    seq(|order|, i requires 0 <= i < |order| => DependencyFact(order[i], deps[order[i]], group))
  }

  /** The three orders are the orders of one run of the three range loops. */
  predicate Enumerates(p: PackageJson, depOrder: seq<string>, devOrder: seq<string>, peerOrder: seq<string>) {
    && IsEnumeration(depOrder, p.dependencies.Keys)
    && IsEnumeration(devOrder, p.devDependencies.Keys)
    && IsEnumeration(peerOrder, p.peerDependencies.Keys)
  }

  /** All facts of a document: the runtime dependencies, then the dev ones, then the peer ones. */
  function DocumentFacts(p: PackageJson, depOrder: seq<string>, devOrder: seq<string>, peerOrder: seq<string>): seq<Fact>
    requires Enumerates(p, depOrder, devOrder, peerOrder)
  {
    GroupFacts(p.dependencies, depOrder, Runtime)
      + GroupFacts(p.devDependencies, devOrder, Dev)
      + GroupFacts(p.peerDependencies, peerOrder, Peer)
  }

  /** There is one fact per entry of the three maps. */
  lemma FactCount(p: PackageJson, depOrder: seq<string>, devOrder: seq<string>, peerOrder: seq<string>)
    requires Enumerates(p, depOrder, devOrder, peerOrder)
    ensures |DocumentFacts(p, depOrder, devOrder, peerOrder)|
      == |p.dependencies| + |p.devDependencies| + |p.peerDependencies|
  {
    EnumerationLength(depOrder, p.dependencies.Keys);
    EnumerationLength(devOrder, p.devDependencies.Keys);
    EnumerationLength(peerOrder, p.peerDependencies.Keys);
  }

  /**
   * Every fact is a dependency fact; the runtime dependencies come first, then the dev
   * dependencies, then the peer dependencies.
   */
  lemma GroupsInOrder(p: PackageJson, depOrder: seq<string>, devOrder: seq<string>, peerOrder: seq<string>, k: nat)
    requires Enumerates(p, depOrder, devOrder, peerOrder)
    requires k < |DocumentFacts(p, depOrder, devOrder, peerOrder)|
    ensures var f := DocumentFacts(p, depOrder, devOrder, peerOrder)[k];
      && f.key == DependencyKey
      && GroupOf(f) == if k < |p.dependencies| then Runtime
                       else if k < |p.dependencies| + |p.devDependencies| then Dev
                       else Peer
  {
    FactCount(p, depOrder, devOrder, peerOrder);
    EnumerationLength(depOrder, p.dependencies.Keys);
    EnumerationLength(devOrder, p.devDependencies.Keys);
  }

  /** Every entry of each map is reported, with its own version and its map's flag. */
  lemma EveryEntryReported(p: PackageJson, depOrder: seq<string>, devOrder: seq<string>, peerOrder: seq<string>, name: string)
    requires Enumerates(p, depOrder, devOrder, peerOrder)
    ensures var facts := DocumentFacts(p, depOrder, devOrder, peerOrder);
      && (name in p.dependencies ==> DependencyFact(name, p.dependencies[name], Runtime) in facts)
      && (name in p.devDependencies ==> DependencyFact(name, p.devDependencies[name], Dev) in facts)
      && (name in p.peerDependencies ==> DependencyFact(name, p.peerDependencies[name], Peer) in facts)
  {
    var a, b, c := GroupFacts(p.dependencies, depOrder, Runtime),
      GroupFacts(p.devDependencies, devOrder, Dev), GroupFacts(p.peerDependencies, peerOrder, Peer);
    if name in p.dependencies {
      var i :| 0 <= i < |depOrder| && depOrder[i] == name;
      assert a[i] in a + b + c;
    }
    if name in p.devDependencies {
      var i :| 0 <= i < |devOrder| && devOrder[i] == name;
      assert (a + b + c)[|a| + i] == b[i];
    }
    if name in p.peerDependencies {
      var i :| 0 <= i < |peerOrder| && peerOrder[i] == name;
      assert (a + b + c)[|a| + |b| + i] == c[i];
    }
  }

  /** Appends the facts of one map, visited in `order`: one of the three range loops of Scan. */
  method AppendGroup(facts: seq<Fact>, deps: map<string, string>, order: seq<string>, group: Group)
    returns (out: seq<Fact>)
    requires forall name | name in order :: name in deps
    ensures out == facts + GroupFacts(deps, order, group)
  {
    out := facts;
    for i := 0 to |order|
      invariant out == facts + GroupFacts(deps, order[..i], group)
    {
      var name := order[i];
      var value := map["name" := Str(name), "version" := Str(deps[name])];
      if group == Dev {
        value := value["dev" := Flag(true)];
      } else if group == Peer {
        value := value["peer" := Flag(true)];
      }
      assert GroupFacts(deps, order[..i + 1], group) == GroupFacts(deps, order[..i], group) + [DependencyFact(name, deps[name], group)];
      out := out + [Fact(DependencyKey, value)];
    }
    assert order[..|order|] == order;
  }

  /**
   * Scan: `decoded` is the outcome of reading and decoding the file. A failure yields no facts
   * and that error; otherwise the facts of the document and no error.
   */
  method Scan(file: File, decoded: Result<PackageJson>, depOrder: seq<string>, devOrder: seq<string>, peerOrder: seq<string>)
    returns (r: Scanned)
    requires decoded.Success? ==> Enumerates(decoded.value, depOrder, devOrder, peerOrder)
    ensures decoded.Failure? ==> r == Scanned([], Some(decoded.error))
    ensures decoded.Success? ==> r == Scanned(DocumentFacts(decoded.value, depOrder, devOrder, peerOrder), None)
  {
    if decoded.Failure? {
      return Scanned([], Some(decoded.error));
    }
    var p := decoded.value;
    var facts := AppendGroup([], p.dependencies, depOrder, Runtime);
    facts := AppendGroup(facts, p.devDependencies, devOrder, Dev);
    facts := AppendGroup(facts, p.peerDependencies, peerOrder, Peer);
    r := Scanned(facts, None);
  }
}
