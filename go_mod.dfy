/**
 * The go.mod scanner (pkg/scanner/lang/golang): one fact per require directive of the module
 * file. Reading and parsing the file are outside the model; Scan is given the parsed file.
 */
module GoModScanner {
  import opened Wrappers
  import opened Git
  import opened Scanner

  const RequireKey: string := "@golang/mod/require"

  /** module.Version: a module path and its version. */
  datatype Version = Version(path: string, version: string)

  /** modfile.Require: a require directive. */
  datatype Require = Require(mod: Version)

  /** modfile.File, restricted to what the scanner reads. */
  datatype ModFile = ModFile(require: seq<Require>)

  /** Supports: a regular file (or link) at the root of the tree named exactly "go.mod". */
  predicate Supports(file: File) {
    file.mode.IsFile() && file.name == "go.mod"
  }

  /** A go.mod below the root is not supported: the name is compared whole, not by suffix. */
  lemma NestedNotSupported(dir: string, mode: FileMode, hash: string)
    requires dir != []
    ensures !Supports(File(dir + "/go.mod", mode, hash))
  {
    assert |dir + "/go.mod"| > |"go.mod"|;
  }

  /** The fact of one require directive. */
  function RequireFact(req: Require): Fact {
    Fact(RequireKey, map["path" := Str(req.mod.path), "version" := Str(req.mod.version)])
  }

  /** Reads the requirement back from a fact, if the fact is a require fact. */
  function Requirement(fact: Fact): Option<Require> {
    if fact.key == RequireKey && "path" in fact.value && "version" in fact.value
       && fact.value["path"].Str? && fact.value["version"].Str?
    then Some(Require(Version(fact.value["path"].text, fact.value["version"].text)))
    else None
  }

  /** Nothing of a requirement is lost in its fact. */
  lemma RequireRoundTrip(req: Require)
    ensures RequireFact(req).key == RequireKey
    ensures Requirement(RequireFact(req)) == Some(req)
  {
    var m := RequireFact(req).value;
    assert m["path"] == Str(req.mod.path) && m["version"] == Str(req.mod.version);
  }

  /**
   * Scan: `parsed` is the outcome of reading and parsing the file. A failure yields no facts and
   * that error; otherwise fact k is the fact of require directive k and there is no error.
   */
  method Scan(file: File, parsed: Result<ModFile>) returns (r: Scanned)
    ensures parsed.Failure? ==> r == Scanned([], Some(parsed.error))
    ensures parsed.Success? ==>
      && r.err == None
      && |r.facts| == |parsed.value.require|
      && forall k | 0 <= k < |r.facts| :: r.facts[k] == RequireFact(parsed.value.require[k])
  {
    if parsed.Failure? {
      return Scanned([], Some(parsed.error));
    }
    var reqs := parsed.value.require;
    var facts := [];
    for i := 0 to |reqs|
      invariant |facts| == i
      invariant forall k | 0 <= k < i :: facts[k] == RequireFact(reqs[k])
    {
      var value := map["path" := Str(reqs[i].mod.path), "version" := Str(reqs[i].mod.version)];
      facts := facts + [Fact(RequireKey, value)];
    }
    r := Scanned(facts, None);
  }
}
