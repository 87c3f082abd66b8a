/**
 * The Dockerfile scanner (pkg/scanner/tools/docker): for every FROM instruction of a parsed
 * Dockerfile it emits one base-image fact naming the image and its digest or tag. Reading the
 * file and parsing it are outside the model; Scan is given the parser's outcome.
 */
module DockerScanner {
  import opened Wrappers
  import opened Collections
  import opened Git
  import opened TreeWalk
  import opened Scanner

  const BaseImageKey: string := "@docker/dockerfile/base-image"
  const Malformed: string := "malformed dockerfile"

  /** Supports: regular files (and links) whose path ends in "Dockerfile". */
  predicate Supports(file: File) {
    file.mode.IsFile() && HasSuffix(file.name, "Dockerfile")
  }

  /** A Dockerfile anywhere in the tree, or with any prefix to its name, is supported. */
  lemma SupportsAnyDirectory(prefix: string, file: File)
    requires Supports(file)
    ensures Supports(File(prefix + file.name, file.mode, file.hash))
    ensures Supports(File(prefix + "Dockerfile", file.mode, file.hash))
  {
    SuffixUnderPrefix(prefix, file.name, "Dockerfile");
    SuffixUnderPrefix(prefix, "Dockerfile", "Dockerfile");
  }

  predicate IsFromInstruction(n: Node) {
    n.named && n.kind == "from_instruction"
  }

  predicate IsImageSpec(n: Node) {
    n.named && n.kind == "image_spec"
  }

  /** The first of `ns` held under field `name`. */
  function FirstWithField(ns: seq<Node>, name: string): (r: Option<Node>)
    ensures r.Some? ==> r.value in ns && r.value.field == Some(name)
    ensures r.None? ==> forall c | c in ns :: c.field != Some(name)
  {
    if ns == [] then None
    else if ns[0].field == Some(name) then Some(ns[0])
    else FirstWithField(ns[1..], name)
  }

  /** The child found is the first one held under the field: none before it carries the field. */
  lemma {:induction false} FirstWithFieldIsFirst(ns: seq<Node>, name: string, i: nat)
    requires i < |ns| && ns[i].field == Some(name)
    requires forall j | 0 <= j < i :: ns[j].field != Some(name)
    ensures FirstWithField(ns, name) == Some(ns[i])
  {
    if i > 0 {
      FirstWithFieldIsFirst(ns[1..], name, i - 1);
    }
  }

  /** Node.ChildByFieldName: the child the grammar labels `name`, or nil. */
  function ChildByFieldName(n: Node, name: string): Option<Node> {
    FirstWithField(n.children, name)
  }

  /** `s[1:]`, which panics on an empty string. */
  function DropFirst(s: string): (r: Result<string>)
    ensures r.Success? <==> s != []
    ensures r.Success? ==> [s[0]] + r.value == s
  {
    if s == [] then Failure(Panic("slice bounds out of range [1:0]")) else Success(s[1..])
  }

  /** The image reference part of the value: the digest if there is one, the tag otherwise. */
  function Reference(digest: Option<Node>, tag: Option<Node>): (string, string)
    requires digest.Some? || tag.Some?
  {
    if digest.Some? then ("digest", digest.value.content) else ("tag", tag.value.content)
  }

  /** The fact for one FROM instruction, or why it is malformed. */
  function BaseImage(from: Node): Result<Fact> {
    var specs := Filter(PostOrder(from), IsImageSpec);
    if |specs| != 1 then Failure(Fail(Malformed))
    else
      var spec := specs[0];
      var name, digest, tag := ChildByFieldName(spec, "name"), ChildByFieldName(spec, "digest"), ChildByFieldName(spec, "tag");
      if name.None? || (digest.None? && tag.None?) then Failure(Fail(Malformed))
      else
        var (field, text) := Reference(digest, tag);
        match DropFirst(text)
        case Failure(e) => Failure(e)
        case Success(rest) =>
          var value := map["name" := Str(name.value.content), field := Str(rest)];
          var alias := ChildByFieldName(from, "as");
          Success(Fact(BaseImageKey, if alias.Some? then value["alias" := Str(alias.value.content)] else value))
  }

  /**
   * A FROM instruction is malformed exactly when its subtree does not hold a single image spec,
   * or that spec lacks a name, or has neither a digest nor a tag.
   */
  lemma BaseImageMalformed(from: Node)
    ensures var specs := Filter(PostOrder(from), IsImageSpec);
      BaseImage(from) == Failure(Fail(Malformed)) <==>
        |specs| != 1
        || ChildByFieldName(specs[0], "name").None?
        || (ChildByFieldName(specs[0], "digest").None? && ChildByFieldName(specs[0], "tag").None?)
  {
  }

  /**
   * A well-formed FROM instruction yields a base-image fact whose value has the image name,
   * exactly one of digest and tag (the digest when there is one, without its leading '@'; the
   * tag otherwise, without its leading ':'), and an alias exactly when the instruction has one,
   * holding the text of its `as` name.
   */
  lemma BaseImageShape(from: Node)
    requires BaseImage(from).Success?
    ensures var spec := Filter(PostOrder(from), IsImageSpec)[0];
      var value := BaseImage(from).value.value;
      var digest := ChildByFieldName(spec, "digest");
      && BaseImage(from).value.key == BaseImageKey
      && value["name"] == Str(ChildByFieldName(spec, "name").value.content)
      && ("digest" in value <==> digest.Some?)
      && ("tag" in value <==> digest.None?)
      && (digest.Some? ==> [digest.value.content[0]] + value["digest"].text == digest.value.content)
      && (digest.None? ==> var tag := ChildByFieldName(spec, "tag").value.content;
                           [tag[0]] + value["tag"].text == tag)
      && ("alias" in value <==> ChildByFieldName(from, "as").Some?)
      && (ChildByFieldName(from, "as").Some? ==> value["alias"] == Str(ChildByFieldName(from, "as").value.content))
  {
  }

  /**
   * directiveFrom over the FROM instructions `froms`: one fact per instruction, in order, up to
   * the first malformed one, whose error ends the extraction.
   */
  function Extract(froms: seq<Node>): Scanned {
    if froms == [] then Scanned([], None)
    else
      match BaseImage(froms[0])
      case Failure(e) => Scanned([], Some(e))
      case Success(fact) =>
        var rest := Extract(froms[1..]);
        Scanned([fact] + rest.facts, rest.err)
  }

  /**
   * Fact k is the fact of instruction k, and the extraction stops exactly at the first
   * malformed instruction, with that instruction's error.
   */
  lemma {:induction false} ExtractFacts(froms: seq<Node>)
    ensures var r := Extract(froms);
      && |r.facts| <= |froms|
      && (forall k | 0 <= k < |r.facts| :: BaseImage(froms[k]) == Success(r.facts[k]))
      && (r.err.None? ==> |r.facts| == |froms|)
      && (r.err.Some? ==> |r.facts| < |froms| && BaseImage(froms[|r.facts|]) == Failure(r.err.value))
    decreases |froms|
  {
    if froms != [] && BaseImage(froms[0]).Success? {
      var rest := froms[1..];
      ExtractFacts(rest);
      forall k | 1 <= k <= |rest| ensures froms[k] == rest[k - 1] { }
    }
  }

  /** The facts `facts` already emitted, followed by what the rest of the extraction yields. */
  function After(facts: seq<Fact>, rest: Scanned): Scanned {
    Scanned(facts + rest.facts, rest.err)
  }

  lemma AfterAfter(facts: seq<Fact>, more: seq<Fact>, rest: Scanned)
    ensures After(facts, After(more, rest)) == After(facts + more, rest)
  {
    assert facts + (more + rest.facts) == (facts + more) + rest.facts;
  }

  /** One step of the extraction: the first instruction's fact, or its error and nothing more. */
  lemma ExtractStep(froms: seq<Node>, i: nat)
    requires i < |froms|
    ensures BaseImage(froms[i]).Failure? ==> Extract(froms[i..]) == Scanned([], Some(BaseImage(froms[i]).error))
    ensures BaseImage(froms[i]).Success? ==>
      Extract(froms[i..]) == After([BaseImage(froms[i]).value], Extract(froms[i + 1..]))
  {
    assert froms[i..][0] == froms[i] && froms[i..][1..] == froms[i + 1..];
  }

  /** Extraction succeeds exactly when every FROM instruction is well formed. */
  lemma {:induction false} ExtractSucceeds(froms: seq<Node>)
    ensures Extract(froms).err.None? <==> forall i | 0 <= i < |froms| :: BaseImage(froms[i]).Success?
    decreases |froms|
  {
    if froms != [] {
      ExtractSucceeds(froms[1..]);
      if BaseImage(froms[0]).Success? {
        forall i | 1 <= i < |froms| ensures froms[i] == froms[1..][i - 1] { }
      }
    }
  }

  /**
   * The body of directiveFrom's loop for one FROM instruction: validate it and build its value.
   * It computes `BaseImage`.
   */
  method FromInstruction(from: Node) returns (r: Result<Fact>)
    ensures r == BaseImage(from)
  {
    var imageSpec := Find(from, IsImageSpec);
    if |imageSpec| != 1 {
      return Failure(Fail(Malformed));
    }
    var spec := imageSpec[0];
    var name, digest, tag := ChildByFieldName(spec, "name"), ChildByFieldName(spec, "digest"), ChildByFieldName(spec, "tag");
    if name.None? || (digest.None? && tag.None?) {
      return Failure(Fail(Malformed));
    }
    var value := map["name" := Str(name.value.content)];
    if digest.Some? {
      if digest.value.content == [] {
        return Failure(Panic("slice bounds out of range [1:0]"));
      }
      value := value["digest" := Str(digest.value.content[1..])];
    } else {
      if tag.value.content == [] {
        return Failure(Panic("slice bounds out of range [1:0]"));
      }
      value := value["tag" := Str(tag.value.content[1..])];
    }
    var alias := ChildByFieldName(from, "as");
    if alias.Some? {
      value := value["alias" := Str(alias.value.content)];
    }
    r := Success(Fact(BaseImageKey, value));
  }

  /** directiveFrom: walks the FROM instructions of the tree and emits the fact of each. */
  method DirectiveFrom(root: Node) returns (facts: seq<Fact>, err: Option<Error>)
    ensures Scanned(facts, err) == Extract(Filter(PostOrder(root), IsFromInstruction))
  {
    var fromNodes := Find(root, IsFromInstruction);
    facts := [];
    err := None;
    var i := 0;
    while i < |fromNodes|
      invariant 0 <= i <= |fromNodes|
      invariant Extract(fromNodes) == After(facts, Extract(fromNodes[i..]))
    {
      ExtractStep(fromNodes, i);
      var r := FromInstruction(fromNodes[i]);
      if r.Failure? {
        err := Some(r.error);
        return;
      }
      AfterAfter(facts, [r.value], Extract(fromNodes[i + 1..]));
      facts := facts + [r.value];
      i := i + 1;
    }
    assert fromNodes[i..] == [];
  }

  /**
   * Scan: `source` is the outcome of reading and parsing the file. A failure there yields no
   * facts and that error; otherwise the facts of the one extractor, with its error if it failed.
   */
  method Scan(file: File, source: Result<Node>) returns (r: Scanned)
    ensures source.Failure? ==> r == Scanned([], Some(source.error))
    ensures source.Success? ==> r == Extract(Filter(PostOrder(source.value), IsFromInstruction))
  {
    if source.Failure? {
      return Scanned([], Some(source.error));
    }
    var facts, err := DirectiveFrom(source.value);
    r := Scanned(facts, err);
  }
}
