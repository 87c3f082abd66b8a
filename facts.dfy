/**
 * The `facts` relation (facts.go): a SQLite virtual table whose rows are the facts every
 * registered scanner extracts from every file of one commit's tree.
 *
 * Planning (BestIndex) accepts an equality on the commit hash, an equality or GLOB on the file
 * name and an equality or LIKE on the scanner, hands each the next argument slot and records an
 * (operator, column) byte for it. Execution (Filter) reads the bytes back against the values
 * SQLite passes, looks the commit up, and runs the scanners over the files the pattern selects.
 */
module Facts {
  import opened Wrappers
  import opened Collections
  import opened Git
  import opened Sqlite
  import opened Pushdown
  import opened Scanner

  /** Columns of the relation, in declaration order. */
  const ColumnCommit: int := 0
  const ColumnFileName: int := 1
  const ColumnFileBlob: int := 2
  const ColumnScanner: int := 3
  const ColumnFactKey: int := 4
  const ColumnFactValue: int := 5

  /** The constraint errors of planning. */
  const CommitOpRefused: string := "only equals-to operation is supported on commit hash"
  const FileNameOpRefused: string := "only equals-to and GLOB operations are supported on file_name"
  const FileNameUnusable: string := "file_name constraint must be usable"
  const ScannerOpRefused: string := "only equals-to and LIKE operations are supported on scanner"
  const ScannerUnusable: string := "scanner constraint must be usable"
  const CommitRequired: string := "commit hash is required"

  // ---------------------------------------------------------------------------------------------
  // Planning
  // ---------------------------------------------------------------------------------------------

  /** What BestIndex decides for one constraint, branch by branch of its switch. */
  function FactsVerdict(c: Constraint): Verdict {
    if c.column == ColumnCommit then
      if c.op != Eq then Reject(CommitOpRefused)
      else if c.usable then Accept(Pack(OpEqual, 0), true)
      else Skip
    else if c.column == ColumnFileName then
      // SQLite's range hints for a GLOB prefix are ignored
      if c.op == Ge || c.op == Lt then Skip
      else if c.op != Eq && c.op != Glob then Reject(FileNameOpRefused)
      else if !c.usable then Reject(FileNameUnusable)
      else Accept(Pack(OpCode(c.op), 1), true)
    else if c.column == ColumnScanner then
      if c.op != Eq && c.op != Like then Reject(ScannerOpRefused)
      else if !c.usable then Reject(ScannerUnusable)
      else Accept(Pack(OpCode(c.op), 3), false)
    else Skip
  }

  /** A usable equality on the commit hash: the one constraint a plan cannot do without. */
  predicate PinsCommit(c: Constraint) {
    c.column == ColumnCommit && c.op == Eq && c.usable
  }

  /** The plan BestIndex returns for `input`, or the constraint error it fails with. */
  function FactsPlan(input: IndexInput): Result<IndexOutput> {
    var cs := input.constraints;
    match FirstReject(cs, FactsVerdict)
    case Some(m) => Failure(Sqlite(SQLITE_CONSTRAINT, m))
    case None =>
      if !exists i | 0 <= i < |cs| :: PinsCommit(cs[i]) then Failure(Sqlite(SQLITE_CONSTRAINT, CommitRequired))
      else Success(IndexOutput(Usages(cs, FactsVerdict), Codes(cs, FactsVerdict), 0.0, 0, false, false))
  }

  /**
   * An accepted constraint's byte names its own column and operator; the commit and file-name
   * constraints are left to the table and the scanner constraint is re-checked by SQLite.
   */
  lemma VerdictCode(c: Constraint)
    requires FactsVerdict(c).Accept?
    ensures ColumnOf(FactsVerdict(c).code) as int == c.column
    ensures OpOf(FactsVerdict(c).code) == OpCode(c.op) != 0
    ensures FactsVerdict(c).omit <==> c.column != ColumnScanner
  {
    var col: Byte := if c.column == ColumnCommit then 0 else if c.column == ColumnFileName then 1 else 3;
    NibbleRoundTrip(OpCode(c.op), col);
  }

  /**
   * BestIndex fails exactly when some constraint is refused or no usable equality pins the commit,
   * and a constraint is refused exactly when it is on the commit with an operator other than
   * equality, on the file name with an operator other than equality, GLOB, >= and <, or unusable
   * there, or on the scanner with an operator other than equality and LIKE, or unusable there.
   */
  lemma FactsPlanSucceeds(input: IndexInput)
    ensures FactsPlan(input).Success? <==>
      && (forall i | 0 <= i < |input.constraints| :: !FactsVerdict(input.constraints[i]).Reject?)
      && (exists i | 0 <= i < |input.constraints| :: PinsCommit(input.constraints[i]))
    ensures forall c: Constraint :: FactsVerdict(c).Reject? <==>
      || (c.column == ColumnCommit && c.op != Eq)
      || (c.column == ColumnFileName && c.op !in {Eq, Glob, Ge, Lt})
      || (c.column == ColumnFileName && c.op in {Eq, Glob} && !c.usable)
      || (c.column == ColumnScanner && (c.op !in {Eq, Like} || !c.usable))
  {
    NoRejectBefore(input.constraints, FactsVerdict);
  }

  /**
   * The constraints BestIndex takes: a usable commit equality, a usable file-name equality or
   * GLOB, and a usable scanner equality or LIKE. It passes over exactly an unusable commit
   * equality, the `>=` and `<` hints on the file name, and every constraint on the blob, key and
   * value columns. A constraint passed over gets no usage and adds no byte to the token.
   */
  lemma FactsPlanTakes(cs: seq<Constraint>, i: nat)
    requires i < |cs|
    ensures var c := cs[i];
      FactsVerdict(c).Accept? <==>
        || PinsCommit(c)
        || (c.column == ColumnFileName && c.op in {Eq, Glob} && c.usable)
        || (c.column == ColumnScanner && c.op in {Eq, Like} && c.usable)
    ensures var c := cs[i];
      FactsVerdict(c).Skip? <==>
        || (c.column == ColumnCommit && c.op == Eq && !c.usable)
        || (c.column == ColumnFileName && c.op in {Ge, Lt})
        || c.column !in {ColumnCommit, ColumnFileName, ColumnScanner}
    ensures FactsVerdict(cs[i]).Skip? ==>
      UsageAt(cs, FactsVerdict, i) == None && Codes(cs[..i + 1], FactsVerdict) == Codes(cs[..i], FactsVerdict)
  {
    JudgeStep(cs, FactsVerdict, i);
  }

  /**
   * A successful plan hands SQLite's values to Filter one per byte of the token, in slot order:
   * the constraint given slot k + 1 is described by byte k, which names its column and operator,
   * and some byte asks for the commit by equality.
   */
  lemma FactsPlanSound(input: IndexInput, i: nat)
    requires FactsPlan(input).Success? && i < |input.constraints|
    ensures var out := FactsPlan(input).value;
      ArgumentCount(out.usage) == |out.indexString|
    ensures var out, c := FactsPlan(input).value, input.constraints[i];
      FactsVerdict(c).Accept? ==>
        var k := out.usage[i].value.argvIndex - 1;
        && 0 <= k < |out.indexString|
        && ColumnOf(out.indexString[k]) as int == c.column
        && OpOf(out.indexString[k]) == OpCode(c.op)
    ensures exists k | 0 <= k < |FactsPlan(input).value.indexString| :: IsCommitCode(FactsPlan(input).value.indexString[k])
  {
    var cs := input.constraints;
    ArgumentCountIsTokenLength(cs, FactsVerdict);
    if FactsVerdict(cs[i]).Accept? {
      ArgvAligned(cs, FactsVerdict, i);
      VerdictCode(cs[i]);
    }
    var j :| 0 <= j < |cs| && PinsCommit(cs[j]);
    ArgvAligned(cs, FactsVerdict, j);
    VerdictCode(cs[j]);
  }

  /**
   * The switch of BestIndex for one constraint: refuse it with a message, pass over it, or take
   * it with the byte to record and the omit flag of its usage. It computes `FactsVerdict`.
   */
  method Judge(cons: Constraint) returns (v: Verdict)
    ensures v == FactsVerdict(cons)
  {
    var col, op := cons.column, cons.op;
    if col == ColumnCommit {
      if op != Eq {
        return Reject(CommitOpRefused);
      }
      if cons.usable {
        return Accept(Pack(OpEqual, 0), true);
      }
    } else if col == ColumnFileName {
      if op == Ge || op == Lt {
        return Skip;
      }
      if op != Eq && op != Glob {
        return Reject(FileNameOpRefused);
      }
      if !cons.usable {
        return Reject(FileNameUnusable);
      }
      if op == Eq {
        return Accept(Pack(OpEqual, 1), true);
      }
      return Accept(Pack(OpGlob, 1), true);
    } else if col == ColumnScanner {
      if op != Eq && op != Like {
        return Reject(ScannerOpRefused);
      }
      if !cons.usable {
        return Reject(ScannerUnusable);
      }
      if op == Eq {
        return Accept(Pack(OpEqual, 3), false);
      }
      return Accept(Pack(OpLike, 3), false);
    }
    return Skip;
  }

  /**
   * The state of BestIndex after judging the first i constraints without a refusal: the usage
   * slots of those constraints are filled, the others still nil, the token holds their codes,
   * and `pinned` records whether one of them pins the commit.
   */
  ghost predicate Planned(cs: seq<Constraint>, i: nat, usage: seq<Option<Usage>>, bitmap: seq<Byte>, pinned: bool)
    requires i <= |cs|
  {
    && |usage| == |cs|
    && bitmap == Codes(cs[..i], FactsVerdict)
    && FirstReject(cs[..i], FactsVerdict) == None
    && (forall j | 0 <= j < i :: usage[j] == UsageAt(cs, FactsVerdict, j))
    && (forall j | i <= j < |cs| :: usage[j] == None)
    && (pinned <==> exists j | 0 <= j < i :: PinsCommit(cs[j]))
  }

  /** Taking or passing over one more constraint keeps the state planned. */
  lemma PlannedStep(cs: seq<Constraint>, i: nat, usage: seq<Option<Usage>>, bitmap: seq<Byte>, pinned: bool)
    requires i < |cs| && Planned(cs, i, usage, bitmap, pinned) && !FactsVerdict(cs[i]).Reject?
    ensures var v := FactsVerdict(cs[i]);
      Planned(cs, i + 1,
              if v.Accept? then usage[i := Some(Usage(1 + |bitmap|, v.omit))] else usage,
              if v.Accept? then bitmap + [v.code] else bitmap,
              pinned || (v.Accept? && cs[i].column == ColumnCommit))
  {
    JudgeStep(cs, FactsVerdict, i);
  }

  /** A refusal after an unrefused prefix is the plan's error. */
  lemma PlannedRefused(input: IndexInput, i: nat, usage: seq<Option<Usage>>, bitmap: seq<Byte>, pinned: bool)
    requires i < |input.constraints| && Planned(input.constraints, i, usage, bitmap, pinned)
    requires FactsVerdict(input.constraints[i]).Reject?
    ensures FactsPlan(input) == Failure(Sqlite(SQLITE_CONSTRAINT, FactsVerdict(input.constraints[i]).message))
  {
    JudgeStep(input.constraints, FactsVerdict, i);
    FirstRejectPersists(input.constraints, FactsVerdict, i + 1);
  }

  /** Once every constraint is judged, the plan is the state's, or the missing-commit error. */
  lemma PlannedDone(input: IndexInput, usage: seq<Option<Usage>>, bitmap: seq<Byte>, pinned: bool)
    requires Planned(input.constraints, |input.constraints|, usage, bitmap, pinned)
    ensures FactsPlan(input) == if pinned then Success(IndexOutput(usage, bitmap, 0.0, 0, false, false))
                                else Failure(Sqlite(SQLITE_CONSTRAINT, CommitRequired))
  {
    var cs := input.constraints;
    assert cs[..|cs|] == cs;
    assert usage == Usages(cs, FactsVerdict);
  }

  /**
   * BestIndex: judges each constraint in turn; a taken constraint gets the next argument slot and
   * its byte joins the token.
   */
  method BestIndex(input: IndexInput) returns (r: Result<IndexOutput>)
    ensures r == FactsPlan(input)
  {
    var cs := input.constraints;
    var argv := 1;
    var bitmap: seq<Byte> := [];
    var usage: seq<Option<Usage>> := seq(|cs|, _ => None);
    var commitConstrained := false;
    for i := 0 to |cs|
      invariant argv == 1 + |bitmap|
      invariant Planned(cs, i, usage, bitmap, commitConstrained)
    {
      var v := Judge(cs[i]);
      match v {
        case Reject(message) =>
          PlannedRefused(input, i, usage, bitmap, commitConstrained);
          return Failure(Sqlite(SQLITE_CONSTRAINT, message));
        case Skip =>
          PlannedStep(cs, i, usage, bitmap, commitConstrained);
        case Accept(code, omit) =>
          PlannedStep(cs, i, usage, bitmap, commitConstrained);
          usage := usage[i := Some(Usage(argv, omit))];
          argv := argv + 1;
          bitmap := bitmap + [code];
          if cs[i].column == ColumnCommit {
            commitConstrained := true;
          }
      }
    }
    PlannedDone(input, usage, bitmap, commitConstrained);
    if !commitConstrained {
      return Failure(Sqlite(SQLITE_CONSTRAINT, CommitRequired));
    }
    r := Success(IndexOutput(usage, bitmap, 0.0, 0, false, false));
  }

  // ---------------------------------------------------------------------------------------------
  // Reading the token back
  // ---------------------------------------------------------------------------------------------

  /** A byte asking for the commit by equality. */
  predicate IsCommitCode(b: Byte) {
    ColumnOf(b) == 0 && OpOf(b) == OpEqual
  }

  /** A byte asking for files by name, by equality or GLOB (both become a path pattern). */
  predicate IsPatternCode(b: Byte) {
    ColumnOf(b) == 1 && (OpOf(b) == OpEqual || OpOf(b) == OpGlob)
  }

  // ---------------------------------------------------------------------------------------------
  // Execution
  // ---------------------------------------------------------------------------------------------

  /** The repository of the working directory, as far as Filter reads it. */
  datatype Repo = Repo(commitObject: string -> Result<Commit>, tree: Commit -> Result<Listing<File>>)

  /** What the values select: the commit to scan and the path pattern files must match. */
  datatype Query = Query(commit: Option<Commit>, pattern: Option<string>)

  /** A value for a commit byte names a commit the repository has. */
  predicate Resolves(repo: Repo, text: string) {
    IsHash(text) && repo.commitObject(text).Success?
  }

  /**
   * The decoding loop of Filter from value n on, with the query built so far: a commit byte
   * needs a well-formed hash that the repository resolves and replaces the commit, a file-name
   * byte replaces the pattern, any other byte (the scanner's) is passed over. A value without a
   * byte indexes past the end of the token.
   */
  function DecodeFrom(repo: Repo, bitmap: seq<Byte>, values: seq<string>, n: nat, q: Query): Result<Query>
    requires n <= |values|
    decreases |values| - n
  {
    if n == |values| then Success(q)
    else if n >= |bitmap| then Failure(Panic("index out of range"))
    else if IsCommitCode(bitmap[n]) then
      if !IsHash(values[n]) then Failure(Sqlite(SQLITE_ERROR, "invalid commit hash"))
      else match repo.commitObject(values[n])
        case Failure(e) => Failure(Sqlite(SQLITE_ERROR, e.Text()))
        case Success(c) => DecodeFrom(repo, bitmap, values, n + 1, q.(commit := Some(c)))
    else if IsPatternCode(bitmap[n]) then DecodeFrom(repo, bitmap, values, n + 1, q.(pattern := Some(values[n])))
    else DecodeFrom(repo, bitmap, values, n + 1, q)
  }

  /** The query of the values SQLite passes, read against the token; without constraints, no commit and no pattern. */
  function Decode(repo: Repo, bitmap: seq<Byte>, values: seq<string>): Result<Query> {
    DecodeFrom(repo, bitmap, values, 0, Query(None, None))
  }

  /** Every value in [from, to) under a commit byte resolves. */
  predicate AllResolve(repo: Repo, bitmap: seq<Byte>, values: seq<string>, from: nat, to: nat)
    requires to <= |values| && to <= |bitmap|
  {
    forall k | from <= k < to :: IsCommitCode(bitmap[k]) ==> Resolves(repo, values[k])
  }

  /**
   * The query the first n values select, stated without the loop: the commit of the last commit
   * value and the last file-name value, each absent when there is none.
   */
  function Selected(repo: Repo, bitmap: seq<Byte>, values: seq<string>, n: nat): Query
    requires n <= |values| && n <= |bitmap| && AllResolve(repo, bitmap, values, 0, n)
  {
    var c, p := LastCode(bitmap, n, IsCommitCode), LastCode(bitmap, n, IsPatternCode);
    Query(if c.Some? then Some(repo.commitObject(values[c.value]).value) else None,
          if p.Some? then Some(values[p.value]) else None)
  }

  lemma {:induction false} DecodeFromSelected(repo: Repo, bitmap: seq<Byte>, values: seq<string>, n: nat)
    requires n <= |values| && n <= |bitmap| && AllResolve(repo, bitmap, values, 0, n)
    ensures DecodeFrom(repo, bitmap, values, n, Selected(repo, bitmap, values, n)).Success? <==>
      |values| <= |bitmap| && AllResolve(repo, bitmap, values, n, |values|)
    ensures DecodeFrom(repo, bitmap, values, n, Selected(repo, bitmap, values, n)).Success? ==>
      AllResolve(repo, bitmap, values, 0, |values|)
      && DecodeFrom(repo, bitmap, values, n, Selected(repo, bitmap, values, n)).value == Selected(repo, bitmap, values, |values|)
    decreases |values| - n
  {
    if n < |values| && n < |bitmap| {
      var q := Selected(repo, bitmap, values, n);
      if !IsCommitCode(bitmap[n]) || Resolves(repo, values[n]) {
        assert AllResolve(repo, bitmap, values, 0, n + 1);
        var q' := Selected(repo, bitmap, values, n + 1);
        assert DecodeFrom(repo, bitmap, values, n, q) == DecodeFrom(repo, bitmap, values, n + 1, q');
        DecodeFromSelected(repo, bitmap, values, n + 1);
      }
    }
  }

  /**
   * Decoding succeeds exactly when every value has a byte and every commit value is a hash the
   * repository resolves; the query is then the last commit looked up and the last pattern given.
   */
  lemma DecodeCharacterised(repo: Repo, bitmap: seq<Byte>, values: seq<string>)
    ensures Decode(repo, bitmap, values).Success? <==> |values| <= |bitmap| && AllResolve(repo, bitmap, values, 0, |values|)
    ensures Decode(repo, bitmap, values).Success? ==> Decode(repo, bitmap, values).value == Selected(repo, bitmap, values, |values|)
  {
    assert Selected(repo, bitmap, values, 0) == Query(None, None);
    DecodeFromSelected(repo, bitmap, values, 0);
  }

  lemma {:induction false} DecodeFromBadHash(repo: Repo, bitmap: seq<Byte>, values: seq<string>, n: nat, k: nat)
    requires n <= k < |values| && k < |bitmap| && IsCommitCode(bitmap[k]) && !IsHash(values[k])
    requires AllResolve(repo, bitmap, values, 0, k)
    ensures DecodeFrom(repo, bitmap, values, n, Selected(repo, bitmap, values, n)) == Failure(Sqlite(SQLITE_ERROR, "invalid commit hash"))
    decreases k - n
  {
    if n < k {
      assert AllResolve(repo, bitmap, values, 0, n + 1);
      assert DecodeFrom(repo, bitmap, values, n, Selected(repo, bitmap, values, n))
          == DecodeFrom(repo, bitmap, values, n + 1, Selected(repo, bitmap, values, n + 1));
      DecodeFromBadHash(repo, bitmap, values, n + 1, k);
    }
  }

  /** The first commit value that is not a 40-digit hash fails the decoding with "invalid commit hash". */
  lemma InvalidHashFails(repo: Repo, bitmap: seq<Byte>, values: seq<string>, k: nat)
    requires k < |values| && k < |bitmap| && IsCommitCode(bitmap[k]) && !IsHash(values[k])
    requires AllResolve(repo, bitmap, values, 0, k)
    ensures Decode(repo, bitmap, values) == Failure(Sqlite(SQLITE_ERROR, "invalid commit hash"))
  {
    assert Selected(repo, bitmap, values, 0) == Query(None, None);
    DecodeFromBadHash(repo, bitmap, values, 0, k);
  }

  /** With a byte for every value, the only errors decoding can meet are SQLite errors. */
  lemma {:induction false} DecodeFromErrors(repo: Repo, bitmap: seq<Byte>, values: seq<string>, n: nat, q: Query)
    requires n <= |values| <= |bitmap|
    ensures DecodeFrom(repo, bitmap, values, n, q).Failure? ==> DecodeFrom(repo, bitmap, values, n, q).error.Sqlite?
    decreases |values| - n
  {
    if n < |values| {
      if IsCommitCode(bitmap[n]) && Resolves(repo, values[n]) {
        DecodeFromErrors(repo, bitmap, values, n + 1, q.(commit := Some(repo.commitObject(values[n]).value)));
      } else if !IsCommitCode(bitmap[n]) && IsPatternCode(bitmap[n]) {
        DecodeFromErrors(repo, bitmap, values, n + 1, q.(pattern := Some(values[n])));
      } else if !IsCommitCode(bitmap[n]) {
        DecodeFromErrors(repo, bitmap, values, n + 1, q);
      }
    }
  }

  /**
   * For the values SQLite passes to a plan BestIndex made, decoding never indexes past the token,
   * and when it succeeds it has a commit: the nil-commit panic cannot follow from a planned query.
   */
  lemma PlannedQueryHasCommit(input: IndexInput, repo: Repo, values: seq<string>)
    requires FactsPlan(input).Success? && |values| == ArgumentCount(FactsPlan(input).value.usage)
    ensures var d := Decode(repo, FactsPlan(input).value.indexString, values);
      && (d.Failure? ==> d.error.Sqlite?)
      && (d.Success? ==> d.value.commit.Some?)
  {
    var bitmap := FactsPlan(input).value.indexString;
    FactsPlanSound(input, 0);
    DecodeCharacterised(repo, bitmap, values);
    DecodeFromErrors(repo, bitmap, values, 0, Query(None, None));
  }

  /** kyc.Fact: one row of the relation, the fact a scanner found in a file of a commit. */
  datatype Row = Row(commit: Commit, file: File, scanner: string, key: string, value: Value)

  /** The rows a scan appended and the error that ended it, if any. */
  datatype Extraction = Extraction(rows: seq<Row>, err: Option<Error>)

  /** The rows `rows` already appended, followed by what the rest of the scan yields. */
  function Then(rows: seq<Row>, rest: Extraction): Extraction {
    Extraction(rows + rest.rows, rest.err)
  }

  lemma Associative(a: seq<Row>, b: seq<Row>, c: seq<Row>)
    ensures (a + b) + c == a + (b + c)
  {
  }

  lemma ThenThen(rows: seq<Row>, more: seq<Row>, rest: Extraction)
    ensures Then(rows, Then(more, rest)) == Then(rows + more, rest)
  {
    Associative(rows, more, rest.rows);
  }

  /**
   * What Filter consults besides the token and the values: the repository of the working
   * directory (or the error opening it), what a scanner supports and what it finds in a file,
   * doublestar's path matching, and the (name, scanner) pairs in the order `range` visits the
   * registry for the file at each position of the tree.
   */
  datatype Env<!S> = Env(repo: Result<Repo>, supports: (S, File) -> bool, scan: (S, File) -> Scanned,
                        pathMatch: (string, string) -> bool, order: nat -> seq<(string, S)>)

  /** The names of a visit of the registry, in visiting order. */
  function NamesOf<S>(visit: seq<(string, S)>): (names: seq<string>)
    ensures |names| == |visit| && forall i | 0 <= i < |visit| :: names[i] == visit[i].0
  {
    seq(|visit|, i requires 0 <= i < |visit| => visit[i].0)
  }

  /** A visit yields registered names, each paired with the scanner registered under it. */
  ghost predicate VisitWithin<S>(visit: seq<(string, S)>, scanners: map<string, S>) {
    forall i | 0 <= i < |visit| :: visit[i].0 in scanners && scanners[visit[i].0] == visit[i].1
  }

  /** One run of `range` over the registry: every entry exactly once. */
  ghost predicate IsVisit<S>(visit: seq<(string, S)>, scanners: map<string, S>) {
    VisitWithin(visit, scanners) && IsEnumeration(NamesOf(visit), scanners.Keys)
  }

  /** Every file of the walk ranges over the registry `scanners`. */
  ghost predicate OrdersEnumerate<S>(env: Env<S>, scanners: map<string, S>) {
    forall k: nat :: IsVisit(env.order(k), scanners)
  }

  /** The glob function: every file without a pattern, the files whose name matches it otherwise. */
  predicate Selects<S>(env: Env<S>, pattern: Option<string>, file: File) {
    pattern.None? || env.pathMatch(pattern.value, file.name)
  }

  /** The rows of the facts a scanner named `name` found in `file`, in the order it found them. */
  function RowsOf(commit: Commit, file: File, name: string, facts: seq<Fact>): (r: seq<Row>)
    ensures |r| == |facts|
  {
    if facts == [] then []
    else RowsOf(commit, file, name, facts[..|facts| - 1]) + [Row(commit, file, name, facts[|facts| - 1].key, facts[|facts| - 1].value)]
  }

  /** Row k of a scan is fact k, tagged with the commit, the file and the scanner's name. */
  lemma {:induction false} RowsOfContents(commit: Commit, file: File, name: string, facts: seq<Fact>, k: nat)
    requires k < |facts|
    ensures RowsOf(commit, file, name, facts)[k] == Row(commit, file, name, facts[k].key, facts[k].value)
    decreases |facts|
  {
    var n := |facts| - 1;
    if k < n {
      RowsOfContents(commit, file, name, facts[..n], k);
    }
  }

  /**
   * The body of the ForEach callback for one file, over the (name, scanner) pairs of `visit`:
   * every scanner that supports the selected file scans it; the first failing scan ends the
   * callback with its error, and its facts are dropped.
   */
  function FileRows<S>(env: Env<S>, commit: Commit, pattern: Option<string>, file: File, visit: seq<(string, S)>): Extraction
    decreases |visit|
  {
    if visit == [] then Extraction([], None)
    else
      var s := visit[0].1;
      if Selects(env, pattern, file) && env.supports(s, file) then
        var found := env.scan(s, file);
        if found.err.Some? then Extraction([], found.err)
        else Then(RowsOf(commit, file, visit[0].0, found.facts), FileRows(env, commit, pattern, file, visit[1..]))
      else FileRows(env, commit, pattern, file, visit[1..])
  }

  /**
   * ForEach over the first n files of the tree, the file at position i visiting the registry in
   * `env.order(i)`: the first failing callback ends the walk with its error.
   */
  function Walk<S>(env: Env<S>, commit: Commit, pattern: Option<string>, files: seq<File>, n: nat): Extraction
    requires n <= |files|
  {
    if n == 0 then Extraction([], None)
    else
      var before := Walk(env, commit, pattern, files, n - 1);
      if before.err.Some? then before
      else Then(before.rows, FileRows(env, commit, pattern, files[n - 1], env.order(n - 1)))
  }

  /** ForEach over the whole tree: the walk's error if a callback failed, otherwise the iterator's own outcome. */
  function TreeRows<S>(env: Env<S>, commit: Commit, pattern: Option<string>, files: seq<File>, end: Option<Error>): Extraction {
    var walked := Walk(env, commit, pattern, files, |files|);
    if walked.err.Some? then walked else Extraction(walked.rows, end)
  }

  /** Filter, as a whole: the rows appended and the error returned, for the token `bitmap` and the values SQLite passes. */
  function FilterSpec<S>(env: Env<S>, bitmap: seq<Byte>, values: seq<string>): Extraction {
    match env.repo
    case Failure(e) => Extraction([], Some(e))
    case Success(repo) =>
      match Decode(repo, bitmap, values)
      case Failure(e) => Extraction([], Some(e))
      case Success(q) =>
        if q.commit.None? then Extraction([], Some(Panic("nil pointer dereference")))
        else match repo.tree(q.commit.value)
          case Failure(e) => Extraction([], Some(Sqlite(SQLITE_ERROR, e.Text())))
          case Success(listing) => TreeRows(env, q.commit.value, q.pattern, listing.items, listing.end)
  }

  /**
   * Every row of a file's callback is a fact that a scanner of the visit, supporting the
   * selected file, found in it without error, tagged with the commit, the file and the
   * scanner's name.
   */
  lemma {:induction false} FileRowProvenance<S>(env: Env<S>, commit: Commit, pattern: Option<string>,
                                                file: File, visit: seq<(string, S)>, row: Row)
    requires row in FileRows(env, commit, pattern, file, visit).rows
    ensures row.commit == commit && row.file == file && Selects(env, pattern, file)
    ensures exists i :: (0 <= i < |visit| && visit[i].0 == row.scanner && env.supports(visit[i].1, file)
      && env.scan(visit[i].1, file).err.None? && Fact(row.key, row.value) in env.scan(visit[i].1, file).facts)
    decreases |visit|
  {
    var s := visit[0].1;
    if Selects(env, pattern, file) && env.supports(s, file) && env.scan(s, file).err.None? {
      var found := env.scan(s, file).facts;
      var mine := RowsOf(commit, file, visit[0].0, found);
      if row in mine {
        var i :| 0 <= i < |mine| && mine[i] == row;
        RowsOfContents(commit, file, visit[0].0, found, i);
        return;
      }
    }
    FileRowProvenance(env, commit, pattern, file, visit[1..], row);
    var i :| 0 <= i < |visit[1..]| && visit[1..][i].0 == row.scanner && env.supports(visit[1..][i].1, file)
      && env.scan(visit[1..][i].1, file).err.None? && Fact(row.key, row.value) in env.scan(visit[1..][i].1, file).facts;
    assert visit[i + 1] == visit[1..][i];
  }

  /**
   * Every row of the first n callbacks is a fact that a registered scanner supporting a selected
   * file among the first n found in that file, tagged with the scanned commit.
   */
  lemma {:induction false} WalkProvenance<S>(env: Env<S>, scanners: map<string, S>, commit: Commit, pattern: Option<string>,
                                             files: seq<File>, n: nat, row: Row)
    requires OrdersEnumerate(env, scanners)
    requires n <= |files| && row in Walk(env, commit, pattern, files, n).rows
    ensures row.commit == commit && row.file in files[..n] && Selects(env, pattern, row.file) && row.scanner in scanners
    ensures var s := scanners[row.scanner];
      env.supports(s, row.file) && env.scan(s, row.file).err.None? && Fact(row.key, row.value) in env.scan(s, row.file).facts
    decreases n
  {
    var before := Walk(env, commit, pattern, files, n - 1);
    if row in before.rows {
      WalkProvenance(env, scanners, commit, pattern, files, n - 1, row);
      assert files[..n - 1] <= files[..n];
    } else {
      FileRowProvenance(env, commit, pattern, files[n - 1], env.order(n - 1), row);
      assert IsVisit(env.order(n - 1), scanners);
      assert files[..n][n - 1] == files[n - 1];
    }
  }

  /**
   * Every row Filter appends for a tree is a fact that a registered scanner supporting a file of
   * the tree selected by the pattern found in that file, tagged with the scanned commit.
   */
  lemma RowProvenance<S>(env: Env<S>, scanners: map<string, S>, commit: Commit, pattern: Option<string>,
                         files: seq<File>, end: Option<Error>, row: Row)
    requires OrdersEnumerate(env, scanners)
    requires row in TreeRows(env, commit, pattern, files, end).rows
    ensures row.commit == commit && row.file in files && Selects(env, pattern, row.file) && row.scanner in scanners
    ensures var s := scanners[row.scanner];
      env.supports(s, row.file) && env.scan(s, row.file).err.None? && Fact(row.key, row.value) in env.scan(s, row.file).facts
  {
    WalkProvenance(env, scanners, commit, pattern, files, |files|, row);
    assert files[..|files|] == files;
  }

  /** A pattern that selects no file of the tree yields no rows, only the iterator's outcome. */
  lemma NothingSelected<S>(env: Env<S>, scanners: map<string, S>, commit: Commit, pattern: Option<string>,
                           files: seq<File>, end: Option<Error>)
    requires OrdersEnumerate(env, scanners)
    requires forall f | f in files :: !Selects(env, pattern, f)
    ensures TreeRows(env, commit, pattern, files, end).rows == []
  {
    var rows := TreeRows(env, commit, pattern, files, end).rows;
    if rows != [] {
      RowProvenance(env, scanners, commit, pattern, files, end, rows[0]);
    }
  }

  /** A file's callback fails exactly when some scanner of the visit that supports the selected file fails on it. */
  lemma {:induction false} FileRowsSucceed<S>(env: Env<S>, commit: Commit, pattern: Option<string>, file: File, visit: seq<(string, S)>)
    ensures FileRows(env, commit, pattern, file, visit).err.None? <==>
      forall i | 0 <= i < |visit| :: Selects(env, pattern, file) && env.supports(visit[i].1, file) ==> env.scan(visit[i].1, file).err.None?
    decreases |visit|
  {
    if visit != [] {
      FileRowsSucceed(env, commit, pattern, file, visit[1..]);
      assert forall i | 1 <= i < |visit| :: visit[i] == visit[1..][i - 1];
    }
  }

  /** Every registered scanner that supports the file, when the pattern selects it, scans it without error. */
  ghost predicate ScansSucceed<S>(env: Env<S>, scanners: map<string, S>, pattern: Option<string>, file: File) {
    forall name | name in scanners :: Selects(env, pattern, file) && env.supports(scanners[name], file) ==> env.scan(scanners[name], file).err.None?
  }

  /** Through a visit of the registry, a file's callback fails exactly when a registered scanner supporting it fails. */
  lemma FileSucceeds<S>(env: Env<S>, scanners: map<string, S>, commit: Commit, pattern: Option<string>, file: File, visit: seq<(string, S)>)
    requires IsVisit(visit, scanners)
    ensures FileRows(env, commit, pattern, file, visit).err.None? <==> ScansSucceed(env, scanners, pattern, file)
  {
    FileRowsSucceed(env, commit, pattern, file, visit);
    forall name | name in scanners ensures exists i :: 0 <= i < |visit| && visit[i] == (name, scanners[name]) {
      var i :| 0 <= i < |visit| && NamesOf(visit)[i] == name;
      assert visit[i] == (name, scanners[name]);
    }
  }

  /** The first n callbacks succeed exactly when the callback of each of the first n files succeeds. */
  lemma {:induction false} WalkSucceeds<S>(env: Env<S>, commit: Commit, pattern: Option<string>, files: seq<File>, n: nat)
    requires n <= |files|
    ensures Walk(env, commit, pattern, files, n).err.None? <==>
      forall i | 0 <= i < n :: FileRows(env, commit, pattern, files[i], env.order(i)).err.None?
    decreases n
  {
    if n > 0 {
      WalkSucceeds(env, commit, pattern, files, n - 1);
    }
  }

  /**
   * Filter's walk over a tree ends without error exactly when the iterator ended cleanly and
   * every scan of a selected file by a registered scanner that supports it succeeded.
   */
  lemma TreeRowsSucceed<S>(env: Env<S>, scanners: map<string, S>, commit: Commit, pattern: Option<string>,
                           files: seq<File>, end: Option<Error>)
    requires OrdersEnumerate(env, scanners)
    ensures TreeRows(env, commit, pattern, files, end).err.None? <==>
      end.None? && forall i | 0 <= i < |files| :: ScansSucceed(env, scanners, pattern, files[i])
  {
    WalkSucceeds(env, commit, pattern, files, |files|);
    forall i | 0 <= i < |files|
      ensures FileRows(env, commit, pattern, files[i], env.order(i)).err.None? <==> ScansSucceed(env, scanners, pattern, files[i])
    {
      FileSucceeds(env, scanners, commit, pattern, files[i], env.order(i));
    }
  }

  /** Without an error, a file's callback appends a row for every fact of every scanner of the visit that supports the selected file. */
  lemma {:induction false} FileRowsComplete<S>(env: Env<S>, commit: Commit, pattern: Option<string>,
                                               file: File, visit: seq<(string, S)>, i: nat, fact: Fact)
    requires FileRows(env, commit, pattern, file, visit).err.None?
    requires i < |visit| && Selects(env, pattern, file) && env.supports(visit[i].1, file)
    requires fact in env.scan(visit[i].1, file).facts
    ensures Row(commit, file, visit[i].0, fact.key, fact.value) in FileRows(env, commit, pattern, file, visit).rows
    decreases |visit|
  {
    if i == 0 {
      var found := env.scan(visit[0].1, file).facts;
      var j :| 0 <= j < |found| && found[j] == fact;
      RowsOfContents(commit, file, visit[0].0, found, j);
    } else {
      assert visit[1..][i - 1] == visit[i];
      FileRowsComplete(env, commit, pattern, file, visit[1..], i - 1, fact);
    }
  }

  /** A failed walk stays failed, with the same rows: no later file is visited. */
  lemma {:induction false} WalkStops<S>(env: Env<S>, commit: Commit, pattern: Option<string>, files: seq<File>, i: nat, n: nat)
    requires i <= n <= |files| && Walk(env, commit, pattern, files, i).err.Some?
    ensures Walk(env, commit, pattern, files, n) == Walk(env, commit, pattern, files, i)
    decreases n
  {
    if i < n {
      WalkStops(env, commit, pattern, files, i, n - 1);
    }
  }

  /** A walk that ends without error got through each of its prefixes without error. */
  lemma {:induction false} WalkPrefixSucceeds<S>(env: Env<S>, commit: Commit, pattern: Option<string>, files: seq<File>, i: nat, n: nat)
    requires i <= n <= |files| && Walk(env, commit, pattern, files, n).err.None?
    ensures Walk(env, commit, pattern, files, i).err.None?
    decreases n
  {
    if i < n {
      WalkPrefixSucceeds(env, commit, pattern, files, i, n - 1);
    }
  }

  /** A walk that ends without error keeps every row of its first callbacks. */
  lemma {:induction false} WalkKeeps<S>(env: Env<S>, commit: Commit, pattern: Option<string>, files: seq<File>, i: nat, n: nat, row: Row)
    requires i <= n <= |files| && Walk(env, commit, pattern, files, n).err.None?
    requires row in Walk(env, commit, pattern, files, i).rows
    ensures row in Walk(env, commit, pattern, files, n).rows
    decreases n
  {
    if i < n {
      WalkKeeps(env, commit, pattern, files, i, n - 1, row);
    }
  }

  /** Without an error, the walk keeps a row for every fact of every scanner of a visit that supports the selected file. */
  lemma WalkComplete<S>(env: Env<S>, commit: Commit, pattern: Option<string>, files: seq<File>, n: nat, i: nat, j: nat, fact: Fact)
    requires i < n <= |files| && Walk(env, commit, pattern, files, n).err.None?
    requires j < |env.order(i)| && Selects(env, pattern, files[i]) && env.supports(env.order(i)[j].1, files[i])
    requires fact in env.scan(env.order(i)[j].1, files[i]).facts
    ensures Row(commit, files[i], env.order(i)[j].0, fact.key, fact.value) in Walk(env, commit, pattern, files, n).rows
  {
    WalkPrefixSucceeds(env, commit, pattern, files, i + 1, n);
    FileRowsComplete(env, commit, pattern, files[i], env.order(i), j, fact);
    WalkKeeps(env, commit, pattern, files, i + 1, n, Row(commit, files[i], env.order(i)[j].0, fact.key, fact.value));
  }

  /**
   * Without an error, Filter appends a row for every fact of every registered scanner that
   * supports a file of the tree selected by the pattern: no supported file and no scanner is missed.
   */
  lemma RowsComplete<S>(env: Env<S>, scanners: map<string, S>, commit: Commit, pattern: Option<string>,
                        files: seq<File>, end: Option<Error>, i: nat, name: string, fact: Fact)
    requires OrdersEnumerate(env, scanners)
    requires TreeRows(env, commit, pattern, files, end).err.None?
    requires i < |files| && name in scanners && Selects(env, pattern, files[i]) && env.supports(scanners[name], files[i])
    requires fact in env.scan(scanners[name], files[i]).facts
    ensures Row(commit, files[i], name, fact.key, fact.value) in TreeRows(env, commit, pattern, files, end).rows
  {
    var visit := env.order(i);
    assert IsVisit(visit, scanners);
    var j :| 0 <= j < |visit| && NamesOf(visit)[j] == name;
    WalkComplete(env, commit, pattern, files, |files|, i, j, fact);
  }

  /** One scanner of a file's callback: its rows or its error, then the rest of the callback. */
  lemma FileRowsStep<S>(env: Env<S>, commit: Commit, pattern: Option<string>, file: File, visit: seq<(string, S)>, j: nat)
    requires j < |visit|
    ensures var s := visit[j].1;
      var rest := FileRows(env, commit, pattern, file, visit[j + 1..]);
      FileRows(env, commit, pattern, file, visit[j..]) ==
        if !(Selects(env, pattern, file) && env.supports(s, file)) then rest
        else if env.scan(s, file).err.Some? then Extraction([], env.scan(s, file).err)
        else Then(RowsOf(commit, file, visit[j].0, env.scan(s, file).facts), rest)
  {
    assert visit[j..][0] == visit[j] && visit[j..][1..] == visit[j + 1..];
  }

  /** FactCursor: the rows of the scans so far and the position of the row SQLite reads next. */
  class FactCursor {
    var pos: nat
    var facts: seq<Row>

    /** FactTable.Open: a cursor with no rows. */
    constructor ()
      ensures pos == 0 && facts == []
    {
      pos := 0;
      facts := [];
    }

    /** The rows SQLite has still to read. */
    ghost function Remaining(): seq<Row>
      reads this
    {
      if pos <= |facts| then facts[pos..] else []
    }

    /** The innermost loop of the callback: one row per fact a scanner found. */
    method AppendRows(commit: Commit, file: File, name: string, found: seq<Fact>)
      modifies this
      ensures pos == old(pos) && facts == old(facts) + RowsOf(commit, file, name, found)
    {
      for i := 0 to |found|
        invariant pos == old(pos) && facts == old(facts) + RowsOf(commit, file, name, found[..i])
      {
        var row := Row(commit, file, name, found[i].key, found[i].value);
        assert found[..i + 1][..i] == found[..i];
        facts := facts + [row];
      }
      assert found[..|found|] == found;
    }

    /** The ForEach callback for one file, ranging over the (name, scanner) pairs of `visit`. */
    method ScanFile<S>(env: Env<S>, commit: Commit, pattern: Option<string>, file: File, visit: seq<(string, S)>)
      returns (err: Option<Error>)
      modifies this
      ensures pos == old(pos)
      ensures facts == old(facts) + FileRows(env, commit, pattern, file, visit).rows
      ensures err == FileRows(env, commit, pattern, file, visit).err
    {
      ghost var done: seq<Row> := [];
      var j := 0;
      while j < |visit|
        invariant 0 <= j <= |visit|
        invariant pos == old(pos) && facts == old(facts) + done
        invariant FileRows(env, commit, pattern, file, visit) == Then(done, FileRows(env, commit, pattern, file, visit[j..]))
      {
        FileRowsStep(env, commit, pattern, file, visit, j);
        var (name, scn) := visit[j];
        if Selects(env, pattern, file) && env.supports(scn, file) {
          var found := env.scan(scn, file);
          if found.err.Some? {
            return found.err;
          }
          AppendRows(commit, file, name, found.facts);
          ThenThen(done, RowsOf(commit, file, name, found.facts), FileRows(env, commit, pattern, file, visit[j + 1..]));
          Associative(old(facts), done, RowsOf(commit, file, name, found.facts));
          done := done + RowsOf(commit, file, name, found.facts);
        }
        j := j + 1;
      }
      assert visit[j..] == [];
      return None;
    }

    /** The decoding loop of Filter: the query the values select, or the error that stops it. */
    static method DecodeValues(repo: Repo, bitmap: seq<Byte>, values: seq<string>) returns (r: Result<Query>)
      ensures r == Decode(repo, bitmap, values)
    {
      var commit: Option<Commit> := None;
      var pattern: Option<string> := None;
      var n := 0;
      while n < |values|
        invariant 0 <= n <= |values|
        invariant Decode(repo, bitmap, values) == DecodeFrom(repo, bitmap, values, n, Query(commit, pattern))
      {
        if n >= |bitmap| {
          return Failure(Panic("index out of range"));
        }
        var op, col := OpOf(bitmap[n]), ColumnOf(bitmap[n]);
        if col == 0 && op == OpEqual {
          if !IsHash(values[n]) {
            return Failure(Sqlite(SQLITE_ERROR, "invalid commit hash"));
          }
          var found := repo.commitObject(values[n]);
          if found.Failure? {
            return Failure(Sqlite(SQLITE_ERROR, found.error.Text()));
          }
          commit := Some(found.value);
        } else if col == 1 && (op == OpEqual || op == OpGlob) {
          pattern := Some(values[n]);
        }
        n := n + 1;
      }
      r := Success(Query(commit, pattern));
    }

    /** The ForEach walk of Filter over the files of the commit's tree. */
    method ScanTree<S>(env: Env<S>, commit: Commit, pattern: Option<string>, listing: Listing<File>) returns (err: Option<Error>)
      modifies this
      ensures pos == old(pos)
      ensures facts == old(facts) + TreeRows(env, commit, pattern, listing.items, listing.end).rows
      ensures err == TreeRows(env, commit, pattern, listing.items, listing.end).err
    {
      var files := listing.items;
      var i := 0;
      while i < |files|
        invariant 0 <= i <= |files|
        invariant pos == old(pos) && facts == old(facts) + Walk(env, commit, pattern, files, i).rows
        invariant Walk(env, commit, pattern, files, i).err.None?
      {
        var e := ScanFile(env, commit, pattern, files[i], env.order(i));
        Associative(old(facts), Walk(env, commit, pattern, files, i).rows, FileRows(env, commit, pattern, files[i], env.order(i)).rows);
        if e.Some? {
          WalkStops(env, commit, pattern, files, i + 1, |files|);
          return e;
        }
        i := i + 1;
      }
      return listing.end;
    }

    /**
     * Filter: reads the token against the values, looks the commit up, and appends the rows of
     * every scan of the commit's tree to the rows already held; the position is left where it was.
     */
    method Filter<S>(registry: Registry<S>, env: Env<S>, bitmap: seq<Byte>, values: seq<string>) returns (err: Option<Error>)
      requires registry.Valid() && OrdersEnumerate(env, registry.scanners)
      modifies this
      ensures pos == old(pos)
      ensures facts == old(facts) + FilterSpec(env, bitmap, values).rows
      ensures err == FilterSpec(env, bitmap, values).err
    {
      if env.repo.Failure? {
        return Some(env.repo.error);
      }
      var repo := env.repo.value;
      var query := DecodeValues(repo, bitmap, values);
      if query.Failure? {
        return Some(query.error);
      }
      var commit, pattern := query.value.commit, query.value.pattern;
      if commit.None? {
        return Some(Panic("nil pointer dereference"));
      }
      var tree := repo.tree(commit.value);
      if tree.Failure? {
        return Some(Sqlite(SQLITE_ERROR, tree.error.Text()));
      }
      err := ScanTree(env, commit.value, pattern, tree.value);
    }

    /** Next: moves to the following row, consuming the current one. */
    method Next() returns (err: Option<Error>)
      modifies this
      ensures pos == old(pos) + 1 && facts == old(facts) && err == None
      ensures old(Remaining()) != [] ==> Remaining() == old(Remaining())[1..]
    {
      pos := pos + 1;
      err := None;
    }

    /** Rowid: the position of the current row among the rows held. */
    method Rowid() returns (id: int, err: Option<Error>)
      ensures id == pos && err == None
    {
      return pos, None;
    }

    /** Eof: the scan is over when no row remains to be read. */
    function Eof(): (over: bool)
      reads this
      ensures over <==> Remaining() == []
    {
      pos >= |facts|
    }

    /** Close: nothing to release. */
    method Close() returns (err: Option<Error>)
      ensures err == None
    {
      return None;
    }
  }
}
