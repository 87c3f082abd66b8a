/**
 * The commits(...) table-valued function (commits.go): planning a query over the commit history
 * of the repository in the working directory, decoding the values SQLite passes back, and a
 * cursor that walks either one looked-up commit or the history from HEAD.
 */
module Commits {
  import opened Wrappers
  import opened Git
  import opened Sqlite
  import opened Pushdown

  /** Column indexes of the commits schema. */
  const ColumnHash: int := 0
  const ColumnMessage: int := 1
  const ColumnAuthorName: int := 2
  const ColumnAuthorEmail: int := 3
  const ColumnAuthorWhen: int := 4
  const ColumnParents: int := 5

  const InvalidHash: string := "invalid commit hash"
  const InvalidTime: string := "invalid time format"
  const HeadUnresolved: string := "failed to resolve head"
  const LogUnavailable: string := "failed to create iterator"

  // ---------------------------------------------------------------------------------------------
  // Planning
  // ---------------------------------------------------------------------------------------------

  /** `hash = ?` on a usable constraint: the one constraint that picks a single commit. */
  predicate PinsHash(c: Constraint) {
    c.column == ColumnHash && c.op == Eq && c.usable
  }

  /**
   * The byte BestIndex records for a constraint, as written: hash equality when usable, and
   * author_when `<=` or `>=` whether usable or not.
   */
  function WrittenVerdict(c: Constraint): Verdict {
    if PinsHash(c) then Accept(Pack(OpEqual, 0), false)
    else if c.column == ColumnAuthorWhen && c.op == Le then Accept(Pack(OpLte, 4), true)
    else if c.column == ColumnAuthorWhen && c.op == Ge then Accept(Pack(OpGte, 4), true)
    else Skip
  }

  /**
   * The usage BestIndex records for a constraint, as written: slot 0 (the `argv` it never
   * advances) for a pinned hash, and slot 0 with omit for every author_when constraint.
   */
  function WrittenUsage(c: Constraint): Option<Usage> {
    if PinsHash(c) then Some(Usage(0, false))
    else if c.column == ColumnAuthorWhen then Some(Usage(0, true))
    else None
  }

  /** The constraints pin a single commit. */
  predicate Unique(cs: seq<Constraint>) {
    exists i | 0 <= i < |cs| :: PinsHash(cs[i])
  }

  /** SQLite may skip its sort when the only ORDER BY term is author_when descending. */
  predicate OrderConsumed(orderBy: seq<OrderBy>) {
    |orderBy| == 1 && orderBy[0].column == ColumnAuthorWhen && orderBy[0].desc
  }

  /** The plan BestIndex returns, as written; it never fails. */
  function WrittenPlan(input: IndexInput): IndexOutput {
    var cs := input.constraints;
    var unique := Unique(cs);
    IndexOutput(seq(|cs|, i requires 0 <= i < |cs| => WrittenUsage(cs[i])), Codes(cs, WrittenVerdict),
                if unique then 1.0 else 0.0, if unique then 1 else 0, unique, OrderConsumed(input.orderBy))
  }

  /**
   * BestIndex: one pass over the constraints recording usages and token bytes, then the ORDER BY
   * check.
   */
  method BestIndex(input: IndexInput) returns (r: IndexOutput)
    ensures r == WrittenPlan(input)
  {
    var cs := input.constraints;
    var argv := 0;
    var bitmap: seq<Byte> := [];
    var usage: seq<Option<Usage>> := seq(|cs|, _ => None);
    var cost, rows, unique := 0.0, 0, false;
    for i := 0 to |cs|
      invariant |usage| == |cs| && argv == 0
      invariant forall k | 0 <= k < i :: usage[k] == WrittenUsage(cs[k])
      invariant forall k | i <= k < |cs| :: usage[k] == None
      invariant bitmap == Codes(cs[..i], WrittenVerdict)
      invariant unique == (exists k | 0 <= k < i :: PinsHash(cs[k]))
      invariant cost == (if unique then 1.0 else 0.0) && rows == (if unique then 1 else 0)
    {
      JudgeStep(cs, WrittenVerdict, i);
      var cons := cs[i];
      if cons.column == ColumnHash {
        if cons.op == Eq && cons.usable {
          bitmap := bitmap + [Pack(OpEqual, 0)];
          usage := usage[i := Some(Usage(argv, false))];
          cost, rows := 1.0, 1;
          unique := true;
        }
      } else if cons.column == ColumnAuthorWhen {
        usage := usage[i := Some(Usage(argv, true))];
        if cons.op == Le {
          bitmap := bitmap + [Pack(OpLte, 4)];
        } else if cons.op == Ge {
          bitmap := bitmap + [Pack(OpGte, 4)];
        }
      }
    }
    assert cs[..|cs|] == cs;
    r := IndexOutput(usage, bitmap, cost, rows, unique, OrderConsumed(input.orderBy));
  }

  /**
   * As written, no usage gets an argument slot, so SQLite passes Filter no values at all,
   * whatever constraints the query has; the token still holds a byte per pushed constraint.
   */
  lemma WrittenPassesNoValues(input: IndexInput)
    ensures ArgumentCount(WrittenPlan(input).usage) == 0
  {
    NoSlotsNoArguments(WrittenPlan(input).usage);
  }

  /** `WHERE hash = ?`: a one-byte token, no value to read it against, and a unique scan promised. */
  lemma WrittenHashUnread()
    ensures var plan := WrittenPlan(IndexInput([Constraint(ColumnHash, Eq, true)], []));
      && plan.indexString == [Pack(OpEqual, 0)]
      && ArgumentCount(plan.usage) == 0
      && plan.uniqueScan
  {
    var cs := [Constraint(ColumnHash, Eq, true)];
    JudgeStep(cs, WrittenVerdict, 0);
    assert cs[..1] == cs;
    WrittenPassesNoValues(IndexInput(cs, []));
  }

  /** `WHERE author_when < ?`: the constraint is marked omitted although nothing is pushed for it. */
  lemma WrittenOmitsUnpushed()
    ensures var plan := WrittenPlan(IndexInput([Constraint(ColumnAuthorWhen, Lt, true)], []));
      && plan.usage == [Some(Usage(0, true))]
      && plan.indexString == []
  {
    var cs := [Constraint(ColumnAuthorWhen, Lt, true)];
    JudgeStep(cs, WrittenVerdict, 0);
    assert cs[..1] == cs;
  }

  /**
   * The judge BestIndex evidently means: a usable hash equality, and a usable author_when
   * `<=` or `>=` (the only bounds Filter reads), each omitted only when it is pushed.
   */
  function IntendedVerdict(c: Constraint): Verdict {
    if PinsHash(c) then Accept(Pack(OpEqual, 0), false)
    else if c.column == ColumnAuthorWhen && c.op == Le && c.usable then Accept(Pack(OpLte, 4), true)
    else if c.column == ColumnAuthorWhen && c.op == Ge && c.usable then Accept(Pack(OpGte, 4), true)
    else Skip
  }

  /** The plan with a fresh argument slot (1, 2, 3, ...) for every constraint that gets a byte. */
  function IntendedPlan(input: IndexInput): IndexOutput {
    var cs := input.constraints;
    var unique := Unique(cs);
    IndexOutput(Usages(cs, IntendedVerdict), Codes(cs, IntendedVerdict),
                if unique then 1.0 else 0.0, if unique then 1 else 0, unique, OrderConsumed(input.orderBy))
  }

  /**
   * The intended plan passes one value per token byte, byte k describing the value of slot k + 1,
   * and omits exactly the constraints it pushes.
   */
  lemma IntendedPlanAligned(input: IndexInput, i: nat)
    requires i < |input.constraints|
    ensures ArgumentCount(IntendedPlan(input).usage) == |IntendedPlan(input).indexString|
    ensures var c := input.constraints[i];
      match IntendedPlan(input).usage[i]
      case None => !IntendedVerdict(c).Accept?
      case Some(u) =>
        && IntendedVerdict(c).Accept?
        && 1 <= u.argvIndex <= |IntendedPlan(input).indexString|
        && IntendedPlan(input).indexString[u.argvIndex - 1] == IntendedVerdict(c).code
        && (u.omit <==> c.column == ColumnAuthorWhen)
  {
    var cs := input.constraints;
    ArgumentCountIsTokenLength(cs, IntendedVerdict);
    if IntendedVerdict(cs[i]).Accept? {
      ArgvAligned(cs, IntendedVerdict, i);
    }
  }

  // ---------------------------------------------------------------------------------------------
  // Decoding the values
  // ---------------------------------------------------------------------------------------------

  predicate IsHashCode(b: Byte) {
    ColumnOf(b) == 0 && OpOf(b) == OpEqual
  }

  predicate IsUntilCode(b: Byte) {
    ColumnOf(b) == 4 && OpOf(b) == OpLte
  }

  predicate IsSinceCode(b: Byte) {
    ColumnOf(b) == 4 && OpOf(b) == OpGte
  }

  /** git.LogOptions, restricted to the author_when bounds Filter sets. */
  datatype LogOptions = LogOptions(since: Option<Time>, until: Option<Time>)

  /** What the values select: one commit by hash, or the history from HEAD within the bounds. */
  datatype Selection = Lookup(hash: string) | History(opts: LogOptions)

  /**
   * The decoding loop of Filter from value n on, with the bounds set so far, `parse` standing for
   * time.Parse with RFC 3339: a hash byte needs a 40-digit hash and ends the loop with a lookup;
   * an author_when `<=` or `>=` byte needs a parsable time and replaces that bound; any other
   * byte is passed over. A value without a byte indexes past the end of the token.
   */
  function DecodeFrom(parse: string -> Option<Time>, bitmap: seq<Byte>, values: seq<string>, n: nat, opts: LogOptions): Result<Selection>
    requires n <= |values|
    decreases |values| - n
  {
    if n == |values| then Success(History(opts))
    else if n >= |bitmap| then Failure(Panic("index out of range"))
    else if IsHashCode(bitmap[n]) then
      if IsHash(values[n]) then Success(Lookup(values[n])) else Failure(Sqlite(SQLITE_ERROR, InvalidHash))
    else if IsUntilCode(bitmap[n]) || IsSinceCode(bitmap[n]) then
      match parse(values[n])
      case None => Failure(Sqlite(SQLITE_ERROR, InvalidTime))
      case Some(t) =>
        DecodeFrom(parse, bitmap, values, n + 1, if IsUntilCode(bitmap[n]) then opts.(until := Some(t)) else opts.(since := Some(t)))
    else DecodeFrom(parse, bitmap, values, n + 1, opts)
  }

  /** The selection of all the values, starting from unbounded history. */
  function Decode(parse: string -> Option<Time>, bitmap: seq<Byte>, values: seq<string>): Result<Selection> {
    DecodeFrom(parse, bitmap, values, 0, LogOptions(None, None))
  }

  /** Every value in [from, to) has a byte, none of them is a hash byte, and every bound among them parses. */
  predicate BoundsOnly(parse: string -> Option<Time>, bitmap: seq<Byte>, values: seq<string>, from: nat, to: nat)
    requires to <= |values| && to <= |bitmap|
  {
    forall k | from <= k < to ::
      && !IsHashCode(bitmap[k])
      && ((IsUntilCode(bitmap[k]) || IsSinceCode(bitmap[k])) ==> parse(values[k]).Some?)
  }

  /** The bounds the first n values set: each is the last value given for it. */
  function Bounds(parse: string -> Option<Time>, bitmap: seq<Byte>, values: seq<string>, n: nat): LogOptions
    requires n <= |values| && n <= |bitmap| && BoundsOnly(parse, bitmap, values, 0, n)
  {
    var s, u := LastCode(bitmap, n, IsSinceCode), LastCode(bitmap, n, IsUntilCode);
    LogOptions(if s.Some? then parse(values[s.value]) else None, if u.Some? then parse(values[u.value]) else None)
  }

  lemma {:induction false} DecodeFromBounds(parse: string -> Option<Time>, bitmap: seq<Byte>, values: seq<string>, n: nat)
    requires n <= |values| && n <= |bitmap| && BoundsOnly(parse, bitmap, values, 0, n)
    ensures var d := DecodeFrom(parse, bitmap, values, n, Bounds(parse, bitmap, values, n));
      && (d.Success? && d.value.History? <==> |values| <= |bitmap| && BoundsOnly(parse, bitmap, values, n, |values|))
      && (d.Success? && d.value.History? ==>
            BoundsOnly(parse, bitmap, values, 0, |values|) && d.value.opts == Bounds(parse, bitmap, values, |values|))
    decreases |values| - n
  {
    if n < |values| && n < |bitmap| {
      var b := bitmap[n];
      if !IsHashCode(b) && ((IsUntilCode(b) || IsSinceCode(b)) ==> parse(values[n]).Some?) {
        assert BoundsOnly(parse, bitmap, values, 0, n + 1);
        assert DecodeFrom(parse, bitmap, values, n, Bounds(parse, bitmap, values, n))
            == DecodeFrom(parse, bitmap, values, n + 1, Bounds(parse, bitmap, values, n + 1));
        DecodeFromBounds(parse, bitmap, values, n + 1);
      }
    }
  }

  /**
   * Decoding yields the history exactly when every value has a byte, none is a hash byte and
   * every bound parses; the bounds are then the last `<=` and the last `>=` values given.
   */
  lemma DecodeHistory(parse: string -> Option<Time>, bitmap: seq<Byte>, values: seq<string>)
    ensures var d := Decode(parse, bitmap, values);
      && (d.Success? && d.value.History? <==> |values| <= |bitmap| && BoundsOnly(parse, bitmap, values, 0, |values|))
      && (d.Success? && d.value.History? ==> d.value.opts == Bounds(parse, bitmap, values, |values|))
  {
    assert Bounds(parse, bitmap, values, 0) == LogOptions(None, None);
    DecodeFromBounds(parse, bitmap, values, 0);
  }

  lemma {:induction false} DecodeFromLookup(parse: string -> Option<Time>, bitmap: seq<Byte>, values: seq<string>, n: nat, k: nat, opts: LogOptions)
    requires n <= k < |values| && k < |bitmap| && IsHashCode(bitmap[k]) && IsHash(values[k])
    requires BoundsOnly(parse, bitmap, values, n, k)
    ensures DecodeFrom(parse, bitmap, values, n, opts) == Success(Lookup(values[k]))
    decreases k - n
  {
    if n < k {
      var b := bitmap[n];
      var next := if IsUntilCode(b) || IsSinceCode(b) then
        (if IsUntilCode(b) then opts.(until := parse(values[n])) else opts.(since := parse(values[n])))
        else opts;
      DecodeFromLookup(parse, bitmap, values, n + 1, k, next);
    }
  }

  /**
   * The first hash value ends the decoding with a lookup of that hash when it is well formed,
   * whatever the bounds before it and whatever values and bytes follow it.
   */
  lemma DecodeLookup(parse: string -> Option<Time>, bitmap: seq<Byte>, values: seq<string>, k: nat)
    requires k < |values| && k < |bitmap| && IsHashCode(bitmap[k]) && IsHash(values[k])
    requires BoundsOnly(parse, bitmap, values, 0, k)
    ensures Decode(parse, bitmap, values) == Success(Lookup(values[k]))
  {
    DecodeFromLookup(parse, bitmap, values, 0, k, LogOptions(None, None));
  }

  /**
   * A malformed value under the first hash byte ends the decoding with "invalid commit hash",
   * whatever the bounds before it and whatever follows it.
   */
  lemma {:induction false} DecodeFromInvalidHash(parse: string -> Option<Time>, bitmap: seq<Byte>, values: seq<string>, n: nat, k: nat, opts: LogOptions)
    requires n <= k < |values| && k < |bitmap| && IsHashCode(bitmap[k]) && !IsHash(values[k])
    requires BoundsOnly(parse, bitmap, values, n, k)
    ensures DecodeFrom(parse, bitmap, values, n, opts) == Failure(Sqlite(SQLITE_ERROR, InvalidHash))
    decreases k - n
  {
    if n < k {
      var b := bitmap[n];
      var next := if IsUntilCode(b) || IsSinceCode(b) then
        (if IsUntilCode(b) then opts.(until := parse(values[n])) else opts.(since := parse(values[n])))
        else opts;
      DecodeFromInvalidHash(parse, bitmap, values, n + 1, k, next);
    }
  }

  /**
   * The first bound whose text does not parse as an RFC 3339 time ends the decoding with
   * "invalid time format", when no hash byte comes before it.
   */
  lemma {:induction false} DecodeFromInvalidTime(parse: string -> Option<Time>, bitmap: seq<Byte>, values: seq<string>, n: nat, k: nat, opts: LogOptions)
    requires n <= k < |values| && k < |bitmap| && (IsUntilCode(bitmap[k]) || IsSinceCode(bitmap[k]))
    requires parse(values[k]).None?
    requires BoundsOnly(parse, bitmap, values, n, k)
    ensures DecodeFrom(parse, bitmap, values, n, opts) == Failure(Sqlite(SQLITE_ERROR, InvalidTime))
    decreases k - n
  {
    if n < k {
      var b := bitmap[n];
      var next := if IsUntilCode(b) || IsSinceCode(b) then
        (if IsUntilCode(b) then opts.(until := parse(values[n])) else opts.(since := parse(values[n])))
        else opts;
      DecodeFromInvalidTime(parse, bitmap, values, n + 1, k, next);
    }
  }

  /**
   * Which input raises which error: the first value that is not a plain bound decides. A
   * malformed hash fails with "invalid commit hash", and an unparsable bound before any hash
   * fails with "invalid time format".
   */
  lemma DecodeErrors(parse: string -> Option<Time>, bitmap: seq<Byte>, values: seq<string>, k: nat)
    requires k < |values| && k < |bitmap| && BoundsOnly(parse, bitmap, values, 0, k)
    ensures IsHashCode(bitmap[k]) && !IsHash(values[k]) ==>
      Decode(parse, bitmap, values) == Failure(Sqlite(SQLITE_ERROR, InvalidHash))
    ensures (IsUntilCode(bitmap[k]) || IsSinceCode(bitmap[k])) && parse(values[k]).None? ==>
      Decode(parse, bitmap, values) == Failure(Sqlite(SQLITE_ERROR, InvalidTime))
  {
    if IsHashCode(bitmap[k]) && !IsHash(values[k]) {
      DecodeFromInvalidHash(parse, bitmap, values, 0, k, LogOptions(None, None));
    }
    if (IsUntilCode(bitmap[k]) || IsSinceCode(bitmap[k])) && parse(values[k]).None? {
      DecodeFromInvalidTime(parse, bitmap, values, 0, k, LogOptions(None, None));
    }
  }

  /** With a byte for every value, decoding fails only with a SQLite error. */
  lemma {:induction false} DecodeFromErrors(parse: string -> Option<Time>, bitmap: seq<Byte>, values: seq<string>, n: nat, opts: LogOptions)
    requires n <= |values| <= |bitmap|
    ensures var d := DecodeFrom(parse, bitmap, values, n, opts);
      d.Failure? ==> d.error == Sqlite(SQLITE_ERROR, InvalidHash) || d.error == Sqlite(SQLITE_ERROR, InvalidTime)
    decreases |values| - n
  {
    if n < |values| && !IsHashCode(bitmap[n]) {
      var b := bitmap[n];
      if !(IsUntilCode(b) || IsSinceCode(b)) {
        DecodeFromErrors(parse, bitmap, values, n + 1, opts);
      } else if parse(values[n]).Some? {
        var t := parse(values[n]).value;
        DecodeFromErrors(parse, bitmap, values, n + 1, if IsUntilCode(b) then opts.(until := Some(t)) else opts.(since := Some(t)));
      }
    }
  }

  /** As written, Filter receives no values, so it always walks the whole history from HEAD, unbounded. */
  lemma WrittenFilterUnconstrained(input: IndexInput, parse: string -> Option<Time>, values: seq<string>)
    requires |values| == ArgumentCount(WrittenPlan(input).usage)
    ensures Decode(parse, WrittenPlan(input).indexString, values) == Success(History(LogOptions(None, None)))
  {
    WrittenPassesNoValues(input);
  }

  /** For the values of an intended plan, decoding never indexes past the token. */
  lemma IntendedNeverPanics(input: IndexInput, parse: string -> Option<Time>, values: seq<string>)
    requires |values| == ArgumentCount(IntendedPlan(input).usage)
    ensures var d := Decode(parse, IntendedPlan(input).indexString, values);
      d.Failure? ==> d.error == Sqlite(SQLITE_ERROR, InvalidHash) || d.error == Sqlite(SQLITE_ERROR, InvalidTime)
  {
    ArgumentCountIsTokenLength(input.constraints, IntendedVerdict);
    DecodeFromErrors(parse, IntendedPlan(input).indexString, values, 0, LogOptions(None, None));
  }

  // ---------------------------------------------------------------------------------------------
  // Execution
  // ---------------------------------------------------------------------------------------------

  /**
   * The repository of the working directory, as far as Filter reads it: the one step an iterator
   * over a single looked-up hash yields (the commit, ErrObjectNotFound, or another error), HEAD's
   * hash, and the steps of `repo.Log` from a hash within bounds (or the error creating it).
   */
  datatype CommitsRepo = CommitsRepo(lookup: string -> Step<Commit>, head: Result<string>,
                                     log: (string, LogOptions) -> Result<seq<Step<Commit>>>)

  /** What Filter consults: the repository (or the error opening it) and time.Parse. */
  datatype CommitsEnv = CommitsEnv(repo: Result<CommitsRepo>, parse: string -> Option<Time>)

  /**
   * How Filter ends: an error before any iterator is made (the cursor keeps its iterator), the
   * error of `repo.Log` (the cursor's iterator becomes nil), or a new iterator over `steps`.
   */
  datatype Start = Kept(err: Error) | Cleared(err: Error) | Started(steps: seq<Step<Commit>>)

  function FilterSpec(env: CommitsEnv, bitmap: seq<Byte>, values: seq<string>): Start {
    match env.repo
    case Failure(e) => Kept(e)
    case Success(repo) =>
      match Decode(env.parse, bitmap, values)
      case Failure(e) => Kept(e)
      case Success(Lookup(hash)) => Started([repo.lookup(hash)])
      case Success(History(opts)) =>
        match repo.head
        case Failure(e) => Kept(Wrapped(HeadUnresolved, e))
        case Success(from) =>
          match repo.log(from, opts)
          case Failure(e) => Cleared(Wrapped(LogUnavailable, e))
          case Success(steps) => Started(steps)
  }

  /**
   * One call of Next on an iterator with `steps` left: the commit it reaches (none at the end or
   * when the hash named no commit), and the error it reports (none for io.EOF and
   * ErrObjectNotFound).
   */
  function Advance(steps: seq<Step<Commit>>): (Option<Commit>, Option<Error>) {
    if steps == [] then (None, None)
    else match steps[0]
      case Item(c) => (Some(c), None)
      case Eof => (None, None)
      case NotFound => (None, None)
      case Failed(e) => (None, Some(e))
  }

  /** The steps left after one call of Next. */
  function Rest(steps: seq<Step<Commit>>): seq<Step<Commit>> {
    if steps == [] then [] else steps[1..]
  }

  /** A lookup yields its commit as the only row, or no row; only an error other than "not found" is reported. */
  lemma LookupRows(step: Step<Commit>)
    ensures Advance([step]).0.Some? <==> step.Item?
    ensures step.Item? ==> Advance([step]).0 == Some(step.item) && Advance(Rest([step])) == (None, None)
    ensures Advance([step]).1.Some? <==> step.Failed?
  {
  }

  /** A hash given twice, or with bounds, is looked up alone: the first hash decides the iterator. */
  lemma FirstHashDecides(env: CommitsEnv, bitmap: seq<Byte>, values: seq<string>, k: nat)
    requires env.repo.Success?
    requires k < |values| && k < |bitmap| && IsHashCode(bitmap[k]) && IsHash(values[k])
    requires BoundsOnly(env.parse, bitmap, values, 0, k)
    ensures FilterSpec(env, bitmap, values) == Started([env.repo.value.lookup(values[k])])
  {
    DecodeLookup(env.parse, bitmap, values, k);
  }

  /** CommitsCursor: the current commit and the iterator that produces the next ones. */
  class CommitsCursor {
    var commit: Option<Commit>
    var commits: CommitIter?

    /** CommitsTable.Open: a cursor with no commit and no iterator. */
    constructor ()
      ensures commit == None && commits == null
    {
      commit := None;
      commits := null;
    }

    /**
     * Next: the iterator's next step becomes the current commit; io.EOF and ErrObjectNotFound
     * are not errors. Without an iterator, Next dereferences nil.
     */
    method Next() returns (err: Option<Error>)
      modifies this, commits
      ensures commits == old(commits)
      ensures old(commits) == null ==> commit == old(commit) && err == Some(Panic("nil pointer dereference"))
      ensures old(commits) != null ==>
        && (commit, err) == Advance(old(commits.pending))
        && commits.pending == Rest(old(commits.pending))
        && commits.closed == old(commits.closed)
    {
      if commits == null {
        return Some(Panic("nil pointer dereference"));
      }
      var step := commits.Next();
      match step
      case Item(c) =>
        commit := Some(c);
        err := None;
      case Eof =>
        commit := None;
        err := None;
      case NotFound =>
        commit := None;
        err := None;
      case Failed(e) =>
        commit := None;
        err := Some(e);
    }

    /**
     * Filter: decodes the values against the token; a hash makes an iterator over that one
     * commit, otherwise the history from HEAD within the bounds is walked; the first commit is
     * then read.
     */
    method Filter(env: CommitsEnv, bitmap: seq<Byte>, values: seq<string>) returns (err: Option<Error>)
      modifies this
      ensures var spec := FilterSpec(env, bitmap, values);
        && (spec.Kept? ==> commit == old(commit) && commits == old(commits) && err == Some(spec.err))
        && (spec.Cleared? ==> commit == old(commit) && commits == null && err == Some(spec.err))
        && (spec.Started? ==>
              && commits != null && fresh(commits) && !commits.closed
              && (commit, err) == Advance(spec.steps) && commits.pending == Rest(spec.steps))
    {
      if env.repo.Failure? {
        return Some(env.repo.error);
      }
      var repo := env.repo.value;
      var selection := DecodeValues(env.parse, bitmap, values);
      if selection.Failure? {
        return Some(selection.error);
      }
      match selection.value
      case Lookup(hash) =>
        commits := new CommitIter([repo.lookup(hash)]);
        err := Next();
      case History(opts) =>
        if repo.head.Failure? {
          return Some(Wrapped(HeadUnresolved, repo.head.error));
        }
        var log := repo.log(repo.head.value, opts);
        if log.Failure? {
          commits := null;
          return Some(Wrapped(LogUnavailable, log.error));
        }
        commits := new CommitIter(log.value);
        err := Next();
    }

    /** The decoding loop of Filter: the selection the values make, or the error that stops it. */
    static method DecodeValues(parse: string -> Option<Time>, bitmap: seq<Byte>, values: seq<string>) returns (r: Result<Selection>)
      ensures r == Decode(parse, bitmap, values)
    {
      var opts := LogOptions(None, None);
      var n := 0;
      while n < |values|
        invariant 0 <= n <= |values|
        invariant Decode(parse, bitmap, values) == DecodeFrom(parse, bitmap, values, n, opts)
      {
        if n >= |bitmap| {
          return Failure(Panic("index out of range"));
        }
        var op, col := OpOf(bitmap[n]), ColumnOf(bitmap[n]);
        if col == 0 && op == OpEqual {
          if !IsHash(values[n]) {
            return Failure(Sqlite(SQLITE_ERROR, InvalidHash));
          }
          return Success(Lookup(values[n]));
        } else if col == 4 {
          if op == OpLte {
            var t := parse(values[n]);
            if t.None? {
              return Failure(Sqlite(SQLITE_ERROR, InvalidTime));
            }
            opts := opts.(until := t);
          } else if op == OpGte {
            var t := parse(values[n]);
            if t.None? {
              return Failure(Sqlite(SQLITE_ERROR, InvalidTime));
            }
            opts := opts.(since := t);
          }
        }
        n := n + 1;
      }
      r := Success(History(opts));
    }

    /** Eof: the scan is over when there is no current commit. */
    predicate Eof()
      reads this
    {
      commit.None?
    }

    /** Rowid: the table is WITHOUT ROWID; every row reports 0. */
    method Rowid() returns (id: int, err: Option<Error>)
      ensures id == 0 && err == None
    {
      return 0, None;
    }

    /** Close: closes the iterator, if there is one. */
    method Close() returns (err: Option<Error>)
      modifies commits
      ensures err == None
      ensures commits != null ==> commits.closed && commits.pending == old(commits.pending)
    {
      if commits != null {
        commits.Close();
      }
      return None;
    }
  }
}
