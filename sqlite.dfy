/**
 * The slice of SQLite's virtual-table planning interface (xBestIndex) the two relations use,
 * and the one-byte (operator, column) code the relations pass from planning to execution.
 */
module Sqlite {
  import opened Wrappers

  type Byte = bv8

  /** SQLITE_INDEX_CONSTRAINT_* operators. */
  datatype ConstraintOp =
    | Eq | Gt | Le | Lt | Ge | Match | Like | Glob | Regexp | Ne
    | IsNot | IsNotNull | IsNull | Is | Limit | Offset | Function

  /** One candidate predicate: the column it constrains, its operator, and whether its value will be supplied. */
  datatype Constraint = Constraint(column: int, op: ConstraintOp, usable: bool)

  datatype OrderBy = OrderBy(column: int, desc: bool)

  datatype IndexInput = IndexInput(constraints: seq<Constraint>, orderBy: seq<OrderBy>)

  /** sqlite.ConstraintUsage: argument slot (0 = none) and whether SQLite may skip re-checking. */
  datatype Usage = Usage(argvIndex: int, omit: bool)

  /**
   * sqlite.IndexInfoOutput. `usage` has one entry per input constraint (None for a nil pointer),
   * `indexString` is the token before its base64 encoding, `uniqueScan` is the
   * SQLITE_INDEX_SCAN_UNIQUE bit of the flags.
   */
  datatype IndexOutput = IndexOutput(usage: seq<Option<Usage>>, indexString: seq<Byte>,
                                     estimatedCost: real, estimatedRows: int,
                                     uniqueScan: bool, orderByConsumed: bool)

  /** Operator codes of the token; 0 is unused. */
  const OpEqual: Byte := 1
  const OpLike: Byte := 2
  const OpGlob: Byte := 3
  const OpLte: Byte := 4
  const OpGte: Byte := 5

  /** The operator code a relation records for a constraint operator (0 for one it never records). */
  function OpCode(op: ConstraintOp): Byte {
    match op
    case Eq => OpEqual
    case Like => OpLike
    case Glob => OpGlob
    case Le => OpLte
    case Ge => OpGte
    case _ => 0
  }

  /**
   * `byte(op<<4 | col)`: the operator in the high nibble, the column in the low nibble.
   * The conversion to byte keeps the low eight bits, which depend only on the low eight bits
   * of `op` and `col`, so those are what this takes.
   */
  function Pack(op: Byte, col: Byte): Byte {
    (op << 4) | col
  }

  /** `(b & 0b11110000) >> 4`: the operator half of a token byte. */
  function OpOf(b: Byte): (op: Byte)
    ensures op < 16
  {
    (b & 0xF0) >> 4
  }

  /** `b & 0b00001111`: the column half of a token byte. */
  function ColumnOf(b: Byte): (col: Byte)
    ensures col < 16
  {
    b & 0x0F
  }

  /** Decoding recovers what was packed whenever both halves fit a nibble. */
  lemma NibbleRoundTrip(op: Byte, col: Byte)
    requires op < 16 && col < 16
    ensures OpOf(Pack(op, col)) == op && ColumnOf(Pack(op, col)) == col
  {
  }

  /** Every byte is the packing of its two halves. */
  lemma PackUnpack(b: Byte)
    ensures Pack(OpOf(b), ColumnOf(b)) == b
  {
  }

  /**
   * The number of values SQLite hands to xFilter for a plan: one per usage whose argvIndex is
   * at least 1 (a usage with argvIndex 0 passes nothing, and its omit flag is not honoured).
   */
  function ArgumentCount(usage: seq<Option<Usage>>): nat {
    if usage == [] then 0
    else
      var last := usage[|usage| - 1];
      ArgumentCount(usage[..|usage| - 1]) + (if last.Some? && last.value.argvIndex >= 1 then 1 else 0)
  }

  /** A plan none of whose usages has an argument slot receives no values at all. */
  lemma {:induction false} NoSlotsNoArguments(usage: seq<Option<Usage>>)
    requires forall k | 0 <= k < |usage| :: usage[k].None? || usage[k].value.argvIndex < 1
    ensures ArgumentCount(usage) == 0
    decreases |usage|
  {
    if usage != [] {
      NoSlotsNoArguments(usage[..|usage| - 1]);
    }
  }
}
