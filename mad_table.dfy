/**
 * The lattice table the builder reads: one row per element, with string
 * columns KEYWORD and NAME and a set of numeric columns. Reading a numeric
 * column that the table does not have is an error that ends the build.
 */
module MadTable {
  import opened Wrappers

  /** The ways a build can end without a model. */
  datatype BuildError =
    | MissingColumn(column: string)
    | NonFiniteField(element: string)   // a rule divided by a zero length or frequency
    | UnknownFrameCode(frame: string)   // a LINE name "<c>_..." whose <c> is not F, S, G or M
    | NoOpenFrame(frame: string)        // a frame end with no frame open in the model constructor

  type Outcome<T> = Result<T, BuildError>

  datatype Row = Row(keyword: string, name: string, values: map<string, real>)

  predicate HasCol(r: Row, column: string) {
    column in r.values
  }

  /** Numeric column access. */
  function GetD(r: Row, column: string): (v: Outcome<real>)
    ensures v.Ok? <==> HasCol(r, column)
    ensures v.Ok? ==> v.value == r.values[column]
    ensures v.Err? ==> v.error == MissingColumn(column)
  {
    if column in r.values then Ok(r.values[column]) else Err(MissingColumn(column))
  }

  /** Character i of s; past the end reads the terminating NUL, as a C++ string does. */
  function CharAt(s: string, i: nat): char {
    if i < |s| then s[i] else '\0'
  }

  /** The table itself; the builder rewrites KEYWORD cells in place. */
  class DataTable {
    var rows: seq<Row>

    constructor (rs: seq<Row>)
      ensures rows == rs
    {
      rows := rs;
    }

    method SetKeyword(index: nat, keyword: string)
      requires index < |rows|
      modifies this
      ensures rows == old(rows)[index := old(rows)[index].(keyword := keyword)]
    {
      rows := rows[index := rows[index].(keyword := keyword)];
    }
  }
}
