/**
 * The dataframe and SQL vocabulary the two ingestion scripts share: a frame is
 * a row count and a sequence of named, typed columns of cells; the database is
 * the effect of `DataFrame.to_sql`, a map of tables plus the ordered log of the
 * calls made on it.
 */
module Tabular {
  /** One cell; what a cell holds beyond "missing or some text" is pandas' business. */
  datatype Cell = Missing | Value(text: string)

  datatype Column = Column(name: string, dtype: string, cells: seq<Cell>)

  datatype Frame = Frame(columns: seq<Column>, rows: nat)

  /** Every column holds one cell per row. */
  predicate WellFormed(f: Frame)
  {
    forall j :: 0 <= j < |f.columns| ==> |f.columns[j].cells| == f.rows
  }

  /** `df.columns`, in order. */
  function Names(f: Frame): (ns: seq<string>)
    ensures |ns| == |f.columns|
    ensures forall j :: 0 <= j < |ns| ==> ns[j] == f.columns[j].name
  {
    seq(|f.columns|, j requires 0 <= j < |f.columns| => f.columns[j].name)
  }

  /** Column names with their dtypes: what a table created from the frame is given. */
  function Schema(f: Frame): seq<(string, string)>
  {
    seq(|f.columns|, j requires 0 <= j < |f.columns| => (f.columns[j].name, f.columns[j].dtype))
  }

  /** `df.head(0)`: the same columns and dtypes, no rows. */
  function Head0(f: Frame): (h: Frame)
    ensures h.rows == 0 && WellFormed(h)
    ensures Schema(h) == Schema(f)
  {
    Frame(seq(|f.columns|, j requires 0 <= j < |f.columns| => f.columns[j].(cells := [])), 0)
  }

  /** The `if_exists` argument of `to_sql`. */
  datatype IfExists = Replace | Append

  /** One `to_sql` call as the database sees it: which table, which mode, how many rows. */
  datatype SqlCall = SqlCall(table: string, ifExists: IfExists, rows: nat)

  /** A table: the schema it was created with and the frames written to it, in order. */
  datatype Table = Table(schema: seq<(string, string)>, chunks: seq<Frame>)

  /**
   * The table named `name` after writing `f` in mode `mode`: `replace` drops any
   * old table and creates a fresh one from `f`; `append` adds `f` to an existing
   * table, or creates the table when there is none.
   */
  function Written(tables: map<string, Table>, name: string, f: Frame, mode: IfExists): (t: Table)
    ensures t.chunks != [] && t.chunks[|t.chunks| - 1] == f
    ensures mode == Replace ==> t == Table(Schema(f), [f])
    ensures mode == Append && name in tables ==>
      t.schema == tables[name].schema && t.chunks == tables[name].chunks + [f]
  {
    if mode == Replace || name !in tables then Table(Schema(f), [f])
    else Table(tables[name].schema, tables[name].chunks + [f])
  }

  /** Replacing is idempotent: writing the same frame twice with `replace` leaves what one write leaves. */
  lemma ReplaceIdempotent(tables: map<string, Table>, name: string, f: Frame)
    ensures var once := tables[name := Written(tables, name, f, Replace)];
      once[name := Written(once, name, f, Replace)] == once
  {
  }

  /** The database behind the SQLAlchemy engine. */
  class Database {
    var tables: map<string, Table>
    var calls: seq<SqlCall>

    /** The database an engine connects to, with the tables it already holds and no calls made yet. */
    constructor (existing: map<string, Table>)
      ensures tables == existing && calls == []
    {
      tables := existing;
      calls := [];
    }

    /** `f.to_sql(name=name, con=engine, if_exists=mode, index=False)`. */
    method ToSql(name: string, f: Frame, mode: IfExists)
      modifies this
      ensures calls == old(calls) + [SqlCall(name, mode, f.rows)]
      ensures tables == old(tables)[name := Written(old(tables), name, f, mode)]
    {
      tables := tables[name := Written(tables, name, f, mode)];
      calls := calls + [SqlCall(name, mode, f.rows)];
    }
  }
}
