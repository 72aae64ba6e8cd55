/**
 * Batch ingestion of one month of green-taxi trips from a parquet file into a
 * relational table: name the file and the table after the year and month,
 * coerce the declared columns of each batch, create the table from the first
 * batch's schema, and append every batch in order.
 *
 * The parquet reader's batches are an input sequence of frames, and the value
 * semantics of pandas' coercions are an input function applied cell by cell.
 */
module IngestData {
  import opened Wrappers
  import opened Collections
  import opened Tabular
  import Decimal

  // ---------------------------------------------------------------- names

  const DATA_DIR := "data/raw"

  /** `Path("data/raw") / f"green_tripdata_{year}-{month:02d}.parquet"`. */
  function ParquetPath(year: int, month: int): string
  {
    DATA_DIR + "/" + "green_tripdata_" + Decimal.IntToString(year) + "-" + Decimal.Pad2(month) + ".parquet"
  }

  /** `f"green_taxi_data_{year}_{month:02d}"`. */
  function TableName(year: int, month: int): string
  {
    "green_taxi_data_" + Decimal.IntToString(year) + "_" + Decimal.Pad2(month)
  }

  lemma YearNumerals()
    ensures Decimal.IntToString(2025) == "2025" && Decimal.IntToString(2019) == "2019"
  {
    assert Decimal.NatToString(20) == "20";
    assert Decimal.NatToString(202) == "202";
    assert Decimal.NatToString(201) == "201";
  }

  /** The table name for the command's default year and month. */
  lemma DefaultTableName()
    ensures TableName(2025, 11) == "green_taxi_data_2025_11"
  {
    YearNumerals();
    assert Decimal.Pad2(11) == "11";
  }

  /** The table name for January 2019: the month is zero-padded. */
  lemma JanuaryTableName()
    ensures TableName(2019, 1) == "green_taxi_data_2019_01"
  {
    YearNumerals();
    assert Decimal.Pad2(1) == "01";
  }

  /** The parquet path for the command's default year and month. */
  lemma ParquetPathExample()
    ensures ParquetPath(2025, 11) == "data/raw/green_tripdata_2025-11.parquet"
  {
    assert Decimal.IntToString(2025) == "2025" by {
      YearNumerals();
    }
    assert Decimal.Pad2(11) == "11";
    assert DATA_DIR + "/" + "green_tripdata_" == "data/raw/green_tripdata_";
    assert "data/raw/green_tripdata_" + "2025" + "-" + "11" == "data/raw/green_tripdata_2025-11";
  }

  /**
   * For a month in 1..99 both names carry the month as exactly two digits that
   * read back as the month: at the end of the table name, and just before the
   * `.parquet` extension of the path.
   */
  lemma MonthIsTwoDigits(year: int, month: int)
    requires 1 <= month <= 99
    ensures var t := TableName(year, month);
      && |t| >= 2 && t[..|t| - 2] == "green_taxi_data_" + Decimal.IntToString(year) + "_"
      && Decimal.AllDigits(t[|t| - 2..]) && Decimal.ParseNat(t[|t| - 2..]) == month
    ensures var p := ParquetPath(year, month);
      && |p| >= 10 && p[|p| - 8..] == ".parquet"
      && Decimal.AllDigits(p[|p| - 10..|p| - 8]) && Decimal.ParseNat(p[|p| - 10..|p| - 8]) == month
  {
    var d := Decimal.Pad2(month);
    Decimal.Pad2TwoDigits(month);
    var x := "green_taxi_data_" + Decimal.IntToString(year) + "_";
    ConcatCancel(x, d, TableName(year, month)[..|x|], TableName(year, month)[|x|..]);
    var q := DATA_DIR + "/" + "green_tripdata_" + Decimal.IntToString(year) + "-";
    var p := ParquetPath(year, month);
    ConcatCancel(q + d, ".parquet", p[..|p| - 8], p[|p| - 8..]);
    ConcatCancel(q, d, p[..|p| - 10], p[|p| - 10..|p| - 8]);
  }

  /** Two (year, month) pairs with months in 0..99 share a table name only if they are equal. */
  lemma TableNameInjective(y1: int, m1: int, y2: int, m2: int)
    requires 0 <= m1 < 100 && 0 <= m2 < 100
    ensures TableName(y1, m1) == TableName(y2, m2) ==> y1 == y2 && m1 == m2
  {
    if TableName(y1, m1) == TableName(y2, m2) {
      var a1, a2 := Decimal.IntToString(y1), Decimal.IntToString(y2);
      var d1, d2 := Decimal.Pad2(m1), Decimal.Pad2(m2);
      var p := "green_taxi_data_";
      Decimal.Pad2TwoDigits(m1);
      Decimal.Pad2TwoDigits(m2);
      ConcatCancel(p + a1 + "_", d1, p + a2 + "_", d2);
      ConcatCancel(p + a1, "_", p + a2, "_");
      ConcatCancel(p, a1, p, a2);
      Decimal.IntToStringInjective(y1, y2);
      Decimal.Pad2Injective(m1, m2);
    }
  }

  /** Two (year, month) pairs with months in 0..99 share a parquet path only if they are equal. */
  lemma ParquetPathInjective(y1: int, m1: int, y2: int, m2: int)
    requires 0 <= m1 < 100 && 0 <= m2 < 100
    ensures ParquetPath(y1, m1) == ParquetPath(y2, m2) ==> y1 == y2 && m1 == m2
  {
    if ParquetPath(y1, m1) == ParquetPath(y2, m2) {
      var a1, a2 := Decimal.IntToString(y1), Decimal.IntToString(y2);
      var d1, d2 := Decimal.Pad2(m1), Decimal.Pad2(m2);
      var q := DATA_DIR + "/" + "green_tripdata_";
      Decimal.Pad2TwoDigits(m1);
      Decimal.Pad2TwoDigits(m2);
      ConcatCancel(q + a1 + "-" + d1, ".parquet", q + a2 + "-" + d2, ".parquet");
      ConcatCancel(q + a1 + "-", d1, q + a2 + "-", d2);
      ConcatCancel(q + a1, "-", q + a2, "-");
      ConcatCancel(q, a1, q, a2);
      Decimal.IntToStringInjective(y1, y2);
      Decimal.Pad2Injective(m1, m2);
    }
  }

  // ---------------------------------------------------------------- column coercion

  /** The declared dtype of each trip column, in declaration order. */
  const DTYPE_MAP: seq<(string, string)> := [
    ("VendorID", "Int64"),
    ("passenger_count", "Int64"),
    ("RatecodeID", "Int64"),
    ("PULocationID", "Int64"),
    ("DOLocationID", "Int64"),
    ("payment_type", "Int64"),
    ("store_and_fwd_flag", "string"),
    ("trip_distance", "float64"),
    ("fare_amount", "float64"),
    ("extra", "float64"),
    ("mta_tax", "float64"),
    ("tip_amount", "float64"),
    ("tolls_amount", "float64"),
    ("improvement_surcharge", "float64"),
    ("total_amount", "float64"),
    ("congestion_surcharge", "float64"),
    ("cbd_congestion_fee", "float64")
  ]

  /** The pickup and drop-off timestamps of green trips. */
  const DATE_COLS: seq<string> := ["lpep_pickup_datetime", "lpep_dropoff_datetime"]

  /** The pandas coercions the script applies. */
  datatype Conversion =
    | ToDatetime      // pd.to_datetime(col, errors="coerce")
    | ToNullableInt   // pd.to_numeric(col, errors="coerce").astype("Int64")
    | ToFloat         // pd.to_numeric(col, errors="coerce").astype("float64")
    | ToStringDtype   // col.astype("string")

  /** The dtype a column has after the coercion. */
  function TargetDtype(k: Conversion): string
  {
    match k
    case ToDatetime => "datetime64[ns]"
    case ToNullableInt => "Int64"
    case ToFloat => "float64"
    case ToStringDtype => "string"
  }

  /**
   * The `if dt == "Int64" ... elif dt == "float64" ... elif dt == "string"`
   * dispatch on a declared dtype: the three declared kinds are coerced to
   * exactly that dtype, anything else is left alone.
   */
  function Dispatch(dt: string): (r: Option<Conversion>)
    ensures r.Some? <==> dt == "Int64" || dt == "float64" || dt == "string"
    ensures r.Some? ==> TargetDtype(r.value) == dt && r.value != ToDatetime
  {
    if dt == "Int64" then Some(ToNullableInt)
    else if dt == "float64" then Some(ToFloat)
    else if dt == "string" then Some(ToStringDtype)
    else None
  }

  /**
   * One coercion of one column. `errors="coerce"` turns an unparseable value
   * into a missing one instead of raising, so every cell maps to one cell.
   */
  function Coerce(col: Column, k: Conversion, conv: (Conversion, Cell) -> Cell): (c: Column)
    ensures c.name == col.name && c.dtype == TargetDtype(k) && |c.cells| == |col.cells|
    ensures forall i :: 0 <= i < |c.cells| ==> c.cells[i] == conv(k, col.cells[i])
  {
    Column(col.name, TargetDtype(k), seq(|col.cells|, i requires 0 <= i < |col.cells| => conv(k, col.cells[i])))
  }

  /**
   * `df[name] = <coercion k of df[name]>`: every column called `name` is coerced
   * in place. A batch that repeats a name makes pandas raise instead; such
   * batches are outside this model.
   */
  function SetCoerced(f: Frame, name: string, k: Conversion, conv: (Conversion, Cell) -> Cell): (g: Frame)
    ensures g.rows == f.rows && |g.columns| == |f.columns|
    ensures forall j :: 0 <= j < |f.columns| ==>
      g.columns[j] == if f.columns[j].name == name then Coerce(f.columns[j], k, conv) else f.columns[j]
  {
    Frame(seq(|f.columns|, j requires 0 <= j < |f.columns| =>
            if f.columns[j].name == name then Coerce(f.columns[j], k, conv) else f.columns[j]),
          f.rows)
  }

  /** A column after the datetime pass over `dateCols`: one coercion per occurrence of its name. */
  function DatesApplied(col: Column, dateCols: seq<string>, conv: (Conversion, Cell) -> Cell): (c: Column)
    ensures c.name == col.name && |c.cells| == |col.cells|
    ensures col.name !in dateCols ==> c == col
    ensures col.name in dateCols ==> c.dtype == TargetDtype(ToDatetime)
  {
    if dateCols == [] then col
    else
      var prev := DatesApplied(col, dateCols[..|dateCols| - 1], conv);
      if dateCols[|dateCols| - 1] == col.name then Coerce(prev, ToDatetime, conv) else prev
  }

  /** The names declared in a dtype map, in order. */
  function Keys(dtypeMap: seq<(string, string)>): (ks: seq<string>)
    ensures |ks| == |dtypeMap|
    ensures forall i :: 0 <= i < |ks| ==> ks[i] == dtypeMap[i].0
  {
    seq(|dtypeMap|, i requires 0 <= i < |dtypeMap| => dtypeMap[i].0)
  }

  /** A column after the dtype pass over `dtypeMap`. */
  function DtypesApplied(col: Column, dtypeMap: seq<(string, string)>, conv: (Conversion, Cell) -> Cell): (c: Column)
    ensures c.name == col.name && |c.cells| == |col.cells|
    ensures col.name !in Keys(dtypeMap) ==> c == col
  {
    if dtypeMap == [] then col
    else
      var prev := DtypesApplied(col, dtypeMap[..|dtypeMap| - 1], conv);
      var (name, dt) := dtypeMap[|dtypeMap| - 1];
      assert Keys(dtypeMap[..|dtypeMap| - 1]) == Keys(dtypeMap)[..|dtypeMap| - 1];
      if name == col.name && Dispatch(dt).Some? then Coerce(prev, Dispatch(dt).value, conv) else prev
  }

  /** A date column listed once is coerced to a datetime exactly once. */
  lemma {:induction false} DateColumnCoercedOnce(col: Column, dateCols: seq<string>, conv: (Conversion, Cell) -> Cell)
    requires NoDup(dateCols) && col.name in dateCols
    ensures DatesApplied(col, dateCols, conv) == Coerce(col, ToDatetime, conv)
  {
    var init := dateCols[..|dateCols| - 1];
    assert NoDup(init);
    if dateCols[|dateCols| - 1] == col.name {
      assert col.name !in init;
    } else {
      assert col.name in init;
      DateColumnCoercedOnce(col, init, conv);
    }
  }

  /**
   * A column declared once with dtype `dt` is coerced by `dt`'s own coercion
   * when `dt` is one of the three kinds, and left alone otherwise.
   */
  lemma {:induction false} DtypeColumnDispatched(col: Column, dtypeMap: seq<(string, string)>, dt: string, conv: (Conversion, Cell) -> Cell)
    requires NoDup(Keys(dtypeMap)) && (col.name, dt) in dtypeMap
    ensures DtypesApplied(col, dtypeMap, conv) == if Dispatch(dt).Some? then Coerce(col, Dispatch(dt).value, conv) else col
  {
    var init := dtypeMap[..|dtypeMap| - 1];
    var last := dtypeMap[|dtypeMap| - 1];
    assert Keys(init) == Keys(dtypeMap)[..|dtypeMap| - 1];
    assert NoDup(Keys(init));
    if last.0 == col.name {
      var i :| 0 <= i < |dtypeMap| && dtypeMap[i] == (col.name, dt);
      assert Keys(dtypeMap)[i] == Keys(dtypeMap)[|dtypeMap| - 1];
      assert last == (col.name, dt);
      assert col.name !in Keys(init);
    } else {
      assert (col.name, dt) in init;
      DtypeColumnDispatched(col, init, dt, conv);
    }
  }

  /** One round of the datetime pass: coerce the columns called `name`, if the batch has one. */
  function DateStep(out: Frame, name: string, conv: (Conversion, Cell) -> Cell): Frame
  {
    if name in Names(out) then SetCoerced(out, name, ToDatetime, conv) else out
  }

  /** One round of the dtype pass: coerce the columns called `name` by `dt`'s kind, if the batch has one. */
  function DtypeStep(out: Frame, name: string, dt: string, conv: (Conversion, Cell) -> Cell): Frame
  {
    if name in Names(out) && Dispatch(dt).Some? then SetCoerced(out, name, Dispatch(dt).value, conv) else out
  }

  /** A round of the datetime pass takes the batch from the first `i` date columns to the first `i + 1`. */
  lemma DateStepAdvances(df: Frame, out: Frame, dateCols: seq<string>, i: nat, conv: (Conversion, Cell) -> Cell)
    requires i < |dateCols|
    requires out.rows == df.rows && |out.columns| == |df.columns|
    requires forall j :: 0 <= j < |df.columns| ==> out.columns[j] == DatesApplied(df.columns[j], dateCols[..i], conv)
    ensures var next := DateStep(out, dateCols[i], conv);
      && next.rows == df.rows && |next.columns| == |df.columns|
      && forall j :: 0 <= j < |df.columns| ==> next.columns[j] == DatesApplied(df.columns[j], dateCols[..i + 1], conv)
  {
    TakeSnoc(dateCols, i);
    var next := DateStep(out, dateCols[i], conv);
    forall j | 0 <= j < |df.columns|
      ensures next.columns[j] == DatesApplied(df.columns[j], dateCols[..i + 1], conv)
    {
      assert out.columns[j].name == df.columns[j].name;
      if dateCols[i] == df.columns[j].name {
        assert dateCols[i] in Names(out) by {
          assert Names(out)[j] == dateCols[i];
        }
      }
    }
  }

  /** A round of the dtype pass takes the batch from the first `i` declarations to the first `i + 1`. */
  lemma DtypeStepAdvances(df: Frame, out: Frame, dtypeMap: seq<(string, string)>, i: nat, conv: (Conversion, Cell) -> Cell)
    requires i < |dtypeMap|
    requires out.rows == df.rows && |out.columns| == |df.columns|
    requires forall j :: 0 <= j < |df.columns| ==> out.columns[j] == DtypesApplied(df.columns[j], dtypeMap[..i], conv)
    ensures var next := DtypeStep(out, dtypeMap[i].0, dtypeMap[i].1, conv);
      && next.rows == df.rows && |next.columns| == |df.columns|
      && forall j :: 0 <= j < |df.columns| ==> next.columns[j] == DtypesApplied(df.columns[j], dtypeMap[..i + 1], conv)
  {
    TakeSnoc(dtypeMap, i);
    var (name, dt) := dtypeMap[i];
    var next := DtypeStep(out, name, dt, conv);
    forall j | 0 <= j < |df.columns|
      ensures next.columns[j] == DtypesApplied(df.columns[j], dtypeMap[..i + 1], conv)
    {
      assert out.columns[j].name == df.columns[j].name;
      if name == df.columns[j].name {
        assert name in Names(out) by {
          assert Names(out)[j] == name;
        }
      }
    }
  }

  /**
   * The datetime pass of the batch loop: each listed column present in the
   * batch is coerced; absent ones are skipped.
   */
  method CoerceDates(df: Frame, dateCols: seq<string>, conv: (Conversion, Cell) -> Cell) returns (out: Frame)
    ensures out.rows == df.rows && |out.columns| == |df.columns|
    ensures forall j :: 0 <= j < |df.columns| ==> out.columns[j] == DatesApplied(df.columns[j], dateCols, conv)
  {
    out := df;
    for i := 0 to |dateCols|
      invariant out.rows == df.rows && |out.columns| == |df.columns|
      invariant forall j :: 0 <= j < |df.columns| ==> out.columns[j] == DatesApplied(df.columns[j], dateCols[..i], conv)
    {
      DateStepAdvances(df, out, dateCols, i, conv);
      var c := dateCols[i];
      if c in Names(out) {
        out := SetCoerced(out, c, ToDatetime, conv);
      }
    }
    assert dateCols[..|dateCols|] == dateCols;
  }

  /**
   * The dtype pass of the batch loop: each declared column present in the
   * batch is coerced according to its declared kind; absent ones are skipped.
   */
  method EnforceDtypes(df: Frame, dtypeMap: seq<(string, string)>, conv: (Conversion, Cell) -> Cell) returns (out: Frame)
    ensures out.rows == df.rows && |out.columns| == |df.columns|
    ensures forall j :: 0 <= j < |df.columns| ==> out.columns[j] == DtypesApplied(df.columns[j], dtypeMap, conv)
  {
    out := df;
    for i := 0 to |dtypeMap|
      invariant out.rows == df.rows && |out.columns| == |df.columns|
      invariant forall j :: 0 <= j < |df.columns| ==> out.columns[j] == DtypesApplied(df.columns[j], dtypeMap[..i], conv)
    {
      DtypeStepAdvances(df, out, dtypeMap, i, conv);
      var (name, dt) := dtypeMap[i];
      if name !in Names(out) {
        continue;
      }
      if dt == "Int64" {
        out := SetCoerced(out, name, ToNullableInt, conv);
      } else if dt == "float64" {
        out := SetCoerced(out, name, ToFloat, conv);
      } else if dt == "string" {
        out := SetCoerced(out, name, ToStringDtype, conv);
      }
    }
    assert dtypeMap[..|dtypeMap|] == dtypeMap;
  }

  /** A batch after the datetime pass over `dateCols` and the dtype pass over `dtypeMap`. */
  function CoercedWith(f: Frame, dateCols: seq<string>, dtypeMap: seq<(string, string)>, conv: (Conversion, Cell) -> Cell): Frame
  {
    Frame(seq(|f.columns|, j requires 0 <= j < |f.columns| =>
            DtypesApplied(DatesApplied(f.columns[j], dateCols, conv), dtypeMap, conv)),
          f.rows)
  }

  /** The integer- and string-typed declared names, spelled out. */
  const DECLARED_HEAD: seq<string> := [
    "VendorID", "passenger_count", "RatecodeID", "PULocationID", "DOLocationID",
    "payment_type", "store_and_fwd_flag"]

  /** The float-typed declared names, spelled out. */
  const DECLARED_TAIL: seq<string> := [
    "trip_distance", "fare_amount", "extra", "mta_tax", "tip_amount", "tolls_amount",
    "improvement_surcharge", "total_amount", "congestion_surcharge", "cbd_congestion_fee"]

  lemma DeclaredNames()
    ensures Keys(DTYPE_MAP) == DECLARED_HEAD + DECLARED_TAIL
  {
  }

  lemma DeclaredHeadDistinct()
    ensures NoDup(DECLARED_HEAD)
  {
  }

  lemma DeclaredTailDistinct()
    ensures NoDup(DECLARED_TAIL)
  {
  }

  lemma DeclaredPartsDisjoint()
    ensures forall c :: c in DECLARED_HEAD ==> c !in DECLARED_TAIL
  {
  }

  lemma DateColumnsUndeclared()
    ensures NoDup(DATE_COLS)
    ensures forall c :: c in DATE_COLS ==> c !in DECLARED_HEAD + DECLARED_TAIL
  {
  }

  /** The declared names are duplicate-free and none of them is a date column. */
  lemma DeclarationsDistinct()
    ensures NoDup(DATE_COLS) && NoDup(Keys(DTYPE_MAP))
    ensures forall c :: c in DATE_COLS ==> c !in Keys(DTYPE_MAP)
  {
    DeclaredNames();
    DeclaredHeadDistinct();
    DeclaredTailDistinct();
    DeclaredPartsDisjoint();
    NoDupConcat(DECLARED_HEAD, DECLARED_TAIL);
    DateColumnsUndeclared();
  }

  /** Every declared dtype is one of the three kinds the dispatch handles. */
  lemma DeclaredKindsDispatch()
    ensures forall e :: e in DTYPE_MAP ==> Dispatch(e.1).Some?
  {
    assert forall e :: e in DTYPE_MAP ==> e.1 == "Int64" || e.1 == "float64" || e.1 == "string";
  }

  /**
   * What the two passes do to a batch, for any declarations that list each
   * name once, keep date columns and typed columns apart and use only the
   * three dispatchable dtypes.
   */
  lemma CoercionEffect(f: Frame, dateCols: seq<string>, dtypeMap: seq<(string, string)>, conv: (Conversion, Cell) -> Cell)
    requires NoDup(dateCols) && NoDup(Keys(dtypeMap))
    requires forall c :: c in dateCols ==> c !in Keys(dtypeMap)
    requires forall e :: e in dtypeMap ==> Dispatch(e.1).Some?
    ensures var g := CoercedWith(f, dateCols, dtypeMap, conv);
      && g.rows == f.rows && Names(g) == Names(f)
      && (WellFormed(f) ==> WellFormed(g))
      && (forall j :: 0 <= j < |f.columns| && f.columns[j].name !in dateCols && f.columns[j].name !in Keys(dtypeMap) ==>
            g.columns[j] == f.columns[j])
      && (forall j :: 0 <= j < |f.columns| && f.columns[j].name in dateCols ==>
            g.columns[j] == Coerce(f.columns[j], ToDatetime, conv))
      && (forall j, dt :: 0 <= j < |f.columns| && (f.columns[j].name, dt) in dtypeMap ==>
            && Dispatch(dt).Some?
            && g.columns[j] == Coerce(f.columns[j], Dispatch(dt).value, conv) && g.columns[j].dtype == dt)
  {
    var g := CoercedWith(f, dateCols, dtypeMap, conv);
    forall j | 0 <= j < |f.columns| && f.columns[j].name in dateCols
      ensures g.columns[j] == Coerce(f.columns[j], ToDatetime, conv)
    {
      DateColumnCoercedOnce(f.columns[j], dateCols, conv);
    }
    forall j, dt | 0 <= j < |f.columns| && (f.columns[j].name, dt) in dtypeMap
      ensures g.columns[j] == Coerce(f.columns[j], Dispatch(dt).value, conv) && g.columns[j].dtype == dt
    {
      var col := f.columns[j];
      var i :| 0 <= i < |dtypeMap| && dtypeMap[i] == (col.name, dt);
      assert col.name in Keys(dtypeMap) by {
        assert Keys(dtypeMap)[i] == col.name;
      }
      assert col.name !in dateCols;
      DtypeColumnDispatched(col, dtypeMap, dt, conv);
    }
  }

  /** The body of the batch loop up to the writes: the datetime pass, then the dtype pass. */
  method CoerceBatch(df: Frame, dateCols: seq<string>, dtypeMap: seq<(string, string)>, conv: (Conversion, Cell) -> Cell)
    returns (out: Frame)
    ensures out == CoercedWith(df, dateCols, dtypeMap, conv)
  {
    out := CoerceDates(df, dateCols, conv);
    out := EnforceDtypes(out, dtypeMap, conv);
  }

  // ---------------------------------------------------------------- the batch protocol

  /** Rows over a sequence of batches. */
  function TotalRows(fs: seq<Frame>): nat
  {
    if fs == [] then 0 else TotalRows(fs[..|fs| - 1]) + fs[|fs| - 1].rows
  }

  lemma TotalRowsSnoc(fs: seq<Frame>, f: Frame)
    ensures TotalRows(fs + [f]) == TotalRows(fs) + f.rows
  {
    assert (fs + [f])[..|fs|] == fs;
  }

  /** Every batch coerced, in stream order. */
  function CoercedBatches(batches: seq<Frame>, dateCols: seq<string>, dtypeMap: seq<(string, string)>,
                          conv: (Conversion, Cell) -> Cell): (cs: seq<Frame>)
    ensures |cs| == |batches|
    ensures forall i :: 0 <= i < |cs| ==> cs[i] == CoercedWith(batches[i], dateCols, dtypeMap, conv)
  {
    seq(|batches|, i requires 0 <= i < |batches| => CoercedWith(batches[i], dateCols, dtypeMap, conv))
  }

  /**
   * The `to_sql` calls of the batch loop: when there is a first batch, one
   * schema-only `replace`, then one `append` per batch in stream order.
   */
  function IngestCalls(name: string, fs: seq<Frame>): seq<SqlCall>
  {
    if fs == [] then []
    else [SqlCall(name, Replace, 0)] + seq(|fs|, i requires 0 <= i < |fs| => SqlCall(name, Append, fs[i].rows))
  }

  /** The table the batch loop leaves: the first batch's schema, its empty head, then every batch. */
  function IngestedTable(fs: seq<Frame>): Table
    requires fs != []
  {
    Table(Schema(fs[0]), [Head0(fs[0])] + fs)
  }

  /** How many `replace` calls a log holds. */
  function ReplaceCount(calls: seq<SqlCall>): nat
  {
    if calls == [] then 0
    else ReplaceCount(calls[..|calls| - 1]) + (if calls[|calls| - 1].ifExists == Replace then 1 else 0)
  }

  /** Rows written by the `append` calls of a log. */
  function AppendedRows(calls: seq<SqlCall>): nat
  {
    if calls == [] then 0
    else AppendedRows(calls[..|calls| - 1]) + (if calls[|calls| - 1].ifExists == Append then calls[|calls| - 1].rows else 0)
  }

  /** The first batch brings the schema-only replace and its own append. */
  lemma IngestCallsFirst(name: string, f: Frame)
    ensures IngestCalls(name, [f]) == [SqlCall(name, Replace, 0), SqlCall(name, Append, f.rows)]
  {
  }

  /** Every later batch brings one append. */
  lemma IngestCallsSnoc(name: string, fs: seq<Frame>, f: Frame)
    requires fs != []
    ensures IngestCalls(name, fs + [f]) == IngestCalls(name, fs) + [SqlCall(name, Append, f.rows)]
  {
    var g := fs + [f];
    assert seq(|g|, i requires 0 <= i < |g| => SqlCall(name, Append, g[i].rows))
        == seq(|fs|, i requires 0 <= i < |fs| => SqlCall(name, Append, fs[i].rows)) + [SqlCall(name, Append, f.rows)];
  }

  lemma ReplaceCountSnoc(calls: seq<SqlCall>, c: SqlCall)
    ensures ReplaceCount(calls + [c]) == ReplaceCount(calls) + (if c.ifExists == Replace then 1 else 0)
  {
    assert (calls + [c])[..|calls|] == calls;
  }

  lemma AppendedRowsSnoc(calls: seq<SqlCall>, c: SqlCall)
    ensures AppendedRows(calls + [c]) == AppendedRows(calls) + (if c.ifExists == Append then c.rows else 0)
  {
    assert (calls + [c])[..|calls|] == calls;
  }

  /** A stream with batches brings exactly one `replace`; an empty one brings none. */
  lemma {:induction false} ReplaceOnce(name: string, fs: seq<Frame>)
    ensures ReplaceCount(IngestCalls(name, fs)) == (if fs == [] then 0 else 1)
  {
    if fs != [] {
      var init := fs[..|fs| - 1];
      var f := fs[|fs| - 1];
      var last := SqlCall(name, Append, f.rows);
      var create := SqlCall(name, Replace, 0);
      assert init + [f] == fs;
      if init == [] {
        IngestCallsFirst(name, f);
        ReplaceCountSnoc([], create);
        ReplaceCountSnoc([create], last);
        assert [] + [create] == [create] && [create] + [last] == [create, last];
      } else {
        ReplaceOnce(name, init);
        IngestCallsSnoc(name, init, f);
        ReplaceCountSnoc(IngestCalls(name, init), last);
      }
    }
  }

  /**
   * The table is replaced exactly once, by the first call, schema only, and
   * only when there is a batch; every other call appends. With no batches
   * nothing is called at all.
   */
  lemma CreateOnceThenAppend(name: string, fs: seq<Frame>)
    ensures var calls := IngestCalls(name, fs);
      && (fs == [] ==> calls == [])
      && (fs != [] ==> |calls| == |fs| + 1 && calls[0] == SqlCall(name, Replace, 0))
      && ReplaceCount(calls) == (if fs == [] then 0 else 1)
      && (forall i :: 1 <= i < |calls| ==> calls[i].ifExists == Append)
  {
    ReplaceOnce(name, fs);
  }

  /** Batch `i` is appended by call `i + 1`, with its own row count: each batch once, in stream order. */
  lemma AppendsInStreamOrder(name: string, fs: seq<Frame>)
    ensures forall i :: 0 <= i < |fs| ==> |IngestCalls(name, fs)| > i + 1 && IngestCalls(name, fs)[i + 1] == SqlCall(name, Append, fs[i].rows)
  {
  }

  /** The appended rows add up to the rows of all batches. */
  lemma {:induction false} AppendedRowsTotal(name: string, fs: seq<Frame>)
    ensures AppendedRows(IngestCalls(name, fs)) == TotalRows(fs)
  {
    if fs != [] {
      var init := fs[..|fs| - 1];
      var f := fs[|fs| - 1];
      var last := SqlCall(name, Append, f.rows);
      var create := SqlCall(name, Replace, 0);
      assert init + [f] == fs;
      if init == [] {
        IngestCallsFirst(name, f);
        AppendedRowsSnoc([], create);
        AppendedRowsSnoc([create], last);
        assert [] + [create] == [create] && [create] + [last] == [create, last];
      } else {
        AppendedRowsTotal(name, init);
        IngestCallsSnoc(name, init, f);
        AppendedRowsSnoc(IngestCalls(name, init), last);
      }
    }
  }

  /** Coercion never changes a batch's row count, so the coerced stream has as many rows as the raw one. */
  lemma {:induction false} CoercedRows(batches: seq<Frame>, dateCols: seq<string>, dtypeMap: seq<(string, string)>,
                                       conv: (Conversion, Cell) -> Cell)
    ensures TotalRows(CoercedBatches(batches, dateCols, dtypeMap, conv)) == TotalRows(batches)
  {
    if batches != [] {
      var init := batches[..|batches| - 1];
      CoercedRows(init, dateCols, dtypeMap, conv);
      assert CoercedBatches(batches, dateCols, dtypeMap, conv)[..|batches| - 1] == CoercedBatches(init, dateCols, dtypeMap, conv);
    }
  }

  /** The tables after the batch loop has written the batches `fs`. */
  function TablesAfter(tables: map<string, Table>, name: string, fs: seq<Frame>): map<string, Table>
  {
    if fs == [] then tables else tables[name := IngestedTable(fs)]
  }

  /**
   * The writes for the first batch: creating the table from the batch's empty
   * head and then appending the batch leaves the tables and the call log of a
   * one-batch stream.
   */
  lemma FirstBatchWrites(tables: map<string, Table>, log: seq<SqlCall>, name: string, f: Frame)
    ensures var created := tables[name := Written(tables, name, Head0(f), Replace)];
      created[name := Written(created, name, f, Append)] == TablesAfter(tables, name, [f])
    ensures log + [SqlCall(name, Replace, 0)] + [SqlCall(name, Append, f.rows)] == log + IngestCalls(name, [f])
  {
    IngestCallsFirst(name, f);
    var created := tables[name := Written(tables, name, Head0(f), Replace)];
    assert created[name] == Table(Schema(f), [Head0(f)]);
    assert Written(created, name, f, Append) == Table(Schema(f), [Head0(f), f]);
    assert [Head0(f)] + [f] == [Head0(f), f];
  }

  /**
   * The writes for a later batch: appending it to the table of the batches
   * before leaves the tables and the call log of the longer stream.
   */
  lemma NextBatchWrites(tables: map<string, Table>, log: seq<SqlCall>, name: string, fs: seq<Frame>, f: Frame)
    requires fs != []
    ensures var before := TablesAfter(tables, name, fs);
      before[name := Written(before, name, f, Append)] == TablesAfter(tables, name, fs + [f])
    ensures log + IngestCalls(name, fs) + [SqlCall(name, Append, f.rows)] == log + IngestCalls(name, fs + [f])
  {
    IngestCallsSnoc(name, fs, f);
    var g := fs + [f];
    assert g[0] == fs[0];
    assert [Head0(fs[0])] + g == [Head0(fs[0])] + fs + [f];
  }

  /**
   * The writes for one batch: when it is the first batch, create the table from
   * its empty head with `replace`, then append the batch. `written` are the
   * batches written before it.
   */
  method WriteBatch(db: Database, name: string, df: Frame, first: bool,
                    ghost tables: map<string, Table>, ghost log: seq<SqlCall>, ghost written: seq<Frame>)
    requires first <==> written == []
    requires db.calls == log + IngestCalls(name, written)
    requires db.tables == TablesAfter(tables, name, written)
    modifies db
    ensures db.calls == log + IngestCalls(name, written + [df])
    ensures db.tables == TablesAfter(tables, name, written + [df])
  {
    if first {
      FirstBatchWrites(tables, log, name, df);
      assert written + [df] == [df];
      db.ToSql(name, Head0(df), Replace);
    } else {
      NextBatchWrites(tables, log, name, written, df);
    }
    db.ToSql(name, df, Append);
  }

  /**
   * The batch loop: each batch read counts towards the progress bar, is coerced
   * by `dateCols` and `dtypeMap`, and is written to `tableName`.
   */
  method IngestBatches(db: Database, tableName: string, dateCols: seq<string>, dtypeMap: seq<(string, string)>,
                       batches: seq<Frame>, conv: (Conversion, Cell) -> Cell)
    returns (progress: nat)
    modifies db
    ensures progress == TotalRows(batches)
    ensures db.calls == old(db.calls) + IngestCalls(tableName, CoercedBatches(batches, dateCols, dtypeMap, conv))
    ensures db.tables == TablesAfter(old(db.tables), tableName, CoercedBatches(batches, dateCols, dtypeMap, conv))
  {
    ghost var coerced := CoercedBatches(batches, dateCols, dtypeMap, conv);
    var first := true;
    progress := 0;
    for i := 0 to |batches|
      invariant first <==> i == 0
      invariant progress == TotalRows(batches[..i])
      invariant db.calls == old(db.calls) + IngestCalls(tableName, coerced[..i])
      invariant db.tables == TablesAfter(old(db.tables), tableName, coerced[..i])
    {
      TakeSnoc(batches, i);
      TakeSnoc(coerced, i);
      TotalRowsSnoc(batches[..i], batches[i]);
      progress := progress + batches[i].rows;
      var df := CoerceBatch(batches[i], dateCols, dtypeMap, conv);
      WriteBatch(db, tableName, df, first, old(db.tables), old(db.calls), coerced[..i]);
      first := false;
    }
    assert batches[..|batches|] == batches;
    assert coerced[..|coerced|] == coerced;
  }

  /**
   * `run(year, month, ...)` from the moment the parquet file is open: `batches`
   * is what `iter_batches` yields and `progress` is the progress bar's count.
   * With no batch nothing is written; otherwise the month's table holds the
   * first batch's schema, its empty head and every coerced batch.
   */
  method Run(db: Database, year: int, month: int, batches: seq<Frame>, conv: (Conversion, Cell) -> Cell)
    returns (progress: nat)
    modifies db
    ensures progress == TotalRows(batches)
    ensures db.calls == old(db.calls) + IngestCalls(TableName(year, month), CoercedBatches(batches, DATE_COLS, DTYPE_MAP, conv))
    ensures batches == [] ==> db.tables == old(db.tables)
    ensures batches != [] ==>
      db.tables == old(db.tables)[TableName(year, month) := IngestedTable(CoercedBatches(batches, DATE_COLS, DTYPE_MAP, conv))]
  {
    var tableName := TableName(year, month);
    progress := IngestBatches(db, tableName, DATE_COLS, DTYPE_MAP, batches, conv);
  }
}
