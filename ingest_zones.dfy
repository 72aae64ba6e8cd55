/**
 * The taxi-zone lookup loader: read the zone CSV, normalise its column names
 * (lower case, spaces to underscores) and write it to the `taxi_zones` table,
 * replacing whatever was there.
 */
module IngestZones {
  import opened Tabular

  const ZONES_CSV := "data/raw/taxi_zone_lookup.csv"
  const ZONES_TABLE := "taxi_zones"

  predicate IsUpper(c: char)
  {
    'A' <= c <= 'Z'
  }

  /** `str.lower()` on one character, for the ASCII letters. */
  function LowerChar(c: char): (d: char)
    ensures IsUpper(c) ==> d as int == c as int + 32 && 'a' <= d <= 'z'
    ensures !IsUpper(c) ==> d == c
  {
    if IsUpper(c) then (c as int + 32) as char else c
  }

  /** What normalisation does to one character. */
  function NormalizeChar(c: char): char
  {
    if c == ' ' then '_' else LowerChar(c)
  }

  /** `str.lower()`, character by character. */
  function Lower(s: string): string
  {
    if s == [] then [] else [LowerChar(s[0])] + Lower(s[1..])
  }

  /** `str.replace(' ', '_')`. */
  function ReplaceSpaces(s: string): string
  {
    if s == [] then [] else [if s[0] == ' ' then '_' else s[0]] + ReplaceSpaces(s[1..])
  }

  /** One column name as the loader rewrites it: lower case first, then spaces to underscores. */
  function NormalizeName(s: string): string
  {
    ReplaceSpaces(Lower(s))
  }

  /** The `.str` accessor applied to the whole column index, name by name. */
  function NormalizeColumns(names: seq<string>): seq<string>
  {
    if names == [] then [] else [NormalizeName(names[0])] + NormalizeColumns(names[1..])
  }

  lemma {:induction false} LowerPointwise(s: string)
    ensures |Lower(s)| == |s|
    ensures forall i :: 0 <= i < |s| ==> Lower(s)[i] == LowerChar(s[i])
  {
    if s != [] {
      LowerPointwise(s[1..]);
    }
  }

  lemma {:induction false} ReplaceSpacesPointwise(s: string)
    ensures |ReplaceSpaces(s)| == |s|
    ensures forall i :: 0 <= i < |s| ==> ReplaceSpaces(s)[i] == (if s[i] == ' ' then '_' else s[i])
  {
    if s != [] {
      ReplaceSpacesPointwise(s[1..]);
    }
  }

  /**
   * Normalisation keeps the length and works character by character: an
   * uppercase ASCII letter becomes its lowercase form, a space becomes `_`, and
   * every other character is kept as it is.
   */
  lemma NormalizePointwise(s: string)
    ensures |NormalizeName(s)| == |s|
    ensures forall i :: 0 <= i < |s| ==> NormalizeName(s)[i] == NormalizeChar(s[i])
    ensures forall i :: 0 <= i < |s| && !IsUpper(s[i]) && s[i] != ' ' ==> NormalizeName(s)[i] == s[i]
  {
    LowerPointwise(s);
    ReplaceSpacesPointwise(Lower(s));
  }

  /** A normalised name contains no space and no ASCII uppercase letter. */
  lemma NormalizedIsClean(s: string)
    ensures ' ' !in NormalizeName(s)
    ensures forall i :: 0 <= i < |NormalizeName(s)| ==> !IsUpper(NormalizeName(s)[i])
  {
    NormalizePointwise(s);
  }

  /** A name that has no space and no uppercase ASCII letter is left alone. */
  lemma NormalizeFixesClean(s: string)
    requires ' ' !in s
    requires forall i :: 0 <= i < |s| ==> !IsUpper(s[i])
    ensures NormalizeName(s) == s
  {
    NormalizePointwise(s);
  }

  /** Normalising twice gives what normalising once gives. */
  lemma NormalizeIdempotent(s: string)
    ensures NormalizeName(NormalizeName(s)) == NormalizeName(s)
  {
    NormalizedIsClean(s);
    NormalizeFixesClean(NormalizeName(s));
  }

  /** Lowering and replacing spaces commute, so the order the loader picks does not matter. */
  lemma NormalizeOrderIrrelevant(s: string)
    ensures Lower(ReplaceSpaces(s)) == NormalizeName(s)
  {
    NormalizePointwise(s);
    ReplaceSpacesPointwise(s);
    LowerPointwise(ReplaceSpaces(s));
  }

  /** The column count and order survive: the i-th new name is the normalised i-th old name. */
  lemma {:induction false} NormalizeColumnsPointwise(names: seq<string>)
    ensures |NormalizeColumns(names)| == |names|
    ensures forall i :: 0 <= i < |names| ==> NormalizeColumns(names)[i] == NormalizeName(names[i])
  {
    if names != [] {
      NormalizeColumnsPointwise(names[1..]);
    }
  }

  /**
   * `df.columns = ...`: the frame with every column renamed; dtypes, cells and
   * the row count are untouched.
   */
  function Rename(f: Frame): (g: Frame)
    ensures g.rows == f.rows && |g.columns| == |f.columns|
    ensures Names(g) == NormalizeColumns(Names(f))
    ensures forall j :: 0 <= j < |g.columns| ==>
      g.columns[j].dtype == f.columns[j].dtype && g.columns[j].cells == f.columns[j].cells
  {
    NormalizeColumnsPointwise(Names(f));
    Frame(seq(|f.columns|, j requires 0 <= j < |f.columns| => f.columns[j].(name := NormalizeName(f.columns[j].name))), f.rows)
  }

  /** Renaming is idempotent: renaming an already renamed frame changes nothing. */
  lemma RenameIdempotent(f: Frame)
    ensures Rename(Rename(f)) == Rename(f)
  {
    var g := Rename(f);
    forall j | 0 <= j < |g.columns|
      ensures Rename(g).columns[j] == g.columns[j]
    {
      NormalizeIdempotent(f.columns[j].name);
    }
  }

  /**
   * `run(...)` once the CSV has been read into `zones`: one `replace` write of
   * the renamed frame to `taxi_zones`, and nothing else.
   */
  method Run(db: Database, zones: Frame)
    modifies db
    ensures db.calls == old(db.calls) + [SqlCall(ZONES_TABLE, Replace, zones.rows)]
    ensures db.tables == old(db.tables)[ZONES_TABLE := Table(Schema(Rename(zones)), [Rename(zones)])]
  {
    var df := Rename(zones);
    db.ToSql(ZONES_TABLE, df, Replace);
  }
}
