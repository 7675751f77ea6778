/** Schema resolution: the column-rename dictionary built from the mapping
    table and the check that it covers the four required fields
    (fuel_trims.py lines 21 and 46-56). */
module Schema {
  import opened Wrappers

  /** REQUIRED_COLUMNS, in its declared order. */
  const RequiredColumns: seq<string> := ["MAP_mbar", "RPM", "STFT", "LTFT"]

  /** The mapping table as read from its CSV: every header name with the
      cells of that column, top to bottom. */
  datatype MappingTable = MappingTable(columns: map<string, seq<string>>)

  datatype SchemaError =
    | MissingMappingColumns                     // no `original` or no `new` column
    | MissingRequiredFields(fields: seq<string>) // required fields no mapping value names

  /** The row-wise pairs `zip(keys, vals)`; stops at the shorter column. */
  function Zip(keys: seq<string>, vals: seq<string>): (ps: seq<(string, string)>)
    ensures |ps| <= |keys| && |ps| <= |vals|
    ensures |ps| == |keys| || |ps| == |vals|
    ensures forall i :: 0 <= i < |ps| ==> ps[i] == (keys[i], vals[i])
  {
    var n := if |keys| < |vals| then |keys| else |vals|;
    seq(n, i requires 0 <= i < n => (keys[i], vals[i]))
  }

  /** `dict(pairs)`: pairs are inserted in order, so a later pair overwrites
      an earlier one with the same key. */
  function DictOf(ps: seq<(string, string)>): (m: map<string, string>)
    ensures ps == [] ==> m == map[]
    ensures ps != [] ==> ps[|ps| - 1].0 in m && m[ps[|ps| - 1].0] == ps[|ps| - 1].1
  {
    if ps == [] then map[]
    else
      var last := ps[|ps| - 1];
      DictOf(ps[..|ps| - 1])[last.0 := last.1]
  }

  /** The keys of `dict(pairs)` are exactly the first components of the pairs. */
  lemma {:induction false} DictOfKeys(ps: seq<(string, string)>, k: string)
    ensures k in DictOf(ps) <==> exists i :: 0 <= i < |ps| && ps[i].0 == k
  {
    if ps != [] {
      var init := ps[..|ps| - 1];
      DictOfKeys(init, k);
      if k in DictOf(init) {
        var i :| 0 <= i < |init| && init[i].0 == k;
        assert ps[i].0 == k;
      }
      if exists i :: 0 <= i < |ps| && ps[i].0 == k {
        var i :| 0 <= i < |ps| && ps[i].0 == k;
        if i < |init| {
          assert init[i].0 == k;
        }
      }
    }
  }

  /** Last one wins: the value for a key is the one in its last pair. */
  lemma {:induction false} DictOfLastWins(ps: seq<(string, string)>, i: nat)
    requires i < |ps|
    requires forall j :: i < j < |ps| ==> ps[j].0 != ps[i].0
    ensures ps[i].0 in DictOf(ps) && DictOf(ps)[ps[i].0] == ps[i].1
  {
    if i < |ps| - 1 {
      var init := ps[..|ps| - 1];
      assert init[i] == ps[i];
      DictOfLastWins(init, i);
    }
  }

  /** Every value of `dict(pairs)` is the second component of some pair. */
  lemma {:induction false} DictOfValues(ps: seq<(string, string)>, v: string)
    requires v in DictOf(ps).Values
    ensures exists i :: 0 <= i < |ps| && ps[i].1 == v
  {
    var init := ps[..|ps| - 1];
    var last := ps[|ps| - 1];
    if v == last.1 {
      assert ps[|ps| - 1].1 == v;
    } else {
      var k :| k in DictOf(ps) && DictOf(ps)[k] == v;
      assert k != last.0;
      assert k in DictOf(init) && DictOf(init)[k] == v;
      DictOfValues(init, v);
      var i :| 0 <= i < |init| && init[i].1 == v;
      assert ps[i].1 == v;
    }
  }

  /** `a` occurs in `b` in order, possibly with gaps. */
  predicate IsSubsequence<T(==)>(a: seq<T>, b: seq<T>)
    decreases |b|
  {
    if a == [] then true
    else if b == [] then false
    else (a[0] == b[0] && IsSubsequence(a[1..], b[1..])) || IsSubsequence(a, b[1..])
  }

  /** `[f for f in fields if f not in present]`: the fields that `present`
      lacks, in the order of `fields`. */
  function Absent(fields: seq<string>, present: set<string>): (r: seq<string>)
    ensures forall f :: f in r <==> f in fields && f !in present
    ensures IsSubsequence(r, fields)
  {
    if fields == [] then []
    else
      var rest := Absent(fields[1..], present);
      if fields[0] in present then rest else [fields[0]] + rest
  }

  /** Both header names the resolver looks up are present. */
  predicate HasMappingColumns(t: MappingTable)
  {
    "original" in t.columns && "new" in t.columns
  }

  /** `dict(zip(df_map['original'], df_map['new']))`. */
  function ColumnMapping(t: MappingTable): (m: map<string, string>)
    requires HasMappingColumns(t)
    ensures forall k :: k in m ==> k in t.columns["original"]
    ensures forall v :: v in m.Values ==> v in t.columns["new"]
  {
    var ps := Zip(t.columns["original"], t.columns["new"]);
    forall k | k in DictOf(ps)
      ensures k in t.columns["original"]
    {
      DictOfKeys(ps, k);
    }
    forall v | v in DictOf(ps).Values
      ensures v in t.columns["new"]
    {
      DictOfValues(ps, v);
    }
    DictOf(ps)
  }

  /** A header named in several rows of the table is renamed by its last
      row, as `dict()` keeps the last value for a repeated key. */
  lemma ColumnMappingLastWins(t: MappingTable, i: nat)
    requires HasMappingColumns(t)
    requires i < |t.columns["original"]| && i < |t.columns["new"]|
    requires forall j :: i < j < |t.columns["original"]| && j < |t.columns["new"]| ==>
      t.columns["original"][j] != t.columns["original"][i]
    ensures t.columns["original"][i] in ColumnMapping(t)
    ensures ColumnMapping(t)[t.columns["original"][i]] == t.columns["new"][i]
  {
    var ps := Zip(t.columns["original"], t.columns["new"]);
    assert ps[i] == (t.columns["original"][i], t.columns["new"][i]);
    DictOfLastWins(ps, i);
  }

  /** The dictionary renames exactly the `original` cells of the rows that
      `zip` pairs with a `new` cell. */
  lemma ColumnMappingKeys(t: MappingTable, k: string)
    requires HasMappingColumns(t)
    ensures k in ColumnMapping(t) <==>
      exists i :: 0 <= i < |t.columns["original"]| && i < |t.columns["new"]| && t.columns["original"][i] == k
  {
    var ps := Zip(t.columns["original"], t.columns["new"]);
    DictOfKeys(ps, k);
    if exists i :: 0 <= i < |t.columns["original"]| && i < |t.columns["new"]| && t.columns["original"][i] == k {
      var i :| 0 <= i < |t.columns["original"]| && i < |t.columns["new"]| && t.columns["original"][i] == k;
      assert ps[i].0 == k;
    }
  }

  /** Builds the rename dictionary and refuses a table without both header
      names or a dictionary whose values miss a required field. */
  function ResolveMapping(t: MappingTable): (r: Result<map<string, string>, SchemaError>)
    ensures r == Failure(MissingMappingColumns) <==> !HasMappingColumns(t)
    ensures r.Success? ==> r.value == ColumnMapping(t)
    ensures r.Success? ==> forall f :: f in RequiredColumns ==> f in r.value.Values
    ensures r.Failure? && r.error.MissingRequiredFields? ==>
      && r.error.fields != []
      && IsSubsequence(r.error.fields, RequiredColumns)
      && forall f :: f in r.error.fields <==> f in RequiredColumns && f !in ColumnMapping(t).Values
  {
    if !HasMappingColumns(t) then Failure(MissingMappingColumns)
    else
      var m := ColumnMapping(t);
      var missing := Absent(RequiredColumns, m.Values);
      if missing != [] then Failure(MissingRequiredFields(missing)) else Success(m)
  }

  /** Resolution succeeds exactly when both header names are present and
      every required field is a value of the dictionary. */
  lemma ResolveSucceeds(t: MappingTable)
    ensures ResolveMapping(t).Success? <==>
      HasMappingColumns(t) && forall f :: f in RequiredColumns ==> f in ColumnMapping(t).Values
  {
    if HasMappingColumns(t) && forall f :: f in RequiredColumns ==> f in ColumnMapping(t).Values {
      var missing := Absent(RequiredColumns, ColumnMapping(t).Values);
      if missing != [] {
        assert missing[0] in missing;
      }
    }
  }

  /** The new name of one header under the rename dictionary; names the
      dictionary does not mention are kept. */
  function Renamed(c: string, m: map<string, string>): string
  {
    if c in m then m[c] else c
  }

  /** `df_log.rename(columns=m)` applied to the header. */
  function RenameColumns(cols: seq<string>, m: map<string, string>): (r: seq<string>)
    ensures |r| == |cols|
  {
    seq(|cols|, i requires 0 <= i < |cols| => Renamed(cols[i], m))
  }

  /** A name is in the renamed header iff some header is renamed to it, or
      carries it and is not renamed. */
  lemma RenamedHeaderHas(cols: seq<string>, m: map<string, string>, f: string)
    ensures f in RenameColumns(cols, m) <==>
      exists c :: c in cols && ((c in m && m[c] == f) || (c !in m && c == f))
  {
    var r := RenameColumns(cols, m);
    if f in r {
      var i :| 0 <= i < |r| && r[i] == f;
      assert cols[i] in cols;
    }
    if exists c :: c in cols && ((c in m && m[c] == f) || (c !in m && c == f)) {
      var c :| c in cols && ((c in m && m[c] == f) || (c !in m && c == f));
      var i :| 0 <= i < |cols| && cols[i] == c;
      assert r[i] == f;
    }
  }
}
