/** The trainer CSV → JSON converter: a table read from CSV has its columns
    renamed by a fixed map, gains a `password` column copied from
    `trainer_id` and a `topics` column of empty lists, and becomes one
    record per row.  File reading and writing are left out. */
module ConvertTrainer {
  import opened Common

  /** A cell of the table; `Topics` is the per-row list the converter adds. */
  datatype Cell = Text(s: string) | Number(n: int) | Missing | Topics(items: seq<string>)

  /** Column names and rows, every row as wide as the header. */
  datatype Table = Table(columns: seq<string>, rows: seq<seq<Cell>>)

  predicate WellFormed(t: Table)
  {
    forall i :: 0 <= i < |t.rows| ==> |t.rows[i]| == |t.columns|
  }

  type Record = map<string, Cell>

  /** column_mapping: the new name of one column. */
  function RenameColumn(c: string): (r: string)
    ensures c == "Id" ==> r == "trainer_id"
    ensures c == "Full name" ==> r == "name"
    ensures c == "Domain" ==> r == "domain"
    ensures c == "Specialization" ==> r == "specialisation"
    ensures c !in {"Id", "Full name", "Domain", "Specialization"} ==> r == c
  {
    if c == "Id" then "trainer_id"
    else if c == "Full name" then "name"
    else if c == "Domain" then "domain"
    else if c == "Specialization" then "specialisation"
    else c  // "email" maps to itself
  }

  function RenameAll(cs: seq<string>): (r: seq<string>)
    ensures |r| == |cs| && forall i :: 0 <= i < |cs| ==> r[i] == RenameColumn(cs[i])
  {
    seq(|cs|, i requires 0 <= i < |cs| => RenameColumn(cs[i]))
  }

  /** Positions of a column name. */
  function Positions(cs: seq<string>, c: string): (r: seq<nat>)
    ensures forall k :: 0 <= k < |r| ==> r[k] < |cs| && cs[r[k]] == c
    ensures forall j :: 0 <= j < |cs| && cs[j] == c ==> j in r
  {
    if cs == [] then []
    else
      var rest := Positions(cs[..|cs| - 1], c);
      if cs[|cs| - 1] == c then rest + [|cs| - 1] else rest
  }

  /** `df[name] = values`: overwrites every column of that name, or appends
      the column when there is none. */
  function SetColumn(t: Table, name: string, values: seq<Cell>): (r: Table)
    requires WellFormed(t) && |values| == |t.rows|
    ensures WellFormed(r) && |r.rows| == |t.rows|
    ensures name in t.columns ==> r.columns == t.columns
    ensures name !in t.columns ==> r.columns == t.columns + [name]
    ensures forall i, j :: 0 <= i < |r.rows| && 0 <= j < |r.columns| ==>
      r.rows[i][j] == if r.columns[j] == name then values[i] else t.rows[i][j]
  {
    if name in t.columns then
      Table(t.columns, seq(|t.rows|, i requires 0 <= i < |t.rows| =>
        seq(|t.columns|, j requires 0 <= j < |t.columns| =>
          if t.columns[j] == name then values[i] else t.rows[i][j])))
    else
      Table(t.columns + [name], seq(|t.rows|, i requires 0 <= i < |t.rows| => t.rows[i] + [values[i]]))
  }

  /** `to_dict(orient="records")` of one row: a later column of the same
      name wins. */
  function RowRecord(cs: seq<string>, row: seq<Cell>): (r: Record)
    requires |row| == |cs|
    ensures r.Keys == set c | c in cs
  {
    if cs == [] then map[]
    else RowRecord(cs[..|cs| - 1], row[..|cs| - 1])[cs[|cs| - 1] := row[|cs| - 1]]
  }

  /** A name found at one position only is at no other. */
  lemma OnlyPosition(cs: seq<string>, c: string, k: nat)
    requires |Positions(cs, c)| == 1 && k < |cs| && k != Positions(cs, c)[0]
    ensures cs[k] != c
  {
    var ps := Positions(cs, c);
    assert ps == [ps[0]];
  }

  /** The value a record holds for a column named once. */
  lemma {:induction false} RecordOfUnique(cs: seq<string>, row: seq<Cell>, j: nat)
    requires |row| == |cs| && j < |cs|
    requires forall k :: 0 <= k < |cs| && k != j ==> cs[k] != cs[j]
    ensures RowRecord(cs, row)[cs[j]] == row[j]
  {
    var n := |cs| - 1;
    if j < n {
      RecordOfUnique(cs[..n], row[..n], j);
    }
  }

  /** The table after the rename and the two derived columns, where p is
      the one position of `trainer_id` after the rename. */
  function Prepared(t: Table, p: nat): (r: Table)
    requires WellFormed(t) && p < |t.columns|
    ensures WellFormed(r) && |r.rows| == |t.rows| && |r.columns| >= |t.columns|
  {
    var renamed := Table(RenameAll(t.columns), t.rows);
    var ids := seq(|t.rows|, i requires 0 <= i < |t.rows| => t.rows[i][p]);
    var withPassword := SetColumn(renamed, "password", ids);
    SetColumn(withPassword, "topics", seq(|t.rows|, _ => Topics([])))
  }

  /** The prepared table's columns: the renamed columns, then whichever
      of `password` and `topics` they lack. */
  function DerivedColumns(cs: seq<string>): (r: seq<string>)
    ensures |r| >= |cs| && r[..|cs|] == RenameAll(cs)
    ensures "password" in r && "topics" in r
    ensures forall j :: |cs| <= j < |r| ==> r[j] == "password" || r[j] == "topics"
  {
    var rn := RenameAll(cs);
    var withPassword := if "password" in rn then rn else rn + ["password"];
    if "topics" in withPassword then withPassword else withPassword + ["topics"]
  }

  lemma PreparedColumns(t: Table, p: nat)
    requires WellFormed(t) && p < |t.columns|
    ensures Prepared(t, p).columns == DerivedColumns(t.columns)
  {
  }

  /** A row of the prepared table: every `topics` cell an empty list,
      every `password` cell the row's id, every other cell as read. */
  lemma PreparedRow(t: Table, p: nat, i: nat)
    requires WellFormed(t) && p < |t.columns| && i < |t.rows|
    ensures forall j :: 0 <= j < |Prepared(t, p).columns| ==>
      Prepared(t, p).rows[i][j] == if Prepared(t, p).columns[j] == "topics" then Topics([])
                                   else if Prepared(t, p).columns[j] == "password" then t.rows[i][p]
                                   else if j < |t.columns| then t.rows[i][j] else Missing
  {
    var renamed := Table(RenameAll(t.columns), t.rows);
    var ids := seq(|t.rows|, i requires 0 <= i < |t.rows| => t.rows[i][p]);
    var w := SetColumn(renamed, "password", ids);
    var r := SetColumn(w, "topics", seq(|t.rows|, _ => Topics([])));
    assert r == Prepared(t, p);
    forall j | 0 <= j < |r.columns|
      ensures r.rows[i][j] == if r.columns[j] == "topics" then Topics([])
                              else if r.columns[j] == "password" then t.rows[i][p]
                              else if j < |t.columns| then t.rows[i][j] else Missing
    {
      if j < |w.columns| && r.columns[j] != "topics" {
        assert r.columns[j] == w.columns[j] && r.rows[i][j] == w.rows[i][j];
        if w.columns[j] != "password" {
          assert j < |t.columns| && w.rows[i][j] == t.rows[i][j];
        }
      }
    }
  }

  /** `df.to_dict(orient="records")` of the prepared table. */
  function Records(t: Table, p: nat): (r: seq<Record>)
    requires WellFormed(t) && p < |t.columns|
    ensures |r| == |t.rows|
    ensures forall i :: 0 <= i < |t.rows| ==> r[i] == RowRecord(Prepared(t, p).columns, Prepared(t, p).rows[i])
  {
    var w := Prepared(t, p);
    seq(|t.rows|, i requires 0 <= i < |t.rows| => RowRecord(w.columns, w.rows[i]))
  }

  /** The whole script on a table: Err when `df["trainer_id"]` fails (no
      such column, or several after the rename). */
  function Convert(t: Table): (r: Result<seq<Record>>)
    requires WellFormed(t)
    ensures r.Ok? <==> |Positions(RenameAll(t.columns), "trainer_id")| == 1
    ensures r.Ok? ==> r.value == Records(t, Positions(RenameAll(t.columns), "trainer_id")[0])
  {
    var ps := Positions(RenameAll(t.columns), "trainer_id");
    if |ps| == 0 then Err("KeyError: 'trainer_id'")
    else if |ps| > 1 then Err("ValueError: cannot set a column from several columns")
    else Ok(Records(t, ps[0]))
  }

  /** Every record has an empty topic list and the renamed id as its
      password. */
  lemma DerivedFields(t: Table, i: nat)
    requires WellFormed(t) && Convert(t).Ok? && i < |t.rows|
    ensures "topics" in Convert(t).value[i] && Convert(t).value[i]["topics"] == Topics([])
    ensures "password" in Convert(t).value[i] && "trainer_id" in Convert(t).value[i]
    ensures Convert(t).value[i]["password"] == Convert(t).value[i]["trainer_id"]
  {
    var p := Positions(RenameAll(t.columns), "trainer_id")[0];
    var w := Prepared(t, p);
    PreparedColumns(t, p);
    PreparedRow(t, p, i);
    TrainerIdOnce(t, p);
    assert Convert(t).value[i] == RowRecord(w.columns, w.rows[i]);
    assert w.columns[p] == "trainer_id";
    assert w.rows[i][p] == t.rows[i][p];
    RecordOfUnique(w.columns, w.rows[i], p);
    PasswordAndTopics(w.columns, w.rows[i], t.rows[i][p]);
  }

  /** After the derived columns are added, `trainer_id` is still named once. */
  lemma TrainerIdOnce(t: Table, p: nat)
    requires WellFormed(t) && |Positions(RenameAll(t.columns), "trainer_id")| == 1
    requires p == Positions(RenameAll(t.columns), "trainer_id")[0]
    ensures p < |Prepared(t, p).columns| && Prepared(t, p).columns[p] == "trainer_id"
    ensures forall k :: 0 <= k < |Prepared(t, p).columns| && k != p ==> Prepared(t, p).columns[k] != "trainer_id"
  {
    var rn := RenameAll(t.columns);
    var ps := Positions(rn, "trainer_id");
    var cs := DerivedColumns(t.columns);
    PreparedColumns(t, p);
    assert cs[..|t.columns|][p] == rn[p];
    forall k | 0 <= k < |cs| && k != p ensures cs[k] != "trainer_id" {
      if k < |t.columns| {
        assert cs[..|t.columns|][k] == rn[k];
        OnlyPosition(rn, "trainer_id", k);
      }
    }
  }

  /** A column the map leaves alone, named once and not one of the derived
      names, keeps its name and its value in every record. */
  lemma {:induction false} KeptColumn(t: Table, i: nat, j: nat)
    requires WellFormed(t) && Convert(t).Ok? && i < |t.rows| && j < |t.columns|
    requires t.columns[j] !in {"Id", "Full name", "Domain", "Specialization", "trainer_id", "name", "domain", "specialisation", "password", "topics"}
    requires forall k :: 0 <= k < |t.columns| && k != j ==> RenameColumn(t.columns[k]) != t.columns[j]
    ensures t.columns[j] in Convert(t).value[i] && Convert(t).value[i][t.columns[j]] == t.rows[i][j]
  {
    var p := Positions(RenameAll(t.columns), "trainer_id")[0];
    var w := Prepared(t, p);
    var cs := w.columns;
    PreparedColumns(t, p);
    PreparedRow(t, p, i);
    assert cs[j] == t.columns[j] by {
      assert cs[..|t.columns|][j] == RenameAll(t.columns)[j];
    }
    forall k | 0 <= k < |cs| && k != j ensures cs[k] != cs[j] {
      if k < |t.columns| {
        assert cs[..|t.columns|][k] == RenameAll(t.columns)[k];
      }
    }
    RecordOfUnique(cs, w.rows[i], j);
  }

  lemma PasswordAndTopics(cs: seq<string>, row: seq<Cell>, id: Cell)
    requires |row| == |cs| && "password" in cs && "topics" in cs
    requires forall j :: 0 <= j < |cs| && cs[j] == "password" ==> row[j] == id
    requires forall j :: 0 <= j < |cs| && cs[j] == "topics" ==> row[j] == Topics([])
    ensures RowRecord(cs, row)["password"] == id && RowRecord(cs, row)["topics"] == Topics([])
  {
    LastWins(cs, row, "password");
    LastWins(cs, row, "topics");
  }

  /** A record holds, for a name, the value of one of the columns so named. */
  lemma {:induction false} LastWins(cs: seq<string>, row: seq<Cell>, c: string)
    requires |row| == |cs| && c in cs
    ensures exists j :: 0 <= j < |cs| && cs[j] == c && RowRecord(cs, row)[c] == row[j]
  {
    var n := |cs| - 1;
    if cs[n] == c {
      assert RowRecord(cs, row)[c] == row[n];
    } else {
      assert c in cs[..n] by {
        var j :| 0 <= j < |cs| && cs[j] == c;
        assert cs[..n][j] == c;
      }
      LastWins(cs[..n], row[..n], c);
      var j :| 0 <= j < n && cs[..n][j] == c && RowRecord(cs[..n], row[..n])[c] == row[..n][j];
      assert cs[j] == c && RowRecord(cs, row)[c] == row[j];
    }
  }
}
