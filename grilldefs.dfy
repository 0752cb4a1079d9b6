// Raw grill definitions (pytboss/grills/__init__.py): the same bundled
// table as in Grills, handed out as decoded JSON without parsing and
// without the status_function test.
module GrillDefs {
  import opened Json
  import Grills

  type Table = Grills.Table

  /** The test of the `get_grills` loop for one definition: kept when no
      board is asked for, else when its control board's name matches. */
  function Matches(grill: Json, board: Option<string>): Result<bool> {
    if board.None? then Ok(true)
    else
      var cb :- Item(grill, "control_board");
      var name :- Item(cb, "name");
      Ok(name == JStr(board.value))
  }

  /** The definitions the generator yields, and the exception that ended
      it early, if any. */
  datatype Listing = Listing(defs: seq<Json>, error: Option<PyError>)

  function ListFrom(table: Table, board: Option<string>): Listing
    decreases |table|
  {
    if table == [] then Listing([], None)
    else
      match Matches(table[0].1, board)
      case Raise(e) => Listing([], Some(e))
      case Ok(false) => ListFrom(table[1..], board)
      case Ok(true) =>
        var rest := ListFrom(table[1..], board);
        Listing([table[0].1] + rest.defs, rest.error)
  }

  /** `get_grills(control_board)`, run to the end (or to the exception). */
  method GetGrills(table: Table, board: Option<string>) returns (defs: seq<Json>, err: Option<PyError>)
    ensures Listing(defs, err) == ListFrom(table, board)
  {
    defs := [];
    var i := 0;
    assert table[0..] == table;
    while i < |table|
      invariant i <= |table|
      invariant var rest := ListFrom(table[i..], board);
        Listing(defs + rest.defs, rest.error) == ListFrom(table, board)
      decreases |table| - i
    {
      assert table[i..][0] == table[i] && table[i..][1..] == table[i + 1..];
      var keep := Matches(table[i].1, board);
      if keep.Raise? {
        return defs, Some(keep.error);
      }
      if keep.value {
        assert defs + ([table[i].1] + ListFrom(table[i + 1..], board).defs)
          == (defs + [table[i].1]) + ListFrom(table[i + 1..], board).defs;
        defs := defs + [table[i].1];
      }
      i := i + 1;
    }
    err := None;
  }

  function Values(table: Table): (r: seq<Json>)
    ensures |r| == |table|
    ensures forall k :: 0 <= k < |table| ==> r[k] == table[k].1
  {
    seq(|table|, k requires 0 <= k < |table| => table[k].1)
  }

  /** Without a board every definition comes out, in table order, and
      nothing is ever looked into (so nothing can raise). */
  lemma {:induction false} AllWithoutBoard(table: Table)
    ensures ListFrom(table, None) == Listing(Values(table), None)
    decreases |table|
  {
    if table != [] {
      AllWithoutBoard(table[1..]);
      assert Values(table) == [table[0].1] + Values(table[1..]);
    }
  }

  /** The entries whose board is the named one. */
  function OnBoard(table: Table, name: string): (r: seq<Json>)
    requires forall k :: 0 <= k < |table| ==> Grills.WellFormedEntry(table[k].1)
    ensures |r| <= |table|
    decreases |table|
  {
    if table == [] then []
    else
      assert Grills.WellFormedEntry(table[0].1);
      var cb := table[0].1.fields["control_board"].fields;
      (if cb["name"] == JStr(name) then [table[0].1] else []) + OnBoard(table[1..], name)
  }

  /** With a board and a well-formed table, exactly the definitions on
      that board come out, in table order. */
  lemma {:induction false} OnlyThatBoard(table: Table, name: string)
    requires forall k :: 0 <= k < |table| ==> Grills.WellFormedEntry(table[k].1)
    ensures ListFrom(table, Some(name)) == Listing(OnBoard(table, name), None)
    decreases |table|
  {
    if table != [] {
      var rest := table[1..];
      assert forall k :: 0 <= k < |rest| ==> rest[k] == table[k + 1];
      OnlyThatBoard(rest, name);
    }
  }

  /** Unlike `Grills.GetGrills`, a definition whose control board has no
      status parser is still listed. */
  lemma ListsWithoutStatusParser(cb: Object)
    ensures var grill := JObj(map["control_board" := JObj(cb - {"status_function"})]);
      ListFrom([("x", grill)], None) == Listing([grill], None) &&
      Grills.GrillsFrom([("x", grill)], None) == Grills.Loading([], None)
  {
    var grill := JObj(map["control_board" := JObj(cb - {"status_function"})]);
    assert Grills.Selects(grill, None) == Ok(false);
    assert ([("x", grill)])[1..] == [];
  }

  /** `get_grill(name)`: the stored definition, or an empty dict for an
      unknown name. */
  function GetGrill(table: Table, name: string): (r: Json)
    ensures Grills.Find(table, name).Some? ==> r == Grills.Find(table, name).value
    ensures Grills.Find(table, name).None? ==> r == JObj(map[])
  {
    match Grills.Find(table, name)
    case Some(d) => d
    case None => JObj(map[])
  }

  /** A listed name gives back its own definition (in a table with each
      name once); an unlisted one gives `{}` where `Grills.GetGrill`
      raises. */
  lemma GetGrillLookups(table: Table, k: nat, name: string)
    requires Grills.UniqueNames(table) && k < |table|
    requires forall j :: 0 <= j < |table| ==> table[j].0 != name
    ensures GetGrill(table, table[k].0) == table[k].1
    ensures GetGrill(table, name) == JObj(map[])
    ensures Grills.GetGrill(table, name) == Raise(InvalidGrill(name))
  {
    FindUnique(table, k);
  }

  lemma {:induction false} FindUnique(table: Table, k: nat)
    requires Grills.UniqueNames(table) && k < |table|
    ensures Grills.Find(table, table[k].0) == Some(table[k].1)
    decreases k
  {
    if k > 0 {
      var rest := table[1..];
      assert rest[k - 1] == table[k];
      assert Grills.UniqueNames(rest) by {
        forall a, b | 0 <= a < b < |rest| ensures rest[a].0 != rest[b].0 {
          assert rest[a] == table[a + 1] && rest[b] == table[b + 1];
        }
      }
      FindUnique(rest, k - 1);
      assert table[0].0 != table[k].0;
    }
  }
}
