/**
 * The editable grid of petition rows: its `rows` state, the "Add Row" button
 * appending a blank row, and the "Delete Selected Rows" button dropping the
 * selected rows and sending one remote delete per selected index.
 */
module Dashboard {
  import opened Ranking

  /** A grid row: its `index` and its other fields by name. */
  datatype GridRow = GridRow(index: int, fields: map<string, string>)

  /** The fields a new row is created with, besides `index`. */
  const NewRowFields: seq<string> := [
    "Continuing Approval", "Continuing Denial", "Employer (Petitioner) Name", "Fiscal Year",
    "Industry (NAICS) Code", "Initial Approval", "Initial Denial", "Line by line",
    "Petitioner City", "Petitioner State", "Petitioner Zip Code", "Tax ID"]

  /** The row `addNewRow` builds: the given index and every field of `NewRowFields` empty. */
  function NewRow(index: int): (row: GridRow)
    ensures row.index == index
    ensures row.fields.Keys == set f <- NewRowFields
    ensures forall f <- row.fields.Keys :: row.fields[f] == ""
  {
    GridRow(index, map f <- NewRowFields :: "")
  }

  /** `const newIndex = rows.length + 1`, the index a new row gets. */
  function NewIndex(rows: seq<GridRow>): (index: int)
    ensures index == |rows| + 1 && index >= 1
  {
    |rows| + 1
  }

  /** `selectedRows.some((selected) => selected.index === row.index)`. */
  predicate IndexSelected(selected: seq<GridRow>, index: int) {
    exists s <- selected :: s.index == index
  }

  function KeptOf(selected: seq<GridRow>): GridRow -> bool {
    (row: GridRow) => !IndexSelected(selected, row.index)
  }

  /** `rows.filter(...)`: the rows whose index no selected row shares, in their order. */
  function Remaining(rows: seq<GridRow>, selected: seq<GridRow>): seq<GridRow> {
    Filter(rows, KeptOf(selected))
  }

  /** The indices of the given rows, in the given order. */
  function Indices(rows: seq<GridRow>): (indices: seq<int>)
    ensures |indices| == |rows| && forall i :: 0 <= i < |rows| ==> indices[i] == rows[i].index
  {
    if rows == [] then [] else Indices(rows[..|rows| - 1]) + [rows[|rows| - 1].index]
  }

  /** The `rows` state of the dashboard. */
  class Grid {
    var rows: seq<GridRow>

    /** The grid once its rows are loaded (from the cache or the spreadsheet). */
    constructor (loaded: seq<GridRow>)
      ensures rows == loaded
    {
      rows := loaded;
    }

    /** `addNewRow`: `setRows([...rows, newRow])` with index `rows.length + 1`. */
    method AddNewRow()
      modifies this
      ensures rows == old(rows) + [NewRow(NewIndex(old(rows)))]
    {
      var newIndex := |rows| + 1;
      rows := rows + [NewRow(newIndex)];
    }

    /**
     * `addNewRow` with an index no row uses (see `IndexCollision`): the grid's
     * indices stay distinct.
     */
    method AddFreshRow()
      modifies this
      ensures rows == old(rows) + [NewRow(FreshIndex(old(rows)))]
      ensures DistinctIndices(old(rows)) ==> DistinctIndices(rows)
    {
      if DistinctIndices(rows) {
        FreshIndicesStayDistinct(rows, []);
      }
      rows := rows + [NewRow(FreshIndex(rows))];
    }

    /**
     * `deleteSelectedRows`: keeps the rows whose index matches no selected
     * row's, then issues one remote delete per selected row; `sent` is the
     * sequence of indices those requests carry.
     */
    method DeleteSelectedRows(selected: seq<GridRow>) returns (sent: seq<int>)
      modifies this
      ensures rows == Remaining(old(rows), selected)
      ensures sent == Indices(selected)
    {
      rows := Remaining(rows, selected);
      sent := [];
      for i := 0 to |selected|
        invariant rows == Remaining(old(rows), selected)
        invariant sent == Indices(selected[..i])
      {
        PrefixStep(selected, i);
        sent := sent + [selected[i].index];
      }
      assert selected[..|selected|] == selected;
    }
  }

  // ---------------------------------------------------------------------------
  // Properties

  /**
   * Deleting keeps a row exactly when no selected row has its index, so every
   * row sharing an index with a selected row goes, selected or not; the
   * result is never longer than before.
   */
  lemma RemainingSpec(rows: seq<GridRow>, selected: seq<GridRow>)
    ensures |Remaining(rows, selected)| <= |rows|
    ensures forall r :: r in Remaining(rows, selected) <==> r in rows && forall s <- selected :: s.index != r.index
  {
    FilterMembers(rows, KeptOf(selected));
  }

  /** Deleting keeps the order: the survivors of a front part come before those of the rest. */
  lemma RemainingOrder(front: seq<GridRow>, back: seq<GridRow>, selected: seq<GridRow>)
    ensures Remaining(front + back, selected) == Remaining(front, selected) + Remaining(back, selected)
  {
    FilterConcat(front, back, KeptOf(selected));
  }

  /** With nothing selected, deleting changes nothing. */
  lemma {:induction false} NothingSelected(rows: seq<GridRow>)
    ensures Remaining(rows, []) == rows
  {
    if rows != [] {
      NothingSelected(rows[..|rows| - 1]);
    }
  }

  /** A row added then deleted on its own leaves the rows as they were, when its index was new. */
  lemma AddThenDelete(rows: seq<GridRow>, index: int)
    requires forall r <- rows :: r.index != index
    ensures Remaining(rows + [NewRow(index)], [NewRow(index)]) == rows
  {
    var sel := [NewRow(index)];
    RemainingOrder(rows, [NewRow(index)], sel);
    RemainingSpec(rows, sel);
    assert !KeptOf(sel)(NewRow(index)) by {
      assert sel[0].index == index;
    }
    assert Remaining([NewRow(index)], sel) == [];
    assert Remaining(rows, sel) == rows by {
      KeepAll(rows, sel);
    }
  }

  lemma {:induction false} KeepAll(rows: seq<GridRow>, selected: seq<GridRow>)
    requires forall r <- rows, s <- selected :: s.index != r.index
    ensures Remaining(rows, selected) == rows
  {
    if rows != [] {
      var init, last := rows[..|rows| - 1], rows[|rows| - 1];
      assert forall r <- init :: r in rows;
      KeepAll(init, selected);
      assert last in rows;
      assert KeptOf(selected)(last);
    }
  }

  // ---------------------------------------------------------------------------
  // The new row's index can repeat one in use

  /**
   * Rows 1, 2, 3; deleting row 2 leaves rows 1 and 3, and the next new row
   * gets index 3 again. Selecting just that new row and deleting it then
   * also removes the old row 3 (when the loaded indices are numbers), and the
   * remote delete it sends names index 3.
   */
  lemma IndexCollision()
    ensures var r1, r2, r3 := GridRow(1, map[]), GridRow(2, map[]), GridRow(3, map[]);
      var kept := Remaining([r1, r2, r3], [r2]);
      var added := NewRow(NewIndex(kept));
      && kept == [r1, r3]
      && added.index == r3.index
      && Remaining(kept + [added], [added]) == [r1]
      && Indices([added]) == [3]
  {
    var r1, r2, r3 := GridRow(1, map[]), GridRow(2, map[]), GridRow(3, map[]);
    var rows := [r1, r2, r3];
    assert rows == [r1] + [r2] + [r3];
    RemainingOrder([r1] + [r2], [r3], [r2]);
    RemainingOrder([r1], [r2], [r2]);
    assert KeptOf([r2])(r1) && !KeptOf([r2])(r2) && KeptOf([r2])(r3);
    assert Remaining([r1], [r2]) == [r1];
    assert Remaining([r2], [r2]) == [];
    assert Remaining([r3], [r2]) == [r3];
    var kept := [r1, r3];
    var added := NewRow(3);
    RemainingOrder([r1] + [r3], [added], [added]);
    RemainingOrder([r1], [r3], [added]);
    assert KeptOf([added])(r1) && !KeptOf([added])(r3) && !KeptOf([added])(added);
    assert Remaining([r1], [added]) == [r1];
    assert Remaining([r3], [added]) == [];
    assert Remaining([added], [added]) == [];
    assert [r1] + [r3] == kept;
    assert added.index == 3 && |Indices([added])| == 1;
  }

  /** A lone row whose index a selected row shares is deleted. */
  lemma DropSelected(r: GridRow, selected: seq<GridRow>)
    requires exists s <- selected :: s.index == r.index
    ensures Remaining([r], selected) == []
  {
    assert [r][..0] == [];
    assert IndexSelected(selected, r.index);
    assert !KeptOf(selected)(r);
    assert Remaining([r], selected) == Filter([], KeptOf(selected)) + [];
  }

  /** Deleting the first row removes only it when no other row shares its index. */
  lemma DropHead(r: GridRow, rest: seq<GridRow>)
    requires forall x <- rest :: x.index != r.index
    ensures Remaining([r] + rest, [r]) == rest
  {
    RemainingOrder([r], rest, [r]);
    DropSelected(r, [r]);
    KeepAll(rest, [r]);
  }

  /** Deleting the last of two rows that share an index removes both. */
  lemma DropTwinTail(front: seq<GridRow>, a: GridRow, b: GridRow)
    requires a.index == b.index
    requires forall x <- front :: x.index != b.index
    ensures Remaining(front + [a, b], [b]) == front
  {
    assert front + [a, b] == front + ([a] + [b]);
    RemainingOrder(front, [a] + [b], [b]);
    RemainingOrder([a], [b], [b]);
    DropSelected(a, [b]);
    DropSelected(b, [b]);
    KeepAll(front, [b]);
  }

  /**
   * Without any typing question: rows 1, 2, 3; adding gives row 4; deleting
   * row 1 and adding again gives a second row 4. Deleting that one row then
   * removes both rows 4.
   */
  lemma AddedRowsCollide()
    ensures var r1, r2, r3 := GridRow(1, map[]), GridRow(2, map[]), GridRow(3, map[]);
      var first := NewRow(NewIndex([r1, r2, r3]));
      var kept := Remaining([r1, r2, r3, first], [r1]);
      var second := NewRow(NewIndex(kept));
      && kept == [r2, r3, first]
      && first.index == 4 && second.index == 4
      && Remaining(kept + [second], [second]) == [r2, r3]
  {
    var r1, r2, r3 := GridRow(1, map[]), GridRow(2, map[]), GridRow(3, map[]);
    var first := NewRow(4);
    var kept := [r2, r3, first];
    assert [r1, r2, r3, first] == [r1] + kept;
    DropHead(r1, kept);
    var second := NewRow(4);
    assert kept + [second] == [r2, r3] + [first, second];
    DropTwinTail([r2, r3], first, second);
  }

  /** The largest index in use, or 0 for no rows. */
  function MaxIndex(rows: seq<GridRow>): (m: int)
    ensures forall r <- rows :: r.index <= m
    ensures rows == [] ==> m == 0
  {
    if rows == [] then 0
    else
      var m := MaxIndex(rows[..|rows| - 1]);
      var last := rows[|rows| - 1];
      assert rows == rows[..|rows| - 1] + [last];
      if last.index > m then last.index else m
  }

  /** A new index that no row uses: one past the largest in use. */
  function FreshIndex(rows: seq<GridRow>): (index: int)
    ensures forall r <- rows :: r.index < index
  {
    MaxIndex(rows) + 1
  }

  /** No two rows share an index. */
  predicate DistinctIndices(rows: seq<GridRow>) {
    forall i, j :: 0 <= i < j < |rows| ==> rows[i].index != rows[j].index
  }

  /** Deleting keeps distinct indices distinct. */
  lemma {:induction false} RemainingDistinct(rows: seq<GridRow>, selected: seq<GridRow>)
    requires DistinctIndices(rows)
    ensures DistinctIndices(Remaining(rows, selected))
  {
    if rows != [] {
      var init, last := rows[..|rows| - 1], rows[|rows| - 1];
      assert DistinctIndices(init) by {
        forall i, j | 0 <= i < j < |init| ensures init[i].index != init[j].index {
          assert init[i] == rows[i] && init[j] == rows[j];
        }
      }
      RemainingDistinct(init, selected);
      var kept := Remaining(init, selected);
      FilterMembers(init, KeptOf(selected));
      forall r <- kept ensures r.index != last.index {
        var i :| 0 <= i < |init| && init[i] == r;
        assert rows[i] == r;
      }
      if KeptOf(selected)(last) {
        assert Remaining(rows, selected) == kept + [last];
        forall i, j | 0 <= i < j < |kept + [last]| ensures (kept + [last])[i].index != (kept + [last])[j].index {
          if j == |kept| {
            assert kept[i] in kept;
          }
        }
      }
    }
  }

  /**
   * With fresh indices, indices stay distinct under adding and deleting, and
   * deleting the selected rows of such a grid removes exactly those rows.
   */
  lemma FreshIndicesStayDistinct(rows: seq<GridRow>, selected: seq<GridRow>)
    requires DistinctIndices(rows)
    requires forall s <- selected :: s in rows
    ensures DistinctIndices(rows + [NewRow(FreshIndex(rows))])
    ensures DistinctIndices(Remaining(rows, selected))
    ensures forall r :: r in Remaining(rows, selected) <==> r in rows && r !in selected
  {
    RemainingDistinct(rows, selected);
    RemainingSpec(rows, selected);
    forall r | r in rows && r !in selected ensures forall s <- selected :: s.index != r.index {
      forall s <- selected ensures s.index != r.index {
        var i :| 0 <= i < |rows| && rows[i] == r;
        var j :| 0 <= j < |rows| && rows[j] == s;
        assert i != j;
      }
    }
  }
}
