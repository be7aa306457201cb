// Substituting a state column by column, the step that both serial cores share.
module ColumnStep {
  import opened BitVectors
  import opened Permutation

  // Column j of s replaced by its table entry, every other column kept.
  function SubstituteAt(s: State, j: nat): State
    requires j < 64
  {
    var c := Substitute(ColumnAt(s, j));
    s[j := c.x0][64 + j := c.x1][128 + j := c.x2][192 + j := c.x3][256 + j := c.x4]
  }

  function ColumnFrom(s: State, done: nat): nat -> Column
  {
    (j: nat) => if j >= 64 then ColumnAt(s, 0) else if j < done then ColumnAt(s, j) else Substitute(ColumnAt(s, j))
  }

  // The columns from `done` on substituted: what is still owed to s.
  function Finish(s: State, done: nat): State
  {
    FromColumns(ColumnFrom(s, done))
  }

  lemma FinishColumn(s: State, done: nat, j: nat)
    requires j < 64
    ensures ColumnAt(Finish(s, done), j) == if j < done then ColumnAt(s, j) else Substitute(ColumnAt(s, j))
  {
    hide FromColumns, Substitute;
    ColumnOfColumns(ColumnFrom(s, done), j);
  }

  lemma SubstituteAtColumn(s: State, k: nat, j: nat)
    requires j < 64 && k < 64
    ensures ColumnAt(SubstituteAt(s, k), j) == if j == k then Substitute(ColumnAt(s, j)) else ColumnAt(s, j)
  {
    hide Substitute;
  }

  lemma FinishNone(s: State)
    ensures Finish(s, 0) == PS(s)
  {
    hide Finish, PS, Substitute;
    forall j | 0 <= j < 64 ensures ColumnAt(Finish(s, 0), j) == ColumnAt(PS(s), j) {
      FinishColumn(s, 0, j);
      BitslicedIsTable(s, j);
    }
    StatesEqualByColumns(Finish(s, 0), PS(s));
  }

  lemma FinishAll(s: State)
    ensures Finish(s, 64) == s
  {
    hide Finish, Substitute;
    forall j | 0 <= j < 64 ensures ColumnAt(Finish(s, 64), j) == ColumnAt(s, j) {
      FinishColumn(s, 64, j);
    }
    StatesEqualByColumns(Finish(s, 64), s);
  }

  lemma FinishStep(s: State, j: nat)
    requires j < 64
    ensures Finish(SubstituteAt(s, j), j + 1) == Finish(s, j)
  {
    hide Finish, Substitute, SubstituteAt;
    var t := SubstituteAt(s, j);
    forall i | 0 <= i < 64 ensures ColumnAt(Finish(t, j + 1), i) == ColumnAt(Finish(s, j), i) {
      FinishColumn(t, j + 1, i);
      FinishColumn(s, j, i);
      SubstituteAtColumn(s, j, i);
    }
    StatesEqualByColumns(Finish(t, j + 1), Finish(s, j));
  }
}
