/** Separating the sequence lines from the header lines of the fetched FASTA file, which the
    script reads as a one-column table whose rows alternate header, sequence, header, ... */
module FastaSplit {

  /** The sequence rows: those at odd positions, renumbered from 0. */
  function SequenceRows(rows: seq<string>): (seqs: seq<string>)
    ensures |seqs| == |rows| / 2
    ensures forall i :: 0 <= i < |seqs| ==> seqs[i] == rows[2 * i + 1]
  {
    if |rows| < 2 then [] else [rows[1]] + SequenceRows(rows[2..])
  }

  /** A table's drop(labels) followed by reset_index(drop = True): the rows whose label
      (offset plus position) is not listed, in their original order, renumbered. A label
      naming no row is ignored here, where pandas would raise KeyError; SplitFasta only
      lists labels of existing rows, so that case never arises in the script. */
  function DropRows(rows: seq<string>, labels: seq<int>, offset: nat): (kept: seq<string>)
    ensures |kept| <= |rows|
    ensures (forall k :: k in labels ==> k < offset || offset + |rows| <= k) ==> kept == rows
    ensures (forall k :: offset <= k < offset + |rows| ==> k in labels) ==> kept == []
  {
    if rows == [] then []
    else (if offset in labels then [] else [rows[0]]) + DropRows(rows[1..], labels, offset + 1)
  }

  /** Every surviving row is a row of the table. */
  lemma {:induction false} DropRowsKeepsRows(rows: seq<string>, labels: seq<int>, offset: nat, x: string)
    requires x in DropRows(rows, labels, offset)
    ensures x in rows
  {
    if rows != [] {
      var head := if offset in labels then [] else [rows[0]];
      assert DropRows(rows, labels, offset) == head + DropRows(rows[1..], labels, offset + 1);
      if x !in head {
        DropRowsKeepsRows(rows[1..], labels, offset + 1, x);
      }
    }
  }

  /** A single row survives exactly when its label is not listed. */
  lemma DropOneRow(x: string, labels: seq<int>, offset: nat)
    ensures DropRows([x], labels, offset) == if offset in labels then [] else [x]
  {
    assert [x][1..] == [];
  }

  /** Dropping works row by row: the table's two halves are filtered separately, the
      second under its own labels, and the survivors stay in order. */
  lemma {:induction false} DropRowsAppend(r1: seq<string>, r2: seq<string>, labels: seq<int>, offset: nat)
    ensures DropRows(r1 + r2, labels, offset) == DropRows(r1, labels, offset) + DropRows(r2, labels, offset + |r1|)
  {
    if r1 == [] {
      assert r1 + r2 == r2;
    } else {
      DropRowsAppend(r1[1..], r2, labels, offset + 1);
      DropFirst(r1, r2, labels, offset, DropRows(r1[1..], labels, offset + 1), DropRows(r2, labels, offset + |r1|));
    }
  }

  /** The inductive step of DropRowsAppend: the first row of r1 + r2 is r1's first row,
      so it is kept or dropped in front of the rest either way. */
  lemma DropFirst(r1: seq<string>, r2: seq<string>, labels: seq<int>, offset: nat, front: seq<string>, back: seq<string>)
    requires r1 != []
    requires DropRows(r1[1..], labels, offset + 1) == front
    requires DropRows(r2, labels, offset + |r1|) == back
    requires DropRows(r1[1..] + r2, labels, offset + 1) == front + back
    ensures DropRows(r1 + r2, labels, offset) == DropRows(r1, labels, offset) + back
  {
    var head := if offset in labels then [] else [r1[0]];
    assert (r1 + r2)[1..] == r1[1..] + r2;
    assert DropRows(r1 + r2, labels, offset) == head + (front + back);
    assert head + (front + back) == (head + front) + back;
  }

  /** Dropping exactly the even labels leaves the sequence rows. */
  lemma {:induction false} DropEvenRows(rows: seq<string>, labels: seq<int>, offset: nat)
    requires offset % 2 == 0
    requires forall k :: offset <= k < offset + |rows| ==> (k in labels <==> k % 2 == 0)
    ensures DropRows(rows, labels, offset) == SequenceRows(rows)
  {
    if |rows| == 1 {
      assert DropRows(rows, labels, offset) == [] + DropRows(rows[1..], labels, offset + 1);
    } else if |rows| >= 2 {
      assert offset in labels && offset + 1 !in labels;
      assert rows[1..][1..] == rows[2..];
      DropEvenRows(rows[2..], labels, offset + 2);
    }
  }

  /** Lists the header positions 0, 2, 4, ... and drops them from the table. */
  method SplitFasta(rows: seq<string>) returns (seqs: seq<string>)
    ensures seqs == SequenceRows(rows)
  {
    var dropme: seq<int> := [];
    var a := 0;
    while a < |rows|
      invariant 0 <= a <= |rows| + 1 && a % 2 == 0
      invariant forall k :: k in dropme <==> 0 <= k < a && k % 2 == 0
    {
      dropme := dropme + [a];
      a := a + 2;
    }
    assert forall k :: k in dropme ==> 0 <= k < |rows|;
    seqs := DropRows(rows, dropme, 0);
    DropEvenRows(rows, dropme, 0);
  }
}
