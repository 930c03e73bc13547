/** The adapted table: a copy of the record table with the library-preparation handles
    prepended to every forward and reverse primer, sentinel text included. */
module HandleAppender {
  import opened Values
  import opened ResultReducer

  /** One adapted row: str(handle) + str(primer) in the Left and Right Primer columns. */
  function Adapted(rec: PrimerRecord, fwdHandle: string, revHandle: string): (r: PrimerRecord)
    ensures r.leftSeq.Str? && |fwdHandle| <= |r.leftSeq.s|
    ensures r.leftSeq.s[..|fwdHandle|] == fwdHandle && r.leftSeq.s[|fwdHandle|..] == Render(rec.leftSeq)
    ensures r.rightSeq.Str? && |revHandle| <= |r.rightSeq.s|
    ensures r.rightSeq.s[..|revHandle|] == revHandle && r.rightSeq.s[|revHandle|..] == Render(rec.rightSeq)
    ensures r.site == rec.site && r.setNumber == rec.setNumber
    ensures r.leftTm == rec.leftTm && r.rightTm == rec.rightTm
    ensures r.probeSeq == rec.probeSeq && r.probeTm == rec.probeTm
    ensures r.productSize == rec.productSize && r.penalty == rec.penalty
  {
    rec.(leftSeq := Str(fwdHandle + Render(rec.leftSeq)), rightSeq := Str(revHandle + Render(rec.rightSeq)))
  }

  /** A row whose primer was not designed still gets the handle, in front of the sentinel text. */
  lemma HandleOnSentinel(rec: PrimerRecord, fwdHandle: string, revHandle: string)
    requires rec.leftSeq == Str(Sentinel(Left)) && rec.rightSeq == Str(Sentinel(Right))
    ensures Adapted(rec, fwdHandle, revHandle).leftSeq == Str(fwdHandle + "No Left Primer Designed")
    ensures Adapted(rec, fwdHandle, revHandle).rightSeq == Str(revHandle + "No Right Primer Designed")
  {
  }

  /** Adapting an adapted row prefixes the handles a second time, so the step is not
      idempotent unless both handles are empty. */
  lemma {:induction false} AdaptTwice(rec: PrimerRecord, fwdHandle: string, revHandle: string)
    ensures Adapted(Adapted(rec, fwdHandle, revHandle), fwdHandle, revHandle).leftSeq
              == Str(fwdHandle + fwdHandle + Render(rec.leftSeq))
    ensures Adapted(Adapted(rec, fwdHandle, revHandle), fwdHandle, revHandle).rightSeq
              == Str(revHandle + revHandle + Render(rec.rightSeq))
    ensures (Adapted(Adapted(rec, fwdHandle, revHandle), fwdHandle, revHandle) == Adapted(rec, fwdHandle, revHandle))
              <==> (fwdHandle == [] && revHandle == [])
  {
    var once := Adapted(rec, fwdHandle, revHandle);
    var twice := Adapted(once, fwdHandle, revHandle);
    assert Render(once.leftSeq) == fwdHandle + Render(rec.leftSeq);
    assert Render(once.rightSeq) == revHandle + Render(rec.rightSeq);
    assert fwdHandle + (fwdHandle + Render(rec.leftSeq)) == fwdHandle + fwdHandle + Render(rec.leftSeq);
    assert revHandle + (revHandle + Render(rec.rightSeq)) == revHandle + revHandle + Render(rec.rightSeq);
    if twice == once {
      assert |twice.leftSeq.s| == |fwdHandle| + |once.leftSeq.s|;
      assert |twice.rightSeq.s| == |revHandle| + |once.rightSeq.s|;
    }
  }

  /** The two column writes of one row: Left Primer first, then Right Primer. */
  method AdaptRow(table: array<PrimerRecord>, a: int, fwdHandle: string, revHandle: string)
    requires 0 <= a < table.Length
    modifies table
    ensures table[a] == Adapted(old(table[a]), fwdHandle, revHandle)
    ensures forall i :: 0 <= i < table.Length && i != a ==> table[i] == old(table[i])
  {
    table[a] := table[a].(leftSeq := Str(fwdHandle + Render(table[a].leftSeq)));
    table[a] := table[a].(rightSeq := Str(revHandle + Render(table[a].rightSeq)));
  }

  /** Copies the record table and rewrites the copy's Left and Right Primer columns row by row. */
  method AppendHandles(table: array<PrimerRecord>, fwdHandle: string, revHandle: string)
    returns (adapted: array<PrimerRecord>)
    ensures fresh(adapted) && adapted.Length == table.Length
    ensures forall i :: 0 <= i < table.Length ==> adapted[i] == Adapted(table[i], fwdHandle, revHandle)
  {
    adapted := new PrimerRecord[table.Length](i reads table requires 0 <= i < table.Length => table[i]);
    var a := 0;
    while a < adapted.Length
      invariant 0 <= a <= adapted.Length
      invariant forall i :: 0 <= i < a ==> adapted[i] == Adapted(table[i], fwdHandle, revHandle)
      invariant forall i :: a <= i < adapted.Length ==> adapted[i] == table[i]
    {
      AdaptRow(adapted, a, fwdHandle, revHandle);
      a := a + 1;
    }
  }
}
