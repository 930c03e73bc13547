/** Flattening the primer engine's per-site output into the record table: one record per
    site and per requested rank, with sentinel text where a role was not designed. */
module ResultReducer {
  import opened Values
  import opened Results
  import opened EngineParams

  /** The three oligos the engine can design. */
  datatype Role = Left | Right | Internal

  /** The engine output keys the script reads (the engine's names spell the role and rank
      into a string, such as PRIMER_RIGHT_0_SEQUENCE). */
  datatype Key =
    | NumReturned(role: Role)              // PRIMER_<role>_NUM_RETURNED
    | OligoSequence(role: Role, rank: nat) // PRIMER_<role>_<rank>_SEQUENCE
    | OligoTm(role: Role, rank: nat)       // PRIMER_<role>_<rank>_TM
    | PairProductSize(rank: nat)           // PRIMER_PAIR_<rank>_PRODUCT_SIZE
    | PairPenalty(rank: nat)               // PRIMER_PAIR_<rank>_PENALTY

  /** What one engine call returns: a dictionary from key to value. */
  type EngineOutput = map<Key, Cell>

  /** One engine call: the site name, the design-window sequence and the settings. */
  datatype Request = Request(sequenceId: string, template: string, params: Params)

  /** The engine either returns its dictionary or raises. */
  datatype Reply = Returned(output: EngineOutput) | Raised

  /** Why the run stops: a site with no row in the target table, an engine call that raised,
      or a dictionary lookup of a key the engine did not return. */
  datatype Fault = MissingSite(site: nat) | EngineFault(site: nat) | MissingKey(site: nat, key: Key)

  /** One row of the record table. */
  datatype PrimerRecord = PrimerRecord(
    site: string, setNumber: string,
    leftSeq: Cell, leftTm: Cell,
    rightSeq: Cell, rightTm: Cell,
    probeSeq: Cell, probeTm: Cell,
    productSize: Cell, penalty: Cell)
  {
    /** The sequence and melting-temperature columns of one role. */
    function Oligo(role: Role): (Cell, Cell) {
      match role
      case Left => (leftSeq, leftTm)
      case Right => (rightSeq, rightTm)
      case Internal => (probeSeq, probeTm)
    }
  }

  /** The text written in place of an oligo that was not designed. */
  function Sentinel(role: Role): string {
    match role
    case Left => "No Left Primer Designed"
    case Right => "No Right Primer Designed"
    case Internal => "No Probe Designed"
  }

  /** The melting temperature written beside a sentinel. */
  const NotAvailable := Str("N/A")

  /** The script's test `count != 0` on a NUM_RETURNED value. */
  predicate Designed(count: Cell) {
    count != Int(0)
  }

  /** The rank-b sequence and Tm keys of a role, needed only when its count is not zero. */
  function RoleKeys(out: EngineOutput, role: Role, b: nat): set<Key> {
    if NumReturned(role) in out && Designed(out[NumReturned(role)])
    then {OligoSequence(role, b), OligoTm(role, b)}
    else {}
  }

  /** Every key rank b reads: the three counts, the pair's size and penalty whatever the
      counts say, and the oligo keys of each role with a nonzero count. */
  function NeededKeys(out: EngineOutput, b: nat): set<Key> {
    {NumReturned(Right), NumReturned(Left), NumReturned(Internal), PairProductSize(b), PairPenalty(b)}
    + RoleKeys(out, Right, b) + RoleKeys(out, Left, b) + RoleKeys(out, Internal, b)
  }

  /** The sequence and Tm of one role at rank b: the sentinel pair when its count is zero,
      otherwise the engine's values (the first missing key is the fault). */
  function OligoFields(out: EngineOutput, role: Role, b: nat): (r: Result<(Cell, Cell), Key>)
    requires NumReturned(role) in out
    ensures r.Ok? <==> RoleKeys(out, role, b) <= out.Keys
    ensures r.Err? ==> r.error in RoleKeys(out, role, b) && r.error !in out
    ensures r.Ok? && !Designed(out[NumReturned(role)]) ==> r.value == (Str(Sentinel(role)), NotAvailable)
    ensures r.Ok? && Designed(out[NumReturned(role)]) ==> r.value == (out[OligoSequence(role, b)], out[OligoTm(role, b)])
  {
    if !Designed(out[NumReturned(role)]) then Ok((Str(Sentinel(role)), NotAvailable))
    else if OligoSequence(role, b) !in out then Err(OligoSequence(role, b))
    else if OligoTm(role, b) !in out then Err(OligoTm(role, b))
    else Ok((out[OligoSequence(role, b)], out[OligoTm(role, b)]))
  }

  /** The record for rank b of a site, read in the script's order: the three counts (right,
      left, internal), then the right, left and probe fields, then the pair's size and penalty. */
  function RankRecord(site: string, out: EngineOutput, b: nat): (r: Result<PrimerRecord, Key>)
    ensures r.Ok? ==> r.value.site == site && r.value.setNumber == SetLabel(b + 1)
  {
    if NumReturned(Right) !in out then Err(NumReturned(Right))
    else if NumReturned(Left) !in out then Err(NumReturned(Left))
    else if NumReturned(Internal) !in out then Err(NumReturned(Internal))
    else
      var right :- OligoFields(out, Right, b);
      var left :- OligoFields(out, Left, b);
      var probe :- OligoFields(out, Internal, b);
      if PairProductSize(b) !in out then Err(PairProductSize(b))
      else if PairPenalty(b) !in out then Err(PairPenalty(b))
      else Ok(PrimerRecord(site, SetLabel(b + 1), left.0, left.1, right.0, right.1, probe.0, probe.1,
                           out[PairProductSize(b)], out[PairPenalty(b)]))
  }

  /** Rank b yields a record exactly when every key it reads is present, and otherwise
      reports one of those keys that is missing. The record carries the site name, the
      label "Set b+1", the pair's size and penalty, and for each role either the engine's
      rank-b values (count not zero) or the sentinel text with "N/A". */
  lemma RankRecordSpec(site: string, out: EngineOutput, b: nat)
    ensures RankRecord(site, out, b).Ok? <==> NeededKeys(out, b) <= out.Keys
    ensures RankRecord(site, out, b).Err? ==>
              RankRecord(site, out, b).error in NeededKeys(out, b) && RankRecord(site, out, b).error !in out
    ensures RankRecord(site, out, b).Ok? ==>
              var rec := RankRecord(site, out, b).value;
              rec.site == site && rec.setNumber == SetLabel(b + 1) &&
              rec.productSize == out[PairProductSize(b)] && rec.penalty == out[PairPenalty(b)] &&
              forall role: Role ::
                rec.Oligo(role) == if Designed(out[NumReturned(role)])
                                   then (out[OligoSequence(role, b)], out[OligoTm(role, b)])
                                   else (Str(Sentinel(role)), NotAvailable)
  {
  }

  /** The records of ranks 0 .. k-1 of one site, stopping at the first rank that fails. */
  function SiteRecords(site: string, out: EngineOutput, k: nat): (r: Result<seq<PrimerRecord>, Key>)
    ensures r.Ok? <==> forall b :: 0 <= b < k ==> RankRecord(site, out, b).Ok?
    ensures r.Ok? ==> |r.value| == k && forall b :: 0 <= b < k ==> RankRecord(site, out, b) == Ok(r.value[b])
    ensures r.Err? ==> exists b :: 0 <= b < k && RankRecord(site, out, b) == Err(r.error) &&
                                  forall c :: 0 <= c < b ==> RankRecord(site, out, c).Ok?
  {
    if k == 0 then Ok([])
    else
      var done :- SiteRecords(site, out, k - 1);
      var record :- RankRecord(site, out, k - 1);
      Ok(done + [record])
  }

  /** Once a rank fails, asking for more ranks gives the same fault. */
  lemma {:induction false} SiteRecordsStopAtFault(site: string, out: EngineOutput, k: nat, m: nat)
    requires k <= m && SiteRecords(site, out, k).Err?
    ensures SiteRecords(site, out, m) == SiteRecords(site, out, k)
  {
    if k < m {
      SiteRecordsStopAtFault(site, out, k, m - 1);
    }
  }

  /** The inputs of the reduction: the target table's names, the design sequences, the
      engine settings and the requested number of sets. */
  datatype Batch = Batch(names: seq<string>, templates: seq<string>, params: Params, numSets: int)

  /** How many ranks range(0, numSets) visits: none when numSets is not positive. */
  function RankCount(numSets: int): (n: nat)
    ensures n == 0 <==> numSets <= 0
    ensures 0 < numSets ==> n == numSets
  {
    if numSets < 0 then 0 else numSets
  }

  /** The engine call for site a. */
  function SiteRequest(batch: Batch, a: nat): Request
    requires a < |batch.names| && a < |batch.templates|
  {
    Request(batch.names[a], batch.templates[a], batch.params)
  }

  /** All records of site a, or the fault that stops the run there. */
  function SiteBlock(batch: Batch, design: Request -> Reply, a: nat): (r: Result<seq<PrimerRecord>, Fault>)
    requires a < |batch.templates|
    ensures r.Ok? <==> a < |batch.names| && design(SiteRequest(batch, a)).Returned? &&
                       SiteRecords(batch.names[a], design(SiteRequest(batch, a)).output, RankCount(batch.numSets)).Ok?
    ensures r.Ok? ==> |r.value| == RankCount(batch.numSets)
    ensures r.Ok? ==> forall b :: 0 <= b < |r.value| ==>
              r.value[b].site == batch.names[a] && r.value[b].setNumber == SetLabel(b + 1)
  {
    if a >= |batch.names| then Err(MissingSite(a))
    else
      match design(SiteRequest(batch, a))
      case Raised => Err(EngineFault(a))
      case Returned(out) =>
        match SiteRecords(batch.names[a], out, RankCount(batch.numSets))
        case Ok(records) => Ok(records)
        case Err(key) => Err(MissingKey(a, key))
  }

  /** A successful site's records are its rank records, in rank order. */
  lemma SiteBlockContents(batch: Batch, design: Request -> Reply, a: nat)
    requires a < |batch.templates| && SiteBlock(batch, design, a).Ok?
    ensures a < |batch.names| && design(SiteRequest(batch, a)).Returned?
    ensures var out := design(SiteRequest(batch, a)).output;
            forall b :: 0 <= b < RankCount(batch.numSets) ==>
              RankRecord(batch.names[a], out, b) == Ok(SiteBlock(batch, design, a).value[b])
  {
  }

  /** The position of the first record of site a when every site has n records. */
  function Offset(a: nat, n: nat): nat {
    if a == 0 then 0 else Offset(a - 1, n) + n
  }

  lemma {:induction false} OffsetIsProduct(a: nat, n: nat)
    ensures Offset(a, n) == a * n
  {
    if a > 0 {
      OffsetIsProduct(a - 1, n);
    }
  }

  /** The running list after sites 0 .. k-1, or the first fault. */
  function Reduced(batch: Batch, design: Request -> Reply, k: nat): (r: Result<seq<PrimerRecord>, Fault>)
    requires k <= |batch.templates|
    ensures r.Ok? ==> |r.value| == Offset(k, RankCount(batch.numSets))
  {
    if k == 0 then Ok([])
    else
      var done :- Reduced(batch, design, k - 1);
      var block :- SiteBlock(batch, design, k - 1);
      Ok(done + block)
  }

  /** The run gets past the first k sites exactly when every one of them succeeds. */
  lemma {:induction false} ReducedSucceeds(batch: Batch, design: Request -> Reply, k: nat)
    requires k <= |batch.templates|
    ensures Reduced(batch, design, k).Ok? <==> forall a :: 0 <= a < k ==> SiteBlock(batch, design, a).Ok?
  {
    if k > 0 {
      ReducedSucceeds(batch, design, k - 1);
    }
  }

  /** Once a site fails, the run's result is that fault. */
  lemma {:induction false} ReducedStopsAtFault(batch: Batch, design: Request -> Reply, k: nat, m: nat)
    requires k <= m <= |batch.templates| && Reduced(batch, design, k).Err?
    ensures Reduced(batch, design, m) == Reduced(batch, design, k)
  {
    if k < m {
      ReducedStopsAtFault(batch, design, k, m - 1);
    }
  }

  lemma SliceOfPrefix<T>(done: seq<T>, block: seq<T>, lo: nat, n: nat)
    requires lo + n <= |done|
    ensures (done + block)[lo .. lo + n] == done[lo .. lo + n]
  {
  }

  lemma SliceOfSuffix<T>(done: seq<T>, block: seq<T>, lo: nat)
    requires lo == |done|
    ensures (done + block)[lo .. lo + |block|] == block
  {
  }

  /** In a successful run, site a's records sit at positions a * N .. a * N + N - 1. */
  lemma {:induction false} BlockAt(batch: Batch, design: Request -> Reply, k: nat, a: nat)
    requires k <= |batch.templates| && a < k
    requires Reduced(batch, design, k).Ok?
    ensures SiteBlock(batch, design, a).Ok?
    ensures var n := RankCount(batch.numSets);
            Offset(a, n) + n <= |Reduced(batch, design, k).value| &&
            Reduced(batch, design, k).value[Offset(a, n) .. Offset(a, n) + n] == SiteBlock(batch, design, a).value
  {
    var n := RankCount(batch.numSets);
    var done := Reduced(batch, design, k - 1).value;
    var block := SiteBlock(batch, design, k - 1).value;
    assert Reduced(batch, design, k).value == done + block;
    var lo := Offset(a, n);
    if a < k - 1 {
      BlockAt(batch, design, k - 1, a);
      SliceOfPrefix(done, block, lo, n);
    } else {
      assert lo == |done|;
      SliceOfSuffix(done, block, lo);
    }
  }

  /** A successful run holds, for each site in order, exactly that site's N records. */
  lemma RecordLayout(batch: Batch, design: Request -> Reply)
    requires Reduced(batch, design, |batch.templates|).Ok?
    ensures forall a :: 0 <= a < |batch.templates| ==>
              SiteBlock(batch, design, a).Ok? &&
              Offset(a, RankCount(batch.numSets)) + RankCount(batch.numSets) <= |Reduced(batch, design, |batch.templates|).value| &&
              Reduced(batch, design, |batch.templates|).value[Offset(a, RankCount(batch.numSets)) .. Offset(a, RankCount(batch.numSets)) + RankCount(batch.numSets)]
                == SiteBlock(batch, design, a).value
  {
    forall a | 0 <= a < |batch.templates|
      ensures SiteBlock(batch, design, a).Ok?
      ensures Offset(a, RankCount(batch.numSets)) + RankCount(batch.numSets) <= |Reduced(batch, design, |batch.templates|).value|
      ensures Reduced(batch, design, |batch.templates|).value[Offset(a, RankCount(batch.numSets)) .. Offset(a, RankCount(batch.numSets)) + RankCount(batch.numSets)]
                == SiteBlock(batch, design, a).value
    {
      BlockAt(batch, design, |batch.templates|, a);
    }
  }

  /** When a role's count is zero, every record of the site holds that role's sentinel and "N/A". */
  lemma SiteSentinels(site: string, out: EngineOutput, k: nat, role: Role)
    requires SiteRecords(site, out, k).Ok?
    requires NumReturned(role) in out && !Designed(out[NumReturned(role)])
    ensures forall b :: 0 <= b < k ==>
              SiteRecords(site, out, k).value[b].Oligo(role) == (Str(Sentinel(role)), NotAvailable)
  {
    forall b | 0 <= b < k
      ensures SiteRecords(site, out, k).value[b].Oligo(role) == (Str(Sentinel(role)), NotAvailable)
    {
      assert RankRecord(site, out, b) == Ok(SiteRecords(site, out, k).value[b]);
      RankRecordSpec(site, out, b);
    }
  }

  /** Every key rank b reads is read for every requested rank, whatever the counts say: the
      pair's size and penalty always, a role's sequence and Tm whenever its count is not zero.
      So an engine that returns fewer than N pairs, or fewer oligos of a role than N, stops
      the whole run; no site ever gets sentinel rows for ranks the engine did not fill. */
  lemma ShortOutputAborts(batch: Batch, design: Request -> Reply, a: nat, b: nat, key: Key)
    requires a < |batch.names| && a < |batch.templates| && b < RankCount(batch.numSets)
    requires design(SiteRequest(batch, a)).Returned?
    requires key in NeededKeys(design(SiteRequest(batch, a)).output, b)
    requires key !in design(SiteRequest(batch, a)).output
    ensures Reduced(batch, design, |batch.templates|).Err?
  {
    var out := design(SiteRequest(batch, a)).output;
    RankRecordSpec(batch.names[a], out, b);
    assert !RankRecord(batch.names[a], out, b).Ok?;
    assert !SiteRecords(batch.names[a], out, RankCount(batch.numSets)).Ok?;
    assert !SiteBlock(batch, design, a).Ok?;
    ReducedSucceeds(batch, design, |batch.templates|);
  }

  /** In a successful run, the record at position a * N + b is rank b's record of site a. */
  lemma RecordAt(batch: Batch, design: Request -> Reply, a: nat, b: nat)
    requires a < |batch.templates| && b < RankCount(batch.numSets)
    requires Reduced(batch, design, |batch.templates|).Ok?
    ensures SiteBlock(batch, design, a).Ok?
    ensures var n := RankCount(batch.numSets);
            a * n + b < |Reduced(batch, design, |batch.templates|).value| &&
            Reduced(batch, design, |batch.templates|).value[a * n + b] == SiteBlock(batch, design, a).value[b]
  {
    var n := RankCount(batch.numSets);
    var all := Reduced(batch, design, |batch.templates|).value;
    BlockAt(batch, design, |batch.templates|, a);
    OffsetIsProduct(a, n);
    var lo := Offset(a, n);
    assert all[lo .. lo + n][b] == all[lo + b];
  }

  /** In a successful run, when site a's engine output has a zero count for a role, the
      record at position a * N + b holds that role's sentinel and "N/A". */
  lemma RunSentinel(batch: Batch, design: Request -> Reply, a: nat, b: nat, role: Role)
    requires a < |batch.names| && a < |batch.templates| && b < RankCount(batch.numSets)
    requires design(SiteRequest(batch, a)).Returned?
    requires NumReturned(role) in design(SiteRequest(batch, a)).output
    requires !Designed(design(SiteRequest(batch, a)).output[NumReturned(role)])
    requires Reduced(batch, design, |batch.templates|).Ok?
    ensures var n := RankCount(batch.numSets);
            a * n + b < |Reduced(batch, design, |batch.templates|).value| &&
            Reduced(batch, design, |batch.templates|).value[a * n + b].Oligo(role) == (Str(Sentinel(role)), NotAvailable)
  {
    RecordAt(batch, design, a, b);
    SiteBlockContents(batch, design, a);
    RankRecordSpec(batch.names[a], design(SiteRequest(batch, a)).output, b);
  }

  /** The body of the site loop for site a: the name lookup, the engine call, then the
      inner loop over ranks 0 .. numSets-1 building one record per rank, stopping at the
      first missing key. */
  method DesignSite(batch: Batch, design: Request -> Reply, a: nat) returns (block: Result<seq<PrimerRecord>, Fault>)
    requires a < |batch.templates|
    ensures block == SiteBlock(batch, design, a)
    ensures block.Ok? ==> |block.value| == RankCount(batch.numSets)
  {
    if a >= |batch.names| {
      return Err(MissingSite(a));
    }
    var primers := design(SiteRequest(batch, a));
    if primers.Raised? {
      return Err(EngineFault(a));
    }
    var out := primers.output;
    var records: seq<PrimerRecord> := [];
    var b := 0;
    while b < batch.numSets
      invariant 0 <= b <= RankCount(batch.numSets)
      invariant SiteRecords(batch.names[a], out, b) == Ok(records)
    {
      var record := RankRecord(batch.names[a], out, b);
      if record.Err? {
        SiteRecordsStopAtFault(batch.names[a], out, b + 1, RankCount(batch.numSets));
        return Err(MissingKey(a, record.error));
      }
      records := records + [record.value];
      b := b + 1;
    }
    block := Ok(records);
  }

  /** One more site: the list so far followed by that site's records, or its fault. */
  lemma ReducedStep(batch: Batch, design: Request -> Reply, a: nat, done: seq<PrimerRecord>,
                    block: Result<seq<PrimerRecord>, Fault>)
    requires a < |batch.templates| && Reduced(batch, design, a) == Ok(done)
    requires block == SiteBlock(batch, design, a)
    ensures block.Ok? ==> Reduced(batch, design, a + 1) == Ok(done + block.value)
    ensures block.Err? ==> Reduced(batch, design, |batch.templates|) == Err(block.error)
  {
    if block.Err? {
      ReducedStopsAtFault(batch, design, a + 1, |batch.templates|);
    }
  }

  /** A successful run holds N records for each of the sequences. */
  lemma RecordCount(batch: Batch, design: Request -> Reply)
    requires Reduced(batch, design, |batch.templates|).Ok?
    ensures |Reduced(batch, design, |batch.templates|).value| == |batch.templates| * RankCount(batch.numSets)
  {
    OffsetIsProduct(|batch.templates|, RankCount(batch.numSets));
  }

  /** The outer loop over sites: the engine call for each site, then its records appended
      to the running list, stopping at the first fault. */
  method ReduceResults(batch: Batch, design: Request -> Reply) returns (r: Result<seq<PrimerRecord>, Fault>)
    ensures r == Reduced(batch, design, |batch.templates|)
    ensures r.Ok? ==> |r.value| == |batch.templates| * RankCount(batch.numSets)
  {
    var runningList: seq<PrimerRecord> := [];
    var a := 0;
    while a < |batch.templates|
      invariant 0 <= a <= |batch.templates|
      invariant Reduced(batch, design, a) == Ok(runningList)
    {
      var records := DesignSite(batch, design, a);
      ReducedStep(batch, design, a, runningList, records);
      if records.Err? {
        return Err(records.error);
      }
      runningList := runningList + records.value;
      a := a + 1;
    }
    r := Ok(runningList);
    RecordCount(batch, design);
  }
}
