/** One run of the design script, with its collaborators as parameters: the reference
    sequence fetch (getfasta, returning the fetched file's lines) and the primer engine. */
module Pipeline {
  import opened Results
  import opened WindowExpander
  import opened FastaSplit
  import opened EngineParams
  import opened ResultReducer
  import opened HandleAppender

  /** The command-line settings, the design-space ratio given as ratioNum / ratioDen. */
  datatype Config = Config(
    ampliconSize: int, sizeBuffer: int, ratioNum: int, ratioDen: int,
    meltingTemperature: int, numSets: int, fwdHandle: string, revHandle: string, probe: int)

  /** The name column of the target table. */
  function Names(sites: seq<Site>): (names: seq<string>)
    ensures |names| == |sites|
    ensures forall i :: 0 <= i < |sites| ==> names[i] == sites[i].name
  {
    seq(|sites|, i requires 0 <= i < |sites| => sites[i].name)
  }

  /** Widening the windows keeps every row's name, so the names the reduction writes into
      the Site column are the target table's names as read. */
  lemma ExpansionKeepsNames(sites: seq<Site>, windows: seq<Site>, buffer: int)
    requires |windows| == |sites|
    requires forall i :: 0 <= i < |sites| ==> windows[i] == Expand(sites[i], buffer)
    ensures Names(windows) == Names(sites)
  {
  }

  /** The reduction's inputs once the windows are expanded and the sequences split out. */
  function RunBatch(cfg: Config, windows: seq<Site>, getfasta: seq<Site> -> seq<string>): Batch {
    Batch(Names(windows), SequenceRows(getfasta(windows)),
          DesignParams(cfg.ampliconSize, cfg.sizeBuffer, cfg.meltingTemperature, cfg.numSets, cfg.probe),
          cfg.numSets)
  }

  /** Expands the target table in place, fetches and splits the sequences, reduces the
      engine's output to the record table and builds the adapted copy. The first fault
      ends the run with no table at all. */
  method DesignPrimers(cfg: Config, inputbed: array<Site>, getfasta: seq<Site> -> seq<string>,
                       design: Request -> Reply)
    returns (r: Result<(array<PrimerRecord>, array<PrimerRecord>), Fault>)
    requires 0 < cfg.ratioDen
    modifies inputbed
    ensures forall i :: 0 <= i < inputbed.Length ==>
              inputbed[i] == Expand(old(inputbed[i]), DesignBuffer(cfg.ampliconSize, cfg.ratioNum, cfg.ratioDen))
    ensures RunBatch(cfg, inputbed[..], getfasta).names == Names(old(inputbed[..]))
    ensures var batch := RunBatch(cfg, inputbed[..], getfasta);
            var reduced := Reduced(batch, design, |batch.templates|);
            (reduced.Err? ==> r == Err(reduced.error)) &&
            (reduced.Ok? ==> r.Ok? && r.value.0[..] == reduced.value)
    ensures r.Ok? ==> fresh(r.value.0) && fresh(r.value.1) && r.value.1.Length == r.value.0.Length
    ensures r.Ok? ==> forall i :: 0 <= i < r.value.0.Length ==>
              r.value.1[i] == Adapted(r.value.0[i], cfg.fwdHandle, cfg.revHandle)
  {
    var ampSeqBuffer := DesignBuffer(cfg.ampliconSize, cfg.ratioNum, cfg.ratioDen);
    ExpandWindows(inputbed, ampSeqBuffer);
    ExpansionKeepsNames(old(inputbed[..]), inputbed[..], ampSeqBuffer);
    var fastaSeqs := SplitFasta(getfasta(inputbed[..]));
    var params := DesignParams(cfg.ampliconSize, cfg.sizeBuffer, cfg.meltingTemperature, cfg.numSets, cfg.probe);
    var runningList := ReduceResults(Batch(Names(inputbed[..]), fastaSeqs, params, cfg.numSets), design);
    if runningList.Err? {
      return Err(runningList.error);
    }
    var records := runningList.value;
    var primerTable := new PrimerRecord[|records|](i requires 0 <= i < |records| => records[i]);
    var adaptedTable := AppendHandles(primerTable, cfg.fwdHandle, cfg.revHandle);
    r := Ok((primerTable, adaptedTable));
  }
}
