/** The log pipeline (src/sassessment/legacy_logs/engine.py): assemble, parse, correlate, count. */
module LogEngine {
  import opened Assembler
  import opened Lifecycle
  import opened LifecycleLaws

  /** The parsed records, in the order of their drafts. */
  function ParseAll(parse: RawRecord -> ParsedRecord, drafts: seq<RawRecord>): seq<ParsedRecord> {
    seq(|drafts|, i requires 0 <= i < |drafts| => parse(drafts[i]))
  }

  /** One parsed record per assembled draft, and the stages of exactly these records. */
  method ParseStream(raws: seq<string>, parse: RawRecord -> ParsedRecord)
    returns (records: seq<ParsedRecord>, lifecycle: seq<LifecycleStage>)
    ensures records == ParseAll(parse, Assemble(raws))
    ensures lifecycle == Stages(records)
  {
    var drafts := AssembleRecords(raws);
    records := [];
    for i := 0 to |drafts|
      invariant records == ParseAll(parse, drafts[..i])
    {
      records := records + [parse(drafts[i])];
    }
    assert drafts[..|drafts|] == drafts;
    lifecycle := BuildLifecycle(records);
  }

  /** The lifecycle counts of the metrics, for the stages of any records and any list of their keys. */
  method LifecycleCounts(records: seq<ParsedRecord>, stages: seq<LifecycleStage>, ghost keys: seq<Key>)
    returns (orphanFins: nat, incomplete: nat)
    requires stages == Stages(records) && Distinct(keys) && Covers(Events(records), keys)
    ensures orphanFins == SumMaxExcess(Events(records), keys)
    ensures incomplete == SumBalance(Events(records), keys) + 2 * SumMaxExcess(Events(records), keys)
  {
    orphanFins, incomplete := 0, 0;
    for i := 0 to |stages|
      invariant orphanFins == OrphanFinCount(stages[..i])
      invariant incomplete == IncompleteLifecycleCount(stages[..i])
    {
      assert stages[..i + 1][..i] == stages[..i];
      if stages[i].orphan {
        orphanFins := orphanFins + 1;
      }
      if !stages[i].complete {
        incomplete := incomplete + 1;
      }
    }
    assert stages[..|stages|] == stages;
    LifecycleMetrics(records, keys);
  }
}
