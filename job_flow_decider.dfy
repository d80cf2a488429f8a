/**
 * JobFlowDecider.decide: from the read and skip counts of the last step to one of
 * four flow statuses. The counts are Java longs that are never negative, so they
 * are nats here; the floating-point test (double) skip / read > 0.1 is stated as
 * the integer test 10 * skip > read.
 */
module JobFlowDecider {
  import opened JavaLang

  /** The two counters of a StepExecution that the decider reads. */
  datatype StepExecution = StepExecution(readCount: nat, skipCount: nat)

  datatype FlowExecutionStatus = HighSkipRate | NoData | LargeData | Completed
  {
    /** The status string the flow's on(...) patterns match. */
    function Name(): string
    {
      match this
      case HighSkipRate => "HIGH_SKIP_RATE"
      case NoData => "NO_DATA"
      case LargeData => "LARGE_DATA"
      case Completed => "COMPLETED"
    }
  }

  /** More than one record in ten skipped: skip / read > 0.1, with skip > 0 and read = 0 counted in. */
  predicate SkipRateTooHigh(e: StepExecution)
  {
    e.skipCount > 0 && 10 * e.skipCount > e.readCount
  }

  /** decide(jobExecution, stepExecution); a missing step execution is None. */
  function Decide(stepExecution: Option<StepExecution>): (r: FlowExecutionStatus)
    // with no step execution the flow always carries on as COMPLETED
    ensures stepExecution.None? ==> r == Completed
    // NO_DATA means nothing was read and nothing skipped; LARGE_DATA more than 10000 reads
    ensures r == NoData ==> stepExecution.Some? && stepExecution.value.readCount == 0 && stepExecution.value.skipCount == 0
    ensures r == LargeData ==> stepExecution.Some? && stepExecution.value.readCount > 10000
    ensures r == HighSkipRate <==> stepExecution.Some? && SkipRateTooHigh(stepExecution.value)
  {
    if stepExecution.Some? then
      var e := stepExecution.value;
      if SkipRateTooHigh(e) then HighSkipRate
      else if e.readCount == 0 then NoData
      else if e.readCount > 10000 then LargeData
      else Completed
    else Completed
  }

  /**
   * The decision table, each row stated on its own: which counts give which status,
   * with no reference to the order of the tests.
   */
  lemma DecisionTable(e: StepExecution)
    ensures var r := Decide(Some(e));
      (r == HighSkipRate <==> e.skipCount > 0 && 10 * e.skipCount > e.readCount) &&
      (r == NoData <==> e.readCount == 0 && e.skipCount == 0) &&
      (r == LargeData <==> e.readCount > 10000 && 10 * e.skipCount <= e.readCount) &&
      (r == Completed <==> 1 <= e.readCount <= 10000 && 10 * e.skipCount <= e.readCount)
  {
  }

  /** No step execution: the flow carries on as COMPLETED. */
  lemma NullStepIsCompleted()
    ensures Decide(None) == Completed
  {
  }

  /** Skipped records with nothing read is a high skip rate, not NO_DATA. */
  lemma SkipsWithoutReadsAreHighRate(skip: nat)
    requires skip > 0
    ensures Decide(Some(StepExecution(0, skip))) == HighSkipRate
  {
  }

  /** The high-skip test comes first: it wins over LARGE_DATA for any read count. */
  lemma HighSkipRateWins(read: nat, skip: nat)
    requires skip > 0 && 10 * skip > read
    ensures Decide(Some(StepExecution(read, skip))) == HighSkipRate
  {
  }

  /** Exactly one record in ten skipped is not a high skip rate (the test is strict). */
  lemma TenPercentIsNotHigh(read: nat)
    requires 1 <= read <= 10000 && read % 10 == 0
    ensures Decide(Some(StepExecution(read, read / 10))) == Completed
  {
  }

  /** 10000 records read is still normal; 10001 is large. */
  lemma LargeDataBoundary()
    ensures Decide(Some(StepExecution(10000, 0))) == Completed
    ensures Decide(Some(StepExecution(10001, 0))) == LargeData
  {
  }

  /** The four statuses have four different names. */
  lemma NamesDistinct(a: FlowExecutionStatus, b: FlowExecutionStatus)
    ensures a.Name() == b.Name() <==> a == b
  {
  }
}
