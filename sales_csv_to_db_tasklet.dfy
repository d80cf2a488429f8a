/**
 * SalesCsvToDbTasklet: the sales instance of the CSV -> DB tasklet. A blank
 * transaction id filters the record out, a missing status becomes COMPLETED, and
 * saveEntity is the upsert keyed by transaction id.
 */
module SalesCsvToDbTasklet {
  import opened JavaLang
  import opened Records
  import opened EntityTable
  import opened BatchCore
  import CsvToDbTasklet

  const DefaultStatus := "COMPLETED"

  /** convertToEntity(csvSales) */
  function ConvertToEntity(c: CsvSales): (r: Option<Sales>)
    ensures r.None? <==> IsNullOrBlank(c.transactionId)
    ensures r.Some? ==> var s := r.value;
      s.id.None? && s.createdAt.None? && s.updatedAt.None? &&
      s.transactionId == c.transactionId && s.productCode == c.productCode && s.customerName == c.customerName &&
      s.quantity == c.quantity && s.unitPrice == c.unitPrice && s.totalAmount == c.totalAmount &&
      s.saleDate == c.saleDate && s.paymentMethod == c.paymentMethod &&
      s.status.Some? && (c.status.Some? ==> s.status == c.status) && (c.status.None? ==> s.status == Some(DefaultStatus))
  {
    if IsNullOrBlank(c.transactionId) then None
    else Some(Sales(
      id := None,
      transactionId := c.transactionId,
      productCode := c.productCode,
      customerName := c.customerName,
      quantity := c.quantity,
      unitPrice := c.unitPrice,
      totalAmount := c.totalAmount,
      saleDate := c.saleDate,
      paymentMethod := c.paymentMethod,
      status := if c.status.Some? then c.status else Some(DefaultStatus),
      createdAt := None,
      updatedAt := None))
  }

  /** Sales are keyed by transactionId; setId replaces the id. */
  const SalesKeying: Keying<Sales> :=
    Keying((s: Sales) => s.transactionId, (s: Sales) => s.id, (s: Sales, id: Option<int>) => s.(id := id))

  lemma SalesKeyingLawful()
    ensures Lawful(SalesKeying)
  {
  }

  lemma ConvertKeepsCode()
    ensures CsvToDbTasklet.KeepsCode(SalesKeying, ConvertToEntity)
  {
  }

  /**
   * saveEntity(sales): with a row for the transaction id the record takes that row's id
   * and replaces it; without one it is inserted. A failing mapper call throws.
   */
  method SaveEntity(salesMapper: Table<Sales>, sales: Sales, fails: bool) returns (ok: bool)
    requires salesMapper.keying == SalesKeying && sales.transactionId.Some?
    modifies salesMapper
    ensures ok == !fails
    ensures salesMapper.State() ==
      if fails then old(salesMapper.State()) else Upsert(SalesKeying, old(salesMapper.State()), sales)
  {
    SalesKeyingLawful();
    ok := EntityTable.SaveEntity(salesMapper, sales, fails);
  }

  /** execute(...) of the sales tasklet. */
  method Execute(params: map<string, string>, parsed: Result<seq<CsvSales>>, salesMapper: Table<Sales>, faults: set<nat>)
    returns (r: Result<RepeatStatus>, processed: nat, errors: nat)
    requires salesMapper.keying == SalesKeying
    modifies salesMapper
    ensures PathMissing(params, CsvToDbTasklet.InputFilePath) ==>
      r == Err(CsvToDbTasklet.MissingInputPath) && salesMapper.State() == old(salesMapper.State())
    ensures !PathMissing(params, CsvToDbTasklet.InputFilePath) && parsed.Err? ==>
      r == Err(parsed.error) && salesMapper.State() == old(salesMapper.State())
    ensures !PathMissing(params, CsvToDbTasklet.InputFilePath) && parsed.Ok? ==>
      r == Ok(Finished) &&
      CsvToDbTasklet.Import(SalesKeying, old(salesMapper.State()), parsed.value, ConvertToEntity, faults)
        == CsvToDbTasklet.Outcome(salesMapper.State(), processed, errors)
  {
    SalesKeyingLawful();
    ConvertKeepsCode();
    r, processed, errors := CsvToDbTasklet.Execute(params, parsed, ConvertToEntity, salesMapper, faults);
  }
}
