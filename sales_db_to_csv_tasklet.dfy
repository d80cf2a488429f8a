/**
 * SalesDbToCsvTasklet: the sales instance of the DB -> CSV tasklet. The conversion
 * copies the nine CSV fields; the header names the nine columns.
 */
module SalesDbToCsvTasklet {
  import opened JavaLang
  import opened Records
  import DbToCsvTasklet
  import SalesCsvToDbTasklet

  /** convertToCsvDto(sales) */
  function ConvertToCsvDto(s: Sales): (r: Option<CsvSales>)
    ensures r.Some?
    ensures var c := r.value;
      c.transactionId == s.transactionId && c.productCode == s.productCode && c.customerName == s.customerName &&
      c.quantity == s.quantity && c.unitPrice == s.unitPrice && c.totalAmount == s.totalAmount &&
      c.saleDate == s.saleDate && c.paymentMethod == s.paymentMethod && c.status == s.status
  {
    Some(CsvSales(
      transactionId := s.transactionId,
      productCode := s.productCode,
      customerName := s.customerName,
      quantity := s.quantity,
      unitPrice := s.unitPrice,
      totalAmount := s.totalAmount,
      saleDate := s.saleDate,
      paymentMethod := s.paymentMethod,
      status := s.status))
  }

  /** getCsvHeader(), written column by column. */
  const CsvHeader: string :=
    "transaction_id" + "," + "product_code" + "," + "customer_name" + "," + "quantity" + "," + "unit_price" + "," +
    "total_amount" + "," + "sale_date" + "," + "payment_method" + "," + "status"

  /** The header is the CSV columns of CsvSales, in position order, separated by commas. */
  lemma HeaderColumns()
    ensures Split(CsvHeader, ',') == CsvSalesColumns
    ensures |Split(CsvHeader, ',')| == 9
  {
    SplitNine("transaction_id", "product_code", "customer_name", "quantity", "unit_price", "total_amount", "sale_date", "payment_method", "status");
  }

  /** Every loaded sales record is exported, in load order, as its conversion. */
  lemma ExportsEverySale(entities: seq<Sales>)
    ensures |DbToCsvTasklet.NonNull(entities, ConvertToCsvDto)| == |entities|
    ensures forall i :: 0 <= i < |entities| ==>
      DbToCsvTasklet.NonNull(entities, ConvertToCsvDto)[i] == ConvertToCsvDto(entities[i]).value
  {
    DbToCsvTasklet.NonNullTotal(entities, ConvertToCsvDto);
  }

  /**
   * CSV -> entity -> CSV gives the record back exactly when the record is kept
   * (non-blank transaction id) and a status was given, so the default did not apply.
   */
  lemma RoundTripFromCsv(c: CsvSales)
    ensures (SalesCsvToDbTasklet.ConvertToEntity(c).Some? &&
             ConvertToCsvDto(SalesCsvToDbTasklet.ConvertToEntity(c).value) == Some(c)) <==>
      (!IsNullOrBlank(c.transactionId) && c.status.Some?)
  {
  }

  /**
   * entity -> CSV -> entity gives the record back, less the id and the timestamps, when
   * its transaction id is non-blank and its status is set.
   */
  lemma RoundTripFromEntity(s: Sales)
    requires !IsNullOrBlank(s.transactionId) && s.status.Some?
    ensures SalesCsvToDbTasklet.ConvertToEntity(ConvertToCsvDto(s).value) == Some(s.(id := None, createdAt := None, updatedAt := None))
  {
  }
}
