/**
 * CsvToDbChunkJobConfig: the chunk-model CSV -> DB jobs. The readers' column names,
 * the product and sales processors, and the three item writers, which upsert the
 * items of a chunk one after the other and rethrow the first failure. The chunk
 * loop, its transaction and its rollback belong to Spring Batch and are not modelled;
 * the employee job's processor is EmployeeProcessor.Process.
 */
module CsvToDbChunkJobConfig {
  import opened JavaLang
  import opened Records
  import opened EntityTable
  import EmployeeCsvToDbTasklet
  import ProductCsvToDbTasklet
  import SalesCsvToDbTasklet

  /** The names the three FlatFileItemReaders give the CSV columns, in column order. */
  const EmployeeReaderNames: seq<string> :=
    ["employeeCode", "firstName", "lastName", "email", "department", "position", "salary", "hireDate", "status"]
  const ProductReaderNames: seq<string> :=
    ["productCode", "productName", "category", "price", "stockQuantity", "description", "manufacturer", "releaseDate", "isActive"]
  const SalesReaderNames: seq<string> :=
    ["transactionId", "productCode", "customerName", "quantity", "unitPrice", "totalAmount", "saleDate", "paymentMethod", "status"]

  // ---------------------------------------------------------------------------
  // Processors

  /** productProcessor(): a blank product code filters the record; isActive defaults to true. */
  function ProductProcessor(c: CsvProduct): (r: Option<Product>)
    ensures r.None? <==> IsNullOrBlank(c.productCode)
    ensures r.Some? ==> r.value.isActive == (if c.isActive.Some? then c.isActive else Some(true))
  {
    if IsNullOrBlank(c.productCode) then None
    else Some(Product(
      id := None,
      productCode := c.productCode,
      productName := c.productName,
      category := c.category,
      price := c.price,
      stockQuantity := c.stockQuantity,
      description := c.description,
      manufacturer := c.manufacturer,
      releaseDate := c.releaseDate,
      isActive := if c.isActive.Some? then c.isActive else Some(true),
      createdAt := None,
      updatedAt := None))
  }

  /** salesProcessor(): a blank transaction id filters the record; status defaults to COMPLETED. */
  function SalesProcessor(c: CsvSales): (r: Option<Sales>)
    ensures r.None? <==> IsNullOrBlank(c.transactionId)
    ensures r.Some? ==> r.value.status == (if c.status.Some? then c.status else Some("COMPLETED"))
  {
    if IsNullOrBlank(c.transactionId) then None
    else Some(Sales(
      id := None,
      transactionId := c.transactionId,
      productCode := c.productCode,
      customerName := c.customerName,
      quantity := c.quantity,
      unitPrice := c.unitPrice,
      totalAmount := c.totalAmount,
      saleDate := c.saleDate,
      paymentMethod := c.paymentMethod,
      status := if c.status.Some? then c.status else Some("COMPLETED"),
      createdAt := None,
      updatedAt := None))
  }

  /** The chunk job and the tasklet job turn every product record into the same entity. */
  lemma ProductProcessorAgrees(c: CsvProduct)
    ensures ProductProcessor(c) == ProductCsvToDbTasklet.ConvertToEntity(c)
  {
  }

  /** The chunk job and the tasklet job turn every sales record into the same entity. */
  lemma SalesProcessorAgrees(c: CsvSales)
    ensures SalesProcessor(c) == SalesCsvToDbTasklet.ConvertToEntity(c)
  {
  }

  // ---------------------------------------------------------------------------
  // Writers

  /** The first position from `from` on, below n, whose write throws. */
  function FirstFault(from: nat, n: nat, faults: set<nat>): (r: Option<nat>)
    ensures r.Some? ==> from <= r.value < n && r.value in faults && forall j :: from <= j < r.value ==> j !in faults
    ensures r.None? ==> forall j :: from <= j < n ==> j !in faults
    decreases n - from
  {
    if from >= n then None
    else if from in faults then Some(from)
    else FirstFault(from + 1, n, faults)
  }

  /** How many items the writer gets through: all of them, or those before the first failure. */
  function Written(n: nat, faults: set<nat>): (w: nat)
    ensures w <= n
    // every item before w is written, and w is the first failing position when it is short of n
    ensures forall j :: 0 <= j < w ==> j !in faults
    ensures w < n ==> w in faults
  {
    var f := FirstFault(0, n, faults);
    if f.Some? then f.value else n
  }

  /**
   * The writer lambda shared by employeeWriter, productWriter and salesWriter: each item
   * in order is upserted by its code; the first item whose mapper call throws is
   * rethrown (its position returned) and the items after it are not written.
   */
  method WriteChunk<E(!new)>(mapper: Table<E>, items: seq<E>, faults: set<nat>) returns (thrownAt: Option<nat>)
    requires Lawful(mapper.keying) && AllKeyed(mapper.keying, items)
    modifies mapper
    ensures thrownAt == FirstFault(0, |items|, faults)
    ensures AllKeyed(mapper.keying, items[..Written(|items|, faults)])
    ensures mapper.State() == UpsertAll(mapper.keying, old(mapper.State()), items[..Written(|items|, faults)])
  {
    ghost var start := mapper.State();
    var i := 0;
    while i < |items|
      invariant i <= |items|
      invariant WroteUpTo(mapper.keying, start, items, faults, i, mapper.State())
    {
      UpsertAllExtend(mapper.keying, start, items, i);
      var ok := SaveEntity(mapper, items[i], i in faults);
      if !ok {
        FirstFaultAt(0, |items|, faults, i);
        return Some(i);
      }
      i := i + 1;
    }
    FirstFaultNone(0, |items|, faults);
    assert items[..|items|] == items;
    thrownAt := None;
  }

  /** The first i items are written without a fault, and the table shows exactly them. */
  ghost predicate WroteUpTo<E>(k: Keying<E>, start: TableState<E>, items: seq<E>, faults: set<nat>, i: nat, now: TableState<E>)
  {
    i <= |items| && (forall j :: 0 <= j < i ==> j !in faults) &&
    AllKeyed(k, items[..i]) && now == UpsertAll(k, start, items[..i])
  }

  /** Saving one more item of the chunk extends the saves so far by that item. */
  lemma UpsertAllExtend<E>(k: Keying<E>, t: TableState<E>, items: seq<E>, i: nat)
    requires AllKeyed(k, items) && i < |items|
    ensures AllKeyed(k, items[..i]) && AllKeyed(k, items[..i + 1])
    ensures UpsertAll(k, t, items[..i + 1]) == Upsert(k, UpsertAll(k, t, items[..i]), items[i])
  {
    assert items[..i + 1][..i] == items[..i];
    assert forall j :: 0 <= j < i + 1 ==> items[..i + 1][j] == items[j];
  }

  lemma {:induction false} FirstFaultAt(from: nat, n: nat, faults: set<nat>, i: nat)
    requires from <= i < n && i in faults && forall j :: from <= j < i ==> j !in faults
    ensures FirstFault(from, n, faults) == Some(i)
    decreases i - from
  {
    if from < i {
      FirstFaultAt(from + 1, n, faults, i);
    }
  }

  lemma {:induction false} FirstFaultNone(from: nat, n: nat, faults: set<nat>)
    requires forall j :: from <= j < n ==> j !in faults
    ensures FirstFault(from, n, faults) == None
    decreases n - from
  {
    if from < n {
      FirstFaultNone(from + 1, n, faults);
    }
  }

  /**
   * A chunk written without failure leaves one row per written code, rows of other
   * codes unchanged, and the row of each code carrying its last item.
   */
  lemma CleanChunkRows<E(!new)>(k: Keying<E>, t: TableState<E>, items: seq<E>, j: nat)
    requires Lawful(k) && AllKeyed(k, items) && WellKeyed(k, t)
    requires j < |items| && forall i :: j < i < |items| ==> k.codeOf(items[i]) != k.codeOf(items[j])
    ensures var r := UpsertAll(k, t, items);
      r.rows.Keys == t.rows.Keys + Codes(k, items) &&
      (forall c :: c in t.rows && c !in Codes(k, items) ==> r.rows[c] == t.rows[c]) &&
      WellKeyed(k, r) &&
      r.rows[k.codeOf(items[j]).value] == k.withId(items[j], k.idOf(r.rows[k.codeOf(items[j]).value]))
  {
    UpsertAllRows(k, t, items);
    UpsertAllLastWins(k, t, items, j);
  }

  /** employeeWriter() */
  method EmployeeWriter(employeeMapper: Table<Employee>, items: seq<Employee>, faults: set<nat>) returns (thrownAt: Option<nat>)
    requires employeeMapper.keying == EmployeeCsvToDbTasklet.EmployeeKeying
    requires forall i :: 0 <= i < |items| ==> items[i].employeeCode.Some?
    modifies employeeMapper
    ensures thrownAt == FirstFault(0, |items|, faults)
    ensures AllKeyed(employeeMapper.keying, items[..Written(|items|, faults)])
    ensures employeeMapper.State() ==
      UpsertAll(employeeMapper.keying, old(employeeMapper.State()), items[..Written(|items|, faults)])
  {
    EmployeeCsvToDbTasklet.EmployeeKeyingLawful();
    thrownAt := WriteChunk(employeeMapper, items, faults);
  }

  /** productWriter() */
  method ProductWriter(productMapper: Table<Product>, items: seq<Product>, faults: set<nat>) returns (thrownAt: Option<nat>)
    requires productMapper.keying == ProductCsvToDbTasklet.ProductKeying
    requires forall i :: 0 <= i < |items| ==> items[i].productCode.Some?
    modifies productMapper
    ensures thrownAt == FirstFault(0, |items|, faults)
    ensures AllKeyed(productMapper.keying, items[..Written(|items|, faults)])
    ensures productMapper.State() ==
      UpsertAll(productMapper.keying, old(productMapper.State()), items[..Written(|items|, faults)])
  {
    ProductCsvToDbTasklet.ProductKeyingLawful();
    thrownAt := WriteChunk(productMapper, items, faults);
  }

  /** salesWriter() */
  method SalesWriter(salesMapper: Table<Sales>, items: seq<Sales>, faults: set<nat>) returns (thrownAt: Option<nat>)
    requires salesMapper.keying == SalesCsvToDbTasklet.SalesKeying
    requires forall i :: 0 <= i < |items| ==> items[i].transactionId.Some?
    modifies salesMapper
    ensures thrownAt == FirstFault(0, |items|, faults)
    ensures AllKeyed(salesMapper.keying, items[..Written(|items|, faults)])
    ensures salesMapper.State() ==
      UpsertAll(salesMapper.keying, old(salesMapper.State()), items[..Written(|items|, faults)])
  {
    SalesCsvToDbTasklet.SalesKeyingLawful();
    thrownAt := WriteChunk(salesMapper, items, faults);
  }
}
