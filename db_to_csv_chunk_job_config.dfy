/**
 * DbToCsvChunkJobConfig: the chunk-model DB -> CSV jobs. The three entity -> DTO
 * processors, the names each writer's field extractor reads, and each writer's
 * header line. Paging through the table and writing lines belong to Spring Batch.
 */
module DbToCsvChunkJobConfig {
  import opened JavaLang
  import opened Records
  import EmployeeDbToCsvTasklet
  import ProductDbToCsvTasklet
  import SalesDbToCsvTasklet
  import CsvToDbChunkJobConfig

  /** employeeToCsvProcessor(): copies the nine CSV fields; never filters. */
  function EmployeeToCsvProcessor(e: Employee): (r: Option<CsvEmployee>)
    ensures r.Some?
  {
    Some(CsvEmployee(e.employeeCode, e.firstName, e.lastName, e.email, e.department,
                     e.position, e.salary, e.hireDate, e.status))
  }

  /** productToCsvProcessor(): copies the nine CSV fields, isActive without a default; never filters. */
  function ProductToCsvProcessor(p: Product): (r: Option<CsvProduct>)
    ensures r.Some? && r.value.isActive == p.isActive
  {
    Some(CsvProduct(p.productCode, p.productName, p.category, p.price, p.stockQuantity,
                    p.description, p.manufacturer, p.releaseDate, p.isActive))
  }

  /** salesToCsvProcessor(): copies the nine CSV fields, status included; never filters. */
  function SalesToCsvProcessor(s: Sales): (r: Option<CsvSales>)
    ensures r.Some? && r.value.status == s.status
  {
    Some(CsvSales(s.transactionId, s.productCode, s.customerName, s.quantity, s.unitPrice,
                  s.totalAmount, s.saleDate, s.paymentMethod, s.status))
  }

  /** The chunk jobs and the tasklet jobs convert every entity to the same DTO. */
  lemma ProcessorsAgreeWithTasklets(e: Employee, p: Product, s: Sales)
    ensures EmployeeToCsvProcessor(e) == EmployeeDbToCsvTasklet.ConvertToCsvDto(e)
    ensures ProductToCsvProcessor(p) == ProductDbToCsvTasklet.ConvertToCsvDto(p)
    ensures SalesToCsvProcessor(s) == SalesDbToCsvTasklet.ConvertToCsvDto(s)
  {
  }

  /** The BeanWrapperFieldExtractor names of the three writers. */
  const EmployeeExtractorNames: seq<string> :=
    ["employeeCode", "firstName", "lastName", "email", "department", "position", "salary", "hireDate", "status"]
  const ProductExtractorNames: seq<string> :=
    ["productCode", "productName", "category", "price", "stockQuantity", "description", "manufacturer", "releaseDate", "isActive"]
  const SalesExtractorNames: seq<string> :=
    ["transactionId", "productCode", "customerName", "quantity", "unitPrice", "totalAmount", "saleDate", "paymentMethod", "status"]

  /** The header callbacks of the three writers, written column by column. */
  const EmployeeHeader: string :=
    "employee_code" + "," + "first_name" + "," + "last_name" + "," + "email" + "," + "department" + "," +
    "position" + "," + "salary" + "," + "hire_date" + "," + "status"
  const ProductHeader: string :=
    "product_code" + "," + "product_name" + "," + "category" + "," + "price" + "," + "stock_quantity" + "," +
    "description" + "," + "manufacturer" + "," + "release_date" + "," + "is_active"
  const SalesHeader: string :=
    "transaction_id" + "," + "product_code" + "," + "customer_name" + "," + "quantity" + "," + "unit_price" + "," +
    "total_amount" + "," + "sale_date" + "," + "payment_method" + "," + "status"

  /** The chunk writers' headers are the tasklets' getCsvHeader strings. */
  lemma HeadersMatchTasklets()
    ensures EmployeeHeader == EmployeeDbToCsvTasklet.CsvHeader
    ensures ProductHeader == ProductDbToCsvTasklet.CsvHeader
    ensures SalesHeader == SalesDbToCsvTasklet.CsvHeader
  {
  }

  /**
   * Column i of the employee header and extractor name i belong to the same field:
   * the one CsvEmployee binds, at position i, to that column. The CSV -> DB reader
   * uses the same names in the same order.
   */
  lemma EmployeeNamesMatchHeader()
    ensures EmployeeExtractorNames == Fields(CsvEmployeeBindings)
    ensures Split(EmployeeHeader, ',') == Columns(CsvEmployeeBindings)
    ensures EmployeeExtractorNames == CsvToDbChunkJobConfig.EmployeeReaderNames
  {
    BindingsInPositionOrder();
    EmployeeDbToCsvTasklet.HeaderColumns();
    assert EmployeeHeader == EmployeeDbToCsvTasklet.CsvHeader;
  }

  /** The same correspondence for the product writer, reader and CsvProduct. */
  lemma ProductNamesMatchHeader()
    ensures ProductExtractorNames == Fields(CsvProductBindings)
    ensures Split(ProductHeader, ',') == Columns(CsvProductBindings)
    ensures ProductExtractorNames == CsvToDbChunkJobConfig.ProductReaderNames
  {
    BindingsInPositionOrder();
    ProductDbToCsvTasklet.HeaderColumns();
  }

  /** The same correspondence for the sales writer, reader and CsvSales. */
  lemma SalesNamesMatchHeader()
    ensures SalesExtractorNames == Fields(CsvSalesBindings)
    ensures Split(SalesHeader, ',') == Columns(CsvSalesBindings)
    ensures SalesExtractorNames == CsvToDbChunkJobConfig.SalesReaderNames
  {
    BindingsInPositionOrder();
    SalesDbToCsvTasklet.HeaderColumns();
  }
}
