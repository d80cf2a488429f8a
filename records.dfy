/**
 * The DTOs read from and written to CSV (the dto package) and the entities stored
 * in the database (the entity package). Every Java field is a nullable reference, so
 * every field is an Option. BigDecimal is a real, Integer an int, Long an int.
 */
module Records {
  import opened JavaLang

  /** java.time.LocalDate */
  datatype Date = Date(year: int, month: int, day: int)

  /** java.time.LocalDateTime */
  datatype DateTime = DateTime(date: Date, hour: int, minute: int, second: int)

  datatype CsvEmployee = CsvEmployee(
    employeeCode: Option<string>,
    firstName: Option<string>,
    lastName: Option<string>,
    email: Option<string>,
    department: Option<string>,
    position: Option<string>,
    salary: Option<real>,
    hireDate: Option<Date>,
    status: Option<string>)

  datatype Employee = Employee(
    id: Option<int>,
    employeeCode: Option<string>,
    firstName: Option<string>,
    lastName: Option<string>,
    email: Option<string>,
    department: Option<string>,
    position: Option<string>,
    salary: Option<real>,
    hireDate: Option<Date>,
    status: Option<string>,
    createdAt: Option<DateTime>,
    updatedAt: Option<DateTime>)

  datatype CsvProduct = CsvProduct(
    productCode: Option<string>,
    productName: Option<string>,
    category: Option<string>,
    price: Option<real>,
    stockQuantity: Option<int>,
    description: Option<string>,
    manufacturer: Option<string>,
    releaseDate: Option<Date>,
    isActive: Option<bool>)

  datatype Product = Product(
    id: Option<int>,
    productCode: Option<string>,
    productName: Option<string>,
    category: Option<string>,
    price: Option<real>,
    stockQuantity: Option<int>,
    description: Option<string>,
    manufacturer: Option<string>,
    releaseDate: Option<Date>,
    isActive: Option<bool>,
    createdAt: Option<DateTime>,
    updatedAt: Option<DateTime>)

  datatype CsvSales = CsvSales(
    transactionId: Option<string>,
    productCode: Option<string>,
    customerName: Option<string>,
    quantity: Option<int>,
    unitPrice: Option<real>,
    totalAmount: Option<real>,
    saleDate: Option<DateTime>,
    paymentMethod: Option<string>,
    status: Option<string>)

  datatype Sales = Sales(
    id: Option<int>,
    transactionId: Option<string>,
    productCode: Option<string>,
    customerName: Option<string>,
    quantity: Option<int>,
    unitPrice: Option<real>,
    totalAmount: Option<real>,
    saleDate: Option<DateTime>,
    paymentMethod: Option<string>,
    status: Option<string>,
    createdAt: Option<DateTime>,
    updatedAt: Option<DateTime>)

  /** The fields of CsvEmployee, in declaration order. */
  const CsvEmployeeFields: seq<string> :=
    ["employeeCode", "firstName", "lastName", "email", "department", "position", "salary", "hireDate", "status"]

  /** The fields of CsvProduct, in declaration order. */
  const CsvProductFields: seq<string> :=
    ["productCode", "productName", "category", "price", "stockQuantity", "description", "manufacturer", "releaseDate", "isActive"]

  /** The fields of CsvSales, in declaration order. */
  const CsvSalesFields: seq<string> :=
    ["transactionId", "productCode", "customerName", "quantity", "unitPrice", "totalAmount", "saleDate", "paymentMethod", "status"]

  /** The `@CsvBindByName` column of each CsvEmployee field, in `@CsvBindByPosition` order. */
  const CsvEmployeeColumns: seq<string> :=
    ["employee_code", "first_name", "last_name", "email", "department",
     "position", "salary", "hire_date", "status"]

  /** The `@CsvBindByName` column of each CsvProduct field, in `@CsvBindByPosition` order. */
  const CsvProductColumns: seq<string> :=
    ["product_code", "product_name", "category", "price", "stock_quantity",
     "description", "manufacturer", "release_date", "is_active"]

  /** The `@CsvBindByName` column of each CsvSales field, in `@CsvBindByPosition` order. */
  const CsvSalesColumns: seq<string> :=
    ["transaction_id", "product_code", "customer_name", "quantity", "unit_price",
     "total_amount", "sale_date", "payment_method", "status"]

  /** One field's `@CsvBindByName(column = ...)` and `@CsvBindByPosition(position = ...)`. */
  datatype CsvBinding = CsvBinding(field: string, column: string, position: nat)

  /** The bindings of CsvEmployee, in declaration order. */
  const CsvEmployeeBindings: seq<CsvBinding> := [
    CsvBinding("employeeCode", "employee_code", 0),
    CsvBinding("firstName", "first_name", 1),
    CsvBinding("lastName", "last_name", 2),
    CsvBinding("email", "email", 3),
    CsvBinding("department", "department", 4),
    CsvBinding("position", "position", 5),
    CsvBinding("salary", "salary", 6),
    CsvBinding("hireDate", "hire_date", 7),
    CsvBinding("status", "status", 8)
  ]

  /** The bindings of CsvProduct, in declaration order. */
  const CsvProductBindings: seq<CsvBinding> := [
    CsvBinding("productCode", "product_code", 0),
    CsvBinding("productName", "product_name", 1),
    CsvBinding("category", "category", 2),
    CsvBinding("price", "price", 3),
    CsvBinding("stockQuantity", "stock_quantity", 4),
    CsvBinding("description", "description", 5),
    CsvBinding("manufacturer", "manufacturer", 6),
    CsvBinding("releaseDate", "release_date", 7),
    CsvBinding("isActive", "is_active", 8)
  ]

  /** The bindings of CsvSales, in declaration order. */
  const CsvSalesBindings: seq<CsvBinding> := [
    CsvBinding("transactionId", "transaction_id", 0),
    CsvBinding("productCode", "product_code", 1),
    CsvBinding("customerName", "customer_name", 2),
    CsvBinding("quantity", "quantity", 3),
    CsvBinding("unitPrice", "unit_price", 4),
    CsvBinding("totalAmount", "total_amount", 5),
    CsvBinding("saleDate", "sale_date", 6),
    CsvBinding("paymentMethod", "payment_method", 7),
    CsvBinding("status", "status", 8)
  ]

  /** The bound field names, in order. */
  function Fields(bs: seq<CsvBinding>): (r: seq<string>)
    ensures |r| == |bs| && forall i :: 0 <= i < |bs| ==> r[i] == bs[i].field
  {
    seq(|bs|, i requires 0 <= i < |bs| => bs[i].field)
  }

  /** The bound column names, in order. */
  function Columns(bs: seq<CsvBinding>): (r: seq<string>)
    ensures |r| == |bs| && forall i :: 0 <= i < |bs| ==> r[i] == bs[i].column
  {
    seq(|bs|, i requires 0 <= i < |bs| => bs[i].column)
  }

  /** Declaration order is position order: field i is bound to position i. */
  predicate InPositionOrder(bs: seq<CsvBinding>)
  {
    forall i :: 0 <= i < |bs| ==> bs[i].position == i
  }

  /** Each DTO binds its fields in position order to the column lists above. */
  lemma BindingsInPositionOrder()
    ensures InPositionOrder(CsvEmployeeBindings) && Columns(CsvEmployeeBindings) == CsvEmployeeColumns
    ensures InPositionOrder(CsvProductBindings) && Columns(CsvProductBindings) == CsvProductColumns
    ensures InPositionOrder(CsvSalesBindings) && Columns(CsvSalesBindings) == CsvSalesColumns
    ensures Fields(CsvEmployeeBindings) == CsvEmployeeFields
    ensures Fields(CsvProductBindings) == CsvProductFields
    ensures Fields(CsvSalesBindings) == CsvSalesFields
  {
  }
}
