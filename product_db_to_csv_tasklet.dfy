/**
 * ProductDbToCsvTasklet: the product instance of the DB -> CSV tasklet. The
 * conversion copies the nine CSV fields, isActive as it is; the header names the
 * nine columns.
 */
module ProductDbToCsvTasklet {
  import opened JavaLang
  import opened Records
  import DbToCsvTasklet
  import ProductCsvToDbTasklet

  /** convertToCsvDto(product) */
  function ConvertToCsvDto(p: Product): (r: Option<CsvProduct>)
    ensures r.Some?
    ensures var c := r.value;
      c.productCode == p.productCode && c.productName == p.productName && c.category == p.category &&
      c.price == p.price && c.stockQuantity == p.stockQuantity && c.description == p.description &&
      c.manufacturer == p.manufacturer && c.releaseDate == p.releaseDate && c.isActive == p.isActive
  {
    Some(CsvProduct(
      productCode := p.productCode,
      productName := p.productName,
      category := p.category,
      price := p.price,
      stockQuantity := p.stockQuantity,
      description := p.description,
      manufacturer := p.manufacturer,
      releaseDate := p.releaseDate,
      isActive := p.isActive))
  }

  /** getCsvHeader(), written column by column. */
  const CsvHeader: string :=
    "product_code" + "," + "product_name" + "," + "category" + "," + "price" + "," + "stock_quantity" + "," +
    "description" + "," + "manufacturer" + "," + "release_date" + "," + "is_active"

  /** The header is the CSV columns of CsvProduct, in position order, separated by commas. */
  lemma HeaderColumns()
    ensures Split(CsvHeader, ',') == CsvProductColumns
    ensures |Split(CsvHeader, ',')| == 9
  {
    SplitNine("product_code", "product_name", "category", "price", "stock_quantity", "description", "manufacturer", "release_date", "is_active");
  }

  /** Every loaded product is exported, in load order, as its conversion. */
  lemma ExportsEveryProduct(entities: seq<Product>)
    ensures |DbToCsvTasklet.NonNull(entities, ConvertToCsvDto)| == |entities|
    ensures forall i :: 0 <= i < |entities| ==>
      DbToCsvTasklet.NonNull(entities, ConvertToCsvDto)[i] == ConvertToCsvDto(entities[i]).value
  {
    DbToCsvTasklet.NonNullTotal(entities, ConvertToCsvDto);
  }

  /**
   * CSV -> entity -> CSV gives the record back exactly when the record is kept
   * (non-blank code) and isActive was given, so the default did not apply.
   */
  lemma RoundTripFromCsv(c: CsvProduct)
    ensures (ProductCsvToDbTasklet.ConvertToEntity(c).Some? &&
             ConvertToCsvDto(ProductCsvToDbTasklet.ConvertToEntity(c).value) == Some(c)) <==>
      (!IsNullOrBlank(c.productCode) && c.isActive.Some?)
  {
  }

  /**
   * entity -> CSV -> entity gives the entity back, less the id and the timestamps, when
   * its code is non-blank and isActive is set.
   */
  lemma RoundTripFromEntity(p: Product)
    requires !IsNullOrBlank(p.productCode) && p.isActive.Some?
    ensures ProductCsvToDbTasklet.ConvertToEntity(ConvertToCsvDto(p).value) == Some(p.(id := None, createdAt := None, updatedAt := None))
  {
  }
}
