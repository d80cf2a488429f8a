/**
 * ProductCsvToDbTasklet: the product instance of the CSV -> DB tasklet. A blank
 * product code filters the record out, a missing isActive becomes true, and saveEntity
 * is the upsert keyed by product code.
 */
module ProductCsvToDbTasklet {
  import opened JavaLang
  import opened Records
  import opened EntityTable
  import opened BatchCore
  import CsvToDbTasklet

  /** convertToEntity(csvProduct) */
  function ConvertToEntity(c: CsvProduct): (r: Option<Product>)
    ensures r.None? <==> IsNullOrBlank(c.productCode)
    ensures r.Some? ==> var p := r.value;
      p.id.None? && p.createdAt.None? && p.updatedAt.None? &&
      p.productCode == c.productCode && p.productName == c.productName && p.category == c.category &&
      p.price == c.price && p.stockQuantity == c.stockQuantity && p.description == c.description &&
      p.manufacturer == c.manufacturer && p.releaseDate == c.releaseDate &&
      p.isActive.Some? && (c.isActive.Some? ==> p.isActive == c.isActive) && (c.isActive.None? ==> p.isActive == Some(true))
  {
    if IsNullOrBlank(c.productCode) then None
    else Some(Product(
      id := None,
      productCode := c.productCode,
      productName := c.productName,
      category := c.category,
      price := c.price,
      stockQuantity := c.stockQuantity,
      description := c.description,
      manufacturer := c.manufacturer,
      releaseDate := c.releaseDate,
      isActive := if c.isActive.Some? then c.isActive else Some(true),
      createdAt := None,
      updatedAt := None))
  }

  /** Products are keyed by productCode; setId replaces the id. */
  const ProductKeying: Keying<Product> :=
    Keying((p: Product) => p.productCode, (p: Product) => p.id, (p: Product, id: Option<int>) => p.(id := id))

  lemma ProductKeyingLawful()
    ensures Lawful(ProductKeying)
  {
  }

  lemma ConvertKeepsCode()
    ensures CsvToDbTasklet.KeepsCode(ProductKeying, ConvertToEntity)
  {
  }

  /**
   * saveEntity(product): with a row for the code the product takes that row's id and
   * replaces it; without one it is inserted. A failing mapper call throws.
   */
  method SaveEntity(productMapper: Table<Product>, product: Product, fails: bool) returns (ok: bool)
    requires productMapper.keying == ProductKeying && product.productCode.Some?
    modifies productMapper
    ensures ok == !fails
    ensures productMapper.State() ==
      if fails then old(productMapper.State()) else Upsert(ProductKeying, old(productMapper.State()), product)
  {
    ProductKeyingLawful();
    ok := EntityTable.SaveEntity(productMapper, product, fails);
  }

  /** execute(...) of the product tasklet. */
  method Execute(params: map<string, string>, parsed: Result<seq<CsvProduct>>, productMapper: Table<Product>, faults: set<nat>)
    returns (r: Result<RepeatStatus>, processed: nat, errors: nat)
    requires productMapper.keying == ProductKeying
    modifies productMapper
    ensures PathMissing(params, CsvToDbTasklet.InputFilePath) ==>
      r == Err(CsvToDbTasklet.MissingInputPath) && productMapper.State() == old(productMapper.State())
    ensures !PathMissing(params, CsvToDbTasklet.InputFilePath) && parsed.Err? ==>
      r == Err(parsed.error) && productMapper.State() == old(productMapper.State())
    ensures !PathMissing(params, CsvToDbTasklet.InputFilePath) && parsed.Ok? ==>
      r == Ok(Finished) &&
      CsvToDbTasklet.Import(ProductKeying, old(productMapper.State()), parsed.value, ConvertToEntity, faults)
        == CsvToDbTasklet.Outcome(productMapper.State(), processed, errors)
  {
    ProductKeyingLawful();
    ConvertKeepsCode();
    r, processed, errors := CsvToDbTasklet.Execute(params, parsed, ConvertToEntity, productMapper, faults);
  }
}
