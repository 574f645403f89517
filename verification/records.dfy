/** The rows the spreadsheet reader hands to the page. */
module Records {

  datatype Option<+T> = None | Some(value: T)

  /**
   * One parsed spreadsheet row. The reader produces one object per row and
   * leaves out the cells that are empty, so every field the page reads may be
   * missing. Only the fields that the page's logic reads are kept:
   * `product_id` (filtered on) and `basket_location` (resolved for display).
   */
  datatype Row = Row(productId: Option<string>, basketLocation: Option<string>)

  /** Every row carries a product id: what the search filter needs to run. */
  predicate AllHaveIds(rows: seq<Row>)
  {
    forall r :: r in rows ==> r.productId.Some?
  }
}
