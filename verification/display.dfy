/**
 * The location columns of the table: the text column ("Vị trí") and the QR
 * column ("Vị trí QR Code") each decide, with the same three-way test, which
 * location a row shows.
 */
module Display {
  import opened Records
  import opened LocationCode

  /** What the text column shows for one row. */
  datatype Shown =
    | AsIs(code: string)                        // the row's own code, in red
    | Converted(original: string, code: string) // the row's code struck through, its conversion in red
    | Fallback(original: string, code: string)  // the row's code struck through, the fallback in red

  /**
   * The text column's render. The page reads `basket_location.length` once
   * the validator refuses the code, so a row without a location would stop
   * the render: the location must be present.
   */
  function LocationText(row: Row, basket: string): (d: Shown)
    requires row.basketLocation.Some?
    ensures IsLocationCode(row.basketLocation.value) ==> d.AsIs?
    ensures d.AsIs? ==> d.code == row.basketLocation.value && IsLocationCode(d.code)
    ensures !d.AsIs? ==> d.original == row.basketLocation.value
    ensures d.Converted? ==> d.code == Convert(d.original)
    ensures d.Converted? ==> |d.original| == 7 && |d.code| == 10 && Compact(d.code) == d.original
    ensures d.Fallback? ==> d.code == basket
    ensures IsLocationCode(basket) ==> (IsLocationCode(d.code) <==> !d.Converted? || CompactForm(d.original))
  {
    var loc := row.basketLocation.value;
    if IsLocationCode(loc) then AsIs(loc)
    else if |loc| == 7 then
      CompactConvert(loc);
      ConvertAcceptedIff(loc);
      Converted(loc, Convert(loc))
    else Fallback(loc, basket)
  }

  /**
   * The QR column's render: the value handed to the QR code. With a valid
   * fallback the QR code encodes a valid location, except when a
   * seven-character code that is not in compact form was converted.
   */
  function LocationQr(row: Row, basket: string): (r: string)
    requires row.basketLocation.Some?
    ensures IsLocationCode(basket) ==>
      (IsLocationCode(r) <==>
        IsLocationCode(row.basketLocation.value) || |row.basketLocation.value| != 7 ||
        CompactForm(row.basketLocation.value))
  {
    var loc := row.basketLocation.value;
    if IsLocationCode(loc) then loc
    else if |loc| == 7 then
      ConvertAcceptedIff(loc);
      Convert(loc)
    else basket
  }

  /** The QR code always encodes the value the text column shows in red. */
  lemma ColumnsAgree(row: Row, basket: string)
    requires row.basketLocation.Some?
    ensures LocationQr(row, basket) == LocationText(row, basket).code
  {
  }

  /**
   * Exactly one branch is taken: a valid code is shown as is; the first two
   * branches never overlap, because a seven-character code is never valid, so
   * it is always shown converted; every other invalid code shows the fallback.
   */
  lemma BranchChoice(row: Row, basket: string)
    requires row.basketLocation.Some?
    ensures IsLocationCode(row.basketLocation.value) ==> LocationText(row, basket).AsIs?
    ensures |row.basketLocation.value| == 7 ==> LocationText(row, basket).Converted?
    ensures |row.basketLocation.value| != 7 && !IsLocationCode(row.basketLocation.value) ==>
      LocationText(row, basket).Fallback?
  {
  }

  /** The three cases on concrete rows. */
  lemma ShownExamples()
    ensures LocationText(Row(None, Some("A-B-53-004")), "X-Y-99-999") == AsIs("A-B-53-004")
    ensures LocationText(Row(None, Some("AB53004")), "X-Y-99-999") == Converted("AB53004", "A-B-53-004")
    ensures LocationText(Row(None, Some("bad")), "A-B-53-004") == Fallback("bad", "A-B-53-004")
  {
    LocationCodeExamples();
    ConvertUnchecked();
    LocationCodeIffCanonical("bad");
  }
}
