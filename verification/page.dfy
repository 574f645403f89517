/** The page component `MainPage`: its state and the handlers that replace it. */
module Page {
  import opened Records
  import LocationCode
  import Search
  import Display

  /** `file.name.includes("xls")`: the upload gate, case-sensitive. */
  predicate IsExcelName(name: string)
    ensures IsExcelName(name) <==> exists i: nat :: Search.OccursAt(name, "xls", i)
  {
    Search.ContainsIff(name, "xls");
    Search.Contains(name, "xls")
  }

  /** Both spreadsheet extensions pass the gate. */
  lemma ExcelNamesAccepted()
    ensures IsExcelName("stock.xlsx") && IsExcelName("stock.xls")
  {
    var x, y := "stock.xlsx", "stock.xls";
    assert x[6..9] == "xls";
    assert y[6..9] == "xls";
    assert Search.OccursAt(x, "xls", 6);
    assert Search.OccursAt(y, "xls", 6);
    Search.ContainsIff(x, "xls");
    Search.ContainsIff(y, "xls");
  }

  /** The gate is case-sensitive and refuses other file types. */
  lemma OtherNamesRejected()
    ensures !IsExcelName("stock.XLSX") && !IsExcelName("stock.csv")
  {
    var x, y := "stock.XLSX", "stock.csv";
    assert 'x' !in x;
    assert 'x' !in y;
    Search.MissingFirstCharacter(x, "xls");
    Search.MissingFirstCharacter(y, "xls");
  }

  /**
   * The page's state: the uploaded rows (`excelData`), the search text once
   * the debounce has let it through (`searchValue`) and the fallback location
   * (`basketValue`).
   */
  class MainPage {
    var excelData: seq<Row>
    var searchValue: string
    var basketValue: string

    /** The fallback location is always a code the validator accepts. */
    ghost predicate Valid()
      reads this
    {
      LocationCode.IsLocationCode(basketValue)
    }

    constructor ()
      ensures Valid()
      ensures excelData == [] && searchValue == "" && basketValue == LocationCode.DefaultBasket
    {
      excelData := [];
      searchValue := "";
      basketValue := LocationCode.DefaultBasket;
      LocationCode.LocationCodeExamples();
    }

    /**
     * `onChangeBasket`: the candidate replaces the fallback only when the
     * validator accepts it; otherwise an error is reported and nothing changes.
     */
    method ChangeBasket(value: string) returns (error: bool)
      requires Valid()
      modifies this`basketValue
      ensures Valid()
      ensures error <==> !LocationCode.IsLocationCode(value)
      ensures basketValue == if error then old(basketValue) else value
    {
      if LocationCode.IsLocationCode(value) {
        basketValue := value;
        error := false;
      } else {
        error := true;
      }
    }

    /** The debounced `setSearchValue` once it fires: the search text is replaced. */
    method SetSearch(value: string)
      requires Valid()
      modifies this`searchValue
      ensures Valid()
      ensures searchValue == value
    {
      searchValue := value;
    }

    /**
     * `beforeUpload`: a file whose name contains "xls" has its parsed rows
     * replace the table wholesale; any other file is refused with an error
     * and the rows stay as they were. The handler always answers `false`, so
     * the upload widget never sends the file anywhere.
     */
    method BeforeUpload(name: string, rows: seq<Row>) returns (proceed: bool, error: bool)
      requires Valid()
      modifies this`excelData
      ensures Valid()
      ensures !proceed
      ensures error <==> !IsExcelName(name)
      ensures excelData == if error then old(excelData) else rows
    {
      if !IsExcelName(name) {
        error := true;
      } else {
        excelData := rows;
        error := false;
      }
      proceed := false;
    }

    /** `tableData`: the rows the table shows. */
    function TableData(): (shown: seq<Row>)
      reads this
      requires AllHaveIds(excelData)
      ensures forall r :: r in shown <==> r in excelData && Search.Keeps(r, searchValue)
      ensures forall r :: multiset(shown)[r] == if Search.Keeps(r, searchValue) then multiset(excelData)[r] else 0
      ensures Search.IsSubsequence(shown, excelData)
    {
      Search.FilterSubsequence(excelData, searchValue);
      var result := Search.Filter(excelData, searchValue);
      assert forall r :: multiset(result)[r] == if Search.Keeps(r, searchValue) then multiset(excelData)[r] else 0 by {
        forall r
          ensures multiset(result)[r] == if Search.Keeps(r, searchValue) then multiset(excelData)[r] else 0
        {
          Search.FilterCounts(excelData, searchValue, r);
        }
      }
      result
    }

    /**
     * The location a row shows under the current fallback. Because the
     * fallback is always valid, an invalid code that is not seven characters
     * long is shown with a valid code in its place.
     */
    function ShownLocation(row: Row): (d: Display.Shown)
      reads this
      requires Valid()
      requires row.basketLocation.Some?
      ensures d == Display.LocationText(row, basketValue)
      ensures !LocationCode.IsLocationCode(row.basketLocation.value) && |row.basketLocation.value| != 7 ==>
        d.Fallback? && LocationCode.IsLocationCode(d.code)
      ensures d.Fallback? ==> LocationCode.IsLocationCode(d.code)
      ensures Display.LocationQr(row, basketValue) == d.code
    {
      Display.BranchChoice(row, basketValue);
      Display.ColumnsAgree(row, basketValue);
      Display.LocationText(row, basketValue)
    }
  }
}
