# Excel QR tool — model of the page logic

The tool is a single React page (`src/Pages/index.js`). A user uploads a
spreadsheet of inventory rows. The page shows them in a searchable table with
a QR code for each product id and each storage-bin location. This project
models the logic inside that page:

- the location-code validator `userKeyRegExp` (`L-L-DD-DDD`), written as an
  anchored matcher over the pattern's terms and proved equal to a
  position-by-position reading (module `LocationCode`);
- the compact-code converter `convert` (`AB53004` → `A-B-53-004`), with
  JavaScript's `slice` clamping and its `"undefined"` for a missing
  character, and its inverse `Compact`, which deletes the three dashes;
- the three-way choice of the location shown by the text column and by the
  QR column (module `Display`);
- the search filter `tableData`, using ASCII case folding and `includes`
  (module `Search`);
- the component state `excelData`, `searchValue` and `basketValue` as the
  class `Page.MainPage`, with the handlers `onChangeBasket` and
  `beforeUpload` as methods. Its invariant is that the fallback location
  always passes the validator.

Spreadsheet rows are loosely typed: the reader leaves out empty cells, so
`Records.Row` holds `product_id` and `basket_location` as options. The page
crashes on a row without a product id while it filters, and on a row without a
location while it renders the location columns. The model therefore makes the
presence of those fields a precondition of every member that filters or
renders a location: `Search.Filter`, `Display.LocationText`,
`Display.LocationQr`, `Page.MainPage.TableData` and
`Page.MainPage.ShownLocation`.

`convert` accepts any string, so `Convert` is total too; the display calls it
only after its length test. `onChangeBasket` replaces state and reports an
error message, so `ChangeBasket` returns an `error` flag and updates the field.

## Model

| member | source | states |
|---|---|---|
| LocationCode.LocationCodeIffCanonical | src/Pages/index.js:20 | the regex accepts a string iff it has exactly 10 characters: uppercase letters at 0 and 2, `-` at 1, 3 and 6, digits at 4, 5, 7, 8 and 9 |
| LocationCode.IsLocationCode | src/Pages/index.js:20 | `userKeyRegExp.test`: every accepted code has length 10 (the lazy `{3}?` does not make the last digit optional) |
| LocationCode.LocationCodeExamples | src/Pages/index.js:20 | `A-B-53-004` (the default fallback) passes; `AB53004`, `a-b-53-004` and an 11-character code fail |
| LocationCode.Slice | src/Pages/index.js:23 | `slice` never grows the string, gives the exact substring for in-range bounds, clamps an end past the string to the suffix, and gives the empty string for crossed bounds or a start past the end |
| LocationCode.CharAt | src/Pages/index.js:26 | indexing inside the string yields that character; past the end, `+` joins the text `undefined` |
| LocationCode.SliceFrom | src/Pages/index.js:24 | `slice(start)` inside the string is the suffix from `start`, and the empty string past the end |
| LocationCode.Convert | src/Pages/index.js:22-34 | for a 7-character input the result has 10 characters with `-` at 1, 3 and 6; for any input of at least 2 characters it is 3 characters longer |
| LocationCode.Compact | src/Pages/index.js:22-34 | the inverse of `convert`: deleting the dashes leaves 7 characters |
| LocationCode.ConvertAt | src/Pages/index.js:22-34 | each character of a 7-character input lands at its fixed place in the output, between the inserted dashes |
| LocationCode.CompactConvert | src/Pages/index.js:22-34 | round trip: deleting the three inserted dashes from `convert(item)` gives back `item` |
| LocationCode.ConvertCompact | src/Pages/index.js:22-34 | round trip: every valid code is `convert` of its compact form |
| LocationCode.ConvertAcceptedIff | src/Pages/index.js:22-34 | `convert` of a 7-character input passes the validator iff the input is two uppercase letters followed by five digits |
| LocationCode.ConvertUnchecked | src/Pages/index.js:22-34 | `AB53004` converts to `A-B-53-004`; `abcdefg` is copied unchecked to `a-b-cd-efg`, which fails the validator |
| Search.ToLower | src/Pages/index.js:179 | `toLowerCase` keeps the length, turns each upper-case ASCII letter into its lower-case partner, leaves no upper-case ASCII letter and changes no other character |
| Search.Contains | src/Pages/index.js:179 | `includes` never finds a query longer than the string, and always finds the empty query |
| Search.ContainsIff | src/Pages/index.js:179 | the `includes` scan succeeds iff the query occurs at some index |
| Search.Filter | src/Pages/index.js:178-180 | the result holds only rows of the input whose lower-cased id includes the lower-cased query, and every such row; it is no longer than the input |
| Search.FilterSubsequence | src/Pages/index.js:178-180 | the result is an order-preserving subsequence of the input |
| Search.FilterCounts | src/Pages/index.js:178-180 | each passing row appears as often as in the input; no other row appears |
| Search.FilterAllKept | src/Pages/index.js:178-180 | when every row passes, the list comes out unchanged |
| Search.FilterEmptyQuery | src/Pages/index.js:178-180 | an empty search keeps every row, in order |
| Search.FilterIdempotent | src/Pages/index.js:178-180 | filtering twice with one query equals filtering once |
| Search.FilterCaseInsensitive | src/Pages/index.js:179 | two queries equal up to letter case select the same rows |
| Search.FilterExample | src/Pages/index.js:179 | the id `ABC1` is found by the query `abc` |
| Display.LocationText | src/Pages/index.js:117-141 | a valid code is always shown as is. Otherwise the row's own code is shown struck through. A converted code is exactly `convert` of the row's 7-character code, and deleting its dashes gives that code back. A fallback shows the current fallback. With a valid fallback, the value shown is valid unless the code was converted from a non-compact string |
| Display.LocationQr | src/Pages/index.js:151-172 | with a valid fallback, the QR code encodes a valid location iff the row's code is valid, is not 7 characters long, or is in compact form |
| Display.ColumnsAgree | src/Pages/index.js:151-172 | the QR column encodes exactly the value the text column shows in red |
| Display.BranchChoice | src/Pages/index.js:119-141 | exactly one branch is taken: every valid code takes the as-is branch; every 7-character code takes the convert branch (the two never overlap); every other invalid code takes the fallback branch |
| Display.ShownExamples | src/Pages/index.js:119-141 | `A-B-53-004` is shown as is, `AB53004` as `A-B-53-004`, and `bad` shows the fallback |
| Page.IsExcelName | src/Pages/index.js:60 | a file name passes the upload gate iff `xls` occurs in it at some index |
| Page.ExcelNamesAccepted | src/Pages/index.js:60 | `stock.xlsx` and `stock.xls` pass the upload gate |
| Page.OtherNamesRejected | src/Pages/index.js:60 | `stock.XLSX` (the test is case-sensitive) and `stock.csv` are refused |
| Page.MainPage.constructor | src/Pages/index.js:37-39 | the page starts with no rows, an empty search and the fallback `A-B-53-004`, which is valid |
| Page.MainPage.ChangeBasket | src/Pages/index.js:50-56 | the fallback becomes the candidate iff the validator accepts it; otherwise an error is reported and the fallback is unchanged; the fallback stays valid |
| Page.MainPage.SetSearch | src/Pages/index.js:45-47 | the debounced setter, once it fires, replaces the search text; the fallback stays valid |
| Page.MainPage.BeforeUpload | src/Pages/index.js:59-76 | the handler always answers `false`. A name containing `xls` has its rows replace the table wholesale. Any other name reports an error and leaves the rows unchanged. The fallback stays valid |
| Page.MainPage.TableData | src/Pages/index.js:178-180 | the table shows exactly the uploaded rows whose lower-cased id includes the lower-cased search text, each as often as it was uploaded, in their original order |
| Page.MainPage.ShownLocation | src/Pages/index.js:119-172 | the location a row shows under the page's current fallback is the text column's choice. Under the page invariant, an invalid code that is not 7 characters long is replaced by a valid code, and the QR column encodes the same value |

## Left out

- Spreadsheet parsing (`XLSX.read`, `sheet_to_json`) and the `FileReader`: the parsed rows are an input of `BeforeUpload`.
- Page.MainPage.BeforeUpload: the rows are read asynchronously in `reader.onload`, and the model replaces them at once. Events that happen between the gate and the load are not modelled.
- The 300 ms search debounce (`setTimeout`/`clearTimeout`): `SetSearch` is the setter at the moment it fires. Superseded keystrokes are not modelled.
- QR image generation, the antd layout, the error-message text, the row-number and row-count display and the remaining-quantity column (`remain_quantity`): these are rendering only, so `Records.Row` does not carry the quantity.
- Search.ToLower: folds ASCII letters only, not the full Unicode `toLowerCase`.
- Display.LocationText: lengths count Dafny characters (Unicode scalar values), not the UTF-16 code units JavaScript's `length` counts. A location with characters outside the Basic Multilingual Plane can take a different branch.
- Records.Row: cells are strings or absent. A numeric cell is not modelled: the reader can produce numbers, which JavaScript's `length` does not measure, and `toLowerCase` does not accept.
- The product-id column and its QR code display `product_id` unchanged; they hold no logic.
