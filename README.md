# pricingai pricing core in Dafny

This project models the three table transformations at the heart of the
pricingai Streamlit app, and proves what each one promises.

- **Bid aggregation** (`Bidding`, bidding.dfy). Supplier cost sheets are cleaned and
  validated against the required columns, then concatenated. Their rows are
  grouped by a "Product Key" of eight attributes. For each product, the bids
  above 0 are collected per partner. The lowest bid is selected together with
  every partner tied at it. The selected bid is marked up into a customer
  price, and unit prices are derived from it. Each partner seen in any upload
  gets its own column.
- **Catalog projection** (`Catalog`, catalog.dfy). An uploaded bidding sheet is
  cleaned. A catalog frame is then built one column at a time: the base
  attributes, the selected price as "Printer Cost", the carried (or
  recomputed) customer price with its unit price, the printer unit price and
  the "Partners" list. Finally the fixed catalog schema is padded with empty
  columns. The frame is a `class` whose `Assign` and `Rename` methods update
  it in place, as the DataFrame is updated in the source.
- **Catalog QC** (`Qc`, qc.dfy). Two price sheets are cleaned and keyed by
  "SKU | Quantity". Their prices are coerced to numbers, and the sheets are
  joined by a full outer join on the key. Each joined row is classified
  MATCH, MISMATCH or MISSING. The key is then split back into display columns
  with de-duplicated names.

Shared pieces:
- `Tables` (tables.dfy): cells, rows, tables and the cleaning every page applies.
- `Text` (text.dfy): `join`, `split`, `in`, `lower`, `str()` of numbers and numeric parsing.
- `Ordering` (order.dfy): Python's string order, sorted keys, first-seen order and filters.
- `Rounding` (rounding.dfy): half-to-even rounding.
- `Markup` (markup.dfy): the markup percentage and the session update that applies it.
- `Outcomes` (outcomes.dfy): `Option` and `Result`.

Prices are exact `real`s. A markup is a natural number of tenths of a
percent (the input's step is 0.1), so "35.0" in a column header is exact.

The code uses Python's `round` and pandas' `round`, which
round half to even, so a price of 10 with a 25% markup gives a customer price
of 12, not 13 (`Rounding.HalfToEvenExamples`, `Bidding.MarkupScenario`).

Two observations on the QC display columns:
- The key round trip needs SKU and quantity texts without '|'. A SKU ending in
  " |" is displayed as a shortened SKU, with the rest moved into the quantity
  column (`Qc.KeyRoundTripCounterexample`). A SKU containing " | " pushes the
  quantity out of the two display columns altogether.
- The de-duplication of display names can produce a repeated name for three
  or more names (`Qc.UniqueNamesCollision`). The page only ever passes two
  names, and two names always come out distinct (`Qc.TwoDisplayKeys`).

## Model

| member | source | states |
|---|---|---|
| Bidding.Absent | bidding_sheet_builder.py:37 | the names listed are exactly the wanted names missing from the columns |
| Bidding.ValidateColumns | bidding_sheet_builder.py:36-40 | succeeds exactly when every required column is present, returning the sheet unchanged; otherwise fails with the file name and the missing columns |
| Bidding.MissingColumnsListed | bidding_sheet_builder.py:37-39 | the error lists exactly the absent required columns, each once, in the order they are required |
| Bidding.RequiredDistinct | bidding_sheet_builder.py:9-20 | the required columns have no repeats |
| Bidding.AbsentInOrder | bidding_sheet_builder.py:37 | the missing names of a repeat-free list have no repeats and keep the list's order |
| Bidding.AbsentSubsequence | bidding_sheet_builder.py:37 | the missing names are the wanted list with some names left out |
| Bidding.AbsentFirst | catalog_sheet_builder.py:102-110 | when all names before `wanted[k]` are present and it is not, it is the first missing name, which is the lookup that fails first |
| Bidding.AbsentNone | catalog_sheet_builder.py:102-110 | nothing is missing when every wanted column is present |
| Bidding.LoadedStopsAtFailure | bidding_sheet_builder.py:143-160 | once an upload fails validation, later uploads do not change the outcome |
| Bidding.LoadSheets | bidding_sheet_builder.py:142-160 | the loading loop cleans and validates each upload in turn and stops at the first failure |
| Bidding.LoadedSucceeds | bidding_sheet_builder.py:143-157 | loading succeeds exactly when every upload has all required columns |
| Bidding.LoadedLast | bidding_sheet_builder.py:152-157 | one more upload loads when the earlier ones did and it has the required columns |
| Bidding.LoadedValues | bidding_sheet_builder.py:147-157 | a successful load yields every upload cleaned, in upload order |
| Bidding.LoadedError | bidding_sheet_builder.py:156-160 | a failed load reports the message of the first upload lacking a required column |
| Bidding.Combined | bidding_sheet_builder.py:161 | the combined rows are exactly the rows of the loaded sheets, as many as the sheets hold together |
| Bidding.ProductKeyRoundTrip | bidding_sheet_builder.py:162 | splitting a product key at " \| " gives back the `str()` texts of the eight key columns, in key-column order, when none of them contains '\|' |
| Bidding.SameKeySameTexts | bidding_sheet_builder.py:162-163 | when no key text contains '\|', two rows share a product key exactly when all eight key columns have the same text in both |
| Bidding.GroupMembers | bidding_sheet_builder.py:163 | a group holds exactly the rows with its key |
| Bidding.GroupNonEmpty | bidding_sheet_builder.py:163-166 | every key that occurs has a non-empty group |
| Bidding.GroupHead | bidding_sheet_builder.py:167-168 | a group is headed by the first row with its key, whose attributes the output row takes |
| Bidding.BidPrice | bidding_sheet_builder.py:172-174 | a row bids only with a present price above 0 |
| Bidding.BiddersMembers | bidding_sheet_builder.py:170-175 | a partner is a bidder exactly when some row of the group is its bid |
| Bidding.LastBidSpec | bidding_sheet_builder.py:170-175 | a partner's recorded bid is its last bid in the group, and it exists exactly when the partner bid |
| Bidding.CollectBids | bidding_sheet_builder.py:169-175 | the loop over a group's rows yields the dict the specification describes |
| Bidding.PutWellFormed | bidding_sheet_builder.py:175 | setting a partner's price keeps every partner listed once, and listed exactly when it has a price |
| Bidding.BidsOfWellFormed | bidding_sheet_builder.py:169-175 | the filled dict lists each partner once, and exactly the partners with a price |
| Bidding.BidsOfCorrect | bidding_sheet_builder.py:169-175 | the dict lists each bidder once in first-bid order, with the price of its last bid; a later bid overwrites the price but keeps the position |
| Bidding.BidsOfMembers | bidding_sheet_builder.py:174-175 | a partner has a price exactly when it bid above 0 in the group |
| Bidding.MinPrice | bidding_sheet_builder.py:177 | the minimum is one of the values and at most every value |
| Bidding.Prices | bidding_sheet_builder.py:177 | the dict's values are exactly the partners' prices |
| Bidding.TiedAt | bidding_sheet_builder.py:178 | the winners are exactly the listed partners priced at the minimum, in dict order |
| Bidding.Select | bidding_sheet_builder.py:176-182 | with bids, the price is a bid and at most every bid, and the winners are the tied partners joined by ", "; without bids both are None |
| Bidding.SelectCorrect | bidding_sheet_builder.py:176-179 | a price is selected exactly when some row bids above 0; the winners are exactly the partners whose last bid is the minimum, each once, in first-bid order |
| Bidding.TieScenario | bidding_sheet_builder.py:176-179 | bids 30, 25, 25 select both partners at 25 as "P2, P3" |
| Bidding.MarkupScenario | bidding_sheet_builder.py:184 | 25 at 35% gives 34; 10 at 25% gives 12 (half to even) |
| Bidding.CustomerPrice | bidding_sheet_builder.py:184 | present exactly with a selected price, and within 0.5 of the marked-up price |
| Bidding.UnitPrice | bidding_sheet_builder.py:185-186 | present exactly when there is a price and a non-zero quantity |
| Bidding.UnitPriceTimesQuantity | bidding_sheet_builder.py:185 | a unit price times the quantity is the price |
| Bidding.AddPartnerCells | bidding_sheet_builder.py:196-197 | the loop adds one cell per partner to the row |
| Bidding.SummarizeGroup | bidding_sheet_builder.py:166-198 | the loop body builds the output row of the group with the given key |
| Bidding.PartnerCellsStep | bidding_sheet_builder.py:196-197 | adding one more partner's cell is one dict assignment |
| Bidding.BuildRecords | bidding_sheet_builder.py:166-198 | the loop over the keys in order appends exactly those rows |
| Bidding.Aggregate | bidding_sheet_builder.py:163-198 | the loop over groups in key order produces the specified sheet |
| Bidding.BuildBiddingSheet | bidding_sheet_builder.py:141-198 | loading then aggregating yields the specified sheet or the first validation error |
| Bidding.OneRowPerKey | bidding_sheet_builder.py:162-198 | exactly one row per distinct product key, keys in strictly increasing order, each row summarising exactly the rows with its key |
| Bidding.RecordKeyCells | bidding_sheet_builder.py:167-189 | the key cells of an output row are those of its group's first row |
| Bidding.KeyColumnsNotOutcomeNames | bidding_sheet_builder.py:188-195 | no key column is overwritten by an outcome cell |
| Bidding.PartnerColumns | bidding_sheet_builder.py:196-197 | every partner seen has a cell in every row: its last bid above 0, or None |
| Bidding.NoBidGroup | bidding_sheet_builder.py:180-186 | a group without a bid above 0 still has a row, with winners, prices and unit prices all None |
| Bidding.PricedGroup | bidding_sheet_builder.py:176-186 | with a bid, the row holds the winners, the minimum, its marked-up price rounded half to even, and unit prices that are None exactly when the quantity is 0 |
| Bidding.RecordColumns | bidding_sheet_builder.py:188-197 | an output row has a cell in exactly the output columns |
| Bidding.RowsMatchColumns | bidding_sheet_builder.py:165-198 | every row has exactly the sheet's columns, and every partner seen is a column |
| Catalog.CustomerPriceColumns | catalog_sheet_builder.py:116 | exactly the columns whose name contains "Customer Price" |
| Catalog.PartnerHeaders | catalog_sheet_builder.py:155-157 | exactly the columns in none of the schema, the key, the bid-selected and the customer-price columns |
| Catalog.Listed | catalog_sheet_builder.py:158 | exactly the partner columns with a value in the row |
| Catalog.RoundCell | catalog_sheet_builder.py:124 | a number stays a number within half a cent; NaN stays NaN |
| Catalog.PerUnit | catalog_sheet_builder.py:112-124 | a number exactly with a price and a non-zero quantity, within half a cent of price / quantity |
| Catalog.MarkedCell | catalog_sheet_builder.py:141 | a whole number within 0.5 of the marked-up cost, NaN without a cost |
| Catalog.AssignedWellFormed | catalog_sheet_builder.py:101-132 | assigning a column of the right height keeps the frame well formed |
| Catalog.RenamedFacts | catalog_sheet_builder.py:144 | renaming a column to a name that is absent or equal to the old one keeps the frame well formed and changes only that name |
| Catalog.Frame.constructor | catalog_sheet_builder.py:101 | a new frame has no columns |
| Catalog.Frame.Assign | catalog_sheet_builder.py:102 | a column assignment appends a new name or replaces the cells in place |
| Catalog.Frame.Rename | catalog_sheet_builder.py:144 | a rename keeps the column's place and cells under the new name |
| Catalog.CarriedPrices | catalog_sheet_builder.py:117-123 | the carried customer price has one cell per row |
| Catalog.PrinterUnitPrices | catalog_sheet_builder.py:124 | the printer unit price has one cell per row |
| Catalog.CustomerUnitPrices | catalog_sheet_builder.py:126-132 | the customer unit price has one cell per row |
| Catalog.NotCustomerPrice | catalog_sheet_builder.py:93-99 | a name shorter than "Customer Price", or without a capital C, does not contain it |
| Catalog.LongNamesNotCustomerPrice | catalog_sheet_builder.py:93-99 | the long schema names do not contain "Customer Price" |
| Catalog.PlaceholderNamesNotCustomerPrice | catalog_sheet_builder.py:93-99 | the placeholder schema names do not contain "Customer Price" |
| Catalog.SchemaNotCustomerPrice | catalog_sheet_builder.py:93-99 | "Customer Price" is the only schema column containing "Customer Price" |
| Catalog.CarriedNameFacts | catalog_sheet_builder.py:116-123 | the carried header contains "Customer Price", is in the sheet exactly when the sheet has such a column, and is then the first one |
| Catalog.CopyBaseFacts | catalog_sheet_builder.py:102-109 | the copy assigns each base attribute once, in order, with the sheet's cells |
| Catalog.KeyColumnsDistinct | catalog_sheet_builder.py:5-14 | the key columns have no repeats and do not include "Printer Cost" |
| Catalog.CopiedNamesApart | catalog_sheet_builder.py:93-99 | the unit-price and partners headers are none of the copied ones |
| Catalog.CopiedFacts | catalog_sheet_builder.py:102-110 | after the copy the frame holds the base attributes and "Printer Cost" = "Bid Selected Price", in order |
| Catalog.FixedNamesNotCustomerPrice | catalog_sheet_builder.py:93-99 | no fixed header contains "Customer Price" |
| Catalog.AssignedNew | catalog_sheet_builder.py:101-132 | assigning an absent name appends it and keeps every other column |
| Catalog.CarriedNotFixed | catalog_sheet_builder.py:116-132 | the carried header is none of the fixed headers |
| Catalog.PricedNames | catalog_sheet_builder.py:115-132 | after the prices, the headers are the copied ones, the carried header and the two unit-price headers |
| Catalog.PricedWellFormed | catalog_sheet_builder.py:115-132 | the price step keeps the frame well formed |
| Catalog.PricedData | catalog_sheet_builder.py:115-132 | the price step writes the three price columns and changes no copied column |
| Catalog.PricedOnlyCarried | catalog_sheet_builder.py:115-123 | the carried header is the priced frame's only customer-price column |
| Catalog.FirstCustomerPriceColumn | catalog_sheet_builder.py:137-139 | the frame's only customer-price column is the first one found |
| Catalog.PricedShapeOnly | catalog_sheet_builder.py:137-139 | a frame shaped like the priced one has its price header as only customer-price column |
| Catalog.RepricedNames | catalog_sheet_builder.py:135-146 | with a markup, the customer-price header becomes the markup's label in place |
| Catalog.RepricedData | catalog_sheet_builder.py:135-146 | with a markup, the price column holds the marked-up cost, the customer unit price follows it, and the other columns stay |
| Catalog.RepricedWellFormed | catalog_sheet_builder.py:135-146 | the markup step keeps the frame well formed |
| Catalog.PriceHeaderIsCustomerPrice | catalog_sheet_builder.py:135-144 | the final price header contains "Customer Price" |
| Catalog.PartneredOnlyHeader | catalog_sheet_builder.py:116-158 | before padding the price header is the only customer-price column and no header repeats |
| Catalog.RepricedHeaders | catalog_sheet_builder.py:135-146 | after the markup step the price header is the label with a markup, the carried header without |
| Catalog.PartneredNamesFacts | catalog_sheet_builder.py:101-158 | the headers before padding, in order |
| Catalog.PartneredWellFormed | catalog_sheet_builder.py:101-158 | the frame before padding is well formed |
| Catalog.RepricedColumns | catalog_sheet_builder.py:135-146 | the markup step's effect on every column, with or without a markup |
| Catalog.PartneredData | catalog_sheet_builder.py:101-158 | every column before padding: copies unchanged, prices carried or recomputed, unit prices, partners |
| Catalog.PaddedFacts | catalog_sheet_builder.py:160-166 | padding keeps every column and its place, adds each missing schema column (bar a skipped "Customer Price") as empty text, and nothing else |
| Catalog.PaddedSchema | catalog_sheet_builder.py:160-166 | padding keeps the frame's columns in front, adds every schema column but a skipped "Customer Price", adds only blank schema columns, and keeps a single customer-price column |
| Catalog.PartneredShape | catalog_sheet_builder.py:101-158 | the frame before padding is well formed and has a customer-price column |
| Catalog.SchemaCompleted | catalog_sheet_builder.py:160-166 | every schema column is present except "Customer Price", which appears only as the price header; padding overwrites nothing and adds only blank schema columns |
| Catalog.ProjectionKeeps | catalog_sheet_builder.py:160-166 | padding changes no column written before it |
| Catalog.BaseAttributesCopied | catalog_sheet_builder.py:102-110 | the eight base attributes are copied row for row, and "Printer Cost" equals "Bid Selected Price" |
| Catalog.CustomerPriceCarried | catalog_sheet_builder.py:116-132 | at markup 0 the first customer-price column keeps its name and values, or the printer cost is used under "Customer Price"; the customer unit price is the sheet's own rounded or that price per unit |
| Catalog.CarriedHeaderReplaced | catalog_sheet_builder.py:139-144 | with a markup, the label replaces the carried header |
| Catalog.CustomerPriceRecomputed | catalog_sheet_builder.py:135-146 | with a markup, each row's customer price is its printer cost marked up and rounded to a whole number, under the label; the customer unit price is recomputed from it |
| Catalog.PrinterUnitPrice | catalog_sheet_builder.py:112-124 | the printer unit price is the sheet's own rounded to the cent, else the cost per unit, NaN at quantity 0 |
| Catalog.PartnersListed | catalog_sheet_builder.py:155-158 | each Partners cell joins with ", " the partner columns with a value in that row, in column order |
| Catalog.EveryPartnerListed | catalog_sheet_builder.py:52-158 | since cleaning fills every blank, every partner column is listed in every row |
| Catalog.CleanedNumeric | catalog_sheet_builder.py:49-64 | cleaning keeps the columns, leaves no NaN and makes the numeric and customer-price columns numbers |
| Catalog.PriceHeaderValues | catalog_sheet_builder.py:117-142 | the price column holds the marked-up cost with a markup, the carried prices without |
| Catalog.CustomerPriceNumeric | catalog_sheet_builder.py:55-142 | the catalog's customer price is a number in every row, carried or recomputed |
| Catalog.MarkedNumeric | catalog_sheet_builder.py:141 | marking up a numeric cost column gives numbers |
| Catalog.CarriedNumeric | catalog_sheet_builder.py:117-123 | the carried price of a cleaned sheet is numeric |
| Catalog.CatalogError | catalog_sheet_builder.py:102-110 | the catalog is built exactly when every needed column is present; otherwise the error names the first missing one in reading order |
| Catalog.AddPrices | catalog_sheet_builder.py:115-132 | the frame gets the carried customer price and the two unit prices |
| Catalog.ApplyMarkup | catalog_sheet_builder.py:134-152 | with a markup, the customer-price column is overwritten, renamed after the markup, and its unit price recomputed |
| Catalog.PadSchema | catalog_sheet_builder.py:160-166 | the padding loop adds the missing schema columns |
| Catalog.CopyKeyColumns | catalog_sheet_builder.py:101-109 | the copy loop either copies every base attribute in order, or stops at the first missing one, which is the first needed column missing |
| Catalog.CompleteCatalog | catalog_sheet_builder.py:112-166 | the steps after the copy build the specified catalog from the copied frame |
| Catalog.BuildCatalog | catalog_sheet_builder.py:49-166 | the whole projection builds the specified catalog, or stops at the first needed column missing |
| Markup.PctText | bidding_sheet_builder.py:192 | the percentage is written with one decimal |
| Markup.Factor | bidding_sheet_builder.py:184 | the multiplier is between 1 and 3, and is 1 exactly at 0% |
| Markup.LabelIsCustomerPrice | catalog_sheet_builder.py:144 | a marked-up header is recognised as a customer-price column |
| Markup.PctTextValue | bidding_sheet_builder.py:192 | the header's percentage text reads back as the applied percentage |
| Markup.Submit | bidding_sheet_builder.py:112-137 | after a run, the applied and previous markups both equal the entered value (the catalog page, catalog_sheet_builder.py lines 66-91, does the same) |
| Rounding.RoundHalfEven | bidding_sheet_builder.py:184 | the nearest integer, exact halves going to the even one |
| Rounding.RoundHalfEvenUnique | bidding_sheet_builder.py:184 | those two properties determine the result |
| Rounding.RoundWhole | catalog_sheet_builder.py:141 | rounding a whole number again changes nothing |
| Rounding.Round2 | catalog_qc.py:181 | rounding to 2 decimals moves a value by at most half a cent |
| Rounding.Round2Idempotent | catalog_qc.py:181 | rounding to 2 decimals twice is rounding once |
| Rounding.HalfToEvenExamples | bidding_sheet_builder.py:184 | 12.5 rounds to 12 and 13.5 to 14 |
| Ordering.LexLessIrreflexive | bidding_sheet_builder.py:163 | no key sorts before itself |
| Ordering.LexLessTransitive | bidding_sheet_builder.py:163 | the key order is transitive |
| Ordering.LexLessTotal | bidding_sheet_builder.py:163 | distinct keys are ordered one way or the other |
| Ordering.InsertSorted | bidding_sheet_builder.py:163 | inserting a key keeps the list strictly sorted and adds exactly that key |
| Ordering.SortedKeysCorrect | bidding_sheet_builder.py:163 | the group keys are strictly increasing and are exactly the keys that occur |
| Ordering.StrictlySortedDistinct | bidding_sheet_builder.py:163 | sorted keys have no repeats |
| Ordering.FirstIndex | bidding_sheet_builder.py:165 | the position of a value's first occurrence |
| Ordering.UniqueCorrect | bidding_sheet_builder.py:165 | the partner list holds each partner once, loses none, and is in first-seen order |
| Ordering.DistinctFirstSeen | bidding_sheet_builder.py:178 | a repeat-free list is in its own first-seen order |
| Ordering.FilterKeepsOrder | bidding_sheet_builder.py:178 | filtering a first-seen-ordered list keeps that order |
| Ordering.Filter | catalog_sheet_builder.py:116 | a list comprehension keeps exactly the elements passing the test |
| Ordering.FilterSubsequence | catalog_sheet_builder.py:156 | it keeps them in their order |
| Ordering.FilterFirst | catalog_sheet_builder.py:119 | its first element is the first passing element |
| Ordering.FilterAll | catalog_sheet_builder.py:158 | a test every element passes keeps the whole list |
| Text.Find | catalog_qc.py:189 | the first occurrence of the separator, or none |
| Text.Split | catalog_qc.py:189 | splitting gives at least one piece |
| Text.SplitJoin | catalog_qc.py:188-189 | splitting a " \| "-joined key gives back its parts when no part contains '\|' |
| Text.SplitJoinCounterexample | catalog_qc.py:189 | a part ending in " \|" does not come back |
| Text.NatText | bidding_sheet_builder.py:162 | a whole number's text is a run of digits |
| Text.ParseNatText | catalog_qc.py:165 | a whole number's text parses back to it |
| Text.ParseNumberText | bidding_sheet_builder.py:154 | `str()` then `to_numeric` gives back a whole number |
| Tables.NonEmptyRows | bidding_sheet_builder.py:147 | dropping all-empty rows keeps exactly the other rows, in their original order |
| Tables.FillMissing | bidding_sheet_builder.py:148 | filling leaves no NaN, puts '' where NaN was, and keeps every other cell |
| Tables.CleanSheet | bidding_sheet_builder.py:147-154 | the cleaning steps as the pages run them |
| Tables.CoerceColumnEffect | bidding_sheet_builder.py:154 | coercing makes that column numeric and changes no other |
| Tables.CleanedShape | bidding_sheet_builder.py:147-154 | cleaning keeps the columns and the non-empty rows, leaves no NaN and makes the listed columns numeric |
| Qc.QcCleaned | catalog_qc.py:12-18 | empty rows dropped, no NaN left, other cells kept; Quantity is the number its text reads as, or 0 |
| Qc.BlankPriceMissing | catalog_qc.py:165 | a blank price coerces to missing |
| Qc.FirstMentioning | catalog_qc.py:36-38 | the scan returns the first column containing the pattern case-insensitively, or None when none does |
| Qc.SuggestColumn | catalog_qc.py:31-40 | the default name when present exactly, else the first case-insensitive match, else None; any result is one of the columns |
| Qc.CustomerPriceMentionsPrice | catalog_qc.py:23-25 | a column mentioning "customer price" mentions "price" |
| Qc.SuggestPriceColumn | catalog_qc.py:21-28 | the first "customer price" column if any, else the first "price" column; a suggestion exists exactly when some column mentions "price" |
| Qc.Entries | catalog_qc.py:161-166 | one key and price per row of the sheet |
| Qc.PricesAt | catalog_qc.py:172 | a key has prices exactly when some row carries it |
| Qc.Cross | catalog_qc.py:172 | the rows of a key both sheets share: every A price paired with every B price, \|A\|·\|B\| rows |
| Qc.RowsWith | catalog_qc.py:172 | the joined rows that carry a key |
| Qc.JoinKeysRowsWith | catalog_qc.py:172 | over distinct keys, the rows of each key are those of its group alone |
| Qc.OuterJoinGroups | catalog_qc.py:169-172 | each key's joined rows are the cross product of its prices on both sides, or one side's prices against a missing price |
| Qc.OuterJoinKeys | catalog_qc.py:169-172 | a key is in the join exactly when it is in sheet A or sheet B |
| Qc.OnlyInLeft | catalog_qc.py:169-172 | a key only in A gives one row per A row, each with Price B missing |
| Qc.OnlyInRight | catalog_qc.py:169-172 | a key only in B gives one row per B row, each with Price A missing |
| Qc.InBoth | catalog_qc.py:169-172 | a key in both fans out into every pairing of an A price with a B price |
| Qc.JoinKeysMembers | catalog_qc.py:172 | every joined row carries one of the keys |
| Qc.JoinKeysSorted | catalog_qc.py:172 | over increasing keys the rows come grouped by key in increasing order |
| Qc.OuterJoinSorted | catalog_qc.py:172 | the join lists its rows grouped by key, keys in increasing order |
| Qc.StatusOf | catalog_qc.py:175-181 | MISSING exactly when a price is missing; MATCH exactly when both round to the same cent; otherwise MISMATCH |
| Qc.StatusSymmetric | catalog_qc.py:175-181 | swapping the two prices does not change the status |
| Qc.StatusTolerance | catalog_qc.py:181 | equal prices match; matching prices are within a cent; prices more than a cent apart mismatch |
| Qc.StatusRoundingExamples | catalog_qc.py:181 | 10.001 and 10.004 match; 10.0049 and 10.0051 mismatch; 10.005 and 10.015 mismatch (half to even) |
| Qc.ClassifyRows | catalog_qc.py:175-195 | the loop gives each joined row its key's display parts, both prices and its status |
| Qc.DisplayParts | catalog_qc.py:188-193 | exactly n parts: the key's pieces, padded with '' or cut |
| Qc.SplitKey | catalog_qc.py:188-193 | the padding and cutting as the source does it |
| Qc.KeyRoundTrip | catalog_qc.py:43-45 | splitting a row's key gives back its SKU and quantity texts when neither contains '\|' |
| Qc.KeyRoundTripCounterexample | catalog_qc.py:188-193 | SKU "a \|" with quantity 1 is displayed as "a" and "\| 1" |
| Qc.UniqueNames | catalog_qc.py:198-204 | one name per key: the key itself, or `key_i` at position i; the first is always kept |
| Qc.UniqueDisplayKeys | catalog_qc.py:198-204 | the appending loop builds those names |
| Qc.UniqueNamesOfDistinct | catalog_qc.py:198-204 | names without repeats pass through unchanged |
| Qc.TwoDisplayKeys | catalog_qc.py:186-204 | the SKU and quantity names come out distinct; the quantity one becomes `name_1` when both are the same column |
| Qc.UniqueNamesCollision | catalog_qc.py:197-204 | for three names the renaming can repeat a name |
| Qc.Reconcile | catalog_qc.py:161-208 | one report row per joined row, holding the key's display parts, both prices and the status, under the de-duplicated display names and the price and status headers |

Some functions are plain definitions and have no row of their own: `Bidding.KeyTexts`, `Bidding.Keys`, `Bidding.PartnerNames`, `Bidding.Records`, `Catalog.Column`, `Catalog.Blank`, `Text.Lower` and `Qc.KeysOf`. Their meaning is stated by the lemmas that use them: `Bidding.ProductKeyRoundTrip` and `Bidding.SameKeySameTexts` for the product key, `Ordering.UniqueCorrect` for the partner list, `Bidding.OneRowPerKey` for the records, `Catalog.BaseAttributesCopied` for the copied columns, `Catalog.PaddedFacts` for the blank columns, `Qc.CustomerPriceMentionsPrice` for lower-casing and `Qc.OuterJoinKeys` for the join keys.

## Left out

- The Streamlit pages are not modelled: uploads, previews, selectboxes, the number input, download buttons, spinners and error display. `app.py` is not part of this model. The markup and the chosen columns are parameters.
- `pd.read_csv` and `to_csv` are left out. Sheets are modelled as already parsed into text, number and NaN cells.
- The coloured spreadsheets and styling are left out (`generate_colored_excel`, `style_dataframe`, `_styled_preview`, `_excel_with_colors`). The same goes for the sample-file downloads.
- Binary floating point is not modelled. Prices are exact reals, so rounding ties are exact ties.
- `str()` of a number follows the value, not the column's dtype. pandas writes a whole number in a float column as "100.0", and the model writes "100".
- Numeric parsing accepts an optional sign, digits and an optional decimal point. Exponents, surrounding spaces, "inf" and "nan" are not modelled.
- `str.lower` is modelled on ASCII letters only.
- Bidding.PartnerOf: partner names are assumed to be text. Every "Partner Name" cell is read as its `str()` text, so a numeric partner 101 and a text partner "101" are one partner in the model. The source keeps the raw cell as dict key and column name, and its `", ".join(winners)` raises `TypeError` once a numeric partner wins; the model joins the texts instead.
- The markup is modelled in steps of 0.1%, the input's step. A value typed with finer precision is not modelled.
- Catalog.CatalogOf: a `KeyError` from a missing column is modelled as a failure naming that column.
- Catalog.BuildCatalog: the two coercion loops of the catalog page are modelled as one cleaning pass over the numeric columns followed by the customer-price columns.
- Catalog.ApplyMarkup: has no branch for a frame without a customer-price column. That branch of the source is never taken, because the frame always holds the carried customer-price column by then. `Catalog.Repriced` still states it.
- Catalog.Frame.Rename: requires the new name to be absent or equal to the old one. The catalog's single rename always meets this. The equal case does occur: a sheet whose customer-price header is already "Customer Price (35.0%)", opened with a 35.0 markup, renames that column to itself.
- Qc.Reconcile: requires the chosen columns to be columns of their sheets, which the selectboxes guarantee. When both sheets have no rows, pandas builds the split keys as an empty Series, so the report has no rows under the headers `_QC_KEY`, Price A, Price B and QC Status. The model returns no rows under the de-duplicated display names followed by Price A, Price B and QC Status.
- Qc.Reconcile: the split key parts are kept as a list per row rather than as separate DataFrame columns, and the final `pd.concat` is the report's row record.
