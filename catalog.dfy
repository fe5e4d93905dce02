/** The catalog sheet builder: an uploaded bidding sheet is cleaned and
    projected, one column assignment at a time, onto the catalog schema. The
    customer price is carried over from the bidding sheet, or recomputed
    from the printer cost when a markup is applied; unit prices, the list of
    partners and empty placeholder columns complete the sheet. */
module Catalog {
  import opened Outcomes
  import opened Text
  import opened Ordering
  import opened Rounding
  import opened Tables
  import opened Markup
  import Bidding

  const SelectedPrice: string := "Bid Selected Price"
  const SelectedUnitPrice: string := "Bid Selected Unit Price"
  const CustomerUnitPrice: string := "Customer Unit Price"
  const PrinterCost: string := "Printer Cost"
  const CustomerPrice: string := "Customer Price"
  const PrinterUnitCost: string := "Unit Price for Printer cost"
  const CustomerUnitCost: string := "Unit Price for customer cost"
  const Partners: string := "Partners"

  /** The columns coerced to numbers on upload, before the customer-price ones. */
  const NumericColumns: seq<string> := ["Quantity", SelectedPrice, "Lead Time", "Weight in kg",
                                        SelectedUnitPrice, CustomerUnitPrice]

  /** The catalog schema, in order. */
  const CatalogColumns: seq<string> := [
    "Category", "Dandpo SKU", "Combinations", "Printer Specifications",
    "Quantity", "Sample", "Lead Time", "Weight in kg", PrinterCost,
    CustomerPrice, PrinterUnitCost, CustomerUnitCost,
    Partners, "Production Type", "Production Time (Hours)",
    "Printer Delivery to Dandpo (Hours)", "Packaging Dimensions", "Product Dimensions"]

  /** The bidding-sheet columns that describe the selection rather than a partner. */
  const SelectionColumns: seq<string> := ["Bid Selected Partners", SelectedPrice, SelectedUnitPrice, CustomerUnitPrice]

  /** The columns read from the bidding sheet, in the order they are read:
      the base attributes, then the selected price. */
  const Needed: seq<string> := Bidding.KeyColumns + [SelectedPrice]

  // ---------------------------------------------------------------------
  // Column selections

  /** `[col for col in columns if 'Customer Price' in col]`. */
  function CustomerPriceColumns(columns: seq<string>): (cps: seq<string>)
    ensures forall c :: c in cps <==> c in columns && Contains(c, CustomerPrice)
  {
    Filter(columns, c => Contains(c, CustomerPrice))
  }

  /** `any('Customer Price' in col for col in columns)`. */
  predicate HasCustomerPrice(columns: seq<string>) {
    exists c :: c in columns && Contains(c, CustomerPrice)
  }

  /** A partner column is none of the catalog schema, the key columns, the
      selection columns and the customer-price columns. */
  predicate IsPartnerColumn(c: string) {
    c !in CatalogColumns && c !in Bidding.KeyColumns && c !in SelectionColumns && !Contains(c, CustomerPrice)
  }

  /** The partner columns of the sheet, in sheet order. */
  function PartnerHeaders(columns: seq<string>): (ps: seq<string>)
    ensures forall c :: c in ps <==> c in columns && IsPartnerColumn(c)
  {
    Filter(columns, IsPartnerColumn)
  }

  /** The columns that have a value in row `r`. */
  function Present(r: Row): string -> bool {
    c => Get(r, c) != Missing
  }

  /** `row.dropna().index`: the partner columns with a value in this row. */
  function Listed(r: Row, ps: seq<string>): (names: seq<string>)
    ensures forall c :: c in names <==> c in ps && Get(r, c) != Missing
  {
    Filter(ps, Present(r))
  }

  // ---------------------------------------------------------------------
  // Cell computations

  /** A column of the sheet, NaN where a row has no cell. */
  function Column(t: Table, c: string): (v: seq<Cell>)
    ensures |v| == |t.rows|
  {
    seq(|t.rows|, i requires 0 <= i < |t.rows| => Get(t.rows[i], c))
  }

  /** `.round(2)` of one cell; NaN stays NaN. */
  function RoundCell(c: Cell): (r: Cell)
    ensures r.Num? <==> c.Num?
    ensures c.Num? ==> c.x - 0.005 <= r.x <= c.x + 0.005
  {
    if c.Num? then Num(Round2(c.x)) else c
  }

  /** `(price / quantity.replace(0, NA)).round(2)` for one row: a price
      per unit to the cent, NaN when the quantity is 0 or either is NaN. */
  function PerUnit(price: Cell, qty: Cell): (u: Cell)
    ensures u.Num? <==> price.Num? && qty.Num? && qty.x != 0.0
    ensures u.Num? ==> price.x / qty.x - 0.005 <= u.x <= price.x / qty.x + 0.005
  {
    if price.Num? && qty.Num? && qty.x != 0.0 then Num(Round2(price.x / qty.x)) else Missing
  }

  /** `round(printer_cost * (1 + pct/100))` as an `Int64` cell. */
  function MarkedCell(cost: Cell, m: Markup): (c: Cell)
    ensures c.Num? <==> cost.Num?
    ensures cost.Num? ==> c.x == c.x.Floor as real && c.x - 0.5 <= Marked(cost.x, m) <= c.x + 0.5
  {
    if cost.Num? then Num(RoundHalfEven(Marked(cost.x, m)) as real) else Missing
  }

  function Rounded(v: seq<Cell>): (r: seq<Cell>)
    ensures |r| == |v|
  {
    seq(|v|, i requires 0 <= i < |v| => RoundCell(v[i]))
  }

  function UnitPrices(prices: seq<Cell>, qty: seq<Cell>): (r: seq<Cell>)
    requires |prices| == |qty|
    ensures |r| == |prices|
  {
    seq(|prices|, i requires 0 <= i < |prices| => PerUnit(prices[i], qty[i]))
  }

  function MarkedPrices(costs: seq<Cell>, m: Markup): (r: seq<Cell>)
    ensures |r| == |costs|
  {
    seq(|costs|, i requires 0 <= i < |costs| => MarkedCell(costs[i], m))
  }

  /** The Partners column: for each row, its listed partners joined by ", ". */
  function PartnersCells(t: Table, ps: seq<string>): (v: seq<Cell>)
    ensures |v| == |t.rows|
  {
    seq(|t.rows|, i requires 0 <= i < |t.rows| => Str(Join(Listed(t.rows[i], ps), ", ")))
  }

  /** The placeholder column `df[col] = ""`. */
  function Blank(n: nat): (v: seq<Cell>)
    ensures |v| == n
  {
    seq(n, i => Str(""))
  }

  // ---------------------------------------------------------------------
  // DataFrames built column by column

  /** The value of a DataFrame under construction: its column names in
      order and each column's cells. */
  datatype Columns = Columns(names: seq<string>, data: map<string, seq<Cell>>)

  const NoColumns := Columns([], map[])

  /** Each name once, a column for exactly the names, `height` cells each. */
  predicate WellFormed(v: Columns, height: nat) {
    Distinct(v.names) && v.data.Keys == (set c | c in v.names) &&
    forall c :: c in v.data ==> |v.data[c]| == height
  }

  /** `df[name] = values`: a new name goes last, an existing one keeps its place. */
  function Assigned(v: Columns, name: string, values: seq<Cell>): Columns {
    Columns(if name in v.names then v.names else v.names + [name], v.data[name := values])
  }

  /** `df.rename(columns={from: to})`: the column keeps its place and its
      cells under the new name; renaming an absent column changes nothing. */
  function Renamed(v: Columns, from: string, to: string): Columns {
    if from in v.data then Columns(RenameIn(v.names, from, to), (v.data - {from})[to := v.data[from]])
    else v
  }

  lemma AssignedWellFormed(v: Columns, height: nat, name: string, values: seq<Cell>)
    requires WellFormed(v, height) && |values| == height
    ensures WellFormed(Assigned(v, name, values), height)
  {
    if name !in v.names {
      var u := v.names + [name];
      forall i, j | 0 <= i < j < |u| ensures u[i] != u[j] {
        if j == |u| - 1 {
          assert u[i] in v.names;
        }
      }
    }
  }

  /** The header list with `from` replaced by `to`. */
  function RenameIn(names: seq<string>, from: string, to: string): (r: seq<string>)
    ensures |r| == |names|
  {
    seq(|names|, i requires 0 <= i < |names| => if names[i] == from then to else names[i])
  }

  lemma RenameInFacts(names: seq<string>, from: string, to: string)
    requires Distinct(names) && from in names && (to == from || to !in names)
    ensures Distinct(RenameIn(names, from, to))
    ensures forall c :: c in RenameIn(names, from, to) <==> (c in names && c != from) || c == to
  {
    var u := RenameIn(names, from, to);
    forall c ensures c in u <==> (c in names && c != from) || c == to {
      if c in u {
        var i :| 0 <= i < |u| && u[i] == c;
        assert names[i] in names;
      }
      if c in names && c != from {
        var i :| 0 <= i < |names| && names[i] == c;
        assert u[i] == c;
      }
      if c == to {
        var i :| 0 <= i < |names| && names[i] == from;
        assert u[i] == to;
      }
    }
    forall i, j | 0 <= i < j < |u| ensures u[i] != u[j] {
      assert names[i] != names[j];
    }
  }

  /** Renaming a column to a fresh name (or to itself) keeps the frame well
      formed, and only that name changes. */
  lemma RenamedFacts(v: Columns, height: nat, from: string, to: string)
    requires WellFormed(v, height) && from in v.names && (to == from || to !in v.names)
    ensures WellFormed(Renamed(v, from, to), height)
    ensures forall c :: c in Renamed(v, from, to).names <==> (c in v.names && c != from) || c == to
    ensures |Renamed(v, from, to).names| == |v.names|
  {
    RenameInFacts(v.names, from, to);
    var w := Renamed(v, from, to);
    assert w.names == RenameIn(v.names, from, to);
    assert w.data.Keys == (set c | c in w.names);
  }

  /** The DataFrame that the catalog is built in. */
  class Frame {
    var names: seq<string>
    var data: map<string, seq<Cell>>
    const height: nat

    function View(): Columns
      reads this
    {
      Columns(names, data)
    }

    ghost predicate Valid()
      reads this
    {
      WellFormed(View(), height)
    }

    /** `pd.DataFrame()` for a sheet of `height` rows. */
    constructor (height: nat)
      ensures Valid() && View() == NoColumns && this.height == height
    {
      names := [];
      data := map[];
      this.height := height;
    }

    /** `df[name] = values`. */
    method Assign(name: string, values: seq<Cell>)
      requires Valid() && |values| == height
      modifies this
      ensures Valid() && View() == Assigned(old(View()), name, values)
    {
      AssignedWellFormed(View(), height, name, values);
      if name !in names {
        names := names + [name];
      }
      data := data[name := values];
    }

    /** `df = df.rename(columns={from: to})`. */
    method Rename(from: string, to: string)
      requires Valid() && from in names && (to == from || to !in names)
      modifies this
      ensures Valid() && View() == Renamed(old(View()), from, to)
    {
      RenamedFacts(View(), height, from, to);
      var renamed := Renamed(View(), from, to);
      names, data := renamed.names, renamed.data;
    }
  }

  // ---------------------------------------------------------------------
  // The projection, stage by stage

  /** `catalog_df[c] = bidding_df[c]` for each base attribute in turn. */
  function CopyBase(b: Table, cols: seq<string>): Columns {
    if |cols| == 0 then NoColumns
    else Assigned(CopyBase(b, cols[..|cols| - 1]), cols[|cols| - 1], Column(b, cols[|cols| - 1]))
  }

  /** The base attributes, then the selected price as the printer cost. */
  function Copied(b: Table): Columns {
    Assigned(CopyBase(b, Bidding.KeyColumns), PrinterCost, Column(b, SelectedPrice))
  }

  /** The header the customer price is carried under: the sheet's first
      customer-price column, or "Customer Price" when it has none. */
  function CarriedName(columns: seq<string>): string {
    var cps := CustomerPriceColumns(columns);
    if |cps| > 0 then cps[0] else CustomerPrice
  }

  /** The customer price carried over from the sheet, or the printer cost
      when the sheet has no customer-price column. */
  function CarriedPrices(b: Table): (v: seq<Cell>)
    ensures |v| == |b.rows|
  {
    if |CustomerPriceColumns(b.columns)| > 0 then Column(b, CarriedName(b.columns)) else Column(b, SelectedPrice)
  }

  /** The sheet's own unit price rounded to the cent, or else the printer
      cost per unit. */
  function PrinterUnitPrices(b: Table): (v: seq<Cell>)
    ensures |v| == |b.rows|
  {
    if SelectedUnitPrice in b.columns then Rounded(Column(b, SelectedUnitPrice))
    else UnitPrices(Column(b, SelectedPrice), Column(b, "Quantity"))
  }

  /** The sheet's own customer unit price rounded to the cent, or else the
      customer price `customer` per unit. */
  function CustomerUnitPrices(b: Table, customer: seq<Cell>): (v: seq<Cell>)
    requires |customer| == |b.rows|
    ensures |v| == |b.rows|
  {
    if CustomerUnitPrice in b.columns then Rounded(Column(b, CustomerUnitPrice))
    else UnitPrices(customer, Column(b, "Quantity"))
  }

  /** The customer price carried over (or the printer cost in its place),
      and the two unit prices. */
  function Priced(v: Columns, b: Table): Columns {
    var v1 := Assigned(v, CarriedName(b.columns), CarriedPrices(b));
    var v2 := Assigned(v1, PrinterUnitCost, PrinterUnitPrices(b));
    Assigned(v2, CustomerUnitCost, CustomerUnitPrices(b, CarriedPrices(b)))
  }

  /** With a markup above 0, the first customer-price column of the frame
      gets the marked-up printer cost and the header of the markup, and the
      customer unit price follows it; when the frame has no such column a
      new one is added under that header. */
  function Repriced(v: Columns, b: Table, m: Markup): Columns {
    if m == 0 then v
    else
      var qty := Column(b, "Quantity");
      var repriced := MarkedPrices(Column(b, SelectedPrice), m);
      var existing := CustomerPriceColumns(v.names);
      if |existing| > 0 then
        var w := Renamed(Assigned(v, existing[0], repriced), existing[0], CustomerPriceLabel(m));
        Assigned(w, CustomerUnitCost, UnitPrices(repriced, qty))
      else
        Assigned(Assigned(v, CustomerPriceLabel(m), repriced), CustomerUnitCost, UnitPrices(repriced, qty))
  }

  /** The Partners column. */
  function WithPartners(v: Columns, b: Table): Columns {
    Assigned(v, Partners, PartnersCells(b, PartnerHeaders(b.columns)))
  }

  /** The loop over the schema: each column the frame lacks is added as
      empty text, except "Customer Price" when `skipCustomerPrice`. */
  function Padded(v: Columns, cols: seq<string>, skipCustomerPrice: bool, n: nat): Columns {
    if |cols| == 0 then v
    else
      var w := Padded(v, cols[..|cols| - 1], skipCustomerPrice, n);
      var c := cols[|cols| - 1];
      if c in w.names || (c == CustomerPrice && skipCustomerPrice) then w else Assigned(w, c, Blank(n))
  }

  /** The frame after the prices, the markup and the partners, built on the copied frame `v0`. */
  function Partnered(v0: Columns, b: Table, m: Markup): Columns {
    WithPartners(Repriced(Priced(v0, b), b, m), b)
  }

  /** The catalog projected from a cleaned sheet that has every needed column. */
  function Projection(b: Table, m: Markup): Columns {
    var v := Partnered(Copied(b), b, m);
    Padded(v, CatalogColumns, HasCustomerPrice(v.names), |b.rows|)
  }

  /** The upload after cleaning: the numeric columns, then the customer-price
      columns, coerced to numbers. */
  function CleanedUpload(upload: Table): Table {
    Cleaned(upload, NumericColumns + CustomerPriceColumns(upload.columns))
  }

  /** The catalog of an upload, or the first needed column it lacks (the
      `KeyError` the lookups raise). */
  function CatalogOf(upload: Table, m: Markup): Result<Columns> {
    var b := CleanedUpload(upload);
    var missing := Bidding.Absent(Needed, b.columns);
    if |missing| > 0 then Failure(missing[0]) else Success(Projection(b, m))
  }

  // ---------------------------------------------------------------------
  // Facts about the stages

  /** A name shorter than "Customer Price", or without a capital C, does not contain it. */
  lemma NotCustomerPrice(s: string)
    requires |s| < |CustomerPrice| || forall i :: 0 <= i < |s| ==> s[i] != 'C'
    ensures !Contains(s, CustomerPrice)
  {
    forall i | 0 <= i <= |s| - |CustomerPrice| ensures !MatchesAt(s, CustomerPrice, i) {
      assert s[i..i + |CustomerPrice|][0] == s[i];
    }
  }

  /** The long schema names other than "Customer Price" have no capital C. */
  lemma LongNamesNotCustomerPrice()
    ensures !Contains("Printer Specifications", CustomerPrice)
    ensures !Contains(PrinterUnitCost, CustomerPrice)
    ensures !Contains(CustomerUnitCost, CustomerPrice)
    ensures !Contains("Production Type", CustomerPrice)
  {
    NotCustomerPrice("Printer Specifications");
    NotCustomerPrice(PrinterUnitCost);
    NotCustomerPrice(CustomerUnitCost);
    NotCustomerPrice("Production Type");
  }

  lemma PlaceholderNamesNotCustomerPrice()
    ensures !Contains("Production Time (Hours)", CustomerPrice)
    ensures !Contains("Printer Delivery to Dandpo (Hours)", CustomerPrice)
    ensures !Contains("Packaging Dimensions", CustomerPrice)
    ensures !Contains("Product Dimensions", CustomerPrice)
  {
    NotCustomerPrice("Production Time (Hours)");
    NotCustomerPrice("Printer Delivery to Dandpo (Hours)");
    NotCustomerPrice("Packaging Dimensions");
    NotCustomerPrice("Product Dimensions");
  }

  /** "Customer Price" is the only schema column that is a customer-price column. */
  lemma SchemaNotCustomerPrice()
    ensures forall c :: c in CatalogColumns && c != CustomerPrice ==> !Contains(c, CustomerPrice)
  {
    LongNamesNotCustomerPrice();
    PlaceholderNamesNotCustomerPrice();
    forall c | c in CatalogColumns && c != CustomerPrice ensures !Contains(c, CustomerPrice) {
      if |c| < |CustomerPrice| {
        NotCustomerPrice(c);
      }
    }
  }

  /** The carried header is a customer-price column; it is in the sheet
      exactly when the sheet has a customer-price column, and then it is the
      first one. */
  lemma CarriedNameFacts(columns: seq<string>)
    ensures Contains(CarriedName(columns), CustomerPrice)
    ensures CarriedName(columns) in columns <==> HasCustomerPrice(columns)
    ensures CarriedName(columns) == CustomerPrice || CarriedName(columns) !in CatalogColumns
    ensures forall j :: 0 <= j < |columns| && Contains(columns[j], CustomerPrice) ==>
      CarriedName(columns) in columns[..j + 1]
  {
    var cps := CustomerPriceColumns(columns);
    SchemaNotCustomerPrice();
    if |cps| > 0 {
      assert cps[0] in cps;
    } else {
      assert MatchesAt(CustomerPrice, CustomerPrice, 0);
    }
    forall j | 0 <= j < |columns| && Contains(columns[j], CustomerPrice)
      ensures CarriedName(columns) in columns[..j + 1]
    {
      FilterFirst(columns, c => Contains(c, CustomerPrice), j);
    }
  }

  /** Copying one more column onto a copy of `init`. */
  lemma CopyStep(u: Columns, b: Table, init: seq<string>, c: string)
    requires u.names == init && WellFormed(u, |b.rows|) && c !in init
    requires forall x :: x in init ==> u.data[x] == Column(b, x)
    ensures var w := Assigned(u, c, Column(b, c));
      && w.names == init + [c] && WellFormed(w, |b.rows|)
      && forall x :: x in init + [c] ==> w.data[x] == Column(b, x)
  {
    AssignedNew(u, |b.rows|, c, Column(b, c));
  }

  lemma {:induction false} CopyBaseFacts(b: Table, cols: seq<string>)
    requires Distinct(cols)
    ensures var v := CopyBase(b, cols);
      && v.names == cols && WellFormed(v, |b.rows|)
      && forall c :: c in cols ==> v.data[c] == Column(b, c)
  {
    if |cols| > 0 {
      var init := cols[..|cols| - 1];
      var c := cols[|cols| - 1];
      assert Distinct(init);
      CopyBaseFacts(b, init);
      assert c !in init by {
        forall i | 0 <= i < |init| ensures init[i] != c {
          assert init[i] == cols[i];
        }
      }
      CopyStep(CopyBase(b, init), b, init, c);
      assert init + [c] == cols;
    }
  }

  /** The headers of the copied frame. */
  const CopiedNames: seq<string> := Bidding.KeyColumns + [PrinterCost]

  lemma KeyColumnsDistinct()
    ensures Distinct(Bidding.KeyColumns) && PrinterCost !in Bidding.KeyColumns
  {
  }

  /** The unit-price headers and the partners header come after the copied ones. */
  lemma CopiedNamesApart()
    ensures PrinterUnitCost !in CopiedNames && CustomerUnitCost !in CopiedNames && Partners !in CopiedNames
    ensures forall c :: c in CopiedNames ==> c in FixedNames
  {
  }

  /** After the copy: the base attributes and the printer cost, in order. */
  lemma CopiedFacts(b: Table)
    ensures var v := Copied(b);
      && v.names == CopiedNames && WellFormed(v, |b.rows|)
      && (forall c :: c in Bidding.KeyColumns ==> v.data[c] == Column(b, c))
      && v.data[PrinterCost] == Column(b, SelectedPrice)
  {
    KeyColumnsDistinct();
    var base := CopyBase(b, Bidding.KeyColumns);
    CopyBaseFacts(b, Bidding.KeyColumns);
    AssignedWellFormed(base, |b.rows|, PrinterCost, Column(b, SelectedPrice));
  }

  /** The fixed headers the projection writes besides the customer price. */
  const FixedNames: seq<string> := Bidding.KeyColumns + [PrinterCost, PrinterUnitCost, CustomerUnitCost, Partners]

  lemma FixedNamesNotCustomerPrice()
    ensures forall c :: c in FixedNames ==> !Contains(c, CustomerPrice)
  {
    SchemaNotCustomerPrice();
    assert forall c :: c in FixedNames ==> c in CatalogColumns && c != CustomerPrice;
  }

  /** Assigning a name the frame lacks appends it and keeps every other column. */
  lemma AssignedNew(v: Columns, n: nat, name: string, values: seq<Cell>)
    requires WellFormed(v, n) && name !in v.names && |values| == n
    ensures var w := Assigned(v, name, values);
      && WellFormed(w, n) && w.names == v.names + [name] && w.data == v.data[name := values]
  {
    AssignedWellFormed(v, n, name, values);
  }

  /** The carried header is none of the fixed headers. */
  lemma CarriedNotFixed(columns: seq<string>)
    ensures CarriedName(columns) !in FixedNames
    ensures CarriedName(columns) != PrinterUnitCost && CarriedName(columns) != CustomerUnitCost
    ensures CarriedName(columns) != Partners
  {
    CarriedNameFacts(columns);
    FixedNamesNotCustomerPrice();
    LongNamesNotCustomerPrice();
    NotCustomerPrice(Partners);
  }

  /** After the prices: the base attributes, the printer cost, the carried
      customer price and the two unit prices, in that order. */
  lemma PricedNames(v: Columns, b: Table)
    requires v.names == CopiedNames
    ensures Priced(v, b).names == CopiedNames + [CarriedName(b.columns), PrinterUnitCost, CustomerUnitCost]
  {
    var cp := CarriedName(b.columns);
    CopiedNamesApart();
    CarriedNotFixed(b.columns);
    assert CopiedNames + [cp] + [PrinterUnitCost] + [CustomerUnitCost] == CopiedNames + [cp, PrinterUnitCost, CustomerUnitCost];
  }

  lemma PricedWellFormed(v: Columns, b: Table)
    requires WellFormed(v, |b.rows|)
    ensures WellFormed(Priced(v, b), |b.rows|)
  {
    var n := |b.rows|;
    AssignedWellFormed(v, n, CarriedName(b.columns), CarriedPrices(b));
    var v1 := Assigned(v, CarriedName(b.columns), CarriedPrices(b));
    AssignedWellFormed(v1, n, PrinterUnitCost, PrinterUnitPrices(b));
    var v2 := Assigned(v1, PrinterUnitCost, PrinterUnitPrices(b));
    AssignedWellFormed(v2, n, CustomerUnitCost, CustomerUnitPrices(b, CarriedPrices(b)));
  }

  /** What the prices change: the three price columns, and nothing copied. */
  lemma PricedData(v: Columns, b: Table)
    requires v.names == CopiedNames
    ensures var w := Priced(v, b); var cp := CarriedName(b.columns);
      && w.data[cp] == CarriedPrices(b)
      && w.data[PrinterUnitCost] == PrinterUnitPrices(b)
      && w.data[CustomerUnitCost] == CustomerUnitPrices(b, CarriedPrices(b))
      && forall c :: c in CopiedNames && c in v.data ==> c in w.data && w.data[c] == v.data[c]
  {
    CopiedNamesApart();
    CarriedNotFixed(b.columns);
  }

  /** The carried header is the priced frame's only customer-price column. */
  lemma PricedOnlyCarried(v: Columns, b: Table)
    requires v.names == CopiedNames
    ensures forall c :: c in Priced(v, b).names ==> (Contains(c, CustomerPrice) <==> c == CarriedName(b.columns))
  {
    PricedNames(v, b);
    CarriedNameFacts(b.columns);
    FixedNamesNotCustomerPrice();
    CopiedNamesApart();
    LongNamesNotCustomerPrice();
  }

  /** Among headers where `cp` alone is a customer-price column, it is the first one. */
  lemma FirstCustomerPriceColumn(names: seq<string>, cp: string)
    requires cp in names && forall c :: c in names ==> (Contains(c, CustomerPrice) <==> c == cp)
    ensures |CustomerPriceColumns(names)| > 0 && CustomerPriceColumns(names)[0] == cp
  {
    var cps := CustomerPriceColumns(names);
    assert cp in cps;
    assert cps[0] in cps;
  }

  /** The headers of a frame shaped like the priced one, whose customer-price
      header is `cp`, have `cp` as their only customer-price column. */
  lemma PricedShapeOnly(names: seq<string>, cp: string)
    requires names == CopiedNames + [cp, PrinterUnitCost, CustomerUnitCost] && Contains(cp, CustomerPrice)
    ensures forall c :: c in names ==> (Contains(c, CustomerPrice) <==> c == cp)
    ensures cp !in CopiedNames && cp != PrinterUnitCost && cp != CustomerUnitCost && cp != Partners
  {
    FixedNamesNotCustomerPrice();
    CopiedNamesApart();
    LongNamesNotCustomerPrice();
    NotCustomerPrice(Partners);
  }

  /** With a markup, the customer-price header becomes the markup's label in place. */
  lemma RepricedNames(v: Columns, b: Table, m: Markup, cp: string)
    requires m > 0 && v.names == CopiedNames + [cp, PrinterUnitCost, CustomerUnitCost] && Contains(cp, CustomerPrice)
    ensures Repriced(v, b, m).names == CopiedNames + [CustomerPriceLabel(m), PrinterUnitCost, CustomerUnitCost]
  {
    var header := CustomerPriceLabel(m);
    var repriced := MarkedPrices(Column(b, SelectedPrice), m);
    PricedShapeOnly(v.names, cp);
    FirstCustomerPriceColumn(v.names, cp);
    var w1 := Assigned(v, cp, repriced);
    var w2 := Renamed(w1, cp, header);
    var expected := CopiedNames + [header, PrinterUnitCost, CustomerUnitCost];
    assert w2.names == expected by {
      assert |w2.names| == |expected|;
      forall i | 0 <= i < |expected| ensures w2.names[i] == expected[i] {
        if i < |CopiedNames| {
          assert v.names[i] in CopiedNames;
        }
      }
    }
  }

  /** With a markup, the customer-price column holds the marked-up printer
      cost and the customer unit price follows it; the copied columns and
      the printer unit price stay. */
  lemma RepricedData(v: Columns, b: Table, m: Markup, cp: string)
    requires m > 0 && v.names == CopiedNames + [cp, PrinterUnitCost, CustomerUnitCost] && Contains(cp, CustomerPrice)
    ensures var w := Repriced(v, b, m); var repriced := MarkedPrices(Column(b, SelectedPrice), m);
      && w.data[CustomerPriceLabel(m)] == repriced
      && w.data[CustomerUnitCost] == UnitPrices(repriced, Column(b, "Quantity"))
      && forall c :: (c in CopiedNames || c == PrinterUnitCost) && c in v.data ==> c in w.data && w.data[c] == v.data[c]
  {
    PricedShapeOnly(v.names, cp);
    FirstCustomerPriceColumn(v.names, cp);
    LabelIsCustomerPrice(m);
    FixedNamesNotCustomerPrice();
    CopiedNamesApart();
    LongNamesNotCustomerPrice();
  }

  lemma RepricedWellFormed(v: Columns, b: Table, m: Markup, cp: string)
    requires m > 0 && v.names == CopiedNames + [cp, PrinterUnitCost, CustomerUnitCost] && Contains(cp, CustomerPrice)
    requires WellFormed(v, |b.rows|)
    ensures WellFormed(Repriced(v, b, m), |b.rows|)
  {
    var n := |b.rows|;
    var header := CustomerPriceLabel(m);
    var repriced := MarkedPrices(Column(b, SelectedPrice), m);
    PricedShapeOnly(v.names, cp);
    FirstCustomerPriceColumn(v.names, cp);
    LabelIsCustomerPrice(m);
    AssignedWellFormed(v, n, cp, repriced);
    var w1 := Assigned(v, cp, repriced);
    RenamedFacts(w1, n, cp, header);
    var w2 := Renamed(w1, cp, header);
    AssignedWellFormed(w2, n, CustomerUnitCost, UnitPrices(repriced, Column(b, "Quantity")));
  }

  /** The header the customer price ends up under: the markup's label when
      a markup is applied, otherwise the carried header. */
  function PriceHeader(columns: seq<string>, m: Markup): string {
    if m > 0 then CustomerPriceLabel(m) else CarriedName(columns)
  }

  /** The headers of the frame before padding. */
  function PartneredNames(columns: seq<string>, m: Markup): seq<string> {
    CopiedNames + [PriceHeader(columns, m), PrinterUnitCost, CustomerUnitCost, Partners]
  }

  lemma PriceHeaderIsCustomerPrice(columns: seq<string>, m: Markup)
    ensures Contains(PriceHeader(columns, m), CustomerPrice)
  {
    if m > 0 {
      LabelIsCustomerPrice(m);
    } else {
      CarriedNameFacts(columns);
    }
  }

  /** The price header is the only customer-price column before padding. */
  lemma PartneredOnlyHeader(columns: seq<string>, m: Markup)
    ensures forall c :: c in PartneredNames(columns, m) ==>
      (Contains(c, CustomerPrice) <==> c == PriceHeader(columns, m))
    ensures Distinct(PartneredNames(columns, m))
    ensures Partners !in CopiedNames + [PriceHeader(columns, m), PrinterUnitCost, CustomerUnitCost]
  {
    var h := PriceHeader(columns, m);
    PriceHeaderIsCustomerPrice(columns, m);
    PricedShapeOnly(CopiedNames + [h, PrinterUnitCost, CustomerUnitCost], h);
    NotCustomerPrice(Partners);
    KeyColumnsDistinct();
    CopiedNamesApart();
    var names := PartneredNames(columns, m);
    forall i, j | 0 <= i < j < |names| ensures names[i] != names[j] {
      if j < |CopiedNames| {
        assert names[i] == Bidding.KeyColumns[i];
      }
    }
  }

  /** After the markup step, with or without a markup. */
  lemma RepricedHeaders(v: Columns, b: Table, m: Markup)
    requires v.names == CopiedNames + [CarriedName(b.columns), PrinterUnitCost, CustomerUnitCost]
    ensures Repriced(v, b, m).names == CopiedNames + [PriceHeader(b.columns, m), PrinterUnitCost, CustomerUnitCost]
  {
    if m > 0 {
      CarriedNameFacts(b.columns);
      RepricedNames(v, b, m, CarriedName(b.columns));
    }
  }

  lemma PartneredNamesFacts(v0: Columns, b: Table, m: Markup)
    requires v0.names == CopiedNames
    ensures Partnered(v0, b, m).names == PartneredNames(b.columns, m)
  {
    PricedNames(v0, b);
    RepricedHeaders(Priced(v0, b), b, m);
    PartneredOnlyHeader(b.columns, m);
    var v6 := Repriced(Priced(v0, b), b, m);
    assert v6.names + [Partners] == PartneredNames(b.columns, m);
  }

  lemma PartneredWellFormed(v0: Columns, b: Table, m: Markup)
    requires v0.names == CopiedNames && WellFormed(v0, |b.rows|)
    ensures WellFormed(Partnered(v0, b, m), |b.rows|)
  {
    var v5 := Priced(v0, b);
    PricedWellFormed(v0, b);
    PricedNames(v0, b);
    CarriedNameFacts(b.columns);
    if m > 0 {
      RepricedWellFormed(v5, b, m, CarriedName(b.columns));
    }
    AssignedWellFormed(Repriced(v5, b, m), |b.rows|, Partners, PartnersCells(b, PartnerHeaders(b.columns)));
  }

  /** The markup step's effect on the columns, with or without a markup. */
  lemma RepricedColumns(v: Columns, b: Table, m: Markup)
    requires v.names == CopiedNames + [CarriedName(b.columns), PrinterUnitCost, CustomerUnitCost]
    requires CarriedName(b.columns) in v.data && CustomerUnitCost in v.data
    ensures var w := Repriced(v, b, m); var h := PriceHeader(b.columns, m);
      var repriced := MarkedPrices(Column(b, SelectedPrice), m);
      && (forall c :: (c in CopiedNames || c == PrinterUnitCost) && c in v.data ==> c in w.data && w.data[c] == v.data[c])
      && h in w.data && w.data[h] == (if m > 0 then repriced else v.data[CarriedName(b.columns)])
      && CustomerUnitCost in w.data
      && w.data[CustomerUnitCost] == (if m > 0 then UnitPrices(repriced, Column(b, "Quantity")) else v.data[CustomerUnitCost])
  {
    if m > 0 {
      CarriedNameFacts(b.columns);
      RepricedData(v, b, m, CarriedName(b.columns));
    }
  }

  /** The columns of the frame before padding: the copied ones unchanged,
      the customer price and its unit price carried or recomputed, the
      printer unit price, and the partners. */
  lemma PartneredData(v0: Columns, b: Table, m: Markup)
    requires v0.names == CopiedNames && WellFormed(v0, |b.rows|)
    ensures var v := Partnered(v0, b, m); var h := PriceHeader(b.columns, m);
      var repriced := MarkedPrices(Column(b, SelectedPrice), m);
      && (forall c :: c in CopiedNames ==> c in v.data && v.data[c] == v0.data[c])
      && h in v.data && v.data[h] == (if m > 0 then repriced else CarriedPrices(b))
      && PrinterUnitCost in v.data && v.data[PrinterUnitCost] == PrinterUnitPrices(b)
      && CustomerUnitCost in v.data && v.data[CustomerUnitCost] ==
           (if m > 0 then UnitPrices(repriced, Column(b, "Quantity")) else CustomerUnitPrices(b, CarriedPrices(b)))
      && Partners in v.data && v.data[Partners] == PartnersCells(b, PartnerHeaders(b.columns))
  {
    var v5 := Priced(v0, b);
    PricedNames(v0, b);
    PricedData(v0, b);
    RepricedColumns(v5, b, m);
    PartneredOnlyHeader(b.columns, m);
  }

  /** Padding keeps every column and its place, adds each schema column the
      frame lacks (bar a skipped "Customer Price") as empty text, and adds
      nothing else. */
  lemma {:induction false} PaddedFacts(v: Columns, cols: seq<string>, skip: bool, n: nat)
    requires WellFormed(v, n)
    ensures var p := Padded(v, cols, skip, n);
      && WellFormed(p, n)
      && |v.names| <= |p.names| && p.names[..|v.names|] == v.names
      && (forall c :: c in v.data ==> c in p.data && p.data[c] == v.data[c])
      && (forall c :: c in cols && !(c == CustomerPrice && skip) ==> c in p.names)
      && (forall c :: c in p.names ==> c in v.names || (c in cols && !(c == CustomerPrice && skip)))
      && (forall c :: c in p.data && c !in v.data ==> p.data[c] == Blank(n))
  {
    if |cols| > 0 {
      var init := cols[..|cols| - 1];
      var c := cols[|cols| - 1];
      PaddedFacts(v, init, skip, n);
      var w := Padded(v, init, skip, n);
      if !(c in w.names || (c == CustomerPrice && skip)) {
        AssignedNew(w, n, c, Blank(n));
        assert (w.names + [c])[..|v.names|] == w.names[..|v.names|];
      }
      assert forall d :: d in cols ==> d in init || d == c;
      assert forall d :: d in init ==> d in cols;
    }
  }

  /** The frame before padding is well formed and has the price header. */
  lemma PartneredShape(b: Table, m: Markup)
    ensures var v := Partnered(Copied(b), b, m);
      && v.names == PartneredNames(b.columns, m) && WellFormed(v, |b.rows|)
      && HasCustomerPrice(v.names)
  {
    CopiedFacts(b);
    PartneredNamesFacts(Copied(b), b, m);
    PartneredWellFormed(Copied(b), b, m);
    PriceHeaderIsCustomerPrice(b.columns, m);
    assert PriceHeader(b.columns, m) in PartneredNames(b.columns, m);
  }

  /** The catalog's columns: those written before padding in their order,
      then the schema columns it lacked as empty text. Every schema column is
      present except "Customer Price", which is there only as the header of
      the customer price; the price header is the only customer-price
      column. */
  lemma SchemaCompleted(b: Table, m: Markup)
    ensures var p := Projection(b, m); var h := PriceHeader(b.columns, m);
      var front := PartneredNames(b.columns, m);
      && WellFormed(p, |b.rows|)
      && |front| <= |p.names| && p.names[..|front|] == front
      && (forall c :: c in CatalogColumns && c != CustomerPrice ==> c in p.names)
      && (CustomerPrice in p.names <==> h == CustomerPrice)
      && (forall c :: c in p.names ==> (Contains(c, CustomerPrice) <==> c == h))
      && (forall c :: c in p.names && c !in front ==> c in CatalogColumns && p.data[c] == Blank(|b.rows|))
  {
    var v := Partnered(Copied(b), b, m);
    PartneredShape(b, m);
    PartneredOnlyHeader(b.columns, m);
    PaddedSchema(v, |b.rows|, PriceHeader(b.columns, m));
  }

  /** Padding a frame whose only customer-price column is `h`. */
  lemma PaddedSchema(v: Columns, n: nat, h: string)
    requires WellFormed(v, n) && h in v.names
    requires forall c :: c in v.names ==> (Contains(c, CustomerPrice) <==> c == h)
    ensures var p := Padded(v, CatalogColumns, HasCustomerPrice(v.names), n);
      && WellFormed(p, n)
      && |v.names| <= |p.names| && p.names[..|v.names|] == v.names
      && (forall c :: c in CatalogColumns && c != CustomerPrice ==> c in p.names)
      && (CustomerPrice in p.names <==> h == CustomerPrice)
      && (forall c :: c in p.names ==> (Contains(c, CustomerPrice) <==> c == h))
      && (forall c :: c in p.names && c !in v.names ==> c in CatalogColumns && p.data[c] == Blank(n))
  {
    assert HasCustomerPrice(v.names);
    PaddedFacts(v, CatalogColumns, true, n);
    SchemaNotCustomerPrice();
    assert MatchesAt(CustomerPrice, CustomerPrice, 0);
  }

  /** Padding changes no column written before it. */
  lemma ProjectionKeeps(b: Table, m: Markup)
    ensures var v := Partnered(Copied(b), b, m); var p := Projection(b, m);
      forall c :: c in v.data ==> c in p.data && p.data[c] == v.data[c]
  {
    PartneredShape(b, m);
    PaddedFacts(Partnered(Copied(b), b, m), CatalogColumns, true, |b.rows|);
  }

  // ---------------------------------------------------------------------
  // What the catalog holds

  /** The base attributes are copied unchanged, and the printer cost is the
      selected bid price. */
  lemma BaseAttributesCopied(b: Table, m: Markup)
    ensures var p := Projection(b, m);
      && (forall c :: c in Bidding.KeyColumns ==> c in p.data && p.data[c] == Column(b, c))
      && PrinterCost in p.data && p.data[PrinterCost] == Column(b, SelectedPrice)
  {
    CopiedFacts(b);
    PartneredData(Copied(b), b, m);
    ProjectionKeeps(b, m);
  }

  /** Without a markup the customer price is carried over: from the sheet's
      first customer-price column under its own header, or, when the sheet
      has none, the printer cost under "Customer Price"; the customer unit
      price is the sheet's own rounded to the cent, or that price per unit. */
  lemma CustomerPriceCarried(b: Table)
    ensures var p := Projection(b, 0); var cp := CarriedName(b.columns);
      && cp in p.names && cp in p.data && |p.data[cp]| == |b.rows|
      && (HasCustomerPrice(b.columns) ==>
            && cp in b.columns && p.data[cp] == Column(b, cp)
            && forall j :: 0 <= j < |b.columns| && Contains(b.columns[j], CustomerPrice) ==> cp in b.columns[..j + 1])
      && (!HasCustomerPrice(b.columns) ==> cp == CustomerPrice && p.data[cp] == Column(b, SelectedPrice))
      && CustomerUnitCost in p.data
      && p.data[CustomerUnitCost] ==
           (if CustomerUnitPrice in b.columns then Rounded(Column(b, CustomerUnitPrice))
            else UnitPrices(p.data[cp], Column(b, "Quantity")))
  {
    CopiedFacts(b);
    PartneredShape(b, 0);
    PartneredData(Copied(b), b, 0);
    ProjectionKeeps(b, 0);
    SchemaCompleted(b, 0);
    CarriedNameFacts(b.columns);
    assert CarriedName(b.columns) in PartneredNames(b.columns, 0);
  }

  /** With a markup, the header naming the markup replaces the carried one. */
  lemma CarriedHeaderReplaced(b: Table, m: Markup)
    requires m > 0
    ensures var p := Projection(b, m); var cp := CarriedName(b.columns);
      && CustomerPriceLabel(m) in p.names && (cp in p.names <==> cp == CustomerPriceLabel(m))
  {
    SchemaCompleted(b, m);
    CarriedNameFacts(b.columns);
    assert CustomerPriceLabel(m) in PartneredNames(b.columns, m);
  }

  /** With a markup the customer price is recomputed: the marked-up printer
      cost rounded to a whole number, under the header naming the markup,
      which replaces the carried header; the customer unit price follows the
      new price. */
  lemma CustomerPriceRecomputed(b: Table, m: Markup)
    requires m > 0
    ensures var p := Projection(b, m); var header := CustomerPriceLabel(m); var cp := CarriedName(b.columns);
      && header in p.names && header in p.data && |p.data[header]| == |b.rows|
      && (forall i :: 0 <= i < |b.rows| ==> p.data[header][i] == MarkedCell(Get(b.rows[i], SelectedPrice), m))
      && (cp in p.names <==> cp == header)
      && CustomerUnitCost in p.data && p.data[CustomerUnitCost] == UnitPrices(p.data[header], Column(b, "Quantity"))
  {
    CopiedFacts(b);
    PartneredData(Copied(b), b, m);
    ProjectionKeeps(b, m);
    CarriedHeaderReplaced(b, m);
  }

  /** The printer's unit price is the sheet's own rounded to the cent, or
      else the printer cost per unit (NaN where the quantity is 0). */
  lemma PrinterUnitPrice(b: Table, m: Markup)
    ensures var p := Projection(b, m);
      && PrinterUnitCost in p.data && |p.data[PrinterUnitCost]| == |b.rows|
      && forall i :: 0 <= i < |b.rows| ==>
           (p.data[PrinterUnitCost][i] ==
              if SelectedUnitPrice in b.columns then RoundCell(Get(b.rows[i], SelectedUnitPrice))
              else PerUnit(Get(b.rows[i], SelectedPrice), Get(b.rows[i], "Quantity")))
  {
    CopiedFacts(b);
    PartneredData(Copied(b), b, m);
    ProjectionKeeps(b, m);
  }

  /** Each row's Partners cell joins, in sheet order, the partner columns
      that have a value in that row. */
  lemma PartnersListed(b: Table, m: Markup)
    ensures var p := Projection(b, m);
      && Partners in p.data && |p.data[Partners]| == |b.rows|
      && forall i :: 0 <= i < |b.rows| ==>
           p.data[Partners][i] == Str(Join(Listed(b.rows[i], PartnerHeaders(b.columns)), ", "))
  {
    CopiedFacts(b);
    PartneredData(Copied(b), b, m);
    ProjectionKeeps(b, m);
  }

  /** Cleaning fills every NaN with empty text, so every partner column is
      listed in every row's Partners cell of an uploaded sheet. */
  lemma EveryPartnerListed(upload: Table, m: Markup)
    ensures var b := CleanedUpload(upload); var p := Projection(b, m);
      && Partners in p.data && |p.data[Partners]| == |b.rows|
      && forall i :: 0 <= i < |b.rows| ==> p.data[Partners][i] == Str(Join(PartnerHeaders(upload.columns), ", "))
  {
    var b := CleanedUpload(upload);
    CleanedShape(upload, NumericColumns + CustomerPriceColumns(upload.columns));
    PartnersListed(b, m);
    var ps := PartnerHeaders(b.columns);
    forall i | 0 <= i < |b.rows| ensures Listed(b.rows[i], ps) == ps {
      FilterAll(ps, Present(b.rows[i]));
    }
  }

  /** Cleaning keeps the upload's columns and leaves the numeric columns
      and every customer-price column holding numbers only. */
  lemma CleanedNumeric(upload: Table)
    ensures var b := CleanedUpload(upload);
      && b.columns == upload.columns && Complete(b) && NoMissing(b)
      && forall c :: c in upload.columns && (c in NumericColumns || Contains(c, CustomerPrice)) ==> NumericColumn(b, c)
  {
    CleanedShape(upload, NumericColumns + CustomerPriceColumns(upload.columns));
  }

  /** The customer price column: the marked-up printer cost with a markup,
      the carried prices without. */
  lemma PriceHeaderValues(b: Table, m: Markup)
    ensures var p := Projection(b, m); var h := PriceHeader(b.columns, m);
      && h in p.data
      && p.data[h] == if m > 0 then MarkedPrices(Column(b, SelectedPrice), m) else CarriedPrices(b)
  {
    CopiedFacts(b);
    PartneredData(Copied(b), b, m);
    ProjectionKeeps(b, m);
  }

  /** Cleaning coerces the selected price and every customer-price column to
      numbers, so the catalog's customer price holds numbers only, carried or
      recomputed. */
  lemma CustomerPriceNumeric(upload: Table, m: Markup)
    requires SelectedPrice in upload.columns
    ensures var b := CleanedUpload(upload); var p := Projection(b, m); var h := PriceHeader(b.columns, m);
      && h in p.data && |p.data[h]| == |b.rows|
      && forall i :: 0 <= i < |b.rows| ==> p.data[h][i].Num?
  {
    var b := CleanedUpload(upload);
    CleanedNumeric(upload);
    PriceHeaderValues(b, m);
    if m > 0 {
      MarkedNumeric(b, m);
    } else {
      CarriedNumeric(b);
    }
  }

  lemma MarkedNumeric(b: Table, m: Markup)
    requires NumericColumn(b, SelectedPrice)
    ensures forall i :: 0 <= i < |b.rows| ==> MarkedPrices(Column(b, SelectedPrice), m)[i].Num?
  {
  }

  lemma CarriedNumeric(b: Table)
    requires NumericColumn(b, SelectedPrice)
    requires forall c :: c in b.columns && Contains(c, CustomerPrice) ==> NumericColumn(b, c)
    ensures forall i :: 0 <= i < |b.rows| ==> CarriedPrices(b)[i].Num?
  {
    var cps := CustomerPriceColumns(b.columns);
    if |cps| > 0 {
      assert cps[0] in cps;
      assert NumericColumn(b, cps[0]);
    }
  }

  /** The catalog is built exactly when the upload has every needed column;
      otherwise the error names the first one missing, in the order the
      columns are read. */
  lemma CatalogError(upload: Table, m: Markup)
    ensures CatalogOf(upload, m).Success? <==> forall c :: c in Needed ==> c in upload.columns
    ensures CatalogOf(upload, m).Success? ==> CatalogOf(upload, m).value == Projection(CleanedUpload(upload), m)
    ensures forall k ::
      (0 <= k < |Needed| && Needed[k] !in upload.columns && forall j :: 0 <= j < k ==> Needed[j] in upload.columns) ==>
      CatalogOf(upload, m) == Failure(Needed[k])
  {
    var b := CleanedUpload(upload);
    CleanedShape(upload, NumericColumns + CustomerPriceColumns(upload.columns));
    var missing := Bidding.Absent(Needed, b.columns);
    if forall c :: c in Needed ==> c in upload.columns {
      Bidding.AbsentNone(Needed, b.columns);
    } else {
      var c :| c in Needed && c !in upload.columns;
      assert c in missing;
    }
    forall k | 0 <= k < |Needed| && Needed[k] !in upload.columns &&
      (forall j :: 0 <= j < k ==> Needed[j] in upload.columns)
      ensures CatalogOf(upload, m) == Failure(Needed[k])
    {
      Bidding.AbsentFirst(Needed, b.columns, k);
    }
  }

  // ---------------------------------------------------------------------
  // The builder

  /** The customer price carried over (or the printer cost under "Customer
      Price"), then the two unit prices, each the sheet's own when it has it. */
  method AddPrices(f: Frame, b: Table)
    requires f.Valid() && f.height == |b.rows| && f.names == CopiedNames
    modifies f
    ensures f.Valid() && f.View() == Priced(old(f.View()), b)
  {
    var quantity := Column(b, "Quantity");
    var cost := Column(b, SelectedPrice);
    var cps := CustomerPriceColumns(b.columns);
    var cp := CustomerPrice;
    if |cps| > 0 {
      cp := cps[0];
      f.Assign(cp, Column(b, cp));
    } else {
      f.Assign(cp, cost);
    }
    CarriedNotFixed(b.columns);
    if SelectedUnitPrice in b.columns {
      f.Assign(PrinterUnitCost, Rounded(Column(b, SelectedUnitPrice)));
    } else {
      f.Assign(PrinterUnitCost, UnitPrices(cost, quantity));
    }
    if CustomerUnitPrice in b.columns {
      f.Assign(CustomerUnitCost, Rounded(Column(b, CustomerUnitPrice)));
    } else {
      f.Assign(CustomerUnitCost, UnitPrices(f.data[cp], quantity));
    }
  }

  /** With a markup above 0, the frame's customer-price column gets the
      marked-up printer cost and is renamed after the markup, and the
      customer unit price is recomputed from it. The frame always holds the
      carried customer-price column at this point, so the branch of the
      source for a frame without one is never taken. */
  method ApplyMarkup(f: Frame, b: Table, m: Markup)
    requires f.Valid() && f.height == |b.rows|
    requires f.names == CopiedNames + [CarriedName(b.columns), PrinterUnitCost, CustomerUnitCost]
    modifies f
    ensures f.Valid() && f.View() == Repriced(old(f.View()), b, m)
  {
    if m > 0 {
      var quantity := Column(b, "Quantity");
      var repriced := MarkedPrices(Column(b, SelectedPrice), m);
      var existing := CustomerPriceColumns(f.names);
      CarriedNameFacts(b.columns);
      PricedShapeOnly(f.names, CarriedName(b.columns));
      FirstCustomerPriceColumn(f.names, CarriedName(b.columns));
      var column := existing[0];
      f.Assign(column, repriced);
      LabelIsCustomerPrice(m);
      f.Rename(column, CustomerPriceLabel(m));
      f.Assign(CustomerUnitCost, UnitPrices(repriced, quantity));
    }
  }

  /** The loop adding each schema column the frame lacks as empty text,
      skipping "Customer Price" when a customer-price column exists. */
  method PadSchema(f: Frame)
    requires f.Valid()
    modifies f
    ensures f.Valid() && f.View() == Padded(old(f.View()), CatalogColumns, HasCustomerPrice(old(f.names)), f.height)
  {
    ghost var start := f.View();
    var customerPriceExists := HasCustomerPrice(f.names);
    for k := 0 to |CatalogColumns|
      invariant f.Valid()
      invariant f.View() == Padded(start, CatalogColumns[..k], customerPriceExists, f.height)
    {
      var col := CatalogColumns[k];
      assert CatalogColumns[..k + 1][..k] == CatalogColumns[..k];
      if col !in f.names {
        if col == CustomerPrice && customerPriceExists {
          continue;
        }
        f.Assign(col, Blank(f.height));
      }
    }
    assert CatalogColumns[..|CatalogColumns|] == CatalogColumns;
  }

  /** The loop copying the base attributes: it stops at the first one the
      sheet lacks, which is then the first needed column missing. */
  method CopyKeyColumns(f: Frame, b: Table) returns (missing: Option<string>)
    requires f.Valid() && f.height == |b.rows| && f.View() == NoColumns
    modifies f
    ensures f.Valid() && f.height == |b.rows|
    ensures missing.Some? ==> |Bidding.Absent(Needed, b.columns)| > 0 && Bidding.Absent(Needed, b.columns)[0] == missing.value
    ensures missing.None? ==> f.View() == CopyBase(b, Bidding.KeyColumns)
    ensures missing.None? ==> forall j :: 0 <= j < |Bidding.KeyColumns| ==> Needed[j] in b.columns
  {
    for k := 0 to |Bidding.KeyColumns|
      invariant f.Valid() && f.height == |b.rows|
      invariant f.View() == CopyBase(b, Bidding.KeyColumns[..k])
      invariant forall j :: 0 <= j < k ==> Needed[j] in b.columns
    {
      var c := Bidding.KeyColumns[k];
      if c !in b.columns {
        Bidding.AbsentFirst(Needed, b.columns, k);
        return Some(c);
      }
      assert Bidding.KeyColumns[..k + 1][..k] == Bidding.KeyColumns[..k];
      f.Assign(c, Column(b, c));
    }
    assert Bidding.KeyColumns[..|Bidding.KeyColumns|] == Bidding.KeyColumns;
    return None;
  }

  /** The steps after the copy: prices, markup, partners and padding. */
  method CompleteCatalog(f: Frame, b: Table, m: Markup)
    requires f.Valid() && f.height == |b.rows| && f.View() == Copied(b)
    modifies f
    ensures f.View() == Projection(b, m)
  {
    ghost var copied := f.View();
    CopiedFacts(b);
    AddPrices(f, b);
    PricedNames(copied, b);
    ApplyMarkup(f, b, m);
    f.Assign(Partners, PartnersCells(b, PartnerHeaders(b.columns)));
    PadSchema(f);
  }

  /** The catalog builder: clean the upload, then fill a new frame one
      column at a time; the first needed column the sheet lacks stops the
      build with its name. */
  method BuildCatalog(upload: Table, m: Markup) returns (r: Result<Columns>)
    ensures r == CatalogOf(upload, m)
  {
    var b := CleanSheet(upload, NumericColumns + CustomerPriceColumns(upload.columns));
    var f := new Frame(|b.rows|);
    var missing := CopyKeyColumns(f, b);
    if missing.Some? {
      return Failure(missing.value);
    }
    if SelectedPrice !in b.columns {
      Bidding.AbsentFirst(Needed, b.columns, |Bidding.KeyColumns|);
      return Failure(SelectedPrice);
    }
    assert forall c :: c in Needed ==> c in b.columns by {
      forall c | c in Needed ensures c in b.columns {
        var j :| 0 <= j < |Needed| && Needed[j] == c;
      }
    }
    Bidding.AbsentNone(Needed, b.columns);
    f.Assign(PrinterCost, Column(b, SelectedPrice));
    CompleteCatalog(f, b, m);
    r := Success(f.View());
  }
}
