/** The bidding sheet builder: uploaded supplier cost sheets are validated,
    combined, grouped by product, and reduced to one row per product naming
    the cheapest partners, the selected price, the marked-up customer price,
    unit prices, and every partner's bid. */
module Bidding {
  import opened Outcomes
  import opened Text
  import opened Ordering
  import opened Rounding
  import opened Tables
  import opened Markup

  const RequiredColumns: seq<string> := [
    "Category", "Dandpo SKU", "Combinations", "Printer Specifications", "Quantity",
    "Sample", "Printer Cost", "Lead Time", "Weight in kg", "Partner Name"]

  /** The columns that identify a product. */
  const KeyColumns: seq<string> := [
    "Category", "Dandpo SKU", "Combinations", "Printer Specifications", "Quantity",
    "Sample", "Lead Time", "Weight in kg"]

  const PriceColumn: string := "Printer Cost"
  const PartnerColumn: string := "Partner Name"

  /** The columns coerced to numbers when a supplier sheet is loaded. */
  const NumericColumns: seq<string> := ["Quantity", "Printer Cost", "Lead Time", "Weight in kg"]

  // ---------------------------------------------------------------------
  // Validation and loading

  /** The names of `wanted` missing from `columns`, in the order of `wanted`. */
  function Absent(wanted: seq<string>, columns: seq<string>): (missing: seq<string>)
    ensures forall c :: c in missing <==> c in wanted && c !in columns
  {
    if |wanted| == 0 then []
    else
      var rest := Absent(wanted[1..], columns);
      if wanted[0] in columns then rest else [wanted[0]] + rest
  }

  /** The required columns a sheet lacks, in the order they are required. */
  function MissingColumns(columns: seq<string>): seq<string> {
    Absent(RequiredColumns, columns)
  }

  predicate HasRequired(columns: seq<string>) {
    forall c :: c in RequiredColumns ==> c in columns
  }

  function MissingMessage(filename: string, columns: seq<string>): string {
    "File " + filename + " is missing columns: " + Join(MissingColumns(columns), ", ")
  }

  /** `validate_columns`: the sheet unchanged when every required column is
      present, otherwise an error naming the file and the missing columns. */
  function ValidateColumns(t: Table, filename: string): (r: Result<Table>)
    ensures r.Success? <==> HasRequired(t.columns)
    ensures r.Success? ==> r.value == t
    ensures r.Failure? ==> r.error == MissingMessage(filename, t.columns)
  {
    var missing := MissingColumns(t.columns);
    if |missing| > 0 then
      assert missing[0] in missing;
      Failure(MissingMessage(filename, t.columns))
    else
      assert forall c :: c in RequiredColumns ==> c in t.columns by {
        forall c | c in RequiredColumns ensures c in t.columns {
          assert c !in missing;
        }
      }
      Success(t)
  }

  /** The error message lists exactly the required columns that are absent,
      each once, in the order in which they are required. */
  lemma MissingColumnsListed(columns: seq<string>)
    ensures forall c :: c in MissingColumns(columns) <==> c in RequiredColumns && c !in columns
    ensures Distinct(MissingColumns(columns))
    ensures InFirstSeenOrder(MissingColumns(columns), RequiredColumns)
  {
    RequiredDistinct();
    AbsentInOrder(RequiredColumns, columns);
  }

  lemma RequiredDistinct()
    ensures Distinct(RequiredColumns)
  {
  }

  /** Absent keeps the order of a list without repeats, and has none itself. */
  lemma AbsentInOrder(wanted: seq<string>, columns: seq<string>)
    requires Distinct(wanted)
    ensures Distinct(Absent(wanted, columns))
    ensures InFirstSeenOrder(Absent(wanted, columns), wanted)
  {
    var missing := Absent(wanted, columns);
    AbsentSubsequence(wanted, columns);
    DistinctFirstSeen(wanted);
    FilterKeepsOrder(wanted, missing, wanted);
    forall i, j | 0 <= i < j < |missing| ensures missing[i] != missing[j] {
      assert FirstIndex(wanted, missing[i]) < FirstIndex(wanted, missing[j]);
    }
  }

  lemma {:induction false} AbsentSubsequence(wanted: seq<string>, columns: seq<string>)
    ensures IsSubsequence(Absent(wanted, columns), wanted)
  {
    if |wanted| > 0 {
      var rest := Absent(wanted[1..], columns);
      AbsentSubsequence(wanted[1..], columns);
      if wanted[0] in columns {
        assert |rest| > 0 ==> rest[0] in rest && rest[0] != wanted[0];
      } else {
        assert ([wanted[0]] + rest)[1..] == rest;
      }
    }
  }

  /** When every name before `wanted[k]` is present and `wanted[k]` is not,
      `wanted[k]` is the first missing name: the one a lookup in order fails on. */
  lemma {:induction false} AbsentFirst(wanted: seq<string>, columns: seq<string>, k: nat)
    requires k < |wanted| && wanted[k] !in columns
    requires forall j :: 0 <= j < k ==> wanted[j] in columns
    ensures |Absent(wanted, columns)| > 0 && Absent(wanted, columns)[0] == wanted[k]
  {
    if k > 0 {
      assert wanted[0] in columns;
      forall j | 0 <= j < k - 1 ensures wanted[1..][j] in columns {
        assert wanted[1..][j] == wanted[j + 1];
      }
      AbsentFirst(wanted[1..], columns, k - 1);
    }
  }

  /** Nothing is missing when every wanted name is present. */
  lemma {:induction false} AbsentNone(wanted: seq<string>, columns: seq<string>)
    requires forall c :: c in wanted ==> c in columns
    ensures Absent(wanted, columns) == []
  {
    if |wanted| > 0 {
      assert wanted[0] in wanted;
      forall c | c in wanted[1..] ensures c in columns {
        assert c in wanted;
      }
      AbsentNone(wanted[1..], columns);
    }
  }

  datatype Upload = Upload(name: string, sheet: Table)

  /** The cleaned and validated sheets, or the error of the first upload
      that fails validation. */
  function Loaded(uploads: seq<Upload>): Result<seq<Table>> {
    if |uploads| == 0 then Success([])
    else
      match Loaded(uploads[..|uploads| - 1])
      case Failure(e) => Failure(e)
      case Success(sheets) =>
        var u := uploads[|uploads| - 1];
        match ValidateColumns(Cleaned(u.sheet, NumericColumns), u.name)
        case Failure(e) => Failure(e)
        case Success(t) => Success(sheets + [t])
  }

  /** Once an upload fails, the uploads after it do not matter. */
  lemma {:induction false} LoadedStopsAtFailure(uploads: seq<Upload>, i: nat)
    requires i <= |uploads| && Loaded(uploads[..i]).Failure?
    ensures Loaded(uploads) == Loaded(uploads[..i])
    decreases |uploads| - i
  {
    if i < |uploads| {
      assert uploads[..i + 1][..i] == uploads[..i];
      LoadedStopsAtFailure(uploads, i + 1);
    } else {
      assert uploads[..i] == uploads;
    }
  }

  /** The loading loop: each file is cleaned and validated in turn, and the
      first invalid one stops the page with its error. */
  method LoadSheets(uploads: seq<Upload>) returns (r: Result<seq<Table>>)
    ensures r == Loaded(uploads)
  {
    var all: seq<Table> := [];
    for i := 0 to |uploads|
      invariant Loaded(uploads[..i]) == Success(all)
    {
      assert uploads[..i + 1][..i] == uploads[..i];
      var df := CleanSheet(uploads[i].sheet, NumericColumns);
      var v := ValidateColumns(df, uploads[i].name);
      if v.Failure? {
        LoadedStopsAtFailure(uploads, i + 1);
        return Failure(v.error);
      }
      all := all + [v.value];
    }
    assert uploads[..|uploads|] == uploads;
    return Success(all);
  }

  /** Loading succeeds exactly when every upload has the required columns. */
  lemma {:induction false} LoadedSucceeds(uploads: seq<Upload>)
    ensures Loaded(uploads).Success? <==> forall i :: 0 <= i < |uploads| ==> HasRequired(uploads[i].sheet.columns)
  {
    if |uploads| > 0 {
      var init := uploads[..|uploads| - 1];
      var last := uploads[|uploads| - 1];
      LoadedSucceeds(init);
      LoadedLast(uploads);
      if Loaded(uploads).Success? {
        forall i | 0 <= i < |uploads| ensures HasRequired(uploads[i].sheet.columns) {
          if i < |init| {
            assert init[i] == uploads[i];
          } else {
            assert uploads[i] == last;
          }
        }
      } else if Loaded(init).Success? {
        assert !HasRequired(last.sheet.columns);
      } else {
        var i :| 0 <= i < |init| && !HasRequired(init[i].sheet.columns);
        assert init[i] == uploads[i];
      }
    }
  }

  /** Loading one more upload succeeds when the earlier ones did and the new
      one has the required columns (cleaning keeps the columns). */
  lemma LoadedLast(uploads: seq<Upload>)
    requires |uploads| > 0
    ensures Loaded(uploads).Success? <==>
      Loaded(uploads[..|uploads| - 1]).Success? && HasRequired(uploads[|uploads| - 1].sheet.columns)
  {
    var u := uploads[|uploads| - 1];
    CleanedShape(u.sheet, NumericColumns);
  }

  /** A successful load yields every sheet cleaned, in upload order. */
  lemma {:induction false} LoadedValues(uploads: seq<Upload>)
    requires Loaded(uploads).Success?
    ensures |Loaded(uploads).value| == |uploads|
    ensures forall i :: 0 <= i < |uploads| ==> Loaded(uploads).value[i] == Cleaned(uploads[i].sheet, NumericColumns)
  {
    if |uploads| > 0 {
      var init := uploads[..|uploads| - 1];
      var u := uploads[|uploads| - 1];
      assert Loaded(init).Success?;
      LoadedValues(init);
      var cleaned := Cleaned(u.sheet, NumericColumns);
      assert Loaded(uploads) == Success(Loaded(init).value + [cleaned]);
      forall i | 0 <= i < |uploads|
        ensures Loaded(uploads).value[i] == Cleaned(uploads[i].sheet, NumericColumns)
      {
        if i < |init| {
          assert init[i] == uploads[i];
        }
      }
    }
  }

  /** A failed load reports the first upload that lacks a required column. */
  lemma {:induction false} LoadedError(uploads: seq<Upload>)
    ensures Loaded(uploads).Failure? ==> exists i :: (0 <= i < |uploads| &&
      !HasRequired(uploads[i].sheet.columns) &&
      (forall j :: 0 <= j < i ==> HasRequired(uploads[j].sheet.columns)) &&
      Loaded(uploads).error == MissingMessage(uploads[i].name, uploads[i].sheet.columns))
  {
    if |uploads| > 0 {
      var init := uploads[..|uploads| - 1];
      var u := uploads[|uploads| - 1];
      LoadedError(init);
      if Loaded(init).Failure? {
        var i :| 0 <= i < |init| && !HasRequired(init[i].sheet.columns) &&
          (forall j :: 0 <= j < i ==> HasRequired(init[j].sheet.columns)) &&
          Loaded(init).error == MissingMessage(init[i].name, init[i].sheet.columns);
        assert uploads[i] == init[i];
        forall j | 0 <= j < i ensures HasRequired(uploads[j].sheet.columns) {
          assert uploads[j] == init[j];
        }
      } else if Loaded(uploads).Failure? {
        LoadedSucceeds(init);
        CleanedShape(u.sheet, NumericColumns);
        forall j | 0 <= j < |init| ensures HasRequired(uploads[j].sheet.columns) {
          assert uploads[j] == init[j];
        }
      }
    }
  }

  /** `pd.concat(all_data)`: the rows of every sheet, in order. A sheet
      without some column contributes NaN there, which `Get` yields. */
  function Combined(sheets: seq<Table>): (rows: seq<Row>)
    ensures forall r :: r in rows <==> exists i :: 0 <= i < |sheets| && r in sheets[i].rows
    ensures |rows| == RowCount(sheets)
  {
    if |sheets| == 0 then []
    else
      var init := sheets[..|sheets| - 1];
      var rest := Combined(init);
      assert forall i :: 0 <= i < |init| ==> init[i] == sheets[i];
      RowCountLast(sheets);
      rest + sheets[|sheets| - 1].rows
  }

  /** The number of rows of all the sheets together. */
  function RowCount(sheets: seq<Table>): nat {
    if |sheets| == 0 then 0 else |sheets[0].rows| + RowCount(sheets[1..])
  }

  /** Counting the sheets from the back gives the same total. */
  lemma {:induction false} RowCountLast(sheets: seq<Table>)
    requires |sheets| > 0
    ensures RowCount(sheets) == RowCount(sheets[..|sheets| - 1]) + |sheets[|sheets| - 1].rows|
  {
    if |sheets| > 1 {
      RowCountLast(sheets[1..]);
      assert sheets[1..][..|sheets| - 2] == sheets[..|sheets| - 1][1..];
    }
  }

  // ---------------------------------------------------------------------
  // Product keys and groups

  /** The texts of a row's key columns, in key order. */
  function KeyTexts(r: Row): (parts: seq<string>)
    ensures |parts| == |KeyColumns|
  {
    seq(|KeyColumns|, i requires 0 <= i < |KeyColumns| => CellText(Get(r, KeyColumns[i])))
  }

  /** The "Product Key": the key columns as text, joined by " | ". */
  function ProductKey(r: Row): string {
    Join(KeyTexts(r), KeySeparator)
  }

  /** Splitting a product key at " | " gives back the texts of its key
      columns, provided none of them contains '|'. */
  lemma ProductKeyRoundTrip(r: Row)
    requires forall i :: 0 <= i < |KeyColumns| ==> '|' !in CellText(Get(r, KeyColumns[i]))
    ensures Split(ProductKey(r), KeySeparator) == KeyTexts(r)
  {
    var parts := KeyTexts(r);
    forall p | p in parts ensures '|' !in p {
      var i :| 0 <= i < |parts| && parts[i] == p;
    }
    SplitJoin(parts);
  }

  /** Two rows whose key texts hold no '|' get the same product key exactly
      when every key column has the same text in both: grouping by the key
      is grouping by the eight attributes. */
  lemma SameKeySameTexts(r: Row, s: Row)
    requires forall i :: 0 <= i < |KeyColumns| ==> '|' !in CellText(Get(r, KeyColumns[i]))
    requires forall i :: 0 <= i < |KeyColumns| ==> '|' !in CellText(Get(s, KeyColumns[i]))
    ensures ProductKey(r) == ProductKey(s) <==>
      forall i :: 0 <= i < |KeyColumns| ==> CellText(Get(r, KeyColumns[i])) == CellText(Get(s, KeyColumns[i]))
  {
    if ProductKey(r) == ProductKey(s) {
      ProductKeyRoundTrip(r);
      ProductKeyRoundTrip(s);
      forall i | 0 <= i < |KeyColumns|
        ensures CellText(Get(r, KeyColumns[i])) == CellText(Get(s, KeyColumns[i]))
      {
        assert KeyTexts(r)[i] == KeyTexts(s)[i];
      }
    } else {
      assert KeyTexts(r) != KeyTexts(s);
    }
  }

  function Keys(rows: seq<Row>): (keys: seq<string>)
    ensures |keys| == |rows|
  {
    seq(|rows|, i requires 0 <= i < |rows| => ProductKey(rows[i]))
  }

  /** The groups' keys in the order pandas visits them: sorted, each once. */
  function GroupKeys(rows: seq<Row>): seq<string> {
    SortedKeys(Keys(rows))
  }

  /** The rows of the group with key `k`, in their original order. */
  function Group(rows: seq<Row>, k: string): seq<Row> {
    if |rows| == 0 then []
    else (if ProductKey(rows[0]) == k then [rows[0]] else []) + Group(rows[1..], k)
  }

  /** A group holds exactly the rows with its key. */
  lemma {:induction false} GroupMembers(rows: seq<Row>, k: string)
    ensures forall r :: r in Group(rows, k) <==> r in rows && ProductKey(r) == k
  {
    if |rows| > 0 {
      GroupMembers(rows[1..], k);
      assert rows == [rows[0]] + rows[1..];
    }
  }

  /** The key of some row has a non-empty group. */
  lemma GroupNonEmpty(rows: seq<Row>, k: string)
    requires k in Keys(rows)
    ensures |Group(rows, k)| > 0
  {
    var i :| 0 <= i < |rows| && Keys(rows)[i] == k;
    GroupMembers(rows, k);
    assert rows[i] in Group(rows, k);
  }

  /** Every key of a row has a non-empty group, headed by the first row with that key. */
  lemma {:induction false} GroupHead(rows: seq<Row>, k: string)
    requires k in Keys(rows)
    ensures |Group(rows, k)| > 0 && Group(rows, k)[0] == rows[FirstIndex(Keys(rows), k)]
  {
    if Keys(rows)[0] == k {
      GroupHeadFirst(rows, k);
    } else {
      assert k in Keys(rows)[1..];
      assert Keys(rows)[1..] == Keys(rows[1..]);
      GroupHead(rows[1..], k);
      GroupHeadLater(rows, k);
    }
  }

  lemma GroupHeadFirst(rows: seq<Row>, k: string)
    requires |rows| > 0 && Keys(rows)[0] == k
    ensures |Group(rows, k)| > 0 && Group(rows, k)[0] == rows[FirstIndex(Keys(rows), k)]
  {
    assert FirstIndex(Keys(rows), k) == 0;
    assert Group(rows, k) == [rows[0]] + Group(rows[1..], k);
  }

  lemma GroupHeadLater(rows: seq<Row>, k: string)
    requires |rows| > 0 && Keys(rows)[0] != k && k in Keys(rows)[1..]
    requires Keys(rows)[1..] == Keys(rows[1..])
    requires |Group(rows[1..], k)| > 0 && Group(rows[1..], k)[0] == rows[1..][FirstIndex(Keys(rows[1..]), k)]
    ensures |Group(rows, k)| > 0 && Group(rows, k)[0] == rows[FirstIndex(Keys(rows), k)]
  {
    var keys := Keys(rows);
    assert ProductKey(rows[0]) != k;
    assert Group(rows, k) == [] + Group(rows[1..], k) == Group(rows[1..], k);
    var i := FirstIndex(keys[1..], k);
    assert FirstIndex(keys, k) == 1 + i;
    assert rows[1..][i] == rows[1 + i];
  }

  // ---------------------------------------------------------------------
  // Bids of one group

  /** A row's partner, read as the text of its "Partner Name" cell. */
  function PartnerOf(r: Row): string {
    CellText(Get(r, PartnerColumn))
  }

  /** The row's price when it is present and above 0: only such rows bid. */
  function BidPrice(r: Row): (p: Option<real>)
    ensures p.Some? ==> p.value > 0.0
  {
    match Get(r, PriceColumn)
    case Num(x) => if x > 0.0 then Some(x) else None
    case _ => None
  }

  /** The row is a bid by partner `p`. */
  predicate BidBy(r: Row, p: string) {
    PartnerOf(r) == p && BidPrice(r).Some?
  }

  /** The partners of the bidding rows, in row order, repeats included. */
  function Bidders(g: seq<Row>): seq<string> {
    if |g| == 0 then []
    else
      var ps := Bidders(g[..|g| - 1]);
      var r := g[|g| - 1];
      if BidPrice(r).Some? then ps + [PartnerOf(r)] else ps
  }

  /** A partner is among the bidders exactly when one of the group's rows is its bid. */
  lemma {:induction false} BiddersMembers(g: seq<Row>, p: string)
    ensures p in Bidders(g) <==> exists i :: 0 <= i < |g| && BidBy(g[i], p)
  {
    if |g| > 0 {
      var init := g[..|g| - 1];
      BiddersMembers(init, p);
      if p in Bidders(init) {
        var i :| 0 <= i < |init| && BidBy(init[i], p);
        assert g[i] == init[i];
      }
      if exists i :: 0 <= i < |g| && BidBy(g[i], p) {
        var i :| 0 <= i < |g| && BidBy(g[i], p);
        if i < |init| {
          assert init[i] == g[i];
        }
      }
    }
  }

  /** The price of the last bid of partner `p` in the group, if any. */
  function LastBid(g: seq<Row>, p: string): Option<real> {
    if |g| == 0 then None
    else
      var r := g[|g| - 1];
      if BidBy(r, p) then BidPrice(r) else LastBid(g[..|g| - 1], p)
  }

  /** LastBid finds a bid of `p` exactly when there is one, and it is a bid
      of `p` that no later row of the group repeats. */
  lemma LastBidSpec(g: seq<Row>, p: string)
    ensures LastBid(g, p).Some? <==> exists i :: 0 <= i < |g| && BidBy(g[i], p)
    ensures LastBid(g, p).Some? ==> exists i :: (0 <= i < |g| && BidBy(g[i], p) &&
      BidPrice(g[i]) == LastBid(g, p) && forall j :: i < j < |g| ==> !BidBy(g[j], p))
  {
    LastBidFound(g, p);
    LastBidWitness(g, p);
  }

  lemma {:induction false} LastBidFound(g: seq<Row>, p: string)
    ensures LastBid(g, p).Some? <==> exists i :: 0 <= i < |g| && BidBy(g[i], p)
  {
    if |g| > 0 {
      var init := g[..|g| - 1];
      var last := |g| - 1;
      if BidBy(g[last], p) {
        assert LastBid(g, p) == BidPrice(g[last]);
      } else {
        assert LastBid(g, p) == LastBid(init, p);
        LastBidFound(init, p);
        if exists i :: 0 <= i < |g| && BidBy(g[i], p) {
          var i :| 0 <= i < |g| && BidBy(g[i], p);
          assert init[i] == g[i];
        }
        if LastBid(init, p).Some? {
          var i :| 0 <= i < |init| && BidBy(init[i], p);
          assert g[i] == init[i];
        }
      }
    }
  }

  lemma {:induction false} LastBidWitness(g: seq<Row>, p: string)
    ensures LastBid(g, p).Some? ==> exists i :: (0 <= i < |g| && BidBy(g[i], p) &&
      BidPrice(g[i]) == LastBid(g, p) && forall j :: i < j < |g| ==> !BidBy(g[j], p))
  {
    if |g| > 0 {
      var init := g[..|g| - 1];
      var last := |g| - 1;
      if BidBy(g[last], p) {
        assert LastBid(g, p) == BidPrice(g[last]);
      } else {
        assert LastBid(g, p) == LastBid(init, p);
        LastBidWitness(init, p);
        if LastBid(init, p).Some? {
          var i :| 0 <= i < |init| && BidBy(init[i], p) && BidPrice(init[i]) == LastBid(init, p) &&
            forall j :: i < j < |init| ==> !BidBy(init[j], p);
          assert g[i] == init[i];
          forall j | i < j < |g| ensures !BidBy(g[j], p) {
            if j < last {
              assert g[j] == init[j];
            }
          }
        }
      }
    }
  }

  /** `partner_prices`: a dict from partner to price whose keys keep the
      order in which they were first inserted. */
  datatype Bids = Bids(partners: seq<string>, price: map<string, real>)

  predicate WellFormed(b: Bids) {
    Distinct(b.partners) && b.price.Keys == set p | p in b.partners
  }

  const NoBids := Bids([], map[])

  /** `partner_prices[p] = x`: a new partner goes last, a known one keeps its place. */
  function Put(b: Bids, p: string, x: real): Bids {
    Bids(if p in b.price then b.partners else b.partners + [p], b.price[p := x])
  }

  /** The dict after the loop over a group's rows. */
  function BidsOf(g: seq<Row>): Bids {
    if |g| == 0 then NoBids
    else
      var b := BidsOf(g[..|g| - 1]);
      var r := g[|g| - 1];
      match BidPrice(r)
      case None => b
      case Some(x) => Put(b, PartnerOf(r), x)
  }

  /** The loop over a group's rows that fills `partner_prices`. */
  method CollectBids(g: seq<Row>) returns (b: Bids)
    ensures b == BidsOf(g)
  {
    b := NoBids;
    for i := 0 to |g|
      invariant b == BidsOf(g[..i])
    {
      assert g[..i + 1][..i] == g[..i];
      var price := Get(g[i], PriceColumn);
      if price.Num? && price.x > 0.0 {
        b := Put(b, PartnerOf(g[i]), price.x);
      }
    }
    assert g[..|g|] == g;
  }

  /** Setting a partner's price keeps each partner listed once, and listed
      exactly when it has a price. */
  lemma PutWellFormed(b: Bids, p: string, x: real)
    requires WellFormed(b)
    ensures WellFormed(Put(b, p, x))
  {
    if p !in b.price {
      var u := b.partners + [p];
      forall i, j | 0 <= i < j < |u| ensures u[i] != u[j] {
        if j == |u| - 1 {
          assert u[i] in b.partners;
        }
      }
    }
  }

  /** The dict filled by the loop is well formed. */
  lemma {:induction false} BidsOfWellFormed(g: seq<Row>)
    ensures WellFormed(BidsOf(g))
  {
    if |g| > 0 {
      var r := g[|g| - 1];
      BidsOfWellFormed(g[..|g| - 1]);
      match BidPrice(r)
      case None =>
      case Some(x) => PutWellFormed(BidsOf(g[..|g| - 1]), PartnerOf(r), x);
    }
  }

  /** The dict holds each bidding partner once, in the order of its first
      bid, and records the price of that partner's last bid. */
  lemma {:induction false} BidsOfCorrect(g: seq<Row>)
    ensures WellFormed(BidsOf(g))
    ensures BidsOf(g).partners == Unique(Bidders(g))
    ensures forall p :: p in BidsOf(g).price ==> LastBid(g, p) == Some(BidsOf(g).price[p])
  {
    BidsOfWellFormed(g);
    if |g| > 0 {
      var init := g[..|g| - 1];
      var r := g[|g| - 1];
      BidsOfCorrect(init);
      var b := BidsOf(init);
      var s := Bidders(init);
      match BidPrice(r)
      case None =>
        assert BidsOf(g) == b && Bidders(g) == s;
      case Some(x) =>
        var p := PartnerOf(r);
        UniqueCorrect(s);
        assert BidsOf(g) == Put(b, p, x);
        assert Bidders(g) == s + [p];
        assert (s + [p])[..|s|] == s;
        assert p in b.price <==> p in Unique(s);
    }
  }

  /** A partner has a price in the dict exactly when it has some bid above 0
      in the group. */
  lemma BidsOfMembers(g: seq<Row>, p: string)
    ensures p in BidsOf(g).price <==> exists i :: 0 <= i < |g| && BidBy(g[i], p)
  {
    BidsOfCorrect(g);
    UniqueCorrect(Bidders(g));
    BiddersMembers(g, p);
  }

  // ---------------------------------------------------------------------
  // Winner selection

  /** Python's `min`: scans left to right, keeping the current minimum
      unless a smaller value comes. */
  function MinPrice(vs: seq<real>): (m: real)
    requires |vs| > 0
    ensures m in vs
    ensures forall v :: v in vs ==> m <= v
  {
    if |vs| == 1 then vs[0]
    else
      var init := vs[..|vs| - 1];
      var m := MinPrice(init);
      assert vs == init + [vs[|vs| - 1]];
      if vs[|vs| - 1] < m then vs[|vs| - 1] else m
  }

  /** `partner_prices.values()`, in key order. */
  function Prices(b: Bids): (vs: seq<real>)
    requires WellFormed(b)
    ensures |vs| == |b.partners|
    ensures forall p :: p in b.price ==> b.price[p] in vs
    ensures forall v :: v in vs ==> exists p :: p in b.price && b.price[p] == v
  {
    var vs := seq(|b.partners|, i requires 0 <= i < |b.partners| => b.price[b.partners[i]]);
    forall v | v in vs ensures exists p :: p in b.price && b.price[p] == v {
      var i :| 0 <= i < |vs| && vs[i] == v;
      assert b.partners[i] in b.price;
    }
    forall p | p in b.price ensures b.price[p] in vs {
      var i :| 0 <= i < |b.partners| && b.partners[i] == p;
      assert vs[i] == b.price[p];
    }
    vs
  }

  /** `[k for k, v in partner_prices.items() if v == min_price]`. */
  function TiedAt(ps: seq<string>, price: map<string, real>, m: real): (w: seq<string>)
    requires forall p :: p in ps ==> p in price
    ensures forall p :: p in w <==> p in ps && price[p] == m
    ensures IsSubsequence(w, ps)
  {
    var tied := p => p in price && price[p] == m;
    FilterSubsequence(ps, tied);
    Filter(ps, tied)
  }

  /** The partners whose price is `m`, in the dict's order. */
  function Winners(b: Bids, m: real): seq<string>
    requires WellFormed(b)
  {
    TiedAt(b.partners, b.price, m)
  }

  /** What the bids of a group select: the winners joined by ", " and the
      minimum price, both None without bids. */
  datatype Selection = Selection(winners: Option<string>, price: Option<real>)

  /** The selection: the lowest price, one of the bids and at most every
      bid, and all the partners tied at it. */
  function Select(b: Bids): (s: Selection)
    requires WellFormed(b)
    ensures s.price.Some? <==> |b.partners| > 0
    ensures s.winners.Some? <==> s.price.Some?
    ensures s.price.Some? ==>
      (exists p :: p in b.price && b.price[p] == s.price.value) &&
      (forall p :: p in b.price ==> s.price.value <= b.price[p]) &&
      s.winners == Some(Join(Winners(b, s.price.value), ", "))
  {
    if |b.partners| == 0 then Selection(None, None)
    else
      var m := MinPrice(Prices(b));
      Selection(Some(Join(TiedAt(b.partners, b.price, m), ", ")), Some(m))
  }

  /** A group has a selected price exactly when one of its rows bids above
      0; the winners are exactly the partners whose last bid is that price,
      each once, in the order of their first bid. */
  lemma SelectCorrect(g: seq<Row>)
    ensures WellFormed(BidsOf(g))
    ensures Select(BidsOf(g)).price.Some? <==> exists i, p :: 0 <= i < |g| && BidBy(g[i], p)
    ensures Select(BidsOf(g)).price.Some? ==>
      var b := BidsOf(g); var w := Winners(b, Select(b).price.value);
      && (forall p :: p in w <==> LastBid(g, p) == Some(Select(b).price.value))
      && Distinct(w) && InFirstSeenOrder(w, Bidders(g))
  {
    BidsOfCorrect(g);
    var b := BidsOf(g);
    UniqueCorrect(Bidders(g));
    if |b.partners| > 0 {
      var q := b.partners[0];
      BiddersMembers(g, q);
      var m := Select(b).price.value;
      var w := Winners(b, m);
      forall p ensures p in w <==> LastBid(g, p) == Some(m) {
        if LastBid(g, p).Some? {
          LastBidSpec(g, p);
          BidsOfMembers(g, p);
        }
      }
      FilterKeepsOrder(b.partners, w, Bidders(g));
      forall i, j | 0 <= i < j < |w| ensures w[i] != w[j] {
        assert FirstIndex(Bidders(g), w[i]) < FirstIndex(Bidders(g), w[j]);
      }
    }
    if exists i, p :: 0 <= i < |g| && BidBy(g[i], p) {
      var i, p :| 0 <= i < |g| && BidBy(g[i], p);
      BidsOfMembers(g, p);
    }
  }

  /** Three partners, two of them tied at the lowest bid. */
  const TieBids := Bids(["P1", "P2", "P3"], map["P1" := 30.0, "P2" := 25.0, "P3" := 25.0])

  /** Ties are all selected: bids of 30, 25 and 25 select both partners at 25,
      in the order they bid, and at 35% the customer pays 34 (33.75 rounded). */
  lemma TieScenario()
    ensures Select(TieBids) == Selection(Some("P2, P3"), Some(25.0))
  {
    TieMinimum();
    TieWinners();
    TieWinnersText();
    assert Select(TieBids) == Selection(Some(Join(TiedAt(TieBids.partners, TieBids.price, 25.0), ", ")), Some(25.0));
  }

  lemma TieWinnersText()
    ensures Join(["P2", "P3"], ", ") == "P2, P3"
  {
    assert ["P2", "P3"][1..] == ["P3"];
    assert Join(["P2", "P3"], ", ") == "P2" + ", " + "P3";
  }

  lemma TieMinimum()
    ensures WellFormed(TieBids) && MinPrice(Prices(TieBids)) == 25.0
  {
    var vs := Prices(TieBids);
    assert vs == [30.0, 25.0, 25.0];
    assert 25.0 in vs;
  }

  lemma TieWinners()
    ensures TiedAt(TieBids.partners, TieBids.price, 25.0) == ["P2", "P3"]
  {
    var b := TieBids;
    assert TiedAt(["P3"], b.price, 25.0) == ["P3"];
    assert TiedAt(["P2", "P3"], b.price, 25.0) == ["P2", "P3"];
  }

  /** At the default 35%, a price of 25 costs the customer 34 (33.75 rounded),
      and a price of 10 at 25% costs 12 (12.5 rounded to even). */
  lemma MarkupScenario()
    ensures CustomerPrice(Some(25.0), BiddingDefault) == Some(34)
    ensures CustomerPrice(Some(10.0), 250) == Some(12)
  {
    assert Marked(25.0, BiddingDefault) == 33.75;
    RoundHalfEvenUnique(33.75, 34);
    assert Marked(10.0, 250) == 12.5;
    RoundHalfEvenUnique(12.5, 12);
  }

  // ---------------------------------------------------------------------
  // Prices derived from the selection

  /** `int(round(min_price * (1 + pct/100)))`, None without a selected price. */
  function CustomerPrice(min: Option<real>, m: Markup): (c: Option<int>)
    ensures c.Some? <==> min.Some?
    ensures c.Some? ==> c.value as real - 0.5 <= Marked(min.value, m) <= c.value as real + 0.5
  {
    match min
    case None => None
    case Some(x) => Some(RoundHalfEven(Marked(x, m)))
  }

  /** `price / quantity`, None without a price or when the quantity is 0
      (Quantity is a number once the sheet is cleaned). */
  function UnitPrice(price: Option<real>, qty: Cell): (u: Option<real>)
    ensures u.Some? <==> price.Some? && qty.Num? && qty.x != 0.0
  {
    if price.Some? && qty.Num? && qty.x != 0.0 then Some(price.value / qty.x) else None
  }

  /** A unit price times the quantity gives back the price. */
  lemma UnitPriceTimesQuantity(price: Option<real>, qty: Cell)
    requires UnitPrice(price, qty).Some?
    ensures UnitPrice(price, qty).value * qty.x == price.value
  {
  }

  function OptNum(x: Option<real>): Cell {
    if x.Some? then Num(x.value) else Missing
  }

  function OptInt(x: Option<int>): Option<real> {
    if x.Some? then Some(x.value as real) else None
  }

  function OptStr(s: Option<string>): Cell {
    if s.Some? then Str(s.value) else Missing
  }

  // ---------------------------------------------------------------------
  // Output rows and the sheet

  /** The columns every output row starts with, in order. */
  function FixedColumns(m: Markup): seq<string> {
    KeyColumns + ["Bid Selected Partners", "Bid Selected Price", CustomerPriceLabel(m),
                  "Bid Selected Unit Price", "Customer Unit Price"]
  }

  /** The cells a group's row gets after its key cells: winners, selected
      price, customer price and the two unit prices. */
  datatype Outcome = Outcome(winners: Cell, price: Cell, customerPrice: Cell,
                             unitPrice: Cell, customerUnitPrice: Cell)

  /** The selection of a group priced with markup `m`; unit prices divide
      by the quantity of the group's first row. */
  function OutcomeOf(g: seq<Row>, m: Markup): Outcome
    requires |g| > 0
  {
    BidsOfWellFormed(g);
    var s := Select(BidsOf(g));
    var cp := OptInt(CustomerPrice(s.price, m));
    var qty := Get(g[0], "Quantity");
    Outcome(OptStr(s.winners), OptNum(s.price), OptNum(cp),
            OptNum(UnitPrice(s.price, qty)), OptNum(UnitPrice(cp, qty)))
  }

  /** `base_data`: the key cells of the group's first row. */
  function KeyCells(first: Row): map<string, Cell> {
    map c | c in KeyColumns :: Get(first, c)
  }

  /** The outcome cells under their column names. */
  function OutcomeCells(o: Outcome, m: Markup): map<string, Cell> {
    map["Bid Selected Partners" := o.winners,
        "Bid Selected Price" := o.price,
        CustomerPriceLabel(m) := o.customerPrice,
        "Bid Selected Unit Price" := o.unitPrice,
        "Customer Unit Price" := o.customerUnitPrice]
  }

  /** `{**base_data, ...}` before the partner cells are added. */
  function Summary(g: seq<Row>, m: Markup): Row
    requires |g| > 0
  {
    KeyCells(g[0]) + OutcomeCells(OutcomeOf(g, m), m)
  }

  /** `partner_prices.get(partner, None)`. */
  function PartnerCell(b: Bids, p: string): Cell {
    if p in b.price then Num(b.price[p]) else Missing
  }

  function PartnerCells(b: Bids, partners: seq<string>): map<string, Cell> {
    map p | p in partners :: PartnerCell(b, p)
  }

  /** The output row of one group: the summary, then one cell per partner
      (a partner named like a summary column overwrites that cell, as the
      dict assignment does). */
  function Record(g: seq<Row>, m: Markup, partners: seq<string>): Row
    requires |g| > 0
  {
    Summary(g, m) + PartnerCells(BidsOf(g), partners)
  }

  /** The output row of the group with key `k` (a key of no row has no group). */
  function GroupRecord(rows: seq<Row>, k: string, m: Markup, partners: seq<string>): Row {
    var g := Group(rows, k);
    if |g| == 0 then map[] else Record(g, m, partners)
  }

  /** The loop adding one cell per partner to the summary of a group:
      the partner's price, or None when it made no bid for this product. */
  method AddPartnerCells(base: Row, b: Bids, partners: seq<string>) returns (row: Row)
    ensures row == base + PartnerCells(b, partners)
  {
    row := base;
    for i := 0 to |partners|
      invariant row == base + PartnerCells(b, partners[..i])
    {
      var p := partners[i];
      var cell := if p in b.price then Num(b.price[p]) else Missing;
      PartnerCellsStep(b, partners, i);
      UnionUpdate(base, PartnerCells(b, partners[..i]), p, cell);
      row := row[p := cell];
    }
    assert partners[..|partners|] == partners;
  }

  /** The body of the loop over groups, for the group with key `k`: collect
      the bids, select, price, and add one cell per partner. */
  method SummarizeGroup(rows: seq<Row>, k: string, m: Markup, partners: seq<string>) returns (row: Row)
    requires k in Keys(rows)
    ensures row == GroupRecord(rows, k, m, partners)
  {
    var g := Group(rows, k);
    GroupNonEmpty(rows, k);
    var b := CollectBids(g);
    row := AddPartnerCells(Summary(g, m), b, partners);
  }

  lemma PartnerCellsStep(b: Bids, partners: seq<string>, i: nat)
    requires i < |partners|
    ensures PartnerCells(b, partners[..i + 1]) ==
      PartnerCells(b, partners[..i])[partners[i] := PartnerCell(b, partners[i])]
  {
    assert partners[..i + 1] == partners[..i] + [partners[i]];
  }

  lemma UnionUpdate(a: map<string, Cell>, b: map<string, Cell>, k: string, v: Cell)
    ensures (a + b)[k := v] == a + b[k := v]
  {
  }

  /** `combined_df[PARTNER_COLUMN]`: every row's partner, repeats included. */
  function PartnerNames(rows: seq<Row>): (names: seq<string>)
    ensures |names| == |rows|
  {
    seq(|rows|, i requires 0 <= i < |rows| => PartnerOf(rows[i]))
  }

  /** The columns of the output: the fixed ones, then each partner not
      already among them (dict insertion order). */
  function OutputColumns(m: Markup, partners: seq<string>): seq<string> {
    FixedColumns(m) + Absent(partners, FixedColumns(m))
  }

  /** `output_rows`: one row per key, in the order of the keys. */
  function Records(rows: seq<Row>, keys: seq<string>, m: Markup, partners: seq<string>): (out: seq<Row>)
    ensures |out| == |keys|
  {
    MapSeq(keys, k => GroupRecord(rows, k, m, partners))
  }

  /** The bidding sheet built from the combined rows with markup `m`. */
  function Sheet(rows: seq<Row>, m: Markup): Table {
    var keys := GroupKeys(rows);
    SortedKeysCorrect(Keys(rows));
    var partners := Unique(PartnerNames(rows));
    Table(if |keys| == 0 then [] else OutputColumns(m, partners), Records(rows, keys, m, partners))
  }

  /** The loop over groups in key order, appending one output row each. */
  method BuildRecords(rows: seq<Row>, keys: seq<string>, m: Markup, partners: seq<string>) returns (out: seq<Row>)
    requires forall k :: k in keys ==> k in Keys(rows)
    ensures out == Records(rows, keys, m, partners)
  {
    var record := k => GroupRecord(rows, k, m, partners);
    out := [];
    for i := 0 to |keys|
      invariant out == MapSeq(keys[..i], record)
    {
      var row := SummarizeGroup(rows, keys[i], m, partners);
      MapSeqStep(keys, i, record);
      out := out + [row];
    }
    assert keys[..|keys|] == keys;
  }

  /** The aggregation: the groups' rows under the output columns. */
  method Aggregate(rows: seq<Row>, m: Markup) returns (sheet: Table)
    ensures sheet == Sheet(rows, m)
  {
    var keys := GroupKeys(rows);
    var partners := Unique(PartnerNames(rows));
    SortedKeysCorrect(Keys(rows));
    var out := BuildRecords(rows, keys, m, partners);
    sheet := Table(if |keys| == 0 then [] else OutputColumns(m, partners), out);
  }

  /** The whole page: load every upload, then aggregate their combined rows. */
  function BiddingSheet(uploads: seq<Upload>, m: Markup): Result<Table> {
    match Loaded(uploads)
    case Failure(e) => Failure(e)
    case Success(sheets) => Success(Sheet(Combined(sheets), m))
  }

  method BuildBiddingSheet(uploads: seq<Upload>, m: Markup) returns (r: Result<Table>)
    requires |uploads| > 0
    ensures r == BiddingSheet(uploads, m)
  {
    var loaded := LoadSheets(uploads);
    if loaded.Failure? {
      return Failure(loaded.error);
    }
    var sheet := Aggregate(Combined(loaded.value), m);
    return Success(sheet);
  }

  // ---------------------------------------------------------------------
  // Properties of the sheet

  /** One output row per distinct product key, in increasing key order; the
      row at position i summarises exactly the rows with the i-th key. */
  lemma OneRowPerKey(rows: seq<Row>, m: Markup)
    ensures |Sheet(rows, m).rows| == |GroupKeys(rows)|
    ensures StrictlySorted(GroupKeys(rows))
    ensures forall k :: k in GroupKeys(rows) <==> exists i :: 0 <= i < |rows| && ProductKey(rows[i]) == k
    ensures forall i :: 0 <= i < |GroupKeys(rows)| ==>
      |Group(rows, GroupKeys(rows)[i])| > 0 &&
      Sheet(rows, m).rows[i] == Record(Group(rows, GroupKeys(rows)[i]), m, Unique(PartnerNames(rows)))
  {
    var keys := GroupKeys(rows);
    SortedKeysCorrect(Keys(rows));
    var partners := Unique(PartnerNames(rows));
    var out := Records(rows, keys, m, partners);
    assert Sheet(rows, m).rows == out;
    forall k ensures k in keys <==> exists i :: 0 <= i < |rows| && ProductKey(rows[i]) == k {
      if k in keys {
        var i :| 0 <= i < |rows| && Keys(rows)[i] == k;
      }
      if exists i :: 0 <= i < |rows| && ProductKey(rows[i]) == k {
        var i :| 0 <= i < |rows| && ProductKey(rows[i]) == k;
        assert Keys(rows)[i] == k;
      }
    }
    forall i | 0 <= i < |keys|
      ensures |Group(rows, keys[i])| > 0
      ensures out[i] == Record(Group(rows, keys[i]), m, partners)
    {
      GroupNonEmpty(rows, keys[i]);
      assert out[i] == GroupRecord(rows, keys[i], m, partners);
    }
  }

  /** The key cells of an output row are those of the first row of its
      group, whose product key is the group's key (unless a partner's name
      is a key column). */
  lemma RecordKeyCells(g: seq<Row>, m: Markup, partners: seq<string>, c: string)
    requires |g| > 0 && c in KeyColumns && c !in partners
    ensures c in Record(g, m, partners) && Record(g, m, partners)[c] == Get(g[0], c)
  {
    KeyColumnsNotOutcomeNames(m);
    var o := OutcomeOf(g, m);
    assert c !in OutcomeCells(o, m);
    assert c !in PartnerCells(BidsOf(g), partners);
    assert KeyCells(g[0])[c] == Get(g[0], c);
  }

  /** No key column is named like one of the outcome cells. */
  lemma KeyColumnsNotOutcomeNames(m: Markup)
    ensures forall c :: c in KeyColumns ==>
      c != "Bid Selected Partners" && c != "Bid Selected Price" && c != CustomerPriceLabel(m) &&
      c != "Bid Selected Unit Price" && c != "Customer Unit Price"
  {
    var header := CustomerPriceLabel(m);
    assert |header| >= 21 && header[0] == 'C';
    assert "Printer Specifications"[0] == 'P';
  }

  /** Every partner seen in any upload has a cell in every row: its bid for
      that product when it bid above 0, its last such bid when it bid more
      than once, and None otherwise. */
  lemma PartnerColumns(g: seq<Row>, m: Markup, partners: seq<string>, p: string)
    requires |g| > 0 && p in partners
    ensures p in Record(g, m, partners)
    ensures LastBid(g, p).Some? <==> exists i :: 0 <= i < |g| && BidBy(g[i], p)
    ensures LastBid(g, p).Some? ==> Record(g, m, partners)[p] == Num(LastBid(g, p).value)
    ensures LastBid(g, p).None? ==> Record(g, m, partners)[p] == Missing
  {
    BidsOfCorrect(g);
    BidsOfMembers(g, p);
    LastBidSpec(g, p);
  }

  /** A group in which no partner bid above 0 still has its row, with no
      winners, no selected price, no customer price and no unit prices. */
  lemma NoBidGroup(g: seq<Row>, m: Markup)
    requires |g| > 0 && forall i, p :: 0 <= i < |g| ==> !BidBy(g[i], p)
    ensures OutcomeOf(g, m) == Outcome(Missing, Missing, Missing, Missing, Missing)
  {
    SelectCorrect(g);
  }

  /** With a bid, the row carries the selection: the winners, the minimum
      bid, the customer price rounded from it, and unit prices that are
      None exactly when the quantity is 0. */
  lemma PricedGroup(g: seq<Row>, m: Markup)
    requires |g| > 0 && exists i, p :: 0 <= i < |g| && BidBy(g[i], p)
    ensures WellFormed(BidsOf(g))
    ensures var o := OutcomeOf(g, m); var s := Select(BidsOf(g)); var qty := Get(g[0], "Quantity");
      && s.price.Some? && s.winners.Some?
      && o.winners == Str(s.winners.value)
      && o.price == Num(s.price.value)
      && o.customerPrice == Num(RoundHalfEven(Marked(s.price.value, m)) as real)
      && (o.unitPrice == Missing <==> !(qty.Num? && qty.x != 0.0))
      && (o.customerUnitPrice == Missing <==> !(qty.Num? && qty.x != 0.0))
  {
    SelectCorrect(g);
  }

  /** An output row has a cell in exactly the output columns. */
  lemma RecordColumns(g: seq<Row>, m: Markup, partners: seq<string>)
    requires |g| > 0
    ensures Record(g, m, partners).Keys == set c | c in OutputColumns(m, partners)
  {
    var fixed := FixedColumns(m);
    var cols := OutputColumns(m, partners);
    var summary := KeyCells(g[0]) + OutcomeCells(OutcomeOf(g, m), m);
    assert summary.Keys == set c | c in fixed;
    forall c ensures c in cols <==> c in fixed || c in partners {
      if c in partners && c !in fixed {
        assert c in Absent(partners, fixed);
      }
    }
  }

  /** Every row has a cell in every output column, and nowhere else: the
      partners seen in any upload are all columns of the sheet. */
  lemma RowsMatchColumns(rows: seq<Row>, m: Markup)
    ensures var t := Sheet(rows, m);
      forall i :: 0 <= i < |t.rows| ==> t.rows[i].Keys == set c | c in t.columns
    ensures |rows| > 0 ==>
      forall p :: p in PartnerNames(rows) ==> p in Sheet(rows, m).columns
  {
    var keys := GroupKeys(rows);
    SortedKeysCorrect(Keys(rows));
    var partners := Unique(PartnerNames(rows));
    UniqueCorrect(PartnerNames(rows));
    forall i | 0 <= i < |keys|
      ensures Sheet(rows, m).rows[i].Keys == set c | c in OutputColumns(m, partners)
    {
      GroupNonEmpty(rows, keys[i]);
      RecordColumns(Group(rows, keys[i]), m, partners);
    }
    if |rows| > 0 {
      assert keys != [] by {
        assert Keys(rows)[0] in keys;
      }
      forall p | p in PartnerNames(rows) ensures p in OutputColumns(m, partners) {
        if p !in FixedColumns(m) {
          assert p in Absent(partners, FixedColumns(m));
        }
      }
    }
  }
}
