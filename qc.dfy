/** The catalog QC: two price sheets are cleaned, keyed by "SKU | Quantity",
    joined on that key with a full outer join, and every joined row is
    classified MATCH, MISMATCH or MISSING. The key is then split back into
    display columns named after sheet A's key columns. */
module Qc {
  import opened Outcomes
  import opened Text
  import opened Ordering
  import opened Rounding
  import opened Tables

  const DefaultSkuColumn: string := "Dandpo SKU"
  const DefaultQtyColumn: string := "Quantity"
  const PriceAColumn: string := "Price A"
  const PriceBColumn: string := "Price B"
  const StatusColumn: string := "QC Status"

  // ----- Cleaning -----

  /** `_clean_df`: empty rows dropped, NaN filled with '', and the
      "Quantity" column, when the sheet has one, coerced to numbers. */
  function CleanQc(t: Table): Table {
    Cleaned(t, [DefaultQtyColumn])
  }

  /** What `_clean_df` guarantees: the columns are kept, one row per
      non-empty input row, no NaN is left, every other cell is the filled
      one, and Quantity holds the number its text reads as, or 0 when it
      does not read as a number. */
  lemma QcCleaned(t: Table)
    ensures var r := CleanQc(t);
      && r.columns == t.columns
      && |r.rows| == |NonEmptyRows(t.columns, t.rows)|
      && Complete(r) && NoMissing(r)
      && (DefaultQtyColumn in t.columns ==> NumericColumn(r, DefaultQtyColumn))
    ensures var r := CleanQc(t);
      var filled := FillMissing(DropEmptyRows(t));
      && |filled.rows| == |r.rows|
      && (forall i, c :: 0 <= i < |r.rows| && c != DefaultQtyColumn ==> Get(r.rows[i], c) == Get(filled.rows[i], c))
      && (DefaultQtyColumn in t.columns ==> forall i :: 0 <= i < |r.rows| ==>
            Get(r.rows[i], DefaultQtyColumn) == Num(ToNumber(Get(filled.rows[i], DefaultQtyColumn)).GetOr(0.0)))
  {
    CleanedShape(t, [DefaultQtyColumn]);
    var filled := FillMissing(DropEmptyRows(t));
    assert CoerceColumns(filled, [DefaultQtyColumn][..0]) == filled;
  }

  /** A blank cell, which is what `fillna('')` leaves of a NaN, does not
      read as a number: a blank price ends up missing. */
  lemma BlankPriceMissing()
    ensures ToNumber(Str("")) == None
  {
    assert IndexOfChar("", '.') == 0;
  }

  // ----- Column suggestions -----

  /** `pattern.lower() in column.lower()`. */
  predicate Mentions(column: string, pattern: string) {
    Contains(Lower(column), Lower(pattern))
  }

  /** `r` is the first of `columns` that mentions `pattern`, or None when
      none does. */
  predicate FirstMention(columns: seq<string>, pattern: string, r: Option<string>) {
    match r
    case None => forall c :: c in columns ==> !Mentions(c, pattern)
    case Some(col) =>
      exists i :: 0 <= i < |columns| && columns[i] == col && Mentions(col, pattern) &&
        forall j :: 0 <= j < i ==> !Mentions(columns[j], pattern)
  }

  /** The scan `for col in columns: if pattern.lower() in col.lower(): return col`. */
  method FirstMentioning(columns: seq<string>, pattern: string) returns (r: Option<string>)
    ensures FirstMention(columns, pattern, r)
  {
    var i := 0;
    while i < |columns|
      invariant 0 <= i <= |columns|
      invariant forall j :: 0 <= j < i ==> !Mentions(columns[j], pattern)
    {
      if Mentions(columns[i], pattern) {
        return Some(columns[i]);
      }
      i := i + 1;
    }
    return None;
  }

  /** `_suggest_column`: the default name itself when it is a column, else
      the first column that contains it case-insensitively, else None. */
  method SuggestColumn(columns: seq<string>, defaultName: string) returns (r: Option<string>)
    ensures defaultName in columns ==> r == Some(defaultName)
    ensures defaultName !in columns ==> FirstMention(columns, defaultName, r)
    ensures r.Some? ==> r.value in columns
  {
    if defaultName in columns {
      return Some(defaultName);
    }
    r := FirstMentioning(columns, defaultName);
  }

  /** Whatever mentions "Customer Price" mentions "Price". */
  lemma CustomerPriceMentionsPrice(column: string)
    requires Mentions(column, "Customer Price")
    ensures Mentions(column, "Price")
  {
    var low := Lower(column);
    LoweredNames();
    var i :| 0 <= i <= |low| - 14 && MatchesAt(low, "customer price", i);
    PriceWithinCustomerPrice(low, i);
  }

  lemma LoweredNames()
    ensures Lower("Customer Price") == "customer price" && Lower("Price") == "price"
  {
    assert Lower("Customer Price") == "customer price";
    assert Lower("Price") == "price";
  }

  /** "price" occurs 9 characters into "customer price". */
  lemma PriceWithinCustomerPrice(s: string, i: int)
    requires MatchesAt(s, "customer price", i)
    ensures MatchesAt(s, "price", i + 9)
  {
    assert s[i + 9..i + 14] == s[i..i + 14][9..14] == "customer price"[9..14];
  }

  /** `_suggest_price_column`: the first column mentioning "Customer Price"
      if any does, otherwise the first mentioning "Price"; a suggestion is
      made exactly when some column mentions "Price". */
  method SuggestPriceColumn(columns: seq<string>) returns (r: Option<string>)
    ensures (exists c :: c in columns && Mentions(c, "Customer Price")) ==> FirstMention(columns, "Customer Price", r)
    ensures (forall c :: c in columns ==> !Mentions(c, "Customer Price")) ==> FirstMention(columns, "Price", r)
    ensures r.Some? <==> exists c :: c in columns && Mentions(c, "Price")
    ensures r.Some? ==> r.value in columns
  {
    var preferences := ["Customer Price", "Price"];
    assert preferences[0] == "Customer Price" && preferences[1] == "Price";
    for k := 0 to |preferences|
      invariant forall j, c :: 0 <= j < k && c in columns ==> !Mentions(c, preferences[j])
    {
      r := FirstMentioning(columns, preferences[k]);
      if r.Some? {
        if k == 0 {
          var i :| 0 <= i < |columns| && columns[i] == r.value && Mentions(r.value, "Customer Price");
          CustomerPriceMentionsPrice(r.value);
        }
        return;
      }
    }
    r := None;
  }

  // ----- Keys and prices -----

  /** `_build_product_key`: the SKU and quantity cells as text, joined by " | ". */
  function QcKey(r: Row, sku: string, qty: string): string {
    Join([CellText(Get(r, sku)), CellText(Get(r, qty))], KeySeparator)
  }

  /** One row of a sheet as the merge sees it: its key and its price
      (`pd.to_numeric(..., errors='coerce')`, None standing for NaN). */
  datatype Entry = Entry(key: string, price: Option<real>)

  function Entries(t: Table, sku: string, qty: string, price: string): (es: seq<Entry>)
    ensures |es| == |t.rows|
  {
    seq(|t.rows|, i requires 0 <= i < |t.rows| =>
      Entry(QcKey(t.rows[i], sku, qty), ToNumber(Get(t.rows[i], price))))
  }

  function KeysOf(es: seq<Entry>): (keys: seq<string>)
    ensures |keys| == |es|
  {
    seq(|es|, i requires 0 <= i < |es| => es[i].key)
  }

  /** The prices of the entries with key `k`, in sheet order. */
  function PricesAt(es: seq<Entry>, k: string): (ps: seq<Option<real>>)
    ensures |ps| > 0 <==> k in KeysOf(es)
  {
    if |es| == 0 then []
    else
      assert KeysOf(es) == [es[0].key] + KeysOf(es[1..]);
      (if es[0].key == k then [es[0].price] else []) + PricesAt(es[1..], k)
  }

  // ----- Outer join -----

  /** A row of `pd.merge(..., on='_QC_KEY', how='outer')`. */
  datatype Pair = Pair(key: string, a: Option<real>, b: Option<real>)

  /** Every price of `pa` against every price of `pb`, `pa` outermost. */
  function Cross(k: string, pa: seq<Option<real>>, pb: seq<Option<real>>): (rows: seq<Pair>)
    ensures |rows| == |pa| * |pb|
    ensures forall x, y :: Pair(k, x, y) in rows <==> x in pa && y in pb
    ensures forall p :: p in rows ==> p.key == k
  {
    if |pa| == 0 then []
    else
      var first := seq(|pb|, j requires 0 <= j < |pb| => Pair(k, pa[0], pb[j]));
      var rest := Cross(k, pa[1..], pb);
      assert forall x :: x in pa <==> x == pa[0] || x in pa[1..] by {
        assert pa == [pa[0]] + pa[1..];
      }
      assert forall y :: y in pb ==> Pair(k, pa[0], y) in first by {
        forall y | y in pb ensures Pair(k, pa[0], y) in first {
          var j :| 0 <= j < |pb| && pb[j] == y;
          assert first[j] == Pair(k, pa[0], y);
        }
      }
      first + rest
  }

  /** The merge's rows for key `k`: the cross product when both sheets have
      it, and otherwise one row per row of the sheet that has it, with the
      other price missing. */
  function KeyRows(k: string, pa: seq<Option<real>>, pb: seq<Option<real>>): seq<Pair> {
    if |pa| == 0 then seq(|pb|, j requires 0 <= j < |pb| => Pair(k, None, pb[j]))
    else if |pb| == 0 then seq(|pa|, i requires 0 <= i < |pa| => Pair(k, pa[i], None))
    else Cross(k, pa, pb)
  }

  function JoinKeys(keys: seq<string>, left: seq<Entry>, right: seq<Entry>): seq<Pair> {
    if |keys| == 0 then []
    else KeyRows(keys[0], PricesAt(left, keys[0]), PricesAt(right, keys[0])) + JoinKeys(keys[1..], left, right)
  }

  /** The full outer join on the key: the keys of both sides in increasing
      order, each with its rows. */
  function OuterJoin(left: seq<Entry>, right: seq<Entry>): seq<Pair> {
    JoinKeys(SortedKeys(KeysOf(left) + KeysOf(right)), left, right)
  }

  /** The rows of a join result that carry key `k`, in order. */
  function RowsWith(rows: seq<Pair>, k: string): (r: seq<Pair>)
    ensures forall p :: p in r <==> p in rows && p.key == k
  {
    if |rows| == 0 then []
    else
      assert rows == [rows[0]] + rows[1..];
      (if rows[0].key == k then [rows[0]] else []) + RowsWith(rows[1..], k)
  }

  lemma {:induction false} RowsWithConcat(r1: seq<Pair>, r2: seq<Pair>, k: string)
    ensures RowsWith(r1 + r2, k) == RowsWith(r1, k) + RowsWith(r2, k)
  {
    if |r1| > 0 {
      assert (r1 + r2)[1..] == r1[1..] + r2;
      RowsWithConcat(r1[1..], r2, k);
    } else {
      assert r1 + r2 == r2;
    }
  }

  lemma {:induction false} RowsWithAll(rows: seq<Pair>, k: string)
    requires forall p :: p in rows ==> p.key == k
    ensures RowsWith(rows, k) == rows
  {
    if |rows| > 0 {
      assert rows[0] in rows;
      assert forall p :: p in rows[1..] ==> p in rows;
      RowsWithAll(rows[1..], k);
      assert rows == [rows[0]] + rows[1..];
    }
  }

  lemma {:induction false} RowsWithNone(rows: seq<Pair>, k: string)
    requires forall p :: p in rows ==> p.key != k
    ensures RowsWith(rows, k) == []
  {
    if |rows| > 0 {
      assert rows[0] in rows;
      assert forall p :: p in rows[1..] ==> p in rows;
      RowsWithNone(rows[1..], k);
    }
  }

  lemma KeyRowsKeys(k: string, pa: seq<Option<real>>, pb: seq<Option<real>>)
    ensures forall p :: p in KeyRows(k, pa, pb) ==> p.key == k
  {
  }

  /** Within JoinKeys over distinct keys, the rows of key `k` are exactly
      KeyRows of `k` when `k` is one of the keys, and there are none otherwise. */
  lemma {:induction false} JoinKeysRowsWith(keys: seq<string>, left: seq<Entry>, right: seq<Entry>, k: string)
    requires Distinct(keys)
    ensures RowsWith(JoinKeys(keys, left, right), k) ==
      if k in keys then KeyRows(k, PricesAt(left, k), PricesAt(right, k)) else []
  {
    if |keys| > 0 {
      var head := KeyRows(keys[0], PricesAt(left, keys[0]), PricesAt(right, keys[0]));
      var tail := JoinKeys(keys[1..], left, right);
      assert JoinKeys(keys, left, right) == head + tail;
      DistinctTail(keys);
      JoinKeysRowsWith(keys[1..], left, right, k);
      KeyRowsKeys(keys[0], PricesAt(left, keys[0]), PricesAt(right, keys[0]));
      JoinStepRows(head, tail, keys[0], k, KeyRows(k, PricesAt(left, k), PricesAt(right, k)), k in keys[1..]);
      assert k in keys <==> k == keys[0] || k in keys[1..] by {
        assert keys == [keys[0]] + keys[1..];
      }
    }
  }

  /** One step of JoinKeysRowsWith: the first key's block, then the rest. */
  lemma JoinStepRows(head: seq<Pair>, tail: seq<Pair>, k0: string, k: string, block: seq<Pair>, inRest: bool)
    requires forall p :: p in head ==> p.key == k0
    requires k0 == k ==> head == block && !inRest
    requires RowsWith(tail, k) == if inRest then block else []
    ensures RowsWith(head + tail, k) == if k0 == k || inRest then block else []
  {
    RowsWithConcat(head, tail, k);
    if k0 == k {
      RowsWithAll(head, k);
    } else {
      RowsWithNone(head, k);
    }
  }

  /** The join's rows for each key are the cross product of that key's
      prices in the two sheets, or the one sheet's prices against a missing
      price when only one sheet has the key. */
  lemma OuterJoinGroups(left: seq<Entry>, right: seq<Entry>, k: string)
    ensures RowsWith(OuterJoin(left, right), k) == KeyRows(k, PricesAt(left, k), PricesAt(right, k))
  {
    var keys := SortedKeys(KeysOf(left) + KeysOf(right));
    SortedKeysCorrect(KeysOf(left) + KeysOf(right));
    StrictlySortedDistinct(keys);
    JoinKeysRowsWith(keys, left, right, k);
  }

  /** A key is in the join exactly when it is in sheet A or in sheet B. */
  lemma OuterJoinKeys(left: seq<Entry>, right: seq<Entry>, k: string)
    ensures (exists p :: p in OuterJoin(left, right) && p.key == k) <==> k in KeysOf(left) || k in KeysOf(right)
  {
    OuterJoinGroups(left, right, k);
    var rows := RowsWith(OuterJoin(left, right), k);
    if |rows| > 0 {
      assert rows[0] in rows;
    }
  }

  /** A key only sheet A has gives one row per A row with it, each with
      Price B missing. */
  lemma OnlyInLeft(left: seq<Entry>, right: seq<Entry>, k: string)
    requires k in KeysOf(left) && k !in KeysOf(right)
    ensures |RowsWith(OuterJoin(left, right), k)| == |PricesAt(left, k)|
    ensures forall p :: p in OuterJoin(left, right) && p.key == k ==> p.b == None && p.a in PricesAt(left, k)
  {
    OuterJoinGroups(left, right, k);
    var pa := PricesAt(left, k);
    forall p | p in OuterJoin(left, right) && p.key == k ensures p.b == None && p.a in pa {
      assert p in RowsWith(OuterJoin(left, right), k);
    }
  }

  /** A key only sheet B has gives one row per B row with it, each with
      Price A missing. */
  lemma OnlyInRight(left: seq<Entry>, right: seq<Entry>, k: string)
    requires k !in KeysOf(left) && k in KeysOf(right)
    ensures |RowsWith(OuterJoin(left, right), k)| == |PricesAt(right, k)|
    ensures forall p :: p in OuterJoin(left, right) && p.key == k ==> p.a == None && p.b in PricesAt(right, k)
  {
    OuterJoinGroups(left, right, k);
    var pb := PricesAt(right, k);
    forall p | p in OuterJoin(left, right) && p.key == k ensures p.a == None && p.b in pb {
      assert p in RowsWith(OuterJoin(left, right), k);
    }
  }

  /** A key both sheets have fans out into every pairing of an A price
      with a B price. */
  lemma InBoth(left: seq<Entry>, right: seq<Entry>, k: string)
    requires k in KeysOf(left) && k in KeysOf(right)
    ensures |RowsWith(OuterJoin(left, right), k)| == |PricesAt(left, k)| * |PricesAt(right, k)|
    ensures forall x, y :: Pair(k, x, y) in OuterJoin(left, right) <==> x in PricesAt(left, k) && y in PricesAt(right, k)
  {
    OuterJoinGroups(left, right, k);
    var rows := RowsWith(OuterJoin(left, right), k);
    var pa, pb := PricesAt(left, k), PricesAt(right, k);
    assert rows == Cross(k, pa, pb);
    forall x, y ensures Pair(k, x, y) in OuterJoin(left, right) <==> x in pa && y in pb {
      var p := Pair(k, x, y);
      assert p in rows <==> p in OuterJoin(left, right);
    }
  }

  /** Every row of JoinKeys carries one of its keys. */
  lemma {:induction false} JoinKeysMembers(keys: seq<string>, left: seq<Entry>, right: seq<Entry>)
    ensures forall p :: p in JoinKeys(keys, left, right) ==> p.key in keys
  {
    if |keys| > 0 {
      var head := KeyRows(keys[0], PricesAt(left, keys[0]), PricesAt(right, keys[0]));
      var tail := JoinKeys(keys[1..], left, right);
      assert JoinKeys(keys, left, right) == head + tail;
      JoinKeysMembers(keys[1..], left, right);
      KeyRowsKeys(keys[0], PricesAt(left, keys[0]), PricesAt(right, keys[0]));
      assert forall x :: x in keys[1..] ==> x in keys;
    }
  }

  /** Rows grouped by key, the keys increasing. */
  predicate KeyOrdered(rows: seq<Pair>) {
    forall i, j :: 0 <= i < j < |rows| ==> rows[i].key == rows[j].key || LexLess(rows[i].key, rows[j].key)
  }

  /** Rows of one key followed by key-ordered rows of greater keys are key-ordered. */
  lemma KeyOrderedConcat(head: seq<Pair>, tail: seq<Pair>, k: string)
    requires forall p :: p in head ==> p.key == k
    requires forall p :: p in tail ==> LexLess(k, p.key)
    requires KeyOrdered(tail)
    ensures KeyOrdered(head + tail)
  {
    var rows := head + tail;
    forall i, j | 0 <= i < j < |rows| ensures rows[i].key == rows[j].key || LexLess(rows[i].key, rows[j].key) {
      if j < |head| {
        assert rows[i] == head[i] && rows[j] == head[j];
        assert head[i] in head && head[j] in head;
      } else if i < |head| {
        assert rows[i] == head[i] && head[i] in head;
        assert rows[j] == tail[j - |head|] && tail[j - |head|] in tail;
      } else {
        assert rows[i] == tail[i - |head|] && rows[j] == tail[j - |head|];
      }
    }
  }

  /** Over strictly increasing keys, JoinKeys lists its rows by key, in
      increasing order. */
  lemma {:induction false} JoinKeysSorted(keys: seq<string>, left: seq<Entry>, right: seq<Entry>)
    requires StrictlySorted(keys)
    ensures KeyOrdered(JoinKeys(keys, left, right))
  {
    if |keys| > 0 {
      var head := KeyRows(keys[0], PricesAt(left, keys[0]), PricesAt(right, keys[0]));
      var tail := JoinKeys(keys[1..], left, right);
      assert JoinKeys(keys, left, right) == head + tail;
      assert StrictlySorted(keys[1..]) by {
        forall i, j | 0 <= i < j < |keys[1..]| ensures LexLess(keys[1..][i], keys[1..][j]) {
          assert keys[1..][i] == keys[i + 1] && keys[1..][j] == keys[j + 1];
        }
      }
      JoinKeysSorted(keys[1..], left, right);
      JoinKeysMembers(keys[1..], left, right);
      KeyRowsKeys(keys[0], PricesAt(left, keys[0]), PricesAt(right, keys[0]));
      forall p | p in tail ensures LexLess(keys[0], p.key) {
        var m :| 0 <= m < |keys[1..]| && keys[1..][m] == p.key;
        assert keys[m + 1] == p.key;
      }
      KeyOrderedConcat(head, tail, keys[0]);
    }
  }

  /** The join lists its rows grouped by key, keys in increasing order. */
  lemma OuterJoinSorted(left: seq<Entry>, right: seq<Entry>)
    ensures KeyOrdered(OuterJoin(left, right))
  {
    var keys := SortedKeys(KeysOf(left) + KeysOf(right));
    SortedKeysCorrect(KeysOf(left) + KeysOf(right));
    JoinKeysSorted(keys, left, right);
    assert OuterJoin(left, right) == JoinKeys(keys, left, right);
  }

  // ----- Status -----

  datatype Status = Match | Mismatch | MissingPrice

  /** The text written in the "QC Status" column. */
  function StatusText(s: Status): string {
    match s
    case Match => "MATCH"
    case Mismatch => "MISMATCH"
    case MissingPrice => "MISSING"
  }

  /** `status_row`: MISSING when either price is missing; otherwise MATCH
      when the prices agree to 2 decimals, MISMATCH when they do not. */
  function StatusOf(a: Option<real>, b: Option<real>): (s: Status)
    ensures s == MissingPrice <==> a.None? || b.None?
    ensures s == Match <==> a.Some? && b.Some? && Round2(a.value) == Round2(b.value)
  {
    if a.None? || b.None? then MissingPrice
    else if Round2(a.value) == Round2(b.value) then Match
    else Mismatch
  }

  /** Swapping the two sheets' prices does not change the status. */
  lemma StatusSymmetric(a: Option<real>, b: Option<real>)
    ensures StatusOf(a, b) == StatusOf(b, a)
  {
  }

  /** Equal prices match; matching prices are within a cent of each other,
      so prices further apart than a cent are a mismatch. */
  lemma StatusTolerance(x: real, y: real)
    ensures x == y ==> StatusOf(Some(x), Some(y)) == Match
    ensures StatusOf(Some(x), Some(y)) == Match ==> -0.01 <= x - y <= 0.01
    ensures (x - y > 0.01 || y - x > 0.01) ==> StatusOf(Some(x), Some(y)) == Mismatch
  {
  }

  /** Rounding decides, not the distance: 10.001 and 10.004 match, while
      10.0049 and 10.0051 are a mismatch, and so are 10.005 and 10.015
      (ties go to the even cent: 10.00 against 10.02). */
  lemma StatusRoundingExamples()
    ensures StatusOf(Some(10.001), Some(10.004)) == Match
    ensures StatusOf(Some(10.0049), Some(10.0051)) == Mismatch
    ensures StatusOf(Some(10.005), Some(10.015)) == Mismatch
  {
    RoundHalfEvenUnique(10.001 * 100.0, 1000);
    RoundHalfEvenUnique(10.004 * 100.0, 1000);
    RoundHalfEvenUnique(10.0049 * 100.0, 1000);
    RoundHalfEvenUnique(10.0051 * 100.0, 1001);
    RoundHalfEvenUnique(10.005 * 100.0, 1000);
    RoundHalfEvenUnique(10.015 * 100.0, 1002);
  }

  // ----- Display columns -----

  /** `split_key`: the key's " | "-separated pieces, padded with '' or cut
      to exactly `n` parts. */
  function DisplayParts(key: string, n: nat): (parts: seq<string>)
    ensures |parts| == n
    ensures forall i :: 0 <= i < n ==>
      parts[i] == (if i < |Split(key, KeySeparator)| then Split(key, KeySeparator)[i] else "")
  {
    var pieces := Split(key, KeySeparator);
    if |pieces| < n then pieces + seq(n - |pieces|, _ => "") else pieces[..n]
  }

  /** `split_key` as the source runs it: the list is padded in place, then cut. */
  method SplitKey(key: string, n: nat) returns (parts: seq<string>)
    ensures parts == DisplayParts(key, n)
  {
    parts := Split(key, KeySeparator);
    if |parts| < n {
      parts := parts + seq(n - |parts|, _ => "");
    }
    parts := parts[..n];
  }

  /** Splitting the key of a row gives back its SKU and quantity texts,
      provided neither contains '|'. */
  lemma KeyRoundTrip(r: Row, sku: string, qty: string)
    requires '|' !in CellText(Get(r, sku)) && '|' !in CellText(Get(r, qty))
    ensures DisplayParts(QcKey(r, sku, qty), 2) == [CellText(Get(r, sku)), CellText(Get(r, qty))]
  {
    var parts := [CellText(Get(r, sku)), CellText(Get(r, qty))];
    SplitJoin(parts);
  }

  /** A SKU ending in " |" does not survive the round trip: "a |" with
      quantity 1 is shown as SKU "a" and quantity "| 1". */
  lemma KeyRoundTripCounterexample()
    ensures DisplayParts(Join(["a |", "1"], KeySeparator), 2) == ["a", "| 1"]
  {
    var s := Join(["a |", "1"], KeySeparator);
    assert s == "a | | 1";
    assert s[..1] == "a" && s[1..4] == KeySeparator && s[4..] == "| 1";
    assert MatchesAt(s, KeySeparator, 1);
    assert !MatchesAt(s, KeySeparator, 0) by { assert s[0] == 'a'; }
    assert Find(s, KeySeparator) == Some(1);
    assert '|' in "| 1";
    assert Find("| 1", KeySeparator) == None by {
      forall i | 0 <= i ensures !MatchesAt("| 1", KeySeparator, i) {
        if i == 0 {
          assert "| 1"[0..3] != KeySeparator by { assert "| 1"[0] == '|'; }
        }
      }
    }
    assert Split(s, KeySeparator) == ["a", "| 1"];
  }

  /** The names `unique_display_keys` builds: a name already taken by an
      earlier position is renamed `name_i`, `i` being its position. */
  function UniqueNames(keys: seq<string>): (names: seq<string>)
    ensures |names| == |keys|
    ensures forall i :: 0 <= i < |keys| ==> names[i] == keys[i] || names[i] == keys[i] + "_" + NatText(i)
    ensures |keys| > 0 ==> names[0] == keys[0]
  {
    if |keys| == 0 then []
    else
      var i := |keys| - 1;
      var prev := UniqueNames(keys[..i]);
      prev + [if keys[i] in prev then keys[i] + "_" + NatText(i) else keys[i]]
  }

  /** The loop that appends to `unique_display_keys`. */
  method UniqueDisplayKeys(keys: seq<string>) returns (names: seq<string>)
    ensures names == UniqueNames(keys)
  {
    names := [];
    for i := 0 to |keys|
      invariant names == UniqueNames(keys[..i])
    {
      assert keys[..i + 1][..i] == keys[..i];
      if keys[i] in names {
        names := names + [keys[i] + "_" + NatText(i)];
      } else {
        names := names + [keys[i]];
      }
    }
    assert keys[..|keys|] == keys;
  }

  /** Names without repeats pass through unchanged. */
  lemma {:induction false} UniqueNamesOfDistinct(keys: seq<string>)
    requires Distinct(keys)
    ensures UniqueNames(keys) == keys
  {
    if |keys| > 0 {
      var i := |keys| - 1;
      var init := keys[..i];
      assert Distinct(init);
      UniqueNamesOfDistinct(init);
      assert keys[i] !in init;
      assert init + [keys[i]] == keys;
    }
  }

  /** The two display keys (SKU and quantity column of sheet A) always get
      distinct names: the quantity column is renamed `name_1` when both
      keys are the same column. */
  lemma TwoDisplayKeys(sku: string, qty: string)
    ensures UniqueNames([sku, qty]) == [sku, if sku == qty then qty + "_1" else qty]
    ensures Distinct(UniqueNames([sku, qty]))
  {
    assert [sku, qty][..1] == [sku] && [sku][..0] == [];
    var first := UniqueNames([sku]);
    assert first == [sku];
    assert NatText(1) == "1";
    assert qty + "_" + NatText(1) == qty + "_1";
    assert UniqueNames([sku, qty]) == first + [if qty in first then qty + "_" + NatText(1) else qty];
    if sku == qty {
      assert |qty + "_1"| == |sku| + 2;
    }
  }

  /** With more than two names the renaming can collide: "a_2", "a", "a"
      gives "a_2" twice. */
  lemma UniqueNamesCollision()
    ensures UniqueNames(["a_2", "a", "a"]) == ["a_2", "a", "a_2"]
    ensures !Distinct(UniqueNames(["a_2", "a", "a"]))
  {
    var keys := ["a_2", "a", "a"];
    assert keys[..2] == ["a_2", "a"];
    var two := UniqueNames(["a_2", "a"]);
    UniqueNamesNoClash();
    assert "a" in two;
    assert NatText(2) == "2";
    assert "a" + "_" + NatText(2) == "a_2";
    var names := UniqueNames(keys);
    assert names == two + ["a_2"];
    assert names[0] == names[2];
  }

  /** Two different names pass through unchanged. */
  lemma UniqueNamesNoClash()
    ensures UniqueNames(["a_2", "a"]) == ["a_2", "a"]
  {
    var keys := ["a_2", "a"];
    assert keys[..1] == ["a_2"] && keys[..1][..0] == [];
    assert UniqueNames(["a_2"]) == ["a_2"];
    assert "a" != "a_2";
  }

  // ----- The report -----

  /** The columns the user picked in the page; each is a column of its sheet. */
  datatype Choice = Choice(skuA: string, qtyA: string, priceA: string, skuB: string, qtyB: string, priceB: string)

  /** A row of the QC report: the key's display parts, both prices and the status. */
  datatype QcRow = QcRow(keys: seq<string>, priceA: Option<real>, priceB: Option<real>, status: Status)

  datatype QcReport = QcReport(columns: seq<string>, rows: seq<QcRow>)

  /** The merge of the two cleaned sheets on their keys. */
  function Merged(a: Table, b: Table, c: Choice): seq<Pair> {
    OuterJoin(Entries(CleanQc(a), c.skuA, c.qtyA, c.priceA), Entries(CleanQc(b), c.skuB, c.qtyB, c.priceB))
  }

  /** The loop over the joined rows: each row's key split back into its
      display parts, with both prices and the status. */
  method ClassifyRows(merged: seq<Pair>) returns (rows: seq<QcRow>)
    ensures |rows| == |merged|
    ensures forall i :: 0 <= i < |merged| ==>
      rows[i] == QcRow(DisplayParts(merged[i].key, 2), merged[i].a, merged[i].b, StatusOf(merged[i].a, merged[i].b))
  {
    rows := [];
    for i := 0 to |merged|
      invariant |rows| == i
      invariant forall j :: 0 <= j < i ==>
        rows[j] == QcRow(DisplayParts(merged[j].key, 2), merged[j].a, merged[j].b, StatusOf(merged[j].a, merged[j].b))
    {
      var parts := SplitKey(merged[i].key, 2);
      rows := rows + [QcRow(parts, merged[i].a, merged[i].b, StatusOf(merged[i].a, merged[i].b))];
    }
  }

  /** The body of `catalog_qc` once both sheets are read and the columns
      chosen: clean, key, coerce, join, classify, split the key back and
      name the display columns. */
  method Reconcile(a: Table, b: Table, c: Choice) returns (report: QcReport)
    requires c.skuA in a.columns && c.qtyA in a.columns && c.priceA in a.columns
    requires c.skuB in b.columns && c.qtyB in b.columns && c.priceB in b.columns
    ensures report.columns == UniqueNames([c.skuA, c.qtyA]) + [PriceAColumn, PriceBColumn, StatusColumn]
    ensures var merged := Merged(a, b, c);
      && |report.rows| == |merged|
      && forall i :: 0 <= i < |merged| ==>
        report.rows[i] == QcRow(DisplayParts(merged[i].key, 2), merged[i].a, merged[i].b, StatusOf(merged[i].a, merged[i].b))
  {
    var cleanA := CleanSheet(a, [DefaultQtyColumn]);
    var cleanB := CleanSheet(b, [DefaultQtyColumn]);
    var merged := OuterJoin(Entries(cleanA, c.skuA, c.qtyA, c.priceA), Entries(cleanB, c.skuB, c.qtyB, c.priceB));
    var rows := ClassifyRows(merged);
    var names := UniqueDisplayKeys([c.skuA, c.qtyA]);
    report := QcReport(names + [PriceAColumn, PriceBColumn, StatusColumn], rows);
  }
}
