/** The markup percentage both builders apply to a printer's price, and the
    session state through which the percentage entered in the page becomes
    the applied one. */
module Markup {
  import opened Outcomes
  import opened Text

  /** A markup in tenths of a percent: the input accepts 0.0 to 200.0 in
      steps of 0.1, so 355 stands for 35.5%. */
  type Markup = m: nat | m <= 2000

  /** The bidding builder's initial markup, 35.0%. */
  const BiddingDefault: Markup := 350

  /** The catalog builder's initial markup, 0.0% (keep the bidding sheet's prices). */
  const CatalogDefault: Markup := 0

  /** The percentage as a real number: 355 is 35.5. */
  function Percent(m: Markup): real {
    m as real / 10.0
  }

  /** `str(pct)` of the percentage, a float with one decimal: "35.0", "12.5". */
  function PctText(m: Markup): (r: string)
    ensures |r| >= 3 && r[|r| - 2] == '.' && IsDigit(r[|r| - 1])
  {
    NatText(m / 10) + "." + NatText(m % 10)
  }

  /** The multiplier `1 + pct/100` applied to a printer's price. */
  function Factor(m: Markup): (f: real)
    ensures 1.0 <= f <= 3.0
    ensures m == 0 <==> f == 1.0
  {
    1.0 + Percent(m) / 100.0
  }

  /** A price with the markup applied: `price * (1 + pct/100)`. */
  function Marked(price: real, m: Markup): real {
    price * Factor(m)
  }

  /** The header `f'Customer Price ({pct}%)'` of a marked-up price column. */
  function CustomerPriceLabel(m: Markup): string {
    "Customer Price (" + PctText(m) + "%)"
  }

  /** Every marked-up price column is recognised as a customer-price column
      by the builders' test `'Customer Price' in col`. */
  lemma LabelIsCustomerPrice(m: Markup)
    ensures Contains(CustomerPriceLabel(m), "Customer Price")
  {
    assert CustomerPriceLabel(m)[0..|"Customer Price"|] == "Customer Price";
    assert MatchesAt(CustomerPriceLabel(m), "Customer Price", 0);
  }

  /** The text of the percentage is read back as the percentage itself, so
      the label names the markup that was applied. */
  lemma PctTextValue(m: Markup)
    ensures ParseNumber(PctText(m)) == Some(Percent(m))
  {
    var w := NatText(m / 10);
    var d := NatText(m % 10);
    var t := w + "." + d;
    assert d == [DigitChar(m % 10)];
    assert t[..|w|] == w;
    assert t[|w| + 1..] == d;
    assert w[0] in w;
    assert IndexOfChar(t, '.') == |w| by {
      assert !IsDigit('.');
      assert '.' !in w;
      assert t[|w|] == '.';
    }
    DigitsValueOfNatText(m / 10);
    DigitsValueOfNatText(m % 10);
    assert Pow10(|d|) == 10;
    assert (m / 10) as real + (m % 10) as real / 10.0 == Percent(m);
  }

  /** The page's session: the applied markup and the value entered on the
      previous run, both absent until the page first runs. */
  datatype Session = Session(applied: Option<Markup>, previous: Option<Markup>)

  /** One run of the page with `entered` in the markup input: the session is
      initialised with `default` where empty, and the applied markup is
      replaced when the entry differs from it or from the previous entry. */
  function Submit(s: Session, default: Markup, entered: Markup): (s': Session)
    ensures s'.applied == Some(entered)
    ensures s'.previous == Some(entered)
  {
    var applied := s.applied.GetOr(default);
    var previous := s.previous.GetOr(applied);
    var applied' :=
      if entered != applied || (entered == applied && entered != previous) then entered
      else applied;
    Session(Some(applied'), Some(entered))
  }
}
