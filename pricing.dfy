/** The price computation of the client service (`calculateTotalPrice` in
    src/Client/client.service.ts): for each requested line, the unit price of
    the menu item found under the line's key, reduced by every active
    discount linked to that key in the order the rows are fetched, times the
    quantity, summed. Validity windows are not consulted and nothing is
    clamped at zero. Money is exact `real` arithmetic. */
module Pricing {
  import opened Common
  import opened Discounts

  datatype MenuItem = MenuItem(id: int, price: real)

  /** What the pricing loop reads from a requested line: the key it looks up
      (a menu item id in a creation request, the `id` field of whatever
      record is passed) and the quantity. */
  datatype PriceLine = PriceLine(key: int, quantity: int)

  /** `menuItems.find(m => m.id === key).price`: the price of the first
      entry with this id. A null entry met before it (a line whose menu
      item is gone) or no such entry makes the lookup throw; both are
      `None` here. */
  function FindPrice(menuItems: seq<Option<MenuItem>>, key: int): Option<real>
  {
    if |menuItems| == 0 then None
    else match menuItems[0]
      case None => None
      case Some(m) => if m.id == key then Some(m.price) else FindPrice(menuItems[1..], key)
  }

  /** `findMany({ where: { menuItemId: key }, include: { discount: true } })`:
      the discounts of the rows linked to `key`, in table order. */
  function Fetch(rows: seq<ApplicableRow>, discounts: map<int, Discount>, key: int): seq<Discount>
  {
    if |rows| == 0 then []
    else
      var row := rows[0];
      (if row.entry.menuItemId == Num(key as real) && row.discountId in discounts
       then [discounts[row.discountId]] else [])
      + Fetch(rows[1..], discounts, key)
  }

  /** One discount applied to a running unit price: an inactive discount
      changes nothing; a percentage takes off `p * value / 100`; a fixed
      amount takes off `value`. */
  function Step(p: real, d: Discount): real
  {
    if !d.isActive then p
    else match d.dtype
      case Percentage => p - p * (d.value / 100.0)
      case FixedAmount => p - d.value
  }

  /** The discounts applied one after the other, first to last. */
  function ApplyDiscounts(p: real, ds: seq<Discount>): real
  {
    if |ds| == 0 then p
    else Step(ApplyDiscounts(p, ds[..|ds| - 1]), ds[|ds| - 1])
  }

  /** The result of the pricing loop after the given lines, as the loop
      builds it: line by line, failing at the first failed lookup. */
  function CalculateTotal(menuItems: seq<Option<MenuItem>>, lines: seq<PriceLine>,
                          rows: seq<ApplicableRow>, discounts: map<int, Discount>): (r: Result<real>)
    ensures r.Err? ==> r.error == InternalError
  {
    if |lines| == 0 then Ok(0.0)
    else match CalculateTotal(menuItems, lines[..|lines| - 1], rows, discounts)
      case Err(e) => Err(e)
      case Ok(t) =>
        var line := lines[|lines| - 1];
        match FindPrice(menuItems, line.key)
        case None => Err(InternalError)
        case Some(_) => Ok(t + LineAmount(menuItems, line, rows, discounts))
  }

  // ---------------------------------------------------------------------------
  // A reference definition: the sum over lines of effective unit price
  // times quantity.

  predicate AllFound(menuItems: seq<Option<MenuItem>>, lines: seq<PriceLine>)
  {
    forall i :: 0 <= i < |lines| ==> FindPrice(menuItems, lines[i].key).Some?
  }

  /** The unit price of `key` after its discounts. */
  function EffectiveUnitPrice(menuItems: seq<Option<MenuItem>>, key: int,
                              rows: seq<ApplicableRow>, discounts: map<int, Discount>): real
    requires FindPrice(menuItems, key).Some?
  {
    ApplyDiscounts(FindPrice(menuItems, key).value, Fetch(rows, discounts, key))
  }

  /** What one line adds to the total. */
  function LineAmount(menuItems: seq<Option<MenuItem>>, line: PriceLine,
                      rows: seq<ApplicableRow>, discounts: map<int, Discount>): real
    requires FindPrice(menuItems, line.key).Some?
  {
    EffectiveUnitPrice(menuItems, line.key, rows, discounts) * (line.quantity as real)
  }

  function SumOfLines(menuItems: seq<Option<MenuItem>>, lines: seq<PriceLine>,
                      rows: seq<ApplicableRow>, discounts: map<int, Discount>): real
    requires AllFound(menuItems, lines)
  {
    if |lines| == 0 then 0.0
    else LineAmount(menuItems, lines[0], rows, discounts) + SumOfLines(menuItems, lines[1..], rows, discounts)
  }

  lemma {:induction false} SumOfLinesSnoc(menuItems: seq<Option<MenuItem>>, lines: seq<PriceLine>,
                                          rows: seq<ApplicableRow>, discounts: map<int, Discount>)
    requires |lines| > 0 && AllFound(menuItems, lines)
    ensures AllFound(menuItems, lines[..|lines| - 1])
    ensures SumOfLines(menuItems, lines, rows, discounts)
            == SumOfLines(menuItems, lines[..|lines| - 1], rows, discounts)
               + LineAmount(menuItems, lines[|lines| - 1], rows, discounts)
  {
    var n := |lines| - 1;
    assert forall i :: 0 <= i < n ==> lines[..n][i] == lines[i];
    if n == 0 {
      assert lines[1..] == [];
    } else {
      var tail := lines[1..];
      assert forall i :: 0 <= i < |tail| ==> tail[i] == lines[i + 1];
      SumOfLinesSnoc(menuItems, tail, rows, discounts);
      assert tail[..n - 1] == lines[..n][1..];
      assert tail[n - 1] == lines[n];
      assert lines[..n][0] == lines[0];
    }
  }

  /** The pricing loop succeeds exactly when every line's key has a menu
      item, and then its result is the sum over lines of effective unit
      price times quantity; with no lines it is 0. */
  lemma {:induction false} TotalIsSumOfLines(menuItems: seq<Option<MenuItem>>, lines: seq<PriceLine>,
                                              rows: seq<ApplicableRow>, discounts: map<int, Discount>)
    ensures CalculateTotal(menuItems, lines, rows, discounts).Ok? <==> AllFound(menuItems, lines)
    ensures AllFound(menuItems, lines) ==>
              CalculateTotal(menuItems, lines, rows, discounts) == Ok(SumOfLines(menuItems, lines, rows, discounts))
    ensures lines == [] ==> CalculateTotal(menuItems, lines, rows, discounts) == Ok(0.0)
  {
    if |lines| > 0 {
      var n := |lines| - 1;
      var prefix := lines[..n];
      TotalIsSumOfLines(menuItems, prefix, rows, discounts);
      assert forall i :: 0 <= i < n ==> prefix[i] == lines[i];
      if AllFound(menuItems, lines) {
        SumOfLinesSnoc(menuItems, lines, rows, discounts);
      }
    }
  }

  /** Pricing a concatenation of line lists adds their totals. */
  lemma TotalOfAppend(menuItems: seq<Option<MenuItem>>, a: seq<PriceLine>, b: seq<PriceLine>,
                      rows: seq<ApplicableRow>, discounts: map<int, Discount>)
    requires AllFound(menuItems, a) && AllFound(menuItems, b)
    ensures AllFound(menuItems, a + b)
    ensures SumOfLines(menuItems, a + b, rows, discounts)
            == SumOfLines(menuItems, a, rows, discounts) + SumOfLines(menuItems, b, rows, discounts)
    decreases |a|
  {
    if |a| > 0 {
      assert (a + b)[1..] == a[1..] + b;
      assert forall i :: 0 <= i < |a[1..]| ==> a[1..][i] == a[i + 1];
      TotalOfAppend(menuItems, a[1..], b, rows, discounts);
    } else {
      assert a + b == b;
    }
  }

  // ---------------------------------------------------------------------------
  // Properties of the discount fold.

  function ActiveOnly(ds: seq<Discount>): (r: seq<Discount>)
    ensures forall i :: 0 <= i < |r| ==> r[i].isActive
  {
    if |ds| == 0 then []
    else ActiveOnly(ds[..|ds| - 1]) + (if ds[|ds| - 1].isActive then [ds[|ds| - 1]] else [])
  }

  /** Inactive discounts never change an effective price: the fold over all
      fetched discounts equals the fold over the active ones alone. */
  lemma {:induction false} InactiveDiscountsIgnored(p: real, ds: seq<Discount>)
    ensures ApplyDiscounts(p, ds) == ApplyDiscounts(p, ActiveOnly(ds))
  {
    if |ds| > 0 {
      var n := |ds| - 1;
      InactiveDiscountsIgnored(p, ds[..n]);
      if ds[n].isActive {
        var a := ActiveOnly(ds[..n]) + [ds[n]];
        assert a[..|a| - 1] == ActiveOnly(ds[..n]);
      } else {
        assert ApplyDiscounts(p, ds) == ApplyDiscounts(p, ds[..n]);
        assert ActiveOnly(ds) == ActiveOnly(ds[..n]) + [];
        assert ActiveOnly(ds[..n]) + [] == ActiveOnly(ds[..n]);
      }
    }
  }

  /** Discounts compound in fetch order: each later discount acts on the
      price the earlier ones left. */
  lemma {:induction false} DiscountsCompound(p: real, ds: seq<Discount>, more: seq<Discount>)
    ensures ApplyDiscounts(p, ds + more) == ApplyDiscounts(ApplyDiscounts(p, ds), more)
    decreases |more|
  {
    if |more| == 0 {
      assert ds + more == ds;
    } else {
      var n := |more| - 1;
      assert (ds + more)[..|ds + more| - 1] == ds + more[..n];
      DiscountsCompound(p, ds, more[..n]);
    }
  }

  /** A discount's validity window plays no part in the price. */
  lemma WindowNotConsulted(p: real, d: Discount, start: Option<int>, end: Option<int>)
    ensures Step(p, d.(startDate := start, endDate := end)) == Step(p, d)
  {
  }

  // ---------------------------------------------------------------------------
  // Worked cases.

  function OneLinkTable(discount: Discount): (seq<ApplicableRow>, map<int, Discount>)
  {
    ([ApplicableRow(1, ApplicableEntry(Num(1.0), Null, Null, None))], map[1 := discount])
  }

  /** 10.00 with one active 20% discount at quantity 3 is 24.00; 10.00 with
      one active fixed discount of 3.00 at quantity 2 is 14.00; a fixed
      discount larger than the price gives a negative total; an inactive
      discount leaves 10.00 at quantity 1. */
  lemma WorkedPrices()
    ensures var (rows, ds) := OneLinkTable(Discount("d", None, Percentage, 20.0, None, None, true));
            CalculateTotal([Some(MenuItem(1, 10.0))], [PriceLine(1, 3)], rows, ds) == Ok(24.0)
    ensures var (rows, ds) := OneLinkTable(Discount("d", None, FixedAmount, 3.0, None, None, true));
            CalculateTotal([Some(MenuItem(1, 10.0))], [PriceLine(1, 2)], rows, ds) == Ok(14.0)
    ensures var (rows, ds) := OneLinkTable(Discount("d", None, FixedAmount, 15.0, None, None, true));
            CalculateTotal([Some(MenuItem(1, 10.0))], [PriceLine(1, 1)], rows, ds) == Ok(-5.0)
    ensures var (rows, ds) := OneLinkTable(Discount("d", None, Percentage, 20.0, None, None, false));
            CalculateTotal([Some(MenuItem(1, 10.0))], [PriceLine(1, 1)], rows, ds) == Ok(10.0)
  {
    var d1 := Discount("d", None, Percentage, 20.0, None, None, true);
    var d2 := Discount("d", None, FixedAmount, 3.0, None, None, true);
    var d3 := Discount("d", None, FixedAmount, 15.0, None, None, true);
    var d4 := Discount("d", None, Percentage, 20.0, None, None, false);
    OneLine(10.0, 3, d1);
    OneLine(10.0, 2, d2);
    OneLine(10.0, 1, d3);
    OneLine(10.0, 1, d4);
  }

  /** One line of menu item 1 linked to one discount. */
  lemma OneLine(price: real, quantity: int, d: Discount)
    ensures var (rows, ds) := OneLinkTable(d);
            CalculateTotal([Some(MenuItem(1, price))], [PriceLine(1, quantity)], rows, ds)
            == Ok(Step(price, d) * (quantity as real))
  {
    var (rows, ds) := OneLinkTable(d);
    var items := [Some(MenuItem(1, price))];
    var lines := [PriceLine(1, quantity)];
    assert rows[1..] == [];
    assert Fetch(rows, ds, 1) == [d];
    assert [d][..0] == [];
    assert ApplyDiscounts(price, [d]) == Step(price, d);
    assert lines[..0] == [];
    assert FindPrice(items, 1) == Some(price);
    assert CalculateTotal(items, lines[..0], rows, ds) == Ok(0.0);
    assert LineAmount(items, lines[0], rows, ds) == Step(price, d) * (quantity as real);
  }

  // ---------------------------------------------------------------------------
  // The loop itself.

  /** The inner loop of `calculateTotalPrice`: the fetched discounts applied
      to the running unit price, skipping inactive ones. */
  method DiscountedUnitPrice(price: real, applicable: seq<Discount>) returns (itemPrice: real)
    ensures itemPrice == ApplyDiscounts(price, applicable)
  {
    itemPrice := price;
    var j := 0;
    while j < |applicable|
      invariant 0 <= j <= |applicable|
      invariant itemPrice == ApplyDiscounts(price, applicable[..j])
    {
      var d := applicable[j];
      assert applicable[..j + 1][..j] == applicable[..j];
      if d.isActive {
        if d.dtype == Percentage {
          itemPrice := itemPrice - itemPrice * (d.value / 100.0);
        } else if d.dtype == FixedAmount {
          itemPrice := itemPrice - d.value;
        }
      }
      j := j + 1;
    }
    assert applicable[..j] == applicable;
  }

  /** `calculateTotalPrice`: the loop over the requested lines, computing
      what `CalculateTotal` specifies. */
  method CalculateTotalPrice(menuItems: seq<Option<MenuItem>>, lines: seq<PriceLine>, store: DiscountStore)
    returns (r: Result<real>)
    ensures r == CalculateTotal(menuItems, lines, store.rows, store.discounts)
  {
    var rows, discounts := store.rows, store.discounts;
    var totalPrice := 0.0;
    var i := 0;
    while i < |lines|
      invariant 0 <= i <= |lines|
      invariant CalculateTotal(menuItems, lines[..i], rows, discounts) == Ok(totalPrice)
    {
      var line := lines[i];
      assert lines[..i + 1][..i] == lines[..i] && lines[..i + 1][i] == line;
      var found := FindPrice(menuItems, line.key);
      if found.None? {
        TotalIsSumOfLines(menuItems, lines, rows, discounts);
        return Err(InternalError);
      }
      var itemPrice := DiscountedUnitPrice(found.value, Fetch(rows, discounts, line.key));
      assert LineAmount(menuItems, line, rows, discounts) == itemPrice * (line.quantity as real);
      totalPrice := totalPrice + itemPrice * (line.quantity as real);
      i := i + 1;
    }
    assert lines[..i] == lines;
    r := Ok(totalPrice);
  }
}
