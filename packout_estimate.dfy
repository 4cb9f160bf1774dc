/** The original packout page: pallets per order line by ceiling division,
    the reserved pallet weight per line, totals per class and the container
    fit summary over them. */
module PackoutEstimate {

  import opened Wrappers
  import ContainerFit

  /** One order line as read from the sheet: None is a blank (NaN) cell. */
  datatype OrderLine = OrderLine(
    partNumber: string,
    caseQty: Option<real>,
    casesPerPallet: Option<real>,
    palletWeight: Option<real>,
    fuelFlag: string)

  /** The line's quotient quantity / cases-per-pallet can be rounded up: a
      zero divisor under a non-zero quantity gives an infinite quotient,
      which the ceiling rejects. A zero quantity over a zero divisor is NaN
      and is treated as a null quotient. */
  predicate Computable(line: OrderLine)
  {
    line.caseQty.Some? && line.casesPerPallet == Some(0.0) ==> line.caseQty.value == 0.0
  }

  predicate AllComputable(lines: seq<OrderLine>)
  {
    forall k :: 0 <= k < |lines| ==> Computable(lines[k])
  }

  /** The least integer not below x. */
  function Ceil(x: real): (n: int)
    ensures x <= n as real < x + 1.0
  {
    if x.Floor as real == x then x.Floor else x.Floor + 1
  }

  /** Multiplying by a positive factor keeps the order. */
  lemma ScalePositive(a: real, b: real, c: real)
    requires c > 0.0
    ensures a <= b ==> a * c <= b * c
    ensures a < b ==> a * c < b * c
  {
    if a <= b {
      var d := b - a;
      assert d * c >= 0.0;
      assert b * c == a * c + d * c;
      if a < b {
        assert d * c > 0.0;
      }
    }
  }

  lemma CancelPositive(a: real, b: real, c: real)
    requires c > 0.0
    ensures a * c < b * c ==> a < b
    ensures a * c <= b * c ==> a <= b
  {
    ScalePositive(b, a, c);
  }

  lemma ScaleBounds(n: int, q: real, c: real)
    requires c > 0.0 && q / c <= n as real < q / c + 1.0
    ensures q <= n as real * c && (n - 1) as real * c < q
  {
    var x, m, k := q / c, n as real, (n - 1) as real;
    assert x * c == q;
    assert k == m - 1.0 < x;
    ScalePositive(x, m, c);
    ScalePositive(k, x, c);
    assert k * c < x * c;
    assert k * c < q;
  }

  /** Pallets required for one line: the quotient rounded up, or 0 when the
      quotient is null. For a positive divisor this is the fewest pallets of
      casesPerPallet cases that hold the quantity. */
  function PalletsRequired(line: OrderLine): (n: int)
    requires Computable(line)
    ensures line.caseQty.None? || line.casesPerPallet.None? ==> n == 0
    ensures line.caseQty.Some? && line.casesPerPallet.Some? && line.casesPerPallet.value > 0.0 ==>
      && line.caseQty.value <= n as real * line.casesPerPallet.value
      && (n - 1) as real * line.casesPerPallet.value < line.caseQty.value
    ensures (line.caseQty.Some? && line.casesPerPallet.Some? && line.casesPerPallet.value > 0.0 &&
             line.caseQty.value >= 0.0) ==> n >= 0
    // 0 / 0 is a null quotient: no pallets
    ensures line.caseQty.Some? && line.casesPerPallet == Some(0.0) ==> n == 0
    // a negative divisor still rounds the quotient up
    ensures line.caseQty.Some? && line.casesPerPallet.Some? && line.casesPerPallet.value < 0.0 ==>
      var x := line.caseQty.value / line.casesPerPallet.value; x <= n as real < x + 1.0
  {
    match (line.caseQty, line.casesPerPallet)
    case (Some(q), Some(c)) =>
      if c == 0.0 then 0
      else
        var n := Ceil(q / c);
        if c > 0.0 then ScaleBounds(n, q, c); n else n
    case _ => 0
  }

  /** No smaller pallet count holds the quantity. */
  lemma PalletsRequiredIsLeast(line: OrderLine, m: int)
    requires Computable(line) && line.caseQty.Some? && line.casesPerPallet.Some?
    requires line.casesPerPallet.value > 0.0
    requires line.caseQty.value <= m as real * line.casesPerPallet.value
    ensures PalletsRequired(line) <= m
  {
    var n, c := PalletsRequired(line), line.casesPerPallet.value;
    CancelPositive((n - 1) as real, m as real, c);
  }

  /** Total Pallet Weight of a line: pallets required times the pallet
      weight, NaN (None) when the pallet weight is blank. */
  function LineWeight(line: OrderLine): (r: Option<real>)
    requires Computable(line)
    ensures r.None? <==> line.palletWeight.None?
    ensures r.Some? ==> r.value == PalletsRequired(line) as real * line.palletWeight.value
  {
    match line.palletWeight
    case Some(w) => Some(PalletsRequired(line) as real * w)
    case None => None
  }

  /** The weight reserved for a line covers its cases and is less than one
      pallet more: each case weighs palletWeight / casesPerPallet. */
  lemma LineWeightCoversCases(line: OrderLine)
    requires Computable(line) && line.caseQty.Some? && line.casesPerPallet.Some? && line.palletWeight.Some?
    requires line.casesPerPallet.value > 0.0 && line.palletWeight.value > 0.0
    ensures LineWeight(line).Some?
    ensures var q, c, w := line.caseQty.value, line.casesPerPallet.value, line.palletWeight.value;
      q * (w / c) <= LineWeight(line).value < q * (w / c) + w
  {
    var q, c, w := line.caseQty.value, line.casesPerPallet.value, line.palletWeight.value;
    var n := PalletsRequired(line);
    var x := q / c;
    assert x * c == q;
    assert q * (w / c) == x * w;
    CancelPositive(x, n as real, c);
    CancelPositive(n as real - 1.0, x, c);
    assert (n as real - 1.0) * c == (n - 1) as real * c;
    assert x <= n as real < x + 1.0;
    assert x * w <= n as real * w;
    assert n as real * w < (x + 1.0) * w;
  }

  /** Sum of Pallets Required over the lines. */
  function TotalPallets(lines: seq<OrderLine>): int
    requires AllComputable(lines)
  {
    if lines == [] then 0 else PalletsRequired(lines[0]) + TotalPallets(lines[1..])
  }

  /** Sum of Total Pallet Weight over the lines; NaN entries are skipped. */
  function TotalWeight(lines: seq<OrderLine>): real
    requires AllComputable(lines)
  {
    if lines == [] then 0.0
    else (match LineWeight(lines[0]) case Some(w) => w case None => 0.0) + TotalWeight(lines[1..])
  }

  /** Both sums add up over consecutive blocks of lines, whatever the order
      of the lines inside each block. */
  lemma {:induction false} TotalsAppend(a: seq<OrderLine>, b: seq<OrderLine>)
    requires AllComputable(a) && AllComputable(b)
    ensures AllComputable(a + b)
    ensures TotalPallets(a + b) == TotalPallets(a) + TotalPallets(b)
    ensures TotalWeight(a + b) == TotalWeight(a) + TotalWeight(b)
  {
    assert AllComputable(a + b) by {
      assert forall k :: 0 <= k < |a + b| ==> (a + b)[k] == if k < |a| then a[k] else b[k - |a|];
    }
    if a == [] {
      assert a + b == b;
    } else {
      TailComputable(a);
      assert (a + b)[0] == a[0];
      assert (a + b)[1..] == a[1..] + b;
      TotalsAppend(a[1..], b);
    }
  }

  /** A line whose pallet weight is blank adds its pallets but no weight. */
  lemma BlankWeightAddsNoWeight(lines: seq<OrderLine>, extra: OrderLine)
    requires AllComputable(lines) && Computable(extra) && extra.palletWeight.None?
    ensures AllComputable(lines + [extra])
    ensures TotalWeight(lines + [extra]) == TotalWeight(lines)
    ensures TotalPallets(lines + [extra]) == TotalPallets(lines) + PalletsRequired(extra)
  {
    TotalsAppend(lines, [extra]);
    assert [extra][1..] == [];
  }

  /** The lines whose flag is exactly "Yes". */
  function FuelLines(lines: seq<OrderLine>): (r: seq<OrderLine>)
    ensures |r| <= |lines|
  {
    if lines == [] then []
    else (if lines[0].fuelFlag == "Yes" then [lines[0]] else []) + FuelLines(lines[1..])
  }

  /** All other lines: any other flag, including "yes" or a blank. */
  function NonFuelLines(lines: seq<OrderLine>): (r: seq<OrderLine>)
    ensures |r| <= |lines|
  {
    if lines == [] then []
    else (if lines[0].fuelFlag == "Yes" then [] else [lines[0]]) + NonFuelLines(lines[1..])
  }

  lemma TailComputable(lines: seq<OrderLine>)
    requires AllComputable(lines) && lines != []
    ensures Computable(lines[0]) && AllComputable(lines[1..])
  {
    assert forall k :: 0 <= k < |lines[1..]| ==> lines[1..][k] == lines[k + 1];
  }

  /** The two classes partition the lines: every line lands in exactly one. */
  lemma {:induction false} SplitPartition(lines: seq<OrderLine>)
    ensures |FuelLines(lines)| + |NonFuelLines(lines)| == |lines|
    ensures multiset(FuelLines(lines)) + multiset(NonFuelLines(lines)) == multiset(lines)
  {
    if lines != [] {
      SplitPartition(lines[1..]);
      assert lines == [lines[0]] + lines[1..];
    }
  }

  /** Fuel pallets plus non-fuel pallets are the order's pallets, and the
      same for the weights. */
  lemma {:induction false} SplitTotals(lines: seq<OrderLine>)
    requires AllComputable(lines)
    ensures AllComputable(FuelLines(lines)) && AllComputable(NonFuelLines(lines))
    ensures TotalPallets(FuelLines(lines)) + TotalPallets(NonFuelLines(lines)) == TotalPallets(lines)
    ensures TotalWeight(FuelLines(lines)) + TotalWeight(NonFuelLines(lines)) == TotalWeight(lines)
  {
    FilteredComputable(lines);
    if lines != [] {
      TailComputable(lines);
      SplitTotals(lines[1..]);
      var f, n := FuelLines(lines), NonFuelLines(lines);
      if lines[0].fuelFlag == "Yes" {
        assert f == [lines[0]] + FuelLines(lines[1..]);
        assert f[1..] == FuelLines(lines[1..]);
        assert n == NonFuelLines(lines[1..]);
      } else {
        assert n == [lines[0]] + NonFuelLines(lines[1..]);
        assert n[1..] == NonFuelLines(lines[1..]);
        assert f == FuelLines(lines[1..]);
      }
    }
  }

  /** Each class holds only lines of the input, with the class's flag. */
  lemma {:induction false} SplitClasses(lines: seq<OrderLine>)
    ensures forall k :: 0 <= k < |FuelLines(lines)| ==>
      FuelLines(lines)[k].fuelFlag == "Yes" && FuelLines(lines)[k] in lines
    ensures forall k :: 0 <= k < |NonFuelLines(lines)| ==>
      NonFuelLines(lines)[k].fuelFlag != "Yes" && NonFuelLines(lines)[k] in lines
  {
    if lines != [] {
      SplitClasses(lines[1..]);
      assert forall l :: l in lines[1..] ==> l in lines;
    }
  }

  lemma FilteredComputable(lines: seq<OrderLine>)
    requires AllComputable(lines)
    ensures AllComputable(FuelLines(lines)) && AllComputable(NonFuelLines(lines))
  {
    SplitClasses(lines);
  }

  /** The container fit summary of the original page. */
  function Summary(lines: seq<OrderLine>): (r: seq<ContainerFit.FitResult>)
    requires AllComputable(lines)
    ensures AllComputable(FuelLines(lines)) && AllComputable(NonFuelLines(lines))
    ensures |r| == 4
    ensures forall i :: 0 <= i < 4 ==> r[i].fuelPallets == TotalPallets(FuelLines(lines))
    ensures r[0].nonFuelPallets == r[2].nonFuelPallets == TotalPallets(NonFuelLines(lines))
    ensures r[0].fits <==> TotalPallets(lines) <= 10
    ensures r[1].fits <==> TotalPallets(FuelLines(lines)) <= 20
    ensures r[2].fits <==> TotalPallets(lines) <= 20 && TotalWeight(lines) <= 42800.0
    ensures r[3].fits <==> TotalPallets(FuelLines(lines)) <= 40 && TotalWeight(FuelLines(lines)) <= 42800.0
    ensures r[0].totalPallets == r[2].totalPallets == TotalPallets(lines)
    ensures r[0].totalWeight == r[2].totalWeight == TotalWeight(lines)
    ensures r[1].nonFuelPallets == r[3].nonFuelPallets == 0
    ensures r[1].totalPallets == r[3].totalPallets == TotalPallets(FuelLines(lines))
    ensures r[1].totalWeight == r[3].totalWeight == TotalWeight(FuelLines(lines))
  {
    FilteredComputable(lines);
    SplitTotals(lines);
    var fuel, nonFuel := FuelLines(lines), NonFuelLines(lines);
    ContainerFit.Evaluate(TotalPallets(fuel), TotalPallets(nonFuel), TotalWeight(fuel), TotalWeight(lines))
  }

  /** A line whose flag is not "Yes" never changes the double-stack rows. */
  lemma {:induction false} DoubleStackIgnoresNonFuelLine(lines: seq<OrderLine>, extra: OrderLine)
    requires AllComputable(lines) && Computable(extra) && extra.fuelFlag != "Yes"
    ensures AllComputable(lines + [extra])
    ensures Summary(lines + [extra])[1] == Summary(lines)[1]
    ensures Summary(lines + [extra])[3] == Summary(lines)[3]
  {
    assert AllComputable(lines + [extra]) by {
      assert forall k :: 0 <= k < |lines| ==> (lines + [extra])[k] == lines[k];
    }
    FuelLinesAppend(lines, [extra]);
    assert FuelLines([extra]) == [];
    assert FuelLines(lines + [extra]) == FuelLines(lines);
  }

  lemma {:induction false} FuelLinesAppend(a: seq<OrderLine>, b: seq<OrderLine>)
    ensures FuelLines(a + b) == FuelLines(a) + FuelLines(b)
  {
    if a == [] {
      assert a + b == b;
    } else {
      assert (a + b)[0] == a[0];
      assert (a + b)[1..] == a[1..] + b;
      FuelLinesAppend(a[1..], b);
      var h := if a[0].fuelFlag == "Yes" then [a[0]] else [];
      assert h + (FuelLines(a[1..]) + FuelLines(b)) == (h + FuelLines(a[1..])) + FuelLines(b);
    }
  }
}
