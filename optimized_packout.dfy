/** The optimized packout page: cases-per-pallet by spreadsheet row, the drop
    of incomplete rows, expansion of the order lines into single cases, the
    fuel / non-fuel split, greedy packing of each class and the container fit
    summary over the packed pallets. */
module OptimizedPackout {

  import opened Wrappers
  import opened PalletPacker
  import ContainerFit

  /** Offset from the position of a data row to its row number in the order
      template's sheet. */
  const ExcelRowOffset: nat := 5

  /** One uploaded order row once its numeric fields have been coerced: None is
      a blank cell or text that failed coercion. */
  datatype OrderRow = OrderRow(
    partNumber: string,
    caseQty: Option<real>,
    palletWeight: Option<real>,
    fuelFlag: string)

  /** A row that survived the drop of incomplete rows, with its looked-up cases
      per pallet. */
  datatype ParsedRow = ParsedRow(
    partNumber: string,
    caseQty: real,
    casesPerPallet: real,
    palletWeight: real,
    fuelFlag: string)

  /** Every looked-up cases-per-pallet value is positive, so a case weight is
      always defined. */
  type PackableRow = r: ParsedRow | r.casesPerPallet > 0.0 witness ParsedRow("", 0.0, 1.0, 0.0, "")

  /** Cases per pallet for the data row at position idx, from the fixed table
      of sheet-row ranges. Rows 181 to 366 are set to the numeric coercion of
      an empty cell, which is NaN; that and the rows the table skips are
      None. */
  function CasesPerPalletAt(idx: nat): (r: Option<real>)
    ensures r.Some? <==> 7 <= idx + ExcelRowOffset <= 159 || 161 <= idx + ExcelRowOffset <= 179
    ensures r.Some? ==> r.value > 0.0
  {
    var sheetRow := idx + ExcelRowOffset;
    if 7 <= sheetRow <= 159 then Some(77.42)
    else if 161 <= sheetRow <= 166 then Some(18.0)
    else if 167 <= sheetRow <= 179 then Some(26.0)
    else None
  }

  /** The row at position idx after the lookup, or None when the drop of
      incomplete rows removes it. */
  function Prepare(row: OrderRow, idx: nat): (r: Option<PackableRow>)
    ensures r.Some? <==> CasesPerPalletAt(idx).Some? && row.caseQty.Some? && row.palletWeight.Some?
  {
    match (CasesPerPalletAt(idx), row.caseQty, row.palletWeight)
    case (Some(perPallet), Some(qty), Some(weight)) =>
      Some(ParsedRow(row.partNumber, qty, perPallet, weight, row.fuelFlag))
    case _ => None
  }

  /** The rows that survive, in sheet order; `start` is the position of
      rows[0]. */
  function PrepareRows(rows: seq<OrderRow>, start: nat): (r: seq<PackableRow>)
    ensures |r| <= |rows|
    decreases |rows|
  {
    if rows == [] then [] else Kept(rows[0], start) + PrepareRows(rows[1..], start + 1)
  }

  /** The prepared row at position idx as a sequence of zero or one rows. */
  function Kept(row: OrderRow, idx: nat): seq<PackableRow>
  {
    match Prepare(row, idx) case Some(v) => [v] case None => []
  }

  /** Which row survives the drop, and the cases per pallet it gets: sheet
      rows 7-159 get 77.42, rows 161-166 get 18, rows 167-179 get 26; every
      other row, and every row without a numeric quantity or pallet weight,
      is dropped. */
  lemma RowSurvival(row: OrderRow, idx: nat)
    ensures Prepare(row, idx).Some? <==>
      (7 <= idx + 5 <= 159 || 161 <= idx + 5 <= 179) && row.caseQty.Some? && row.palletWeight.Some?
    ensures Prepare(row, idx).Some? ==>
      && Prepare(row, idx).value.casesPerPallet ==
           (if idx + 5 <= 159 then 77.42 else if idx + 5 <= 166 then 18.0 else 26.0)
      && Prepare(row, idx).value.caseQty == row.caseQty.value
      && Prepare(row, idx).value.palletWeight == row.palletWeight.value
      && Prepare(row, idx).value.partNumber == row.partNumber
      && Prepare(row, idx).value.fuelFlag == row.fuelFlag
  {
  }

  /** The drop keeps the rows' order: preparing two blocks of rows is
      preparing each block at its own positions. */
  lemma {:induction false} PrepareRowsAppend(a: seq<OrderRow>, b: seq<OrderRow>, start: nat)
    ensures PrepareRows(a + b, start) == PrepareRows(a, start) + PrepareRows(b, start + |a|)
    decreases |a|
  {
    if a == [] {
      assert a + b == b;
    } else {
      assert (a + b)[0] == a[0];
      assert (a + b)[1..] == a[1..] + b;
      PrepareRowsAppend(a[1..], b, start + 1);
      var h, t := Kept(a[0], start), PrepareRows(a[1..], start + 1);
      assert h + (t + PrepareRows(b, start + |a|)) == (h + t) + PrepareRows(b, start + |a|);
    }
  }

  /** A prepared row is exactly the survivor of some input row. */
  lemma {:induction false} PrepareRowsMembers(rows: seq<OrderRow>, start: nat, v: PackableRow)
    ensures v in PrepareRows(rows, start) <==>
      exists i :: 0 <= i < |rows| && Prepare(rows[i], start + i) == Some(v)
    decreases |rows|
  {
    if rows != [] {
      PrepareRowsMembers(rows[1..], start + 1, v);
      if v in PrepareRows(rows, start) {
        if Prepare(rows[0], start) != Some(v) {
          assert v in PrepareRows(rows[1..], start + 1);
          var i :| 0 <= i < |rows[1..]| && Prepare(rows[1..][i], start + 1 + i) == Some(v);
          assert Prepare(rows[i + 1], start + (i + 1)) == Some(v);
        }
      }
      if exists i :: 0 <= i < |rows| && Prepare(rows[i], start + i) == Some(v) {
        var i :| 0 <= i < |rows| && Prepare(rows[i], start + i) == Some(v);
        if i > 0 {
          assert rows[1..][i - 1] == rows[i];
          assert Prepare(rows[1..][i - 1], start + 1 + (i - 1)) == Some(v);
        }
      }
    }
  }

  /** Python's int() of a float: truncation toward zero. */
  function TruncToInt(x: real): (n: int)
    ensures x >= 0.0 ==> 0 <= n && n as real <= x < n as real + 1.0
    ensures x < 0.0 ==> n <= 0 && n as real - 1.0 < x <= n as real
  {
    if x >= 0.0 then x.Floor else -((-x).Floor)
  }

  /** Number of cases a row contributes: the length of range(int(qty)), so
      the whole cases ordered and none for a negative quantity. */
  function CaseCount(qty: real): (n: nat)
    ensures qty < 1.0 ==> n == 0
    ensures qty >= 0.0 ==> n as real <= qty < n as real + 1.0
  {
    var t := TruncToInt(qty);
    if t < 0 then 0 else t
  }

  /** The case record of a row: each case weighs a pallet's weight divided by
      the cases per pallet, and is fuel exactly when the flag is "Yes". */
  function CaseOf(v: PackableRow): (c: Case)
    ensures c.weight * v.casesPerPallet == v.palletWeight
    ensures c.isFuel <==> v.fuelFlag == "Yes"
    ensures c.partNumber == v.partNumber
  {
    Case(v.partNumber, v.palletWeight / v.casesPerPallet, v.fuelFlag == "Yes")
  }

  /** The cases of one row: its case count of copies of its case record. */
  function RowCases(v: PackableRow): (cs: seq<Case>)
    ensures |cs| == CaseCount(v.caseQty)
    ensures forall k :: 0 <= k < |cs| ==> cs[k] == CaseOf(v)
  {
    seq(CaseCount(v.caseQty), _ => CaseOf(v))
  }

  /** All cases of the surviving rows, row by row. */
  function Expand(vs: seq<PackableRow>): (cs: seq<Case>)
    ensures |cs| == CaseTotal(vs)
  {
    if vs == [] then [] else RowCases(vs[0]) + Expand(vs[1..])
  }

  /** Expansion keeps row order. */
  lemma {:induction false} ExpandAppend(a: seq<PackableRow>, b: seq<PackableRow>)
    ensures Expand(a + b) == Expand(a) + Expand(b)
  {
    if a == [] {
      assert a + b == b;
    } else {
      assert (a + b)[1..] == a[1..] + b;
      ExpandAppend(a[1..], b);
    }
  }

  /** Every case comes from a surviving row. */
  lemma {:induction false} ExpandOrigin(vs: seq<PackableRow>)
    ensures forall c :: c in Expand(vs) ==> exists v :: v in vs && c == CaseOf(v)
  {
    if vs != [] {
      ExpandOrigin(vs[1..]);
      assert forall v :: v in vs[1..] ==> v in vs;
      assert forall c :: c in RowCases(vs[0]) ==> c == CaseOf(vs[0]);
    }
  }

  /** The nested expansion loop: for each surviving row, its case count of
      identical case records. */
  method ExpandCases(vs: seq<PackableRow>) returns (cases: seq<Case>)
    ensures cases == Expand(vs)
    ensures |cases| == CaseTotal(vs)
  {
    cases := [];
    for i := 0 to |vs|
      invariant cases == Expand(vs[..i])
    {
      var row := vs[i];
      var caseWeight := row.palletWeight / row.casesPerPallet;
      ghost var before := cases;
      for k := 0 to CaseCount(row.caseQty)
        invariant cases == before + seq(k, _ => CaseOf(row))
      {
        cases := cases + [Case(row.partNumber, caseWeight, row.fuelFlag == "Yes")];
      }
      ExpandAppend(vs[..i], [row]);
      assert vs[..i + 1] == vs[..i] + [row];
      assert Expand([row]) == RowCases(row) + Expand([]);
    }
    assert vs[..|vs|] == vs;
  }

  /** Total of the rows' case counts. */
  function CaseTotal(vs: seq<PackableRow>): nat
  {
    if vs == [] then 0 else CaseCount(vs[0].caseQty) + CaseTotal(vs[1..])
  }

  /** The cases flagged fuel, in order. */
  function FuelCases(cs: seq<Case>): (r: seq<Case>)
    ensures |r| <= |cs|
  {
    if cs == [] then [] else (if cs[0].isFuel then [cs[0]] else []) + FuelCases(cs[1..])
  }

  /** The cases not flagged fuel, in order. */
  function NonFuelCases(cs: seq<Case>): (r: seq<Case>)
    ensures |r| <= |cs|
  {
    if cs == [] then [] else (if cs[0].isFuel then [] else [cs[0]]) + NonFuelCases(cs[1..])
  }

  /** The two classes partition the cases: together they hold every case
      exactly once. */
  lemma {:induction false} SplitPartition(cs: seq<Case>)
    ensures multiset(FuelCases(cs)) + multiset(NonFuelCases(cs)) == multiset(cs)
    ensures |FuelCases(cs)| + |NonFuelCases(cs)| == |cs|
  {
    if cs != [] {
      SplitPartition(cs[1..]);
      assert cs == [cs[0]] + cs[1..];
    }
  }

  /** The weights of the two classes add up to the weight of all cases. */
  lemma {:induction false} SplitWeight(cs: seq<Case>)
    ensures Weight(FuelCases(cs)) + Weight(NonFuelCases(cs)) == Weight(cs)
  {
    if cs != [] {
      SplitWeight(cs[1..]);
      var f, n := if cs[0].isFuel then [cs[0]] else [], if cs[0].isFuel then [] else [cs[0]];
      WeightConcat(f, FuelCases(cs[1..]));
      WeightConcat(n, NonFuelCases(cs[1..]));
    }
  }

  /** Each class holds only cases of the input, all of the class's kind. */
  lemma {:induction false} SplitClasses(cs: seq<Case>)
    ensures forall c :: c in FuelCases(cs) ==> c.isFuel && c in cs
    ensures forall c :: c in NonFuelCases(cs) ==> !c.isFuel && c in cs
  {
    if cs != [] {
      SplitClasses(cs[1..]);
      assert cs == [cs[0]] + cs[1..];
    }
  }

  /** The split keeps order. */
  lemma {:induction false} FuelCasesAppend(a: seq<Case>, b: seq<Case>)
    ensures FuelCases(a + b) == FuelCases(a) + FuelCases(b)
  {
    if a == [] {
      assert a + b == b;
    } else {
      assert (a + b)[0] == a[0];
      assert (a + b)[1..] == a[1..] + b;
      FuelCasesAppend(a[1..], b);
      var h := if a[0].isFuel then [a[0]] else [];
      assert h + (FuelCases(a[1..]) + FuelCases(b)) == (h + FuelCases(a[1..])) + FuelCases(b);
    }
  }

  lemma {:induction false} NonFuelCasesAppend(a: seq<Case>, b: seq<Case>)
    ensures NonFuelCases(a + b) == NonFuelCases(a) + NonFuelCases(b)
  {
    if a == [] {
      assert a + b == b;
    } else {
      assert (a + b)[0] == a[0];
      assert (a + b)[1..] == a[1..] + b;
      NonFuelCasesAppend(a[1..], b);
      var h := if a[0].isFuel then [] else [a[0]];
      assert h + (NonFuelCases(a[1..]) + NonFuelCases(b)) == (h + NonFuelCases(a[1..])) + NonFuelCases(b);
    }
  }

  /** The rows flagged fuel, in order. */
  function FuelRows(vs: seq<PackableRow>): seq<PackableRow>
  {
    if vs == [] then [] else (if vs[0].fuelFlag == "Yes" then [vs[0]] else []) + FuelRows(vs[1..])
  }

  lemma {:induction false} SplitOfIdentical(c: Case, n: nat)
    ensures FuelCases(seq(n, _ => c)) == if c.isFuel then seq(n, _ => c) else []
  {
    if n > 0 {
      var s := seq(n, _ => c);
      assert s[1..] == seq(n - 1, _ => c);
      SplitOfIdentical(c, n - 1);
    }
  }

  /** Splitting the expanded cases by class is expanding only the rows whose
      flag is exactly "Yes". */
  lemma {:induction false} FuelCasesAreFuelRows(vs: seq<PackableRow>)
    ensures FuelCases(Expand(vs)) == Expand(FuelRows(vs))
  {
    if vs != [] {
      FuelCasesAreFuelRows(vs[1..]);
      FuelCasesAppend(RowCases(vs[0]), Expand(vs[1..]));
      SplitOfIdentical(CaseOf(vs[0]), CaseCount(vs[0].caseQty));
      if vs[0].fuelFlag == "Yes" {
        ExpandAppend([vs[0]], FuelRows(vs[1..]));
        assert Expand([vs[0]]) == RowCases(vs[0]) + Expand([]);
      } else {
        assert FuelRows(vs) == FuelRows(vs[1..]);
      }
    }
  }

  /** When every packed case has one class, every case of every pallet has it. */
  lemma {:induction false} PalletsOfOneClass(ps: seq<Pallet>, fuel: bool)
    requires forall c :: c in Flatten(ps) ==> c.isFuel == fuel
    ensures forall i, j :: 0 <= i < |ps| && 0 <= j < |ps[i]| ==> ps[i][j].isFuel == fuel
  {
    forall i, j | 0 <= i < |ps| && 0 <= j < |ps[i]|
      ensures ps[i][j].isFuel == fuel
    {
      FlattenContains(ps, i, j);
    }
  }

  /** The container fit summary of the optimized page, over the two classes'
      pallets: the total weight is the fuel pallets' weight plus the non-fuel
      pallets' weight, and the pallet count of the single-stack rows is the
      length of the two pallet lists joined. */
  function FitSummary(fuelPallets: seq<Pallet>, nonFuelPallets: seq<Pallet>): (r: seq<ContainerFit.FitResult>)
    ensures |r| == 4
    ensures r[0].fits <==> |fuelPallets + nonFuelPallets| <= 10
    ensures r[1].fits <==> |fuelPallets| <= 20
    ensures r[2].fits <==>
      |fuelPallets + nonFuelPallets| <= 20 && PalletsWeight(fuelPallets) + PalletsWeight(nonFuelPallets) <= 42800.0
    ensures r[3].fits <==> |fuelPallets| <= 40 && PalletsWeight(fuelPallets) <= 42800.0
    ensures r[0].totalPallets == r[2].totalPallets == |fuelPallets + nonFuelPallets|
    ensures r[1].totalPallets == r[3].totalPallets == |fuelPallets|
    ensures r[0].totalWeight == r[2].totalWeight == PalletsWeight(fuelPallets) + PalletsWeight(nonFuelPallets)
    ensures r[1].totalWeight == r[3].totalWeight == PalletsWeight(fuelPallets)
  {
    var allPallets := fuelPallets + nonFuelPallets;
    var fuelWeight := PalletsWeight(fuelPallets);
    var totalWeight := fuelWeight + PalletsWeight(nonFuelPallets);
    ContainerFit.Evaluate(|fuelPallets|, |allPallets| - |fuelPallets|, fuelWeight, totalWeight)
  }

  /** The whole optimized page below the upload: prepare the rows, expand
      them into cases, pack each class on its own and evaluate the four
      containers. */
  method Packout(rows: seq<OrderRow>)
    returns (fuelPallets: seq<Pallet>, nonFuelPallets: seq<Pallet>, summary: seq<ContainerFit.FitResult>)
    ensures var cases := Expand(PrepareRows(rows, 0));
      && IsGreedyPacking(FuelCases(cases), fuelPallets)
      && IsGreedyPacking(NonFuelCases(cases), nonFuelPallets)
      && PalletsWeight(fuelPallets) == Weight(FuelCases(cases))
      && PalletsWeight(fuelPallets) + PalletsWeight(nonFuelPallets) == Weight(cases)
    ensures forall i, j :: 0 <= i < |fuelPallets| && 0 <= j < |fuelPallets[i]| ==> fuelPallets[i][j].isFuel
    ensures forall i, j :: 0 <= i < |nonFuelPallets| && 0 <= j < |nonFuelPallets[i]| ==> !nonFuelPallets[i][j].isFuel
    ensures summary == FitSummary(fuelPallets, nonFuelPallets)
  {
    var prepared := PrepareRows(rows, 0);
    var cases := ExpandCases(prepared);
    var fuelCases, nonFuelCases := FuelCases(cases), NonFuelCases(cases);
    fuelPallets := PackCases(fuelCases);
    nonFuelPallets := PackCases(nonFuelCases);
    PalletsWeightIsCaseWeight(fuelPallets);
    PalletsWeightIsCaseWeight(nonFuelPallets);
    SplitWeight(cases);
    SplitClasses(cases);
    PalletsOfOneClass(fuelPallets, true);
    PalletsOfOneClass(nonFuelPallets, false);
    summary := FitSummary(fuelPallets, nonFuelPallets);
  }
}
