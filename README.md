# Container packout — a Dafny model

The tool is two Streamlit pages. Each reads an order spreadsheet and reports
whether the order fits four container profiles:

- 20' single stack;
- 20' double stack (fuels only);
- 40' single stack;
- 40' double stack (fuels only).

This project models the computation under the upload and display code of both
pages, and proves what each part promises.

- **Optimized page** (`container_packout_app_optimized.py`):
  - each data row gets a cases-per-pallet value from a fixed table of sheet-row
    ranges;
  - incomplete rows are dropped;
  - each surviving row is expanded into `int(qty)` identical case records;
  - the cases are split into fuel and non-fuel, keeping order;
  - each class is packed by a single-pass, first-fit-sequential packer with a
    count cap of 77.42 cases and a weight cap of 1800 lb;
  - the four containers are evaluated from the pallet counts and weight sums.
- **Original page** (`container_packout_app.py`):
  - each order line needs `ceil(qty / casesPerPallet)` pallets, or 0 when the
    quotient is null;
  - the line reserves that many times its pallet weight;
  - lines are split by an exact `"Yes"` flag and summed;
  - the same four container rules are applied.

Files:

- `wrappers.dfy`: `Option`.
- `container_fit.dfy`, module `ContainerFit`: the four container profiles and
  their fit rule. Both pages use it.
- `pallet_packer.dfy`, module `PalletPacker`:
  - the case record, pallets and weights;
  - the packer `PackCases`, an imperative loop over the cases with its
    invariants;
  - a value-level characterisation of the packing it builds (`IsGreedyPacking`);
  - uniqueness of that packing.
- `optimized_packout.dfy`, module `OptimizedPackout`: the row lookup, the drop,
  the case expansion (a nested loop, `ExpandCases`), the class split, and the
  whole optimized pipeline as the method `Packout`.
- `packout_estimate.dfy`, module `PackoutEstimate`: the ceiling estimator and
  the fit summary of the original page.

Modelling choices:

- **Weights are exact reals.** This covers case weights, pallet weights and
  sums. The count cap is compared as a real, as the Python code does, so a
  pallet holds at most 77 cases.
- **Both caps and the 42800 lb container limit are constants**, as in the code.
- **A spreadsheet cell is `Option<real>`**, already coerced. `None` is a blank
  cell or text that failed numeric coercion.
- **The packer's specification is a predicate on its output.** The method
  `PackCases` does what `pack_cases` does. Its postcondition is
  `IsGreedyPacking(cases, pallets)`, a predicate that holds when:
  - the pallets flatten back to the input;
  - every pallet after the first was opened by a case that broke a cap of the
    pallet before it;
  - every other case was accepted without breaking a cap.

  `GreedyPackingUnique` proves that this predicate determines the pallets, so
  the postcondition pins down the whole result. `GreedyPalletCaps` and
  `GreedyEmptyPallets` derive the caps and the empty-pallet behaviour from it.

Three behaviours of the code are kept as written:

- **An extra empty pallet.** When a class's very first case alone weighs more
  than 1800, `pack_cases` closes its still-empty initial pallet before
  placing that case. The result then starts with an empty pallet, and that
  pallet is counted in the container totals. `GreedyEmptyPallets` states
  exactly when this happens.
- **Degenerate divisors on the original page.** Rows with a zero or blank
  cases-per-pallet are not dropped:
  - a blank quantity or divisor gives a null quotient and 0 pallets;
  - `0 / 0` also gives 0 pallets;
  - a negative divisor still rounds its quotient up;
  - a non-zero quantity over a zero divisor makes `math.ceil` raise. The model
    excludes that case with the precondition `Computable`.
- **Whole cases.** Quantities are not required to be whole or non-negative. On
  the optimized page a row contributes `int(qty)` cases, truncated toward
  zero, and none when the quantity is negative.

## Model

| member | source | states |
|---|---|---|
| ContainerFit.Evaluate | container_packout_app.py:41-83 | Four rows in profile order. The single-stack rows count fuel plus non-fuel pallets and the total weight. The double-stack rows count fuel pallets and fuel weight and report 0 non-fuel pallets. Each row fits iff its counted pallets are within its max, and on the 40' rows its counted weight is at most 42800 |
| ContainerFit.DoubleStackIgnoresNonFuel | container_packout_app.py:74-83 | The double-stack rows are the same whatever the non-fuel pallet count and the total weight |
| ContainerFit.FitIsMonotone | container_packout_app.py:41-83 | Fewer pallets and less weight never turn a fit into a misfit, on any of the four rows |
| ContainerFit.SingleStackFitImpliesDoubleStackFit | container_packout_app.py:41-83 | With non-negative non-fuel freight, a load that fits a single stack of some length fits that length's double stack |
| ContainerFit.FitExamples | container_packout_app.py:41-83 | 5 + 6 pallets at 20000 lb miss the 20' single stack and fit the 40' single stack. 25 fuel pallets at 40000 lb miss the 20' double stack and fit the 40' double stack |
| PalletPacker.PackCases | container_packout_app_optimized.py:61-77 | The pallets are a greedy packing of the input. They concatenate back to the input in order, and at every boundary the next case would break the count cap or the weight cap of the pallet before it |
| PalletPacker.Breaks | container_packout_app_optimized.py:67 | The acceptance test `count + 1 > 77.42 or weight + case > 1800`. A pallet of 77 or more cases breaks for any case; below 77 a case breaks iff it takes the weight past 1800 |
| PalletPacker.PalletsWeight | container_packout_app_optimized.py:83-84 | The nested sum of the page: each pallet's case weights, summed over the pallets, 0 for none. PalletsWeightIsCaseWeight ties it to the packed cases |
| PalletPacker.GreedyPalletCaps | container_packout_app_optimized.py:67-74 | In a greedy packing every pallet holds at most 77 cases. A pallet heavier than 1800 is a single case that alone weighs more than 1800 |
| PalletPacker.PalletCaps | container_packout_app_optimized.py:67-74 | A pallet filled by the packer's acceptance test holds at most 77 cases, and exceeds 1800 only as a lone oversized case opened by a break |
| PalletPacker.GreedyEmptyPallets | container_packout_app_optimized.py:66-76 | No cases give no pallets, and cases give at least one. Only the first pallet can be empty, and it is empty iff the first case weighs more than 1800 |
| PalletPacker.WellCutUnique | container_packout_app_optimized.py:61-77 | Two well-cut packings of the same case sequence whose last pallets are non-empty are equal |
| PalletPacker.GreedyPackingUnique | container_packout_app_optimized.py:61-77 | The greedy packing of a case sequence is unique, so packing the same input twice gives the same pallets |
| PalletPacker.HalfCapCasesPairUp | container_packout_app_optimized.py:67-74 | Five cases of 900 lb are packed as [c, c], [c, c], [c] |
| PalletPacker.PalletsWeightIsCaseWeight | container_packout_app_optimized.py:83-84 | The sum of the pallet weights is the weight of all packed cases |
| OptimizedPackout.CasesPerPalletAt | container_packout_app_optimized.py:27-36 | The lookup gives a value iff the sheet row (position + 5) is in 7-159 or 161-179, and every value it gives is positive. Rows 181-366 get NaN and all others keep None; both are no value |
| OptimizedPackout.Prepare | container_packout_app_optimized.py:27-40 | A row is kept iff none of quantity, cases per pallet and pallet weight is missing, which is the `dropna` over those three columns |
| OptimizedPackout.RowSurvival | container_packout_app_optimized.py:27-40 | A row survives iff its sheet row (position + 5) is in 7-159 or 161-179 and its quantity and pallet weight are numeric. A survivor gets 77.42, 18 or 26 cases per pallet by range and keeps its fields |
| OptimizedPackout.PrepareRows | container_packout_app_optimized.py:40 | The drop never yields more rows than it was given |
| OptimizedPackout.PrepareRowsMembers | container_packout_app_optimized.py:27-40 | A prepared row occurs in the result iff some input row survives as exactly that row |
| OptimizedPackout.PrepareRowsAppend | container_packout_app_optimized.py:27-40 | The drop keeps order: preparing two blocks concatenates the two blocks' survivors, each at its own positions |
| OptimizedPackout.TruncToInt | container_packout_app_optimized.py:46 | `int()` of a float: truncation toward zero, within one of the argument on the side of zero |
| OptimizedPackout.CaseCount | container_packout_app_optimized.py:46 | A row contributes the whole number of cases in its quantity, and none for a quantity below one |
| OptimizedPackout.ExpandCases | container_packout_app_optimized.py:43-51 | The nested loop produces, row by row, CaseCount identical cases per row, each weighing palletWeight / casesPerPallet and fuel iff the flag is "Yes". Its length is the sum of the case counts |
| OptimizedPackout.CaseOf | container_packout_app_optimized.py:45-51 | A case record keeps the row's part number. Its weight times the cases per pallet is the pallet weight, and it is fuel iff the flag is exactly "Yes" |
| OptimizedPackout.RowCases | container_packout_app_optimized.py:46-51 | A row's cases are CaseCount(qty) copies of its case record |
| OptimizedPackout.Expand | container_packout_app_optimized.py:43-51 | The rows' cases joined in row order. The number of cases is the sum of the rows' case counts |
| OptimizedPackout.ExpandAppend | container_packout_app_optimized.py:43-51 | Expansion keeps row order: expanding two blocks of rows concatenates their cases |
| OptimizedPackout.ExpandOrigin | container_packout_app_optimized.py:43-51 | Every expanded case is the case record of some surviving row |
| OptimizedPackout.FuelCases | container_packout_app_optimized.py:58 | The fuel comprehension: the fuel cases in input order, never more cases than the input. What they contain is stated by SplitClasses |
| OptimizedPackout.NonFuelCases | container_packout_app_optimized.py:59 | The non-fuel comprehension: the other cases in input order, never more cases than the input |
| OptimizedPackout.SplitPartition | container_packout_app_optimized.py:58-59 | The fuel and non-fuel cases together are a permutation of all cases, with no case lost or duplicated |
| OptimizedPackout.SplitClasses | container_packout_app_optimized.py:58-59 | The fuel list holds only fuel cases of the input, and the non-fuel list only non-fuel cases of the input |
| OptimizedPackout.FuelCasesAppend | container_packout_app_optimized.py:58 | The fuel split keeps order: it distributes over concatenation |
| OptimizedPackout.NonFuelCasesAppend | container_packout_app_optimized.py:59 | The non-fuel split keeps order: it distributes over concatenation |
| OptimizedPackout.SplitWeight | container_packout_app_optimized.py:58-59 | The fuel weight plus the non-fuel weight is the weight of all cases |
| OptimizedPackout.SplitOfIdentical | container_packout_app_optimized.py:58 | The fuel cases of n copies of c are all n copies when c is fuel and none otherwise |
| OptimizedPackout.FuelCasesAreFuelRows | container_packout_app_optimized.py:43-58 | The fuel cases of the expansion are the expansion of exactly the rows flagged "Yes" |
| OptimizedPackout.PalletsOfOneClass | container_packout_app_optimized.py:79-80 | When every packed case has one class, every case on every pallet has that class |
| OptimizedPackout.FitSummary | container_packout_app_optimized.py:86-117 | The four fit rules over the packed pallets. 20' single fits iff all pallets number at most 10. 20' double fits iff fuel pallets number at most 20. 40' single fits iff all pallets number at most 20 and the fuel plus non-fuel pallet weight is at most 42800. 40' double fits iff fuel pallets number at most 40 and their weight is at most 42800. Each row reports the counts and weights it used |
| OptimizedPackout.Packout | container_packout_app_optimized.py:79-117 | The fuel and non-fuel pallets are the greedy packings of the two classes of the expanded survivors. The fuel pallets hold only fuel cases and the others only non-fuel cases. The pallet weights add up to the case weights, and the summary is the fit summary of those pallets |
| PackoutEstimate.Ceil | container_packout_app.py:27 | The least integer not below x |
| PackoutEstimate.PalletsRequired | container_packout_app.py:27 | 0 for a blank quantity or divisor, and 0 for 0 / 0 (a NaN quotient). For a positive divisor, n pallets of casesPerPallet hold the quantity and n - 1 do not, and n is non-negative for a non-negative quantity. For a negative divisor, n is the quotient rounded up |
| PackoutEstimate.PalletsRequiredIsLeast | container_packout_app.py:27 | For a positive divisor, no smaller pallet count holds the quantity |
| PackoutEstimate.LineWeight | container_packout_app.py:28 | Total Pallet Weight: None (NaN) iff the pallet weight is blank, otherwise Pallets Required times the pallet weight |
| PackoutEstimate.TotalPallets | container_packout_app.py:34-35 | The `sum()` of Pallets Required over the lines, 0 for none |
| PackoutEstimate.TotalWeight | container_packout_app.py:36 | The `sum()` of Total Pallet Weight over the lines, skipping NaN entries as pandas does |
| PackoutEstimate.TotalsAppend | container_packout_app.py:34-36 | Both sums add up over consecutive blocks of lines |
| PackoutEstimate.BlankWeightAddsNoWeight | container_packout_app.py:28-36 | A line with a blank pallet weight adds its pallets to the total but no weight, because its NaN is skipped |
| PackoutEstimate.LineWeightCoversCases | container_packout_app.py:28 | For a positive divisor and pallet weight, the reserved weight is at least the weight of the ordered cases and less than one pallet more |
| PackoutEstimate.FuelLines | container_packout_app.py:31 | The mask `== "Yes"`: the matching lines in order, never more lines than the input. What they contain is stated by SplitClasses |
| PackoutEstimate.NonFuelLines | container_packout_app.py:32 | The mask `!= "Yes"`: all other lines in order, including "yes" and blank flags |
| PackoutEstimate.SplitPartition | container_packout_app.py:31-32 | The fuel and non-fuel lines together are a permutation of the lines |
| PackoutEstimate.SplitClasses | container_packout_app.py:31-32 | The fuel lines are lines of the input flagged exactly "Yes"; the others are lines of the input with any other flag |
| PackoutEstimate.SplitTotals | container_packout_app.py:31-36 | The fuel pallets plus the non-fuel pallets are the pallets of all lines, and the same holds for the reserved weights |
| PackoutEstimate.FuelLinesAppend | container_packout_app.py:31 | The fuel filter distributes over concatenation |
| PackoutEstimate.Summary | container_packout_app.py:41-83 | The four rows over the line totals. 20' single fits iff all pallets number at most 10. 20' double fits iff fuel pallets number at most 20. 40' single fits iff all pallets number at most 20 and all lines' weight is at most 42800. 40' double fits iff fuel pallets number at most 40 and the fuel lines' weight is at most 42800. The double-stack rows report 0 non-fuel pallets and fuel-only totals. Every row reports the fuel lines' pallets as Fuel Pallets, and the single-stack rows report the other lines' pallets as Non-Fuel Pallets |
| PackoutEstimate.DoubleStackIgnoresNonFuelLine | container_packout_app.py:74-83 | Adding a line not flagged "Yes" leaves both double-stack rows unchanged |

## Left out

- The Streamlit page: page setup, the file uploader, `pd.read_excel`, tables, `st.write` lines and the CSV download. This is presentation and I/O.
- The required-column check. It is a template validation before any computation.
- `pd.to_numeric(..., errors="coerce")`. Rows arrive with each numeric cell already coerced to `Option<real>`.
- Floating-point rounding. Weights, quotients and sums are exact reals, so results that IEEE doubles round differently are not modelled.
- Pandas index labels. The row lookup uses a row's position as its index, as for the default range index of a freshly read sheet.
- PackoutEstimate.PalletsRequired: a non-zero quantity over a zero cases-per-pallet makes `math.ceil(inf)` raise. The model excludes it by the precondition `Computable` rather than modelling the exception.
- Text in a numeric column of the original page. In the quantity or cases-per-pallet column it makes the division at container_packout_app.py:27 raise. In the pallet-weight column it is carried into the product at line 28 and the weight sums and comparisons after it. Text is not modelled on that page: `None` means only a blank (NaN) cell.
- Display-only differences: the optimized page omits the `Max Weight` key on its 20' rows and has no fuel or non-fuel pallet columns, which the model's rows still carry; and `Fits` is a "Yes"/"No" string where the model has a boolean.
- Configurable caps and profiles: the packer caps and the container profiles are fixed constants, as in the code.
