/** The four fixed container profiles and the rule that decides whether a set
    of fuel and non-fuel pallets fits each of them. Both pages of the tool
    apply the same four rules. */
module ContainerFit {

  import opened Wrappers

  /** Weight limit of a 40' container, in pounds. */
  const MaxContainerWeight: real := 42800.0

  /** A container profile. A fuel-only profile is a double-stack profile:
      only fuel pallets may be stacked, so only they are counted. */
  datatype Profile = Profile(name: string, maxPallets: int, maxWeight: Option<real>, fuelOnly: bool)

  /** One row of the container fit summary. */
  datatype FitResult = FitResult(
    container: string,
    maxPallets: int,
    maxWeight: Option<real>,
    fuelPallets: int,
    nonFuelPallets: int,
    totalPallets: int,
    totalWeight: real,
    fits: bool)

  const Profiles: seq<Profile> := [
    Profile("20' Single Stack", 10, None, false),
    Profile("20' Double Stack (Fuels Only)", 20, None, true),
    Profile("40' Single Stack", 20, Some(MaxContainerWeight), false),
    Profile("40' Double Stack (Fuels Only)", 40, Some(MaxContainerWeight), true)
  ]

  /** The summary row of one profile: a fuel-only profile counts fuel pallets
      and fuel weight and reports no non-fuel pallets. */
  function Assess(p: Profile, fuelPallets: int, nonFuelPallets: int, fuelWeight: real, totalWeight: real): FitResult
  {
    var counted := if p.fuelOnly then fuelPallets else fuelPallets + nonFuelPallets;
    var weight := if p.fuelOnly then fuelWeight else totalWeight;
    FitResult(
      p.name, p.maxPallets, p.maxWeight,
      fuelPallets, if p.fuelOnly then 0 else nonFuelPallets,
      counted, weight,
      counted <= p.maxPallets && (p.maxWeight.None? || weight <= p.maxWeight.value))
  }

  /** The container fit summary, one row per profile in table order. */
  function Evaluate(fuelPallets: int, nonFuelPallets: int, fuelWeight: real, totalWeight: real): (r: seq<FitResult>)
    ensures |r| == |Profiles| == 4
    ensures forall i :: 0 <= i < |r| ==>
      r[i].container == Profiles[i].name && r[i].maxPallets == Profiles[i].maxPallets &&
      r[i].maxWeight == Profiles[i].maxWeight && r[i].fuelPallets == fuelPallets
    // 20' single stack: every pallet counts, weight is not limited
    ensures r[0].fits <==> fuelPallets + nonFuelPallets <= 10
    ensures r[0].nonFuelPallets == nonFuelPallets && r[0].totalPallets == fuelPallets + nonFuelPallets
    ensures r[0].totalWeight == totalWeight
    // 20' double stack: fuel pallets only, weight is not limited
    ensures r[1].fits <==> fuelPallets <= 20
    ensures r[1].nonFuelPallets == 0 && r[1].totalPallets == fuelPallets && r[1].totalWeight == fuelWeight
    // 40' single stack: every pallet and the whole weight count
    ensures r[2].fits <==> fuelPallets + nonFuelPallets <= 20 && totalWeight <= 42800.0
    ensures r[2].nonFuelPallets == nonFuelPallets && r[2].totalPallets == fuelPallets + nonFuelPallets
    ensures r[2].totalWeight == totalWeight
    // 40' double stack: fuel pallets and fuel weight only
    ensures r[3].fits <==> fuelPallets <= 40 && fuelWeight <= 42800.0
    ensures r[3].nonFuelPallets == 0 && r[3].totalPallets == fuelPallets && r[3].totalWeight == fuelWeight
  {
    seq(|Profiles|, i requires 0 <= i < |Profiles| =>
      Assess(Profiles[i], fuelPallets, nonFuelPallets, fuelWeight, totalWeight))
  }

  /** The double-stack rows never depend on the non-fuel freight. */
  lemma DoubleStackIgnoresNonFuel(fuelPallets: int, fuelWeight: real, n1: int, t1: real, n2: int, t2: real)
    ensures Evaluate(fuelPallets, n1, fuelWeight, t1)[1] == Evaluate(fuelPallets, n2, fuelWeight, t2)[1]
    ensures Evaluate(fuelPallets, n1, fuelWeight, t1)[3] == Evaluate(fuelPallets, n2, fuelWeight, t2)[3]
  {
  }

  /** Fewer pallets and less weight never turn a fit into a misfit. */
  lemma FitIsMonotone(f1: int, n1: int, fw1: real, t1: real, f2: int, n2: int, fw2: real, t2: real, i: nat)
    requires i < 4
    requires f2 <= f1 && f2 + n2 <= f1 + n1 && fw2 <= fw1 && t2 <= t1
    ensures Evaluate(f1, n1, fw1, t1)[i].fits ==> Evaluate(f2, n2, fw2, t2)[i].fits
  {
  }

  /** When the non-fuel counts and weight are not negative, a load that fits a
      single-stack container of some length also fits that length's
      double-stack profile. */
  lemma SingleStackFitImpliesDoubleStackFit(fuelPallets: int, nonFuelPallets: int, fuelWeight: real, totalWeight: real)
    requires nonFuelPallets >= 0 && fuelWeight <= totalWeight
    ensures Evaluate(fuelPallets, nonFuelPallets, fuelWeight, totalWeight)[0].fits ==>
            Evaluate(fuelPallets, nonFuelPallets, fuelWeight, totalWeight)[1].fits
    ensures Evaluate(fuelPallets, nonFuelPallets, fuelWeight, totalWeight)[2].fits ==>
            Evaluate(fuelPallets, nonFuelPallets, fuelWeight, totalWeight)[3].fits
  {
  }

  /** Two loads: 5 fuel and 6 non-fuel pallets weighing 20000 overflow the 20'
      single stack but fit the 40' single stack; 25 fuel pallets weighing
      40000 overflow the 20' double stack but fit the 40' double stack. */
  lemma FitExamples()
    ensures !Evaluate(5, 6, 10000.0, 20000.0)[0].fits && Evaluate(5, 6, 10000.0, 20000.0)[2].fits
    ensures !Evaluate(25, 0, 40000.0, 40000.0)[1].fits && Evaluate(25, 0, 40000.0, 40000.0)[3].fits
  {
  }
}
