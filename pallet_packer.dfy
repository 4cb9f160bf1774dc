/** The greedy pallet packer of the optimized packout page: a single pass,
    first-fit-sequential packer with a case-count cap and a weight cap, and
    the characterisation of the pallet sequence it produces. */
module PalletPacker {

  /** One ordered case: its part number, its weight in pounds and its class. */
  datatype Case = Case(partNumber: string, weight: real, isFuel: bool)

  type Pallet = seq<Case>

  /** The count cap is compared as a real number: a pallet may hold at most
      77 cases, since a case is refused when count + 1 > 77.42. */
  const MaxCasesPerPallet: real := 77.42
  const MaxPalletWeight: real := 1800.0

  /** Sum of the case weights, left to right. */
  function Weight(p: seq<Case>): real
  {
    if p == [] then 0.0 else p[0].weight + Weight(p[1..])
  }

  lemma {:induction false} WeightConcat(a: seq<Case>, b: seq<Case>)
    ensures Weight(a + b) == Weight(a) + Weight(b)
  {
    if a == [] {
      assert a + b == b;
    } else {
      assert (a + b)[1..] == a[1..] + b;
      WeightConcat(a[1..], b);
    }
  }

  /** The cases of all pallets, in pallet order. */
  function Flatten(ps: seq<Pallet>): seq<Case>
  {
    if ps == [] then [] else ps[0] + Flatten(ps[1..])
  }

  lemma {:induction false} FlattenAppend(ps: seq<Pallet>, p: Pallet)
    ensures Flatten(ps + [p]) == Flatten(ps) + p
  {
    if ps == [] {
      assert [] + [p] == [p];
      assert Flatten([p]) == p + Flatten([]);
    } else {
      assert (ps + [p])[1..] == ps[1..] + [p];
      FlattenAppend(ps[1..], p);
    }
  }

  lemma {:induction false} FlattenOfEmpty(ps: seq<Pallet>)
    requires Flatten(ps) == []
    ensures forall i :: 0 <= i < |ps| ==> ps[i] == []
  {
    if ps != [] {
      FlattenOfEmpty(ps[1..]);
      assert forall i :: 1 <= i < |ps| ==> ps[i] == ps[1..][i - 1];
    }
  }

  /** Sum of the pallet weights, as the page totals each class. */
  function PalletsWeight(ps: seq<Pallet>): real
  {
    if ps == [] then 0.0 else Weight(ps[0]) + PalletsWeight(ps[1..])
  }

  /** Packing neither adds nor loses weight. */
  lemma {:induction false} PalletsWeightIsCaseWeight(ps: seq<Pallet>)
    ensures PalletsWeight(ps) == Weight(Flatten(ps))
  {
    if ps != [] {
      PalletsWeightIsCaseWeight(ps[1..]);
      WeightConcat(ps[0], Flatten(ps[1..]));
    }
  }

  /** Every case of every pallet is one of the flattened cases. */
  lemma {:induction false} FlattenContains(ps: seq<Pallet>, i: nat, j: nat)
    requires i < |ps| && j < |ps[i]|
    ensures ps[i][j] in Flatten(ps)
  {
    if i > 0 {
      FlattenContains(ps[1..], i - 1, j);
    }
  }

  /** The packer closes pallet p before case c: c would take p past the count
      cap or past the weight cap. */
  predicate Breaks(p: Pallet, c: Case)
    ensures |p| >= 77 ==> Breaks(p, c)
    ensures |p| < 77 ==> (Breaks(p, c) <==> Weight(p) + c.weight > MaxPalletWeight)
  {
    (|p| + 1) as real > MaxCasesPerPallet || Weight(p) + c.weight > MaxPalletWeight
  }

  /** Every case of p from position `from` on was accepted onto the cases in
      front of it without breaking a cap. */
  ghost predicate FitsFrom(p: Pallet, from: nat)
  {
    forall j :: from <= j < |p| ==> !Breaks(p[..j], p[j])
  }

  /** The cuts of a first-fit-sequential packing: every pallet after the first
      is opened by a case that broke a cap of the pallet before it, and every
      other case was accepted where it lies. With start == 0 the first pallet
      is the packer's initial one: it may be empty, and its first case had to
      fit onto nothing. With start == 1 the first pallet was opened by a break. */
  ghost predicate WellCut(ps: seq<Pallet>, start: nat)
  {
    && (forall i :: 0 < i < |ps| ==> ps[i] != [] && Breaks(ps[i - 1], ps[i][0]))
    && (forall i :: 0 <= i < |ps| ==> FitsFrom(ps[i], if i == 0 then start else 1))
    && (start > 0 && |ps| > 0 ==> ps[0] != [])
  }

  /** `pallets` is what the greedy packer makes of `cases`. */
  ghost predicate IsGreedyPacking(cases: seq<Case>, pallets: seq<Pallet>)
  {
    && Flatten(pallets) == cases
    && WellCut(pallets, 0)
    && (pallets != [] ==> pallets[|pallets| - 1] != [])
  }

  lemma FitsFromExtend(p: Pallet, c: Case, from: nat)
    requires FitsFrom(p, from) && !Breaks(p, c)
    ensures FitsFrom(p + [c], from)
  {
    forall j | from <= j < |p| + 1
      ensures !Breaks((p + [c])[..j], (p + [c])[j])
    {
      if j < |p| {
        assert (p + [c])[..j] == p[..j];
      } else {
        assert (p + [c])[..j] == p;
      }
    }
  }

  /** Loop step when the case breaks a cap: the open pallet is closed and the
      case opens a new one. */
  lemma CloseAndOpen(ps: seq<Pallet>, c: Case)
    requires WellCut(ps, 0) && ps != []
    requires Breaks(ps[|ps| - 1], c)
    ensures WellCut(ps + [[c]], 0)
  {
    var qs := ps + [[c]];
    assert forall i :: 0 <= i < |ps| ==> qs[i] == ps[i];
    assert FitsFrom([c], 1);
  }

  /** Loop step when the case fits: it joins the open pallet. */
  lemma Grow(ps: seq<Pallet>, c: Case)
    requires WellCut(ps, 0) && ps != []
    requires !Breaks(ps[|ps| - 1], c)
    ensures WellCut(ps[..|ps| - 1] + [ps[|ps| - 1] + [c]], 0)
  {
    var n := |ps| - 1;
    var qs := ps[..n] + [ps[n] + [c]];
    assert forall i :: 0 <= i < n ==> qs[i] == ps[i];
    assert qs[n] == ps[n] + [c];
    FitsFromExtend(ps[n], c, if n == 0 then 0 else 1);
    if n > 0 {
      assert ps[n] != [];
      assert qs[n][0] == ps[n][0];
    }
  }

  /** The caps of one pallet, given how it was filled. */
  lemma PalletCaps(p: Pallet, from: nat)
    requires from <= 1 && FitsFrom(p, from)
    ensures |p| <= 77
    ensures Weight(p) > MaxPalletWeight ==> from == 1 && |p| == 1 && p[0].weight > MaxPalletWeight
  {
    if |p| >= 2 {
      var j := |p| - 1;
      assert !Breaks(p[..j], p[j]);
      assert p == p[..j] + [p[j]];
      WeightConcat(p[..j], [p[j]]);
      assert Weight([p[j]]) == p[j].weight;
    } else if |p| == 1 {
      assert p[..0] == [];
      assert Weight(p) == p[0].weight;
    }
  }

  /** What the greedy packing promises about each pallet: at most 77 cases,
      and at most 1800 pounds unless the pallet is a single case that alone
      weighs more than 1800. */
  lemma GreedyPalletCaps(cases: seq<Case>, ps: seq<Pallet>)
    requires IsGreedyPacking(cases, ps)
    ensures forall i :: 0 <= i < |ps| ==> |ps[i]| <= 77
    ensures forall i :: 0 <= i < |ps| && Weight(ps[i]) > MaxPalletWeight ==>
      |ps[i]| == 1 && ps[i][0].weight > MaxPalletWeight
  {
    forall i | 0 <= i < |ps|
      ensures |ps[i]| <= 77
      ensures Weight(ps[i]) > MaxPalletWeight ==> |ps[i]| == 1 && ps[i][0].weight > MaxPalletWeight
    {
      PalletCaps(ps[i], if i == 0 then 0 else 1);
    }
  }

  /** Empty input gives no pallets; only the first pallet can be empty, and it
      is empty exactly when the first case alone weighs more than 1800. */
  lemma GreedyEmptyPallets(cases: seq<Case>, ps: seq<Pallet>)
    requires IsGreedyPacking(cases, ps)
    ensures ps == [] <==> cases == []
    ensures forall i :: 0 < i < |ps| ==> ps[i] != []
    ensures cases != [] ==> (ps[0] == [] <==> cases[0].weight > MaxPalletWeight)
  {
    if cases == [] && ps != [] {
      FlattenOfEmpty(ps);
    }
    if ps != [] {
      assert Flatten(ps) == ps[0] + Flatten(ps[1..]);
      if ps[0] == [] {
        assert |ps| > 1;
        assert Flatten(ps[1..]) == ps[1] + Flatten(ps[2..]);
        assert cases[0] == ps[1][0];
        assert Breaks(ps[0], ps[1][0]);
        assert Weight(ps[0]) == 0.0;
      } else {
        assert cases[0] == ps[0][0];
        assert ps[0][..0] == [];
        assert !Breaks(ps[0][..0], ps[0][0]);
      }
    }
  }

  /** A first pallet shorter than another packing's first pallet is
      impossible: the case after it is accepted by one packing and refused by
      the other. */
  lemma FirstPalletNotShorter(ps1: seq<Pallet>, ps2: seq<Pallet>, start: nat)
    requires start <= 1 && WellCut(ps1, start) && WellCut(ps2, start)
    requires ps1 != [] && ps2 != []
    requires Flatten(ps1) == Flatten(ps2)
    ensures |ps2[0]| <= |ps1[0]|
  {
    var f, k := Flatten(ps1), |ps1[0]|;
    assert f == ps1[0] + Flatten(ps1[1..]);
    assert f == ps2[0] + Flatten(ps2[1..]);
    if |ps1| > 1 {
      assert Flatten(ps1[1..]) == ps1[1] + Flatten(ps1[2..]);
      assert f[..k] == ps1[0] && f[k] == ps1[1][0];
      assert Breaks(f[..k], f[k]);
      if |ps2[0]| > k {
        AcceptedInPrefix(ps2[0], f, k, start);
        assert false;
      }
    }
  }

  /** A pallet that is a prefix of f and accepted case k of f on top of the
      cases before it. */
  lemma AcceptedInPrefix(p: Pallet, f: seq<Case>, k: nat, from: nat)
    requires FitsFrom(p, from) && |p| <= |f| && p == f[..|p|]
    requires from <= k < |p|
    ensures !Breaks(f[..k], f[k])
  {
    assert p[..k] == f[..k] && p[k] == f[k];
  }

  /** Dropping the first pallet leaves a packing whose first pallet was
      opened by a break. */
  lemma WellCutTail(ps: seq<Pallet>, start: nat)
    requires WellCut(ps, start) && ps != []
    ensures WellCut(ps[1..], 1)
  {
    var t := ps[1..];
    assert forall i :: 0 <= i < |t| ==> t[i] == ps[i + 1];
  }

  /** Two packings of one list whose first pallets have the same length share
      the first pallet, and the rest of each packs the same cases. */
  lemma SameFirstPallet(ps1: seq<Pallet>, ps2: seq<Pallet>)
    requires ps1 != [] && ps2 != [] && |ps1[0]| == |ps2[0]|
    requires Flatten(ps1) == Flatten(ps2)
    ensures ps1[0] == ps2[0] && Flatten(ps1[1..]) == Flatten(ps2[1..])
  {
    var f, k := Flatten(ps1), |ps1[0]|;
    assert f == ps1[0] + Flatten(ps1[1..]);
    assert f == ps2[0] + Flatten(ps2[1..]);
    assert ps1[0] == f[..k] == ps2[0];
    assert Flatten(ps1[1..]) == f[k..] == Flatten(ps2[1..]);
  }

  lemma {:induction false} WellCutUnique(ps1: seq<Pallet>, ps2: seq<Pallet>, start: nat)
    requires start <= 1 && WellCut(ps1, start) && WellCut(ps2, start)
    requires ps1 != [] ==> ps1[|ps1| - 1] != []
    requires ps2 != [] ==> ps2[|ps2| - 1] != []
    requires Flatten(ps1) == Flatten(ps2)
    ensures ps1 == ps2
    decreases |ps1|
  {
    if ps1 == [] || ps2 == [] {
      if ps1 != [] {
        FlattenOfEmpty(ps1);
      } else if ps2 != [] {
        FlattenOfEmpty(ps2);
      }
    } else {
      FirstPalletNotShorter(ps1, ps2, start);
      FirstPalletNotShorter(ps2, ps1, start);
      SameFirstPallet(ps1, ps2);
      WellCutTail(ps1, start);
      WellCutTail(ps2, start);
      var t1, t2 := ps1[1..], ps2[1..];
      assert t1 != [] ==> t1[|t1| - 1] == ps1[|ps1| - 1];
      assert t2 != [] ==> t2[|t2| - 1] == ps2[|ps2| - 1];
      WellCutUnique(t1, t2, 1);
      assert ps1 == [ps1[0]] + t1;
      assert ps2 == [ps2[0]] + t2;
    }
  }

  /** The greedy packing of a case list is unique: packing the same list
      twice gives the same pallets. */
  lemma GreedyPackingUnique(cases: seq<Case>, ps1: seq<Pallet>, ps2: seq<Pallet>)
    requires IsGreedyPacking(cases, ps1) && IsGreedyPacking(cases, ps2)
    ensures ps1 == ps2
  {
    WellCutUnique(ps1, ps2, 0);
  }

  /** The packer's loop invariant: after the first i cases, the closed
      pallets followed by the open one are a well-cut packing of them. */
  ghost predicate PackedPrefix(cases: seq<Case>, i: nat, pallets: seq<Pallet>, current: Pallet)
  {
    && i <= |cases|
    && Flatten(pallets) + current == cases[..i]
    && WellCut(pallets + [current], 0)
    && (i > 0 ==> current != [])
  }

  lemma StepBreak(cases: seq<Case>, i: nat, pallets: seq<Pallet>, current: Pallet)
    requires PackedPrefix(cases, i, pallets, current) && i < |cases|
    requires Breaks(current, cases[i])
    ensures PackedPrefix(cases, i + 1, pallets + [current], [cases[i]])
  {
    CloseAndOpen(pallets + [current], cases[i]);
    FlattenAppend(pallets, current);
    assert cases[..i + 1] == cases[..i] + [cases[i]];
  }

  lemma StepGrow(cases: seq<Case>, i: nat, pallets: seq<Pallet>, current: Pallet)
    requires PackedPrefix(cases, i, pallets, current) && i < |cases|
    requires !Breaks(current, cases[i])
    ensures PackedPrefix(cases, i + 1, pallets, current + [cases[i]])
  {
    Grow(pallets + [current], cases[i]);
    assert (pallets + [current])[..|pallets|] == pallets;
    assert cases[..i + 1] == cases[..i] + [cases[i]];
  }

  lemma PackedAll(cases: seq<Case>, pallets: seq<Pallet>, current: Pallet)
    requires PackedPrefix(cases, |cases|, pallets, current)
    ensures IsGreedyPacking(cases, if current != [] then pallets + [current] else pallets)
  {
    assert cases[..|cases|] == cases;
    if current != [] {
      FlattenAppend(pallets, current);
    } else {
      assert (pallets + [current])[|pallets|] == current;
    }
  }

  /** The packer: walks the cases once, closing the open pallet before any case
      that would take it past 77.42 cases or 1800 pounds. When the very first
      case alone weighs more than 1800 the still-empty initial pallet is
      closed, so the result then starts with an empty pallet. */
  method PackCases(cases: seq<Case>) returns (pallets: seq<Pallet>)
    ensures IsGreedyPacking(cases, pallets)
    ensures Flatten(pallets) == cases
    ensures forall i :: 0 <= i < |pallets| - 1 ==> Breaks(pallets[i], pallets[i + 1][0])
  {
    pallets := [];
    var current: Pallet := [];
    var count := 0;
    var weight := 0.0;
    for i := 0 to |cases|
      invariant PackedPrefix(cases, i, pallets, current)
      invariant count == |current| && weight == Weight(current)
    {
      var c := cases[i];
      if (count + 1) as real > MaxCasesPerPallet || weight + c.weight > MaxPalletWeight {
        StepBreak(cases, i, pallets, current);
        pallets := pallets + [current];
        current := [];
        count := 0;
        weight := 0.0;
      } else {
        StepGrow(cases, i, pallets, current);
      }
      WeightConcat(current, [c]);
      assert Weight([c]) == c.weight;
      current := current + [c];
      count := count + 1;
      weight := weight + c.weight;
    }
    PackedAll(cases, pallets, current);
    if current != [] {
      pallets := pallets + [current];
    }
  }

  /** Five cases of 900 pounds: each pair of consecutive cases reaches the
      weight cap exactly, so the packing is [c, c], [c, c], [c]. */
  lemma HalfCapCasesPairUp(c: Case, ps: seq<Pallet>)
    requires c.weight == 900.0
    requires IsGreedyPacking([c, c, c, c, c], ps)
    ensures ps == [[c, c], [c, c], [c]]
  {
    var pair, single := [c, c], [c];
    var qs := [pair, pair, single];
    assert Weight(single) == 900.0;
    assert Weight(pair) == 1800.0;
    assert pair[..0] == [] && pair[..1] == single;
    assert FitsFrom(pair, 0) && FitsFrom(pair, 1) && FitsFrom(single, 1);
    assert Flatten([single]) == single by {
      assert [single][1..] == [];
    }
    assert Flatten([pair, single]) == pair + single by {
      assert [pair, single][1..] == [single];
    }
    assert Flatten(qs) == pair + (pair + single) by {
      assert qs[1..] == [pair, single];
    }
    assert pair + (pair + single) == [c, c, c, c, c];
    assert IsGreedyPacking([c, c, c, c, c], qs);
    GreedyPackingUnique([c, c, c, c, c], ps, qs);
  }
}
