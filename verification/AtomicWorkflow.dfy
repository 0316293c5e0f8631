/** The X/C atomic workflow test: a ledger of both chains with the exports in flight between them, and the
    balances the test expects along the way. */
module AtomicWorkflow {
  import opened MachineInts
  import opened Options

  const X2C_CONVERSION: nat := 1_000_000_000
  const TWO_63: int := 0x8000_0000_0000_0000

  datatype Parcel = Avax(amount: nat) | Asset(amount: nat)

  /** `cWei` is the C-Chain balance in wei; `toC` and `toX` are exported and not yet imported. */
  datatype Chains = Chains(xAvax: nat, xAsset: nat, toC: seq<Parcel>, toX: seq<Parcel>, cWei: nat, cAsset: nat,
                           burnt: nat)

  function AvaxIn(parcels: seq<Parcel>): nat {
    if parcels == [] then 0
    else
      var last := parcels[|parcels| - 1];
      AvaxIn(parcels[..|parcels| - 1]) + (if last.Avax? then last.amount else 0)
  }

  function AssetIn(parcels: seq<Parcel>): nat {
    if parcels == [] then 0
    else
      var last := parcels[|parcels| - 1];
      AssetIn(parcels[..|parcels| - 1]) + (if last.Asset? then last.amount else 0)
  }

  lemma {:induction false} ParcelAdded(parcels: seq<Parcel>, p: Parcel)
    ensures AvaxIn(parcels + [p]) == AvaxIn(parcels) + (if p.Avax? then p.amount else 0)
    ensures AssetIn(parcels + [p]) == AssetIn(parcels) + (if p.Asset? then p.amount else 0)
  {
    assert (parcels + [p])[..|parcels|] == parcels;
  }

  // ---------- operations ----------

  datatype Op =
    | CreateAsset(amount: nat)
    | ExportAvaxToC(amount: nat)
    | ExportAssetToC(amount: nat)
    | ImportToC
    | ExportAvaxToX(amount: nat)
    | ExportAssetToX(amount: nat)
    | ImportToX

  /** X-Chain transactions cost `txFee`; C-Chain atomic transactions are free; importing nothing fails. */
  function Do(s: Chains, txFee: nat, op: Op): Option<Chains> {
    match op
    case CreateAsset(amount) =>
      if s.xAvax < txFee then None
      else Some(s.(xAvax := s.xAvax - txFee, xAsset := s.xAsset + amount, burnt := s.burnt + txFee))
    case ExportAvaxToC(amount) =>
      if s.xAvax < amount + txFee then None
      else Some(s.(xAvax := s.xAvax - amount - txFee, toC := s.toC + [Avax(amount)], burnt := s.burnt + txFee))
    case ExportAssetToC(amount) =>
      if s.xAvax < txFee || s.xAsset < amount then None
      else Some(s.(xAvax := s.xAvax - txFee, xAsset := s.xAsset - amount, toC := s.toC + [Asset(amount)],
                   burnt := s.burnt + txFee))
    case ImportToC =>
      if s.toC == [] then None
      else Some(s.(cWei := s.cWei + AvaxIn(s.toC) * X2C_CONVERSION, cAsset := s.cAsset + AssetIn(s.toC), toC := []))
    case ExportAvaxToX(amount) =>
      if s.cWei < amount * X2C_CONVERSION then None
      else Some(s.(cWei := s.cWei - amount * X2C_CONVERSION, toX := s.toX + [Avax(amount)]))
    case ExportAssetToX(amount) =>
      if s.cAsset < amount then None
      else Some(s.(cAsset := s.cAsset - amount, toX := s.toX + [Asset(amount)]))
    case ImportToX =>
      if s.toX == [] || s.xAvax + AvaxIn(s.toX) < txFee then None
      else Some(s.(xAvax := s.xAvax + AvaxIn(s.toX) - txFee, xAsset := s.xAsset + AssetIn(s.toX), toX := [],
                   burnt := s.burnt + txFee))
  }

  /** The AVAX that is not on the C-Chain, in nAVAX: on the X-Chain, in flight, or burnt as fees. */
  function Elsewhere(s: Chains): nat {
    s.xAvax + AvaxIn(s.toC) + AvaxIn(s.toX) + s.burnt
  }

  /** All AVAX in wei. */
  function AvaxValue(s: Chains): nat {
    Elsewhere(s) * X2C_CONVERSION + s.cWei
  }

  function AssetValue(s: Chains): nat {
    s.xAsset + AssetIn(s.toC) + AssetIn(s.toX) + s.cAsset
  }

  /** What an operation moves onto the C-Chain, in nAVAX; the rest of the AVAX only changes places elsewhere. */
  function Arriving(s: Chains, op: Op): int {
    match op
    case ImportToC => AvaxIn(s.toC)
    case ExportAvaxToX(amount) => 0 - amount
    case _ => 0
  }

  lemma {:induction false} OpMoves(s: Chains, txFee: nat, op: Op)
    requires Do(s, txFee, op).Some?
    ensures Elsewhere(Do(s, txFee, op).value) == Elsewhere(s) - Arriving(s, op)
    ensures AssetValue(Do(s, txFee, op).value) == AssetValue(s) + (if op.CreateAsset? then op.amount else 0)
  {
    match op
    case ExportAvaxToC(amount) => ParcelAdded(s.toC, Avax(amount));
    case ExportAssetToC(amount) => ParcelAdded(s.toC, Asset(amount));
    case ExportAvaxToX(amount) => ParcelAdded(s.toX, Avax(amount));
    case ExportAssetToX(amount) => ParcelAdded(s.toX, Asset(amount));
    case CreateAsset(_) =>
    case ImportToC =>
    case ImportToX =>
  }

  lemma {:induction false} OpArrives(s: Chains, txFee: nat, op: Op)
    requires Do(s, txFee, op).Some?
    ensures Do(s, txFee, op).value.cWei == s.cWei + Arriving(s, op) * X2C_CONVERSION
  {
  }

  lemma {:induction false} OpConserves(s: Chains, txFee: nat, op: Op)
    requires Do(s, txFee, op).Some?
    ensures AvaxValue(Do(s, txFee, op).value) == AvaxValue(s)
    ensures AssetValue(Do(s, txFee, op).value) == AssetValue(s) + (if op.CreateAsset? then op.amount else 0)
  {
    OpMoves(s, txFee, op);
    OpArrives(s, txFee, op);
    ScaledDifference(Elsewhere(s), Arriving(s, op));
  }

  lemma {:induction false} ScaledDifference(a: int, b: int)
    ensures (a - b) * X2C_CONVERSION == a * X2C_CONVERSION - b * X2C_CONVERSION
  {
  }

  function DoAll(s: Chains, txFee: nat, ops: seq<Op>): Option<Chains>
    decreases |ops|
  {
    if ops == [] then Some(s)
    else
      match Do(s, txFee, ops[0])
      case None => None
      case Some(next) => DoAll(next, txFee, ops[1..])
  }

  function Created(ops: seq<Op>): nat {
    if ops == [] then 0 else (if ops[0].CreateAsset? then ops[0].amount else 0) + Created(ops[1..])
  }

  /** Conservation over any run of operations: AVAX never changes in total, the asset only by creation. */
  lemma {:induction false} RunConserves(s: Chains, txFee: nat, ops: seq<Op>)
    requires DoAll(s, txFee, ops).Some?
    ensures AvaxValue(DoAll(s, txFee, ops).value) == AvaxValue(s)
    ensures AssetValue(DoAll(s, txFee, ops).value) == AssetValue(s) + Created(ops)
    decreases |ops|
  {
    if ops != [] {
      OpConserves(s, txFee, ops[0]);
      RunConserves(Do(s, txFee, ops[0]).value, txFee, ops[1..]);
    }
  }

  // ---------- the test ----------

  datatype Check =
    | MidXAvax | MidXAsset | MidCAvax | MidCAsset | CAvaxBackToZero | CAssetBackToZero | FinalXAvax | FinalXAsset

  datatype Step =
    | Creating | ExportingAvax | ExportingAsset | ImportingToC | ExportingAvaxBack | ExportingAssetBack | ImportingBack

  datatype Outcome = Passed | OpFailed(step: Step) | SecondImportWorked | CheckFailed(check: Check)

  /** Reinterpretation of a `uint64` as an `int64`. */
  function ToInt64(x: uint64): (r: int)
    ensures 0 - 9_223_372_036_854_775_808 <= r <= 9_223_372_036_854_775_807
    ensures r == x || r == x - 18_446_744_073_709_551_616
  {
    if x < TWO_63 then x else x - TWO_64
  }

  function Start(initial: nat): Chains {
    Chains(initial, 0, [], [], 0, 0, 0)
  }

  /** Every operation can be paid for, and the exported amounts keep their sign in the comparisons. */
  predicate Payable(initial: uint64, txFee: uint64, exportAvax: uint64, assetAmount: uint64, exportAsset: uint64) {
    && exportAvax + 3 * txFee <= initial
    && 4 * txFee <= initial
    && exportAsset <= assetAmount
    && exportAvax < TWO_63 && exportAsset < TWO_63
  }

  /** Both exports, with the running expectations beside them. */
  method ExportBoth(s0: Chains, startAvax: uint64, startAsset: uint64, txFee: uint64, exportAvax: uint64,
                    exportAsset: uint64)
    returns (failed: Option<Step>, s: Chains, expectedAvax: uint64, expectedAsset: uint64)
    requires s0.toC == [] && startAvax == s0.xAvax && startAsset == s0.xAsset
    ensures failed.Some? ==> failed.value in {ExportingAvax, ExportingAsset}
    ensures failed.None? <==> exportAvax + 2 * txFee <= s0.xAvax && exportAsset <= s0.xAsset
    ensures failed == Some(ExportingAvax) <==> s0.xAvax < exportAvax + txFee
    ensures failed == Some(ExportingAvax) ==> s == s0
    ensures failed == Some(ExportingAsset) ==>
              s == s0.(xAvax := s0.xAvax - exportAvax - txFee, toC := [Avax(exportAvax)], burnt := s0.burnt + txFee)
    ensures failed.None? ==>
              s == s0.(xAvax := s0.xAvax - exportAvax - 2 * txFee, xAsset := s0.xAsset - exportAsset,
                       toC := [Avax(exportAvax), Asset(exportAsset)], burnt := s0.burnt + 2 * txFee)
    ensures failed.None? ==> expectedAvax == s.xAvax && expectedAsset == s.xAsset
  {
    s, expectedAvax, expectedAsset := s0, startAvax, startAsset;
    var next := Do(s, txFee, ExportAvaxToC(exportAvax));
    if next.None? {
      return Some(ExportingAvax), s, expectedAvax, expectedAsset;
    }
    s := next.value;
    WrapOfExact(exportAvax + txFee);
    WrapOfExact(expectedAvax - (exportAvax + txFee));
    expectedAvax := Wrap(expectedAvax - Wrap(exportAvax + txFee));

    next := Do(s, txFee, ExportAssetToC(exportAsset));
    if next.None? {
      return Some(ExportingAsset), s, expectedAvax, expectedAsset;
    }
    s := next.value;
    WrapOfExact(expectedAvax - txFee);
    WrapOfExact(expectedAsset - exportAsset);
    expectedAvax := Wrap(expectedAvax - txFee);
    expectedAsset := Wrap(expectedAsset - exportAsset);
    failed := None;
  }

  /** Creation and both exports, with the running expectations beside them. */
  method ExportPhase(initial: uint64, txFee: uint64, exportAvax: uint64, assetAmount: uint64, exportAsset: uint64)
    returns (failed: Option<Step>, s: Chains, expectedAvax: uint64, expectedAsset: uint64)
    ensures failed.Some? ==> failed.value in {Creating, ExportingAvax, ExportingAsset}
    ensures failed == Some(Creating) <==> initial < txFee
    ensures failed == Some(ExportingAvax) <==> txFee <= initial < exportAvax + 2 * txFee
    ensures failed.None? <==> exportAvax + 3 * txFee <= initial && exportAsset <= assetAmount
    ensures failed.None? ==>
              s == Chains(initial - exportAvax - 3 * txFee, assetAmount - exportAsset,
                          [Avax(exportAvax), Asset(exportAsset)], [], 0, 0, 3 * txFee)
    ensures failed.None? ==> expectedAvax == s.xAvax && expectedAsset == s.xAsset
    ensures failed == Some(Creating) ==> s == Chains(initial, 0, [], [], 0, 0, 0)
    ensures failed == Some(ExportingAvax) ==> s == Chains(initial - txFee, assetAmount, [], [], 0, 0, txFee)
    ensures failed == Some(ExportingAsset) ==>
              s == Chains(initial - exportAvax - 2 * txFee, assetAmount, [Avax(exportAvax)], [], 0, 0, 2 * txFee)
  {
    s, expectedAvax, expectedAsset := Start(initial), initial, assetAmount;
    var next := Do(s, txFee, CreateAsset(assetAmount));
    if next.None? {
      return Some(Creating), s, expectedAvax, expectedAsset;
    }
    s := next.value;
    WrapOfExact(expectedAvax - txFee);
    expectedAvax := Wrap(expectedAvax - txFee);
    failed, s, expectedAvax, expectedAsset :=
      ExportBoth(s, expectedAvax, expectedAsset, txFee, exportAvax, exportAsset);
  }

  /** The ledger between the two phases: both exports imported to the C-Chain. */
  function Midway(initial: nat, txFee: nat, exportAvax: nat, assetAmount: nat, exportAsset: nat): Chains
    requires exportAvax + 3 * txFee <= initial && exportAsset <= assetAmount
  {
    Chains(initial - exportAvax - 3 * txFee, assetAmount - exportAsset, [], [], exportAvax * X2C_CONVERSION,
           exportAsset, 3 * txFee)
  }

  /** Import to the C-Chain, the import that has to fail, and the checks in the middle of the run. */
  method ImportPhase(s0: Chains, expectedAvax: uint64, expectedAsset: uint64, txFee: uint64, exportAvax: uint64,
                     exportAsset: uint64)
    returns (outcome: Outcome, s: Chains)
    requires s0.toC == [Avax(exportAvax), Asset(exportAsset)] && s0.cWei == 0 && s0.cAsset == 0
    requires expectedAvax == s0.xAvax && expectedAsset == s0.xAsset
    ensures outcome.Passed? <==> exportAvax < TWO_63 && exportAsset < TWO_63
    ensures outcome == CheckFailed(MidCAvax) <==> TWO_63 <= exportAvax
    ensures !outcome.Passed? ==> outcome == CheckFailed(MidCAvax) || outcome == CheckFailed(MidCAsset)
    ensures s == s0.(toC := [], cWei := exportAvax * 1_000_000_000, cAsset := exportAsset)
  {
    ImportedAmounts(exportAvax, exportAsset);
    var next := Do(s0, txFee, ImportToC);
    if next.None? {
      return OpFailed(ImportingToC), s0;
    }
    s := next.value;
    if Do(s, txFee, ImportToC).Some? {
      return SecondImportWorked, s;
    }
    if s.xAvax != expectedAvax {
      return CheckFailed(MidXAvax), s;
    }
    if s.xAsset != expectedAsset {
      return CheckFailed(MidXAsset), s;
    }
    if s.cWei != X2C_CONVERSION * ToInt64(exportAvax) {
      return CheckFailed(MidCAvax), s;
    }
    if s.cAsset != ToInt64(exportAsset) {
      return CheckFailed(MidCAsset), s;
    }
    outcome := Passed;
  }

  /** Both exports back to the X-Chain and the checks that nothing is left on the C-Chain. */
  method ExportBack(s0: Chains, txFee: uint64, exportAvax: uint64, exportAsset: uint64)
    returns (outcome: Outcome, s: Chains)
    requires s0.toX == [] && s0.cWei == exportAvax * X2C_CONVERSION && s0.cAsset == exportAsset
    ensures outcome.Passed?
    ensures s == s0.(toX := [Avax(exportAvax), Asset(exportAsset)], cWei := 0, cAsset := 0)
  {
    s := s0;
    var next := Do(s, txFee, ExportAvaxToX(exportAvax));
    if next.None? {
      return OpFailed(ExportingAvaxBack), s;
    }
    s := next.value;
    next := Do(s, txFee, ExportAssetToX(exportAsset));
    if next.None? {
      return OpFailed(ExportingAssetBack), s;
    }
    s := next.value;
    if s.cWei != 0 {
      return CheckFailed(CAvaxBackToZero), s;
    }
    if s.cAsset != 0 {
      return CheckFailed(CAssetBackToZero), s;
    }
    outcome := Passed;
  }

  /** Everything exported to the C-Chain returns to the X-Chain. */
  method ReturnPhase(s0: Chains, txFee: uint64, exportAvax: uint64, exportAsset: uint64)
    returns (outcome: Outcome, s: Chains)
    requires s0.toX == [] && s0.cWei == exportAvax * X2C_CONVERSION && s0.cAsset == exportAsset
    ensures outcome.Passed? <==> txFee <= s0.xAvax + exportAvax
    ensures !outcome.Passed? ==>
              && outcome == OpFailed(ImportingBack)
              && s == s0.(toX := [Avax(exportAvax), Asset(exportAsset)], cWei := 0, cAsset := 0)
    ensures outcome.Passed? ==>
              s == s0.(xAvax := s0.xAvax + exportAvax - txFee, xAsset := s0.xAsset + exportAsset, cWei := 0,
                       cAsset := 0, burnt := s0.burnt + txFee)
  {
    outcome, s := ExportBack(s0, txFee, exportAvax, exportAsset);
    if !outcome.Passed? {
      return;
    }
    ImportedAmounts(exportAvax, exportAsset);
    var next := Do(s, txFee, ImportToX);
    if next.None? {
      return OpFailed(ImportingBack), s;
    }
    s := next.value;
  }

  method ExecuteTest(initial: uint64, txFee: uint64, exportAvax: uint64, assetAmount: uint64, exportAsset: uint64)
    returns (outcome: Outcome, s: Chains)
    ensures outcome.Passed? <==> exportAvax == 0 && Payable(initial, txFee, exportAvax, assetAmount, exportAsset)
    ensures Payable(initial, txFee, exportAvax, assetAmount, exportAsset) ==>
              && s == Chains(initial - 4 * txFee, assetAmount, [], [], 0, 0, 4 * txFee)
              && (0 < exportAvax ==> outcome == CheckFailed(FinalXAvax))
    ensures outcome.CheckFailed? ==> outcome.check in {MidCAvax, MidCAsset, FinalXAvax}
    ensures !outcome.SecondImportWorked?
    ensures outcome == OpFailed(Creating) <==> initial < txFee
    ensures outcome == OpFailed(ExportingAvax) <==> txFee <= initial < exportAvax + 2 * txFee
    ensures outcome == OpFailed(ExportingAsset) <==>
              && exportAvax + 2 * txFee <= initial
              && (initial < exportAvax + 3 * txFee || assetAmount < exportAsset)
    ensures outcome == CheckFailed(MidCAvax) <==>
              exportAvax + 3 * txFee <= initial && exportAsset <= assetAmount && 9_223_372_036_854_775_808 <= exportAvax
    ensures outcome == CheckFailed(MidCAsset) <==>
              && exportAvax + 3 * txFee <= initial && exportAsset <= assetAmount
              && exportAvax < 9_223_372_036_854_775_808 <= exportAsset
    ensures outcome.CheckFailed? && outcome.check != FinalXAvax ==>
              s == Chains(initial - exportAvax - 3 * txFee, assetAmount - exportAsset, [], [],
                          exportAvax * 1_000_000_000, exportAsset, 3 * txFee)
    ensures outcome == OpFailed(ImportingBack) ==>
              s == Chains(initial - exportAvax - 3 * txFee, assetAmount - exportAsset, [],
                          [Avax(exportAvax), Asset(exportAsset)], 0, 0, 3 * txFee)
    ensures outcome.OpFailed? <==>
              || initial < exportAvax + 3 * txFee
              || assetAmount < exportAsset
              || (exportAvax < TWO_63 && exportAsset < TWO_63 && initial < 4 * txFee)
  {
    var failed, expectedAvax, expectedAsset;
    failed, s, expectedAvax, expectedAsset := ExportPhase(initial, txFee, exportAvax, assetAmount, exportAsset);
    if failed.Some? {
      return OpFailed(failed.value), s;
    }
    outcome, s := ImportPhase(s, expectedAvax, expectedAsset, txFee, exportAvax, exportAsset);
    if !outcome.Passed? {
      return;
    }
    assert s == Midway(initial, txFee, exportAvax, assetAmount, exportAsset);
    outcome, s := ReturnPhase(s, txFee, exportAvax, exportAsset);
    if !outcome.Passed? {
      return;
    }
    FinalExpectation(initial, txFee, exportAvax);
    expectedAvax := Wrap(expectedAvax - txFee);
    expectedAsset := assetAmount;
    if s.xAvax != expectedAvax {
      return CheckFailed(FinalXAvax), s;
    }
    if s.xAsset != expectedAsset {
      return CheckFailed(FinalXAsset), s;
    }
  }

  lemma {:induction false} ImportedAmounts(avax: nat, asset: nat)
    ensures AvaxIn([Avax(avax), Asset(asset)]) == avax
    ensures AssetIn([Avax(avax), Asset(asset)]) == asset
  {
    ParcelAdded([], Avax(avax));
    ParcelAdded([Avax(avax)], Asset(asset));
    assert [] + [Avax(avax)] == [Avax(avax)];
    assert [Avax(avax)] + [Asset(asset)] == [Avax(avax), Asset(asset)];
  }

  /** The last expectation is short of the ledger by exactly the exported amount, modulo 2^64. */
  lemma {:induction false} FinalExpectation(initial: uint64, txFee: uint64, exportAvax: uint64)
    requires exportAvax + 3 * txFee <= initial && 4 * txFee <= initial
    ensures Wrap(initial - exportAvax - 3 * txFee - txFee) == Wrap(initial - 4 * txFee - exportAvax)
    ensures Wrap(initial - 4 * txFee - exportAvax) == initial - 4 * txFee <==> exportAvax == 0
  {
    var actual := initial - 4 * txFee;
    WrapOfExact(actual - exportAvax);
    if actual < exportAvax {
      WrapOfExact(actual - exportAvax + TWO_64);
      ModShift(actual - exportAvax, 1);
    }
  }
}
