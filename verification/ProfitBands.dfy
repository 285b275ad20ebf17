/** Drafts, bands and the number of plans in each band, of the same editor. */
module ProfitBands {
  import opened Common
  import opened JsStrings
  import opened ProfitCurve

  /** One row of the editor; an empty maximum means no upper bound. */
  datatype Draft = Draft(id: string, sortOrder: int, minCostToman: string, maxCostToman: string, marginPercent: string)

  datatype Band = Band(id: string, sortOrder: int, minRial: int, maxRial: Option<int>, marginBps: int)

  function BandOf(d: Draft): Option<Band> {
    match PercentToBps(d.marginPercent)
    case None => None
    case Some(margin) =>
      var minToman := if DigitsOf(d.minCostToman) == "" then "0" else DigitsOf(d.minCostToman);
      var maxToman := DigitsOf(d.maxCostToman);
      Some(Band(d.id, d.sortOrder, DecimalValue(minToman) * 10,
                if maxToman == "" then None else Some(DecimalValue(maxToman) * 10), margin))
  }

  predicate HasNoDigit(s: string) {
    forall c :: c in s ==> c !in "0123456789"
  }

  lemma {:induction false} NoDigitsLeft(s: string)
    ensures DigitsOf(s) == "" <==> HasNoDigit(s)
  {
    if s != [] {
      NoDigitsLeft(s[1..]);
      DigitsOfSteps(s[0], s[1..]);
      assert s == [s[0]] + s[1..];
    }
  }

  /**
   Amounts are typed in toman and kept in rial: only the digits count, a minimum without one is nothing, and
   a maximum without one is no bound. A draft is refused exactly if its percentage is.
   */
  lemma AmountsRead(d: Draft)
    ensures BandOf(d).None? <==> PercentToBps(d.marginPercent).None?
    ensures BandOf(d).Some? ==>
      var b := BandOf(d).value;
      && b.id == d.id && b.sortOrder == d.sortOrder && Some(b.marginBps) == PercentToBps(d.marginPercent)
      && b.minRial == 10 * DecimalValue(DigitsOf(d.minCostToman))
      && (HasNoDigit(d.minCostToman) ==> b.minRial == 0)
      && (if HasNoDigit(d.maxCostToman) then b.maxRial == None
          else b.maxRial == Some(10 * DecimalValue(DigitsOf(d.maxCostToman))))
  {
    NoDigitsLeft(d.minCostToman);
    NoDigitsLeft(d.maxCostToman);
    ZeroTexts();
    hide DigitsOf, PercentToBps, HasNoDigit, DecimalValue;
  }

  lemma ZeroTexts()
    ensures DecimalValue("") == DecimalValue("0") == 0
  {
    assert "0"[..0] == "";
  }

  /** All drafts as bands, or nothing if one of them does not parse. */
  function BandsOf(drafts: seq<Draft>): Option<seq<Band>> {
    if forall i :: 0 <= i < |drafts| ==> BandOf(drafts[i]).Some? then
      Some(seq(|drafts|, i requires 0 <= i < |drafts| && BandOf(drafts[i]).Some? => BandOf(drafts[i]).value))
    else None
  }

  method DraftsToBands(drafts: seq<Draft>) returns (result: Option<seq<Band>>)
    ensures result == BandsOf(drafts)
  {
    hide DecimalValue, DigitsOf, PercentToBps;
    var bands: seq<Band> := [];
    for i := 0 to |drafts|
      invariant |bands| == i
      invariant forall j :: 0 <= j < i ==> BandOf(drafts[j]) == Some(bands[j])
    {
      var draft := drafts[i];
      var margin := PercentToBps(draft.marginPercent);
      if margin == None {
        assert BandOf(drafts[i]).None?;
        return None;
      }
      var minToman := if DigitsOf(draft.minCostToman) == "" then "0" else DigitsOf(draft.minCostToman);
      var maxToman := DigitsOf(draft.maxCostToman);
      var band := Band(draft.id, draft.sortOrder, DecimalValue(minToman) * 10,
                       if maxToman == "" then None else Some(DecimalValue(maxToman) * 10), margin.value);
      bands := bands + [band];
    }
    assert BandsOf(drafts).value == bands;
    return Some(bands);
  }

  predicate InBand(b: Band, cost: int) {
    b.minRial <= cost && (b.maxRial.None? || cost < b.maxRial.value)
  }

  /** From zero, each band ends where the next one starts, and the last has no upper bound. */
  predicate IsPartition(bands: seq<Band>) {
    && bands != []
    && bands[0].minRial == 0
    && (forall i :: 0 <= i < |bands| - 1 ==>
          bands[i].maxRial == Some(bands[i + 1].minRial) && bands[i].minRial < bands[i + 1].minRial)
    && bands[|bands| - 1].maxRial == None
  }

  lemma {:induction false} MinimaIncrease(bands: seq<Band>, i: nat, j: nat)
    requires IsPartition(bands) && i < j < |bands|
    ensures bands[i].minRial < bands[j].minRial
    decreases j - i
  {
    if i + 1 < j {
      MinimaIncrease(bands, i + 1, j);
    }
  }

  lemma {:induction false} BandBelow(bands: seq<Band>, cost: int, n: nat) returns (i: nat)
    requires IsPartition(bands) && 0 <= cost && 0 < n <= |bands|
    ensures i < n && bands[i].minRial <= cost
    ensures i < n - 1 ==> InBand(bands[i], cost)
  {
    if n == 1 || bands[n - 1].minRial <= cost {
      i := n - 1;
    } else {
      i := BandBelow(bands, cost, n - 1);
    }
  }

  /** A partition puts every cost in one band and in no other. */
  lemma ExactlyOneBand(bands: seq<Band>, cost: int)
    requires IsPartition(bands) && 0 <= cost
    ensures exists i :: 0 <= i < |bands| && InBand(bands[i], cost)
              && forall j :: 0 <= j < |bands| && InBand(bands[j], cost) ==> j == i
  {
    var i := BandBelow(bands, cost, |bands|);
    forall j | 0 <= j < |bands| && InBand(bands[j], cost)
      ensures j == i
    {
      if i < j {
        if i + 1 < j { MinimaIncrease(bands, i + 1, j); }
      } else if j < i {
        if j + 1 < i { MinimaIncrease(bands, j + 1, i); }
      }
    }
  }

  // ---- Counting plans ----

  /** The band the counting loop stops at, or the number of bands if none takes the cost. */
  function FirstBand(bands: seq<Band>, cost: int, from: nat): (i: nat)
    requires from <= |bands|
    ensures from <= i <= |bands|
    decreases |bands| - from
  {
    if from == |bands| || InBand(bands[from], cost) then from else FirstBand(bands, cost, from + 1)
  }

  lemma {:induction false} FirstBandTakes(bands: seq<Band>, cost: int, from: nat)
    requires from <= |bands|
    ensures
      var i := FirstBand(bands, cost, from);
      && (i < |bands| ==> InBand(bands[i], cost))
      && forall j :: from <= j < i ==> !InBand(bands[j], cost)
    decreases |bands| - from
  {
    if from < |bands| {
      FirstBandTakes(bands, cost, from + 1);
    }
  }

  /** The cost of a row, if it is a text of digits. */
  function CostOf(row: Option<string>): Option<int> {
    if row.None? || row.value == "" || !AllDigits(row.value) then None else Some(DecimalValue(row.value))
  }

  /** A row without a cost, or with anything but digits in it, has none; otherwise its digits are the cost in rial. */
  lemma CostsAre(s: string, d: nat)
    requires d < 10
    ensures CostOf(None) == None && CostOf(Some("")) == None
    ensures (exists c :: c in s && c !in "0123456789") ==> CostOf(Some(s)) == None
    ensures CostOf(Some(["0123456789"[d]])) == Some(d)
    ensures CostOf(Some(s)).Some? ==>
      CostOf(Some(s + ["0123456789"[d]])) == Some(10 * CostOf(Some(s)).value + d)
  {
    if c :| c in s && c !in "0123456789" {
      DigitsAre(c);
    }
    DecimalReads("", d);
    assert "" + ["0123456789"[d]] == ["0123456789"[d]];
    if AllDigits(s) {
      DecimalReads(s, d);
    }
  }

  predicate CountsIn(bands: seq<Band>, row: Option<string>, i: nat) {
    CostOf(row).Some? && FirstBand(bands, CostOf(row).value, 0) == i
  }

  function PlansIn(bands: seq<Band>, rows: seq<Option<string>>, i: nat): nat {
    if rows == [] then 0
    else PlansIn(bands, rows[..|rows| - 1], i) + if CountsIn(bands, rows[|rows| - 1], i) then 1 else 0
  }

  function CostedRows(rows: seq<Option<string>>): nat {
    if rows == [] then 0
    else CostedRows(rows[..|rows| - 1]) + if CostOf(rows[|rows| - 1]).Some? then 1 else 0
  }

  /** The counting loop: the first band that takes a row's cost gets the row. */
  method BandPlanCounts(drafts: seq<Draft>, parsed: Option<seq<Band>>, rows: Option<seq<Option<string>>>)
    returns (counts: array<nat>)
    requires parsed == BandsOf(drafts)
    ensures fresh(counts) && counts.Length == |drafts|
    ensures forall i :: 0 <= i < |drafts| ==>
      counts[i] == if parsed.None? || rows.None? then 0 else PlansIn(parsed.value, rows.value, i)
  {
    hide BandOf, InBand, DecimalValue;
    counts := new nat[|drafts|](_ => 0);
    if parsed.None? || rows.None? {
      return;
    }
    var bands, all := parsed.value, rows.value;
    for r := 0 to |all|
      invariant forall i :: 0 <= i < |bands| ==> counts[i] == PlansIn(bands, all[..r], i)
    {
      assert all[..r + 1][..r] == all[..r];
      var costRaw := all[r];
      if costRaw.None? || costRaw.value == "" || !AllDigits(costRaw.value) {
        continue;
      }
      var cost := DecimalValue(costRaw.value);
      var i := 0;
      while i < |bands|
        invariant 0 <= i <= |bands|
        invariant FirstBand(bands, cost, 0) == FirstBand(bands, cost, i)
        invariant forall j :: 0 <= j < |bands| ==> counts[j] == PlansIn(bands, all[..r], j)
      {
        if InBand(bands[i], cost) {
          counts[i] := counts[i] + 1;
          break;
        }
        i := i + 1;
      }
    }
    assert all[..|all|] == all;
  }

  function TotalPlans(bands: seq<Band>, rows: seq<Option<string>>, n: nat): nat {
    if n == 0 then 0 else TotalPlans(bands, rows, n - 1) + PlansIn(bands, rows, n - 1)
  }

  lemma {:induction false} TotalStep(bands: seq<Band>, rows: seq<Option<string>>, row: Option<string>, n: nat)
    ensures TotalPlans(bands, rows + [row], n)
         == TotalPlans(bands, rows, n)
            + if CostOf(row).Some? && FirstBand(bands, CostOf(row).value, 0) < n then 1 else 0
  {
    if n > 0 {
      TotalStep(bands, rows, row, n - 1);
      assert (rows + [row])[..|rows|] == rows;
    }
  }

  /** Over a partition the counts of all bands add up to the rows that have a cost. */
  lemma {:induction false} CountsAddUp(bands: seq<Band>, rows: seq<Option<string>>)
    requires IsPartition(bands)
    ensures TotalPlans(bands, rows, |bands|) == CostedRows(rows)
  {
    if rows == [] {
      NoRowsNoPlans(bands, |bands|);
    } else {
      var front, last := rows[..|rows| - 1], rows[|rows| - 1];
      CountsAddUp(bands, front);
      TotalStep(bands, front, last, |bands|);
      assert rows == front + [last];
      if CostOf(last).Some? {
        ExactlyOneBand(bands, CostOf(last).value);
        FirstBandTakes(bands, CostOf(last).value, 0);
      }
    }
  }

  lemma {:induction false} NoRowsNoPlans(bands: seq<Band>, n: nat)
    ensures TotalPlans(bands, [], n) == 0
  {
    if n > 0 {
      NoRowsNoPlans(bands, n - 1);
    }
  }

  // ---- Editing a boundary ----

  /** `updateBand`. */
  function UpdateBand(drafts: seq<Draft>, index: nat, d: Draft): seq<Draft> {
    seq(|drafts|, i requires 0 <= i < |drafts| => if i == index then d else drafts[i])
  }

  /** Typing in a band's maximum: the next band's minimum follows. */
  function EditMax(drafts: seq<Draft>, index: nat, typed: string): seq<Draft> {
    var nextMax := DigitsOf(typed);
    seq(|drafts|, i requires 0 <= i < |drafts| =>
      if i == index then drafts[i].(maxCostToman := nextMax)
      else if i == index + 1 then drafts[i].(minCostToman := nextMax)
      else drafts[i])
  }

  /** Typing in a band's minimum: nothing else follows. */
  function EditMin(drafts: seq<Draft>, index: nat, typed: string): seq<Draft>
    requires index < |drafts|
  {
    UpdateBand(drafts, index, drafts[index].(minCostToman := DigitsOf(typed)))
  }

  /** An edit of a maximum changes that maximum and the next minimum, one of a minimum only that; digits are kept. */
  lemma EditsTouchOnly(drafts: seq<Draft>, index: nat, typed: string, i: nat)
    requires index < |drafts| && i < |drafts|
    ensures |EditMax(drafts, index, typed)| == |EditMin(drafts, index, typed)| == |drafts|
    ensures EditMin(drafts, index, typed)[i]
         == if i == index then drafts[i].(minCostToman := DigitsOf(typed)) else drafts[i]
    ensures EditMax(drafts, index, typed)[i]
         == if i == index then drafts[i].(maxCostToman := DigitsOf(typed))
            else if i == index + 1 then drafts[i].(minCostToman := DigitsOf(typed))
            else drafts[i]
  {
  }

  ghost predicate Partitioned(drafts: seq<Draft>) {
    BandsOf(drafts).Some? && IsPartition(BandsOf(drafts).value)
  }

  lemma MaxTyped(d: Draft, typed: string)
    requires BandOf(d).Some?
    ensures BandOf(d.(maxCostToman := DigitsOf(typed)))
         == Some(BandOf(d).value.(maxRial := if DigitsOf(typed) == "" then None
                                             else Some(DecimalValue(DigitsOf(typed)) * 10)))
  {
    DigitsOfDigits(DigitsOf(typed));
  }

  lemma MinTyped(d: Draft, typed: string)
    requires BandOf(d).Some?
    ensures BandOf(d.(minCostToman := DigitsOf(typed)))
         == Some(BandOf(d).value.(minRial := DecimalValue(DigitsOf(typed)) * 10))
  {
    DigitsOfDigits(DigitsOf(typed));
    assert "0"[..0] == "";
    assert DecimalValue("0") == 0;
  }

  /**
   Editing a maximum keeps the bands a partition exactly when the typed amount is not empty and stays
   strictly between the band's own minimum and the next band's maximum.
   */
  lemma EditMaxKeepsPartitionIff(drafts: seq<Draft>, index: nat, typed: string)
    requires Partitioned(drafts) && index + 1 < |drafts|
    ensures
      var bands := BandsOf(drafts).value;
      var amount := DecimalValue(DigitsOf(typed)) * 10;
      Partitioned(EditMax(drafts, index, typed)) <==>
        && DigitsOf(typed) != ""
        && bands[index].minRial < amount
        && (bands[index + 1].maxRial.Some? ==> amount < bands[index + 1].maxRial.value)
  {
    hide BandOf, IsPartition, DecimalValue, DigitsOf;
    var edited := EditMax(drafts, index, typed);
    MaxTyped(drafts[index], typed);
    MinTyped(drafts[index + 1], typed);
    assert forall i :: 0 <= i < |drafts| && i != index && i != index + 1 ==> edited[i] == drafts[i];
    BoundaryMoved(BandsOf(drafts).value, BandsOf(edited).value, index, DecimalValue(DigitsOf(typed)) * 10);
  }

  lemma BoundaryMoved(bands: seq<Band>, after: seq<Band>, index: nat, amount: int)
    requires IsPartition(bands) && index + 1 < |bands| == |after|
    requires forall i :: 0 <= i < |bands| && i != index && i != index + 1 ==> after[i] == bands[i]
    requires after[index].minRial == bands[index].minRial
    requires after[index + 1] == bands[index + 1].(minRial := amount)
    ensures IsPartition(after) <==>
      && after[index].maxRial == Some(amount)
      && bands[index].minRial < amount
      && (bands[index + 1].maxRial.Some? ==> amount < bands[index + 1].maxRial.value)
  {
    assert index > 0 ==> after[index - 1].maxRial == bands[index - 1].maxRial;
    if index + 2 < |bands| {
      assert after[index + 2] == bands[index + 2];
    }
  }

  /**
   Editing a minimum never moves the boundary it belongs to: the bands stay a partition only if the
   amount typed is the one that was there.
   */
  lemma EditMinKeepsPartitionIff(drafts: seq<Draft>, index: nat, typed: string)
    requires Partitioned(drafts) && 0 < index < |drafts|
    ensures Partitioned(EditMin(drafts, index, typed))
       <==> DecimalValue(DigitsOf(typed)) * 10 == BandsOf(drafts).value[index].minRial
  {
    hide BandOf, DecimalValue, DigitsOf;
    var edited := EditMin(drafts, index, typed);
    MinTyped(drafts[index], typed);
    assert forall i :: 0 <= i < |drafts| && i != index ==> edited[i] == drafts[i];
    OneMinimumMoved(BandsOf(drafts).value, BandsOf(edited).value, index, DecimalValue(DigitsOf(typed)) * 10);
  }

  lemma OneMinimumMoved(bands: seq<Band>, after: seq<Band>, index: nat, amount: int)
    requires IsPartition(bands) && 0 < index < |bands| == |after|
    requires forall i :: 0 <= i < |bands| && i != index ==> after[i] == bands[i]
    requires after[index] == bands[index].(minRial := amount)
    ensures IsPartition(after) <==> amount == bands[index].minRial
  {
    assert after[index - 1] == bands[index - 1];
    if amount == bands[index].minRial {
      assert after == bands;
    }
  }
}
