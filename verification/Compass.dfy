/** Resource tiers of the compass wizard, components/compass-wizard.tsx. */
module Compass {
  import opened Common

  const CPU_TIERS := [2, 4, 6, 8, 12, 16, 24, 32, 48, 64]
  const RAM_TIERS := [4, 8, 12, 16, 24, 32, 48, 64, 96, 128]

  /** `Math.ceil(x)`. */
  function Ceil(x: real): (n: int)
    ensures (n - 1) as real < x <= n as real
  {
    -((-x).Floor)
  }

  function NextTier(value: real, tiers: seq<int>): int {
    if tiers == [] then Ceil(value / 16.0) * 16
    else if tiers[0] as real >= value then tiers[0]
    else NextTier(value, tiers[1..])
  }

  predicate Ascending(tiers: seq<int>) {
    forall i, j :: 0 <= i < j < |tiers| ==> tiers[i] < tiers[j]
  }

  /** A value the wizard can show: a tier, or past the last tier a multiple of 16. */
  predicate IsTier(n: int, tiers: seq<int>) {
    n in tiers || (n % 16 == 0 && forall i :: 0 <= i < |tiers| ==> tiers[i] < n)
  }

  /** The next tier is the least showable value that is not below the value asked for. */
  lemma {:induction false} NextTierIsLeast(value: real, tiers: seq<int>)
    requires Ascending(tiers)
    ensures value <= NextTier(value, tiers) as real
    ensures IsTier(NextTier(value, tiers), tiers)
    ensures forall n :: IsTier(n, tiers) && value <= n as real ==> NextTier(value, tiers) <= n
  {
    if tiers == [] {
      CeilSixteen(value);
    } else if tiers[0] as real >= value {
      forall n | IsTier(n, tiers)
        ensures tiers[0] <= n
      {
      }
    } else {
      NextTierIsLeast(value, tiers[1..]);
      var t := NextTier(value, tiers[1..]);
      assert tiers == [tiers[0]] + tiers[1..];
      forall n | IsTier(n, tiers) && value <= n as real
        ensures t <= n
      {
        assert IsTier(n, tiers[1..]);
      }
      assert tiers[0] < t;
      assert IsTier(t, tiers);
    }
  }

  lemma CeilSixteen(value: real)
    ensures value <= (Ceil(value / 16.0) * 16) as real
    ensures forall n :: n % 16 == 0 && value <= n as real ==> Ceil(value / 16.0) * 16 <= n
  {
  }

  /** Rounding to a tier is a closure: it only rounds up, keeps the order, and does nothing the second time. */
  lemma NextTierIsClosure(a: real, b: real, tiers: seq<int>)
    requires Ascending(tiers)
    ensures a <= NextTier(a, tiers) as real
    ensures a <= b ==> NextTier(a, tiers) <= NextTier(b, tiers)
    ensures NextTier(NextTier(a, tiers) as real, tiers) == NextTier(a, tiers)
  {
    NextTierIsLeast(a, tiers);
    NextTierIsLeast(b, tiers);
    NextTierIsLeast(NextTier(a, tiers) as real, tiers);
  }

  /** The answers that make a difference; any other answer, or none, is Other. */
  datatype Project = Commerce | Product | Api | Migration | OtherProject
  datatype Stage = Active | Growing | OtherStage
  datatype Scale = Daily | Heavy | OtherScale
  datatype Priority = Speed | Stability | ForGrowth | Economy | OtherPriority

  datatype Answers = Answers(project: Project, stage: Stage, scale: Scale, priority: Priority)

  datatype Plan = Plan(cpu: int, ram: int, storage: int)

  predicate AtMost(a: Plan, b: Plan) {
    a.cpu <= b.cpu && a.ram <= b.ram && a.storage <= b.storage
  }

  function RoundUp20(x: real): int {
    Ceil(x / 20.0) * 20
  }

  /** Three scaled resources before they are rounded to what can be shown. */
  datatype Scaled = Scaled(cpu: real, ram: real, storage: real)

  function LeanOf(a: Scaled): Plan {
    Plan(NextTier(a.cpu, CPU_TIERS), NextTier(a.ram, RAM_TIERS), Max(60, RoundUp20(a.storage)))
  }

  function GrowthOf(a: Scaled): Plan {
    Plan(NextTier(a.cpu, CPU_TIERS), NextTier(a.ram, RAM_TIERS), RoundUp20(a.storage))
  }

  function ScaledDown(p: Plan): Scaled {
    Scaled(p.cpu as real * 0.6, p.ram as real * 0.6, p.storage as real * 0.7)
  }

  function ScaledUp(p: Plan): Scaled {
    Scaled(p.cpu as real * 1.5, p.ram as real * 1.5, p.storage as real * 1.5)
  }

  function Lean(p: Plan): Plan {
    LeanOf(ScaledDown(p))
  }

  function Growth(p: Plan): Plan {
    GrowthOf(ScaledUp(p))
  }

  /** What can stand as the recommended plan. */
  predicate IsShown(p: Plan) {
    && IsTier(p.cpu, CPU_TIERS) && 0 <= p.cpu && IsTier(p.ram, RAM_TIERS) && 0 <= p.ram
    && 60 <= p.storage && p.storage % 20 == 0
  }

  lemma StorageBetween(storage: int, low: real, high: real)
    requires 60 <= storage && storage % 20 == 0 && low <= storage as real <= high
    ensures Max(60, RoundUp20(low)) <= storage <= RoundUp20(high)
  {
    var k := storage / 20;
    assert storage as real == k as real * 20.0;
    assert low / 20.0 <= k as real <= high / 20.0;
  }

  lemma TierBetween(n: int, tiers: seq<int>, low: real, high: real)
    requires Ascending(tiers) && IsTier(n, tiers) && low <= n as real <= high
    ensures NextTier(low, tiers) <= n <= NextTier(high, tiers)
  {
    NextTierIsLeast(low, tiers);
    NextTierIsLeast(high, tiers);
  }

  predicate ScaledAtMost(a: Scaled, p: Plan) {
    a.cpu <= p.cpu as real && a.ram <= p.ram as real && a.storage <= p.storage as real
  }

  predicate ScaledAtLeast(a: Scaled, p: Plan) {
    a.cpu >= p.cpu as real && a.ram >= p.ram as real && a.storage >= p.storage as real
  }

  /**
   However the products are rounded on the way, as long as scaling down does not go above the plan and
   scaling up does not go below it, the lean plan is at most the plan and the growth plan at least it.
   */
  lemma PlansOrderedHoweverRounded(p: Plan, low: Scaled, high: Scaled)
    requires IsShown(p) && ScaledAtMost(low, p) && ScaledAtLeast(high, p)
    ensures AtMost(LeanOf(low), p) && AtMost(p, GrowthOf(high))
  {
    hide NextTier, RoundUp20, IsTier;
    TierBetween(p.cpu, CPU_TIERS, low.cpu, high.cpu);
    TierBetween(p.ram, RAM_TIERS, low.ram, high.ram);
    StorageBetween(p.storage, low.storage, high.storage);
  }

  /** For every plan that can be shown, the lean one is at most it and the growth one at least it. */
  lemma PlansOrdered(p: Plan)
    requires IsShown(p)
    ensures AtMost(Lean(p), p) && AtMost(p, Growth(p))
  {
    hide NextTier, RoundUp20, IsTier;
    PlansOrderedHoweverRounded(p, ScaledDown(p), ScaledUp(p));
  }

  function Plus(p: Plan, q: Plan): Plan {
    Plan(p.cpu + q.cpu, p.ram + q.ram, p.storage + q.storage)
  }

  function Base(project: Project): (p: Plan)
    ensures 2 <= p.cpu && 4 <= p.ram && 80 <= p.storage
  {
    match project
    case Commerce => Plan(4, 8, 140)
    case OtherProject => Plan(2, 4, 80)
    case _ => Plan(4, 8, 110)
  }

  function ForStage(stage: Stage): (p: Plan)
    ensures 0 <= p.cpu && 0 <= p.ram && 0 <= p.storage
  {
    match stage
    case Active => Plan(2, 4, 40)
    case Growing => Plan(4, 8, 80)
    case OtherStage => Plan(0, 0, 0)
  }

  function ForScale(scale: Scale): (p: Plan)
    ensures 0 <= p.cpu && 0 <= p.ram && 0 <= p.storage
  {
    match scale
    case Daily => Plan(2, 4, 0)
    case Heavy => Plan(4, 8, 80)
    case OtherScale => Plan(0, 0, 0)
  }

  function ForPriority(priority: Priority): (p: Plan)
    ensures 0 <= p.cpu && 0 <= p.ram && 0 <= p.storage
  {
    match priority
    case Speed => Plan(2, 0, 0)
    case Stability => Plan(0, 4, 0)
    case ForGrowth => Plan(2, 4, 40)
    case _ => Plan(0, 0, 0)
  }

  /** The resources the answers ask for: a base and one supplement per answer, capped for a thrifty start. */
  function Wanted(a: Answers): Plan {
    var sum := Plus(Plus(Plus(Base(a.project), ForStage(a.stage)), ForScale(a.scale)), ForPriority(a.priority));
    if a.priority.Economy? && !a.scale.Heavy? && !a.stage.Growing?
    then Plan(Min(sum.cpu, 4), Min(sum.ram, 8), sum.storage)
    else sum
  }

  // The running totals of `buildResult`, answer by answer.

  method StartFrom(project: Project) returns (p: Plan)
    ensures p == Base(project)
  {
    var cpu, ram, storage := 2, 4, 80;
    if !project.OtherProject? {
      cpu, ram := 4, 8;
      storage := if project.Commerce? then 140 else 110;
    }
    p := Plan(cpu, ram, storage);
  }

  method AddStage(p: Plan, stage: Stage) returns (q: Plan)
    ensures q == Plus(p, ForStage(stage))
  {
    q := p;
    if stage.Active? {
      q := Plan(q.cpu + 2, q.ram + 4, q.storage + 40);
    }
    if stage.Growing? {
      q := Plan(q.cpu + 4, q.ram + 8, q.storage + 80);
    }
  }

  method AddScale(p: Plan, scale: Scale) returns (q: Plan)
    ensures q == Plus(p, ForScale(scale))
  {
    q := p;
    if scale.Daily? {
      q := q.(cpu := q.cpu + 2, ram := q.ram + 4);
    }
    if scale.Heavy? {
      q := Plan(q.cpu + 4, q.ram + 8, q.storage + 80);
    }
  }

  method AddPriority(p: Plan, priority: Priority) returns (q: Plan)
    ensures q == Plus(p, ForPriority(priority))
  {
    q := p;
    if priority.Speed? { q := q.(cpu := q.cpu + 2); }
    if priority.Stability? { q := q.(ram := q.ram + 4); }
    if priority.ForGrowth? {
      q := Plan(q.cpu + 2, q.ram + 4, q.storage + 40);
    }
  }

  method Estimate(a: Answers) returns (p: Plan)
    ensures p == Wanted(a)
  {
    hide Base, ForStage, ForScale, ForPriority, Plus;
    p := StartFrom(a.project);
    p := AddStage(p, a.stage);
    p := AddScale(p, a.scale);
    p := AddPriority(p, a.priority);
    if a.priority.Economy? && !a.scale.Heavy? && !a.stage.Growing? {
      p := p.(cpu := Min(p.cpu, 4), ram := Min(p.ram, 8));
    }
  }

  method BuildResult(a: Answers) returns (lean: Plan, balanced: Plan, growth: Plan)
    ensures IsShown(balanced) && AtMost(Wanted(a), balanced)
    ensures forall p :: IsShown(p) && AtMost(Wanted(a), p) ==> AtMost(balanced, p)
    ensures AtMost(lean, balanced) && AtMost(balanced, growth)
    ensures IsShown(lean) && HasParts(lean, balanced, 6, 7)
    ensures IsShown(growth) && HasParts(growth, balanced, 15, 15)
    ensures forall p :: IsShown(p) && HasParts(p, balanced, 6, 7) ==> AtMost(lean, p)
    ensures forall p :: IsShown(p) && HasParts(p, balanced, 15, 15) ==> AtMost(growth, p)
  {
    WantedIsPositive(a);
    hide NextTier, RoundUp20, Wanted, AtMost, IsShown, Lean, Growth, HasParts;
    var p := Estimate(a);
    RoundedIsLeast(p);
    var cpu := NextTier(p.cpu as real, CPU_TIERS);
    var ram := NextTier(p.ram as real, RAM_TIERS);
    var storage := RoundUp20(p.storage as real);
    balanced := Plan(cpu, ram, storage);
    PlansOrdered(balanced);
    lean := Lean(balanced);
    growth := Growth(balanced);
    ProfilesAreLeast(balanced);
  }

  lemma ProfilesAreLeast(p: Plan)
    requires IsShown(p)
    ensures IsShown(Lean(p)) && HasParts(Lean(p), p, 6, 7)
    ensures IsShown(Growth(p)) && HasParts(Growth(p), p, 15, 15)
    ensures forall q :: IsShown(q) && HasParts(q, p, 6, 7) ==> AtMost(Lean(p), q)
    ensures forall q :: IsShown(q) && HasParts(q, p, 15, 15) ==> AtMost(Growth(p), q)
  {
    ProfilesAreShown(p);
    assert AtMost(Lean(p), Lean(p)) && AtMost(Growth(p), Growth(p));
    hide Lean, Growth, HasParts, IsShown, AtMost;
    LeanIsLeast(p, Lean(p));
    GrowthIsLeast(p, Growth(p));
    forall q | IsShown(q)
      ensures HasParts(q, p, 6, 7) <==> AtMost(Lean(p), q)
      ensures HasParts(q, p, 15, 15) <==> AtMost(Growth(p), q)
    {
      LeanIsLeast(p, q);
      GrowthIsLeast(p, q);
    }
  }

  lemma WantedIsPositive(a: Answers)
    ensures 0 <= Wanted(a).cpu && 0 <= Wanted(a).ram && 60 <= Wanted(a).storage
  {
  }

  /** Rounding each resource gives the least plan that can be shown and covers what was asked for. */
  lemma RoundedIsLeast(p: Plan)
    requires 0 <= p.cpu && 0 <= p.ram && 60 <= p.storage
    ensures
      var r := Plan(NextTier(p.cpu as real, CPU_TIERS), NextTier(p.ram as real, RAM_TIERS), RoundUp20(p.storage as real));
      && IsShown(r) && AtMost(p, r)
      && forall q :: IsShown(q) && AtMost(p, q) ==> AtMost(r, q)
  {
    hide NextTier, IsTier;
    NextTierIsLeast(p.cpu as real, CPU_TIERS);
    NextTierIsLeast(p.ram as real, RAM_TIERS);
    StorageIsLeast(p.storage);
  }

  lemma StorageIsLeast(storage: int)
    ensures storage <= RoundUp20(storage as real) && RoundUp20(storage as real) % 20 == 0
    ensures forall n :: n % 20 == 0 && storage <= n ==> RoundUp20(storage as real) <= n
  {
  }

  // ---- The numbers themselves ----

  /** What can be shown: the ten sizes of each kind, and past the last one every multiple of 16. */
  lemma TiersAre(n: int)
    ensures IsTier(n, CPU_TIERS) <==> n in {2, 4, 6, 8, 12, 16, 24, 32, 48, 64} || (n > 64 && n % 16 == 0)
    ensures IsTier(n, RAM_TIERS) <==> n in {4, 8, 12, 16, 24, 32, 48, 64, 96, 128} || (n > 128 && n % 16 == 0)
  {
    assert CPU_TIERS[9] == 64 && RAM_TIERS[9] == 128;
  }

  lemma TierReached(value: real, n: int, tiers: seq<int>)
    requires Ascending(tiers) && IsTier(n, tiers)
    ensures NextTier(value, tiers) <= n <==> value <= n as real
  {
    NextTierIsLeast(value, tiers);
  }

  lemma StorageReached(value: real, n: int)
    requires n % 20 == 0
    ensures RoundUp20(value) <= n <==> value <= n as real
  {
    var q := Ceil(value / 20.0);
    assert value == value / 20.0 * 20.0;
    assert n == n / 20 * 20;
    assert value <= n as real <==> value / 20.0 <= (n / 20) as real;
  }

  /** A plan has at least these parts in ten of another one's resources. */
  predicate HasParts(q: Plan, p: Plan, compute: int, storage: int) {
    10 * q.cpu >= compute * p.cpu && 10 * q.ram >= compute * p.ram && 10 * q.storage >= storage * p.storage
  }

  /** The lean plan is the least that can be shown with six tenths of the compute and seven of the storage. */
  lemma LeanIsLeast(p: Plan, q: Plan)
    requires IsShown(q)
    ensures AtMost(Lean(p), q) <==> HasParts(q, p, 6, 7)
  {
    var low := ScaledDown(p);
    Tenths(p.cpu, q.cpu);
    Tenths(p.ram, q.ram);
    Tenths(p.storage, q.storage);
    hide NextTier, RoundUp20, IsTier;
    TierReached(low.cpu, q.cpu, CPU_TIERS);
    TierReached(low.ram, q.ram, RAM_TIERS);
    StorageReached(low.storage, q.storage);
  }

  lemma Tenths(m: int, n: int)
    ensures m as real * 0.6 <= n as real <==> 6 * m <= 10 * n
    ensures m as real * 0.7 <= n as real <==> 7 * m <= 10 * n
    ensures m as real * 1.5 <= n as real <==> 15 * m <= 10 * n
  {
  }

  /** The growth plan is the least that can be shown with half as much again. */
  lemma GrowthIsLeast(p: Plan, q: Plan)
    requires IsShown(q)
    ensures AtMost(Growth(p), q) <==> HasParts(q, p, 15, 15)
  {
    var high := ScaledUp(p);
    Tenths(p.cpu, q.cpu);
    Tenths(p.ram, q.ram);
    Tenths(p.storage, q.storage);
    hide NextTier, RoundUp20, IsTier;
    TierReached(high.cpu, q.cpu, CPU_TIERS);
    TierReached(high.ram, q.ram, RAM_TIERS);
    StorageReached(high.storage, q.storage);
  }

  lemma TierIsPositive(value: real)
    ensures IsTier(NextTier(value, CPU_TIERS), CPU_TIERS) && NextTier(value, CPU_TIERS) >= 2
    ensures IsTier(NextTier(value, RAM_TIERS), RAM_TIERS) && NextTier(value, RAM_TIERS) >= 4
  {
    NextTierIsLeast(value, CPU_TIERS);
    NextTierIsLeast(value, RAM_TIERS);
    hide NextTier;
    assert CPU_TIERS[0] == 2 && RAM_TIERS[0] == 4;
  }

  lemma StorageIsMultiple(value: real)
    ensures RoundUp20(value) % 20 == 0 && value <= RoundUp20(value) as real
  {
    StorageReached(value, RoundUp20(value));
  }

  /** A plan that can be shown makes plans that can be shown. */
  lemma ProfilesAreShown(p: Plan)
    requires IsShown(p)
    ensures IsShown(Lean(p)) && IsShown(Growth(p))
  {
    var low, high := ScaledDown(p), ScaledUp(p);
    assert high.storage >= 60.0;
    hide NextTier, IsTier, RoundUp20, ScaledDown, ScaledUp;
    TierIsPositive(low.cpu);
    TierIsPositive(low.ram);
    TierIsPositive(high.cpu);
    TierIsPositive(high.ram);
    StorageIsMultiple(low.storage);
    StorageIsMultiple(high.storage);
  }

  predicate IsThrifty(a: Answers) {
    a.priority == Economy && a.scale != Heavy && a.stage != Growing
  }

  /** What someone gets who answered nothing. */
  lemma NothingAnswered()
    ensures Wanted(Answers(OtherProject, OtherStage, OtherScale, OtherPriority)) == Plan(2, 4, 80)
  {
    assert Base(OtherProject) == Plan(2, 4, 80);
    assert ForStage(OtherStage) == ForScale(OtherScale) == ForPriority(OtherPriority) == Plan(0, 0, 0);
    hide Base, ForStage, ForScale, ForPriority;
  }

  /** What each answer adds to that. */
  lemma ProjectsAdd(a: Answers)
    requires !IsThrifty(a)
    ensures a.project == Commerce ==> Wanted(a) == Plus(Wanted(a.(project := OtherProject)), Plan(2, 4, 60))
    ensures a.project == Product || a.project == Api || a.project == Migration ==>
      Wanted(a) == Plus(Wanted(a.(project := OtherProject)), Plan(2, 4, 30))
  {
    hide ForStage, ForScale, ForPriority;
  }

  lemma StagesAdd(a: Answers)
    requires a.priority != Economy
    ensures a.stage == Active ==> Wanted(a) == Plus(Wanted(a.(stage := OtherStage)), Plan(2, 4, 40))
    ensures a.stage == Growing ==> Wanted(a) == Plus(Wanted(a.(stage := OtherStage)), Plan(4, 8, 80))
  {
    hide Base, ForScale, ForPriority;
  }

  lemma ScalesAdd(a: Answers)
    requires a.priority != Economy
    ensures a.scale == Daily ==> Wanted(a) == Plus(Wanted(a.(scale := OtherScale)), Plan(2, 4, 0))
    ensures a.scale == Heavy ==> Wanted(a) == Plus(Wanted(a.(scale := OtherScale)), Plan(4, 8, 80))
  {
    hide Base, ForStage, ForPriority;
  }

  lemma PrioritiesAdd(a: Answers)
    requires !IsThrifty(a)
    ensures a.priority == Speed ==> Wanted(a) == Plus(Wanted(a.(priority := OtherPriority)), Plan(2, 0, 0))
    ensures a.priority == Stability ==> Wanted(a) == Plus(Wanted(a.(priority := OtherPriority)), Plan(0, 4, 0))
    ensures a.priority == ForGrowth ==> Wanted(a) == Plus(Wanted(a.(priority := OtherPriority)), Plan(2, 4, 40))
    ensures a.priority == Economy ==> Wanted(a) == Wanted(a.(priority := OtherPriority))
  {
    hide Base, ForStage, ForScale;
  }

  /** A thrifty start gets at most 4 processors and 8 gigabytes of memory, and the same storage. */
  lemma ThriftIs(a: Answers)
    requires IsThrifty(a)
    ensures
      var full := Wanted(a.(priority := OtherPriority));
      Wanted(a) == Plan(if full.cpu > 4 then 4 else full.cpu, if full.ram > 8 then 8 else full.ram, full.storage)
  {
    hide Base, ForStage, ForScale;
  }
}
