/** From a stored profit-curve configuration to the editor's draft, and back to a candidate. */
module ProfitConfig {
  import opened Common
  import opened JsStrings
  import opened StableSort
  import opened ProfitCurve
  import opened ProfitBands

  /** Amounts are decimal texts of rial; what a configuration may leave out is optional. */
  datatype ConfigBand = ConfigBand(
    id: Option<string>,
    sortOrder: Option<int>,
    minProviderCostRial: string,
    maxProviderCostRial: Option<string>,
    targetGrossMarginBps: int)

  datatype Config = Config(enabled: Option<bool>, floorBps: Option<int>, bands: Option<seq<ConfigBand>>)

  datatype DraftForm = DraftForm(enabled: bool, floorPercent: string, bands: seq<Draft>)

  datatype CandidateBand = CandidateBand(id: string, sortOrder: int, minRial: string, maxRial: Option<string>, marginBps: int)

  datatype Candidate = Candidate(enabled: bool, floorBps: int, bands: seq<CandidateBand>)

  const BAND_COUNT := 5
  const DEFAULT_FLOOR_BPS := 2000

  predicate HasIntTexts(b: ConfigBand) {
    IsIntText(b.minProviderCostRial) && (b.maxProviderCostRial.Some? ==> IsIntText(b.maxProviderCostRial.value))
  }

  function DefaultBand(id: string, sortOrder: int, minToman: int, maxToman: Option<int>, marginBps: int): (b: ConfigBand)
    ensures HasIntTexts(b)
  {
    ConfigBand(Some(id), Some(sortOrder), IntText(minToman * 10),
               if maxToman.None? then None else Some(IntText(maxToman.value * 10)), marginBps)
  }

  const DEFAULT_BANDS: seq<ConfigBand> := [
    DefaultBand("band-0-5m", 0, 0, Some(5_000_000), 7000),
    DefaultBand("band-5-10m", 1, 5_000_000, Some(10_000_000), 6000),
    DefaultBand("band-10-15m", 2, 10_000_000, Some(15_000_000), 5000),
    DefaultBand("band-15-25m", 3, 15_000_000, Some(25_000_000), 4000),
    DefaultBand("band-25m-plus", 4, 25_000_000, None, 3000)
  ]

  function IntValue(s: string): int
    requires IsIntText(s)
  {
    if s[0] == '-' then 0 - DecimalValue(s[1..]) else DecimalValue(s)
  }

  /** `(BigInt(text) / 10n).toString()`: BigInt division truncates. */
  function TomanText(rial: string): string
    requires IsIntText(rial)
  {
    var n := IntValue(rial);
    IntText(if n >= 0 then n / 10 else -((-n) / 10))
  }

  function SortKey(b: ConfigBand): int {
    if b.sortOrder.Some? then b.sortOrder.value else 0
  }

  /** The stable sort by `sortOrder ?? 0`. */
  function SortBands(bands: seq<ConfigBand>): (r: seq<ConfigBand>)
    ensures multiset(r) == multiset(bands)
  {
    Sort(bands, SortKey)
  }

  function DraftOf(b: ConfigBand, index: nat): Draft
    requires HasIntTexts(b)
  {
    Draft(
      if b.id.Some? then b.id.value else "band-" + Decimal(index),
      if b.sortOrder.Some? then b.sortOrder.value else index,
      TomanText(b.minProviderCostRial),
      if b.maxProviderCostRial.None? then "" else TomanText(b.maxProviderCostRial.value),
      BpsToPercent(b.targetGrossMarginBps))
  }

  function SourceBands(c: Config): seq<ConfigBand> {
    if c.bands.Some? && |c.bands.value| == BAND_COUNT then c.bands.value else DEFAULT_BANDS
  }

  /** The texts that are read are decimal integers; those of a configuration without five bands are not read. */
  ghost predicate ConfigHasIntTexts(c: Config) {
    forall i :: 0 <= i < |SourceBands(c)| ==> HasIntTexts(SourceBands(c)[i])
  }

  lemma SortedHaveIntTexts(c: Config)
    requires ConfigHasIntTexts(c)
    ensures |SortBands(SourceBands(c))| == BAND_COUNT
    ensures forall i :: 0 <= i < BAND_COUNT ==> HasIntTexts(SortBands(SourceBands(c))[i])
  {
    hide SortBands, HasIntTexts, DefaultBand;
    var source, sorted := SourceBands(c), SortBands(SourceBands(c));
    SameMembers(sorted, source);
    forall i | 0 <= i < |sorted|
      ensures HasIntTexts(sorted[i])
    {
      assert sorted[i] in source;
    }
  }

  function ProfitCurveDraftFromConfig(c: Config): DraftForm
    requires ConfigHasIntTexts(c)
  {
    SortedHaveIntTexts(c);
    var sorted := SortBands(SourceBands(c));
    DraftForm(
      c.enabled.None? || c.enabled.value,
      BpsToPercent(if c.floorBps.Some? then c.floorBps.value else DEFAULT_FLOOR_BPS),
      seq(BAND_COUNT, i requires 0 <= i < BAND_COUNT => DraftOf(sorted[i], i)))
  }

  function CandidateBandOf(b: Band): CandidateBand {
    CandidateBand(b.id, b.sortOrder, IntText(b.minRial),
                  if b.maxRial.None? then None else Some(IntText(b.maxRial.value)), b.marginBps)
  }

  function SerializeProfitCurveCandidate(enabled: bool, floorPercent: string, drafts: seq<Draft>): Option<Candidate> {
    match (PercentToBps(floorPercent), BandsOf(drafts))
    case (Some(floor), Some(bands)) =>
      Some(Candidate(enabled, floor, seq(|bands|, i requires 0 <= i < |bands| => CandidateBandOf(bands[i]))))
    case _ => None
  }

  /**
   A candidate is made exactly if the floor and every margin are percentages; it has the draft's bands in
   order, with amounts as decimal texts of rial.
   */
  lemma SerializesExactly(enabled: bool, floorPercent: string, drafts: seq<Draft>)
    ensures
      var c := SerializeProfitCurveCandidate(enabled, floorPercent, drafts);
      && (c.Some? <==>
            && PercentToBps(floorPercent).Some?
            && forall i :: 0 <= i < |drafts| ==> PercentToBps(drafts[i].marginPercent).Some?)
      && (c.Some? ==>
            && c.value.enabled == enabled && Some(c.value.floorBps) == PercentToBps(floorPercent)
            && |c.value.bands| == |drafts|
            && forall i :: 0 <= i < |drafts| ==>
                 && BandOf(drafts[i]).Some? && c.value.bands[i] == CandidateBandOf(BandOf(drafts[i]).value)
                 && c.value.bands[i].id == drafts[i].id && c.value.bands[i].sortOrder == drafts[i].sortOrder
                 && Some(c.value.bands[i].marginBps) == PercentToBps(drafts[i].marginPercent))
  {
    forall i | 0 <= i < |drafts|
      ensures BandOf(drafts[i]).Some? <==> PercentToBps(drafts[i].marginPercent).Some?
      ensures BandOf(drafts[i]).Some? ==>
        var b := BandOf(drafts[i]).value;
        b.id == drafts[i].id && b.sortOrder == drafts[i].sortOrder && Some(b.marginBps) == PercentToBps(drafts[i].marginPercent)
    {
      AmountsRead(drafts[i]);
    }
    hide BandOf, PercentToBps, IntText;
  }

  /** A candidate read as a configuration: everything it has is present. */
  function AsConfigBand(b: CandidateBand): ConfigBand {
    ConfigBand(Some(b.id), Some(b.sortOrder), b.minRial, b.maxRial, b.marginBps)
  }

  function AsConfig(c: Candidate): Config {
    Config(Some(c.enabled), Some(c.floorBps),
           Some(seq(|c.bands|, i requires 0 <= i < |c.bands| => AsConfigBand(c.bands[i]))))
  }

  // ---- One amount ----

  lemma IntTextRoundTrip(n: int)
    ensures IsIntText(IntText(n)) && IntValue(IntText(n)) == n
  {
    if n < 0 {
      DecimalRoundTrip(-n);
      assert IntText(n)[1..] == Decimal(-n);
    } else {
      DecimalRoundTrip(n);
    }
  }

  function Abs(n: int): nat {
    if n < 0 then -n else n
  }

  /** The digits of a toman text lose the sign and nothing else. */
  lemma TomanDigits(rial: string)
    requires IsIntText(rial)
    ensures DigitsOf(TomanText(rial)) == Decimal(Abs(IntValue(rial)) / 10)
  {
    var n := IntValue(rial);
    var toman := Abs(n) / 10;
    DigitsOfDigits(Decimal(toman));
    if n < 0 && toman > 0 {
      assert TomanText(rial) == "-" + Decimal(toman);
      assert ("-" + Decimal(toman))[1..] == Decimal(toman);
    }
  }

  /** An amount on its way through the draft: rial, toman text, digits, rial again. */
  function ThroughDraft(rial: string): string
    requires IsIntText(rial)
  {
    IntText(DecimalValue(DigitsOf(TomanText(rial))) * 10)
  }

  lemma ThroughDraftIs(rial: string)
    requires IsIntText(rial)
    ensures ThroughDraft(rial) == IntText(Abs(IntValue(rial)) / 10 * 10)
  {
    TomanDigits(rial);
    DecimalRoundTrip(Abs(IntValue(rial)) / 10);
  }

  /**
   An amount survives the editor exactly when it is not negative and a multiple of 10 rial. Any other
   non-negative amount comes back lower, by less than 10 rial; a negative one loses its sign.
   */
  lemma AmountSurvivesIff(n: int)
    ensures IsIntText(IntText(n))
    ensures ThroughDraft(IntText(n)) == IntText(n) <==> n >= 0 && n % 10 == 0
    ensures n >= 0 ==> ThroughDraft(IntText(n)) == IntText(n - n % 10)
    ensures n < 0 ==> ThroughDraft(IntText(n)) == IntText((-n) - (-n) % 10)
  {
    IntTextRoundTrip(n);
    ThroughDraftIs(IntText(n));
    IntTextRoundTrip(Abs(n) / 10 * 10);
  }

  // ---- One band, and the whole configuration ----

  lemma BandThroughEditor(b: ConfigBand, index: nat)
    requires HasIntTexts(b)
    ensures BandOf(DraftOf(b, index)).Some? <==> 0 <= b.targetGrossMarginBps <= MAX_BPS
    ensures BandOf(DraftOf(b, index)).Some? ==>
      CandidateBandOf(BandOf(DraftOf(b, index)).value) == CandidateBand(
        if b.id.Some? then b.id.value else "band-" + Decimal(index),
        if b.sortOrder.Some? then b.sortOrder.value else index,
        ThroughDraft(b.minProviderCostRial),
        if b.maxProviderCostRial.None? then None else Some(ThroughDraft(b.maxProviderCostRial.value)),
        b.targetGrossMarginBps)
  {
    hide PercentToBps, BpsToPercent, TomanText, IntText, DecimalValue;
    PercentRoundTrip(b.targetGrossMarginBps);
    TomanDigits(b.minProviderCostRial);
    if b.maxProviderCostRial.Some? {
      TomanDigits(b.maxProviderCostRial.value);
    }
  }

  /** Canonical text of a non-negative multiple of 10 rial. */
  predicate AmountKept(text: string) {
    IsIntText(text) && text == IntText(IntValue(text)) && IntValue(text) >= 0 && IntValue(text) % 10 == 0
  }

  lemma AmountKeptIff(text: string)
    requires IsIntText(text)
    ensures ThroughDraft(text) == text <==> AmountKept(text)
  {
    ThroughDraftIs(text);
    IntTextRoundTrip(Abs(IntValue(text)) / 10 * 10);
  }

  predicate BandKept(b: ConfigBand) {
    && b.id.Some? && b.sortOrder.Some?
    && 0 <= b.targetGrossMarginBps <= MAX_BPS
    && AmountKept(b.minProviderCostRial)
    && (b.maxProviderCostRial.Some? ==> AmountKept(b.maxProviderCostRial.value))
  }

  lemma BandsInOrderStay(bands: seq<ConfigBand>)
    requires Ordered(bands, SortKey)
    ensures SortBands(bands) == bands
  {
    SortKeepsOrdered(bands, SortKey);
  }

  lemma SortedInOrder(bands: seq<ConfigBand>)
    ensures Ordered(SortBands(bands), SortKey)
  {
    SortOrdered(bands, SortKey);
  }

  predicate ConfigKept(c: Config) {
    && c.enabled.Some?
    && c.floorBps.Some? && 0 <= c.floorBps.value <= MAX_BPS
    && c.bands.Some? && |c.bands.value| == BAND_COUNT
    && Ordered(c.bands.value, SortKey)
    && forall i :: 0 <= i < BAND_COUNT ==> BandKept(c.bands.value[i])
  }

  /** What the editor gives back when nothing is edited. */
  function ThroughEditor(c: Config): Option<Candidate>
    requires ConfigHasIntTexts(c)
  {
    var d := ProfitCurveDraftFromConfig(c);
    SerializeProfitCurveCandidate(d.enabled, d.floorPercent, d.bands)
  }

  lemma BandUnchangedIff(b: ConfigBand, index: nat)
    requires HasIntTexts(b)
    ensures BandOf(DraftOf(b, index)).Some? && AsConfigBand(CandidateBandOf(BandOf(DraftOf(b, index)).value)) == b
       <==> BandKept(b)
  {
    hide DraftOf, BandOf, ThroughDraft, AmountKept;
    BandThroughEditor(b, index);
    AmountKeptIff(b.minProviderCostRial);
    if b.maxProviderCostRial.Some? {
      AmountKeptIff(b.maxProviderCostRial.value);
    }
  }

  /**
   A configuration goes through the editor unchanged exactly when everything is present, its five bands
   are in sort order, every basis-point value is valid, and every amount is a non-negative multiple of
   10 rial in canonical form.
   */
  lemma ConfigSurvivesIff(c: Config)
    requires ConfigHasIntTexts(c)
    ensures ThroughEditor(c).Some? && AsConfig(ThroughEditor(c).value) == c <==> ConfigKept(c)
  {
    if ConfigKept(c) {
      KeptSurvives(c);
    }
    if ThroughEditor(c).Some? && AsConfig(ThroughEditor(c).value) == c {
      SurvivorKept(c);
    }
  }

  lemma KeptSurvives(c: Config)
    requires ConfigHasIntTexts(c) && ConfigKept(c)
    ensures ThroughEditor(c).Some? && AsConfig(ThroughEditor(c).value) == c
  {
    hide PercentToBps, BpsToPercent, SortBands, DraftOf, BandOf, CandidateBandOf, AsConfigBand, BandKept, Ordered,
         HasIntTexts;
    var bands := c.bands.value;
    BandsInOrderStay(bands);
    PercentRoundTrip(c.floorBps.value);
    var drafts := ProfitCurveDraftFromConfig(c).bands;
    forall i | 0 <= i < BAND_COUNT
      ensures BandOf(drafts[i]).Some? && AsConfigBand(CandidateBandOf(BandOf(drafts[i]).value)) == bands[i]
    {
      BandUnchangedIff(bands[i], i);
    }
    var result := ThroughEditor(c).value;
    assert AsConfig(result).bands.value == bands;
  }

  lemma AmountLeavesKept(text: string)
    requires IsIntText(text)
    ensures AmountKept(ThroughDraft(text))
  {
    ThroughDraftIs(text);
    IntTextRoundTrip(Abs(IntValue(text)) / 10 * 10);
  }

  /** Whatever comes out of the editor for a band is kept from then on. */
  lemma BandLeavesKept(b: ConfigBand, index: nat)
    requires HasIntTexts(b) && BandOf(DraftOf(b, index)).Some?
    ensures BandKept(AsConfigBand(CandidateBandOf(BandOf(DraftOf(b, index)).value)))
    ensures b.sortOrder.Some? ==>
      AsConfigBand(CandidateBandOf(BandOf(DraftOf(b, index)).value)).sortOrder == b.sortOrder
  {
    hide DraftOf, BandOf, ThroughDraft, AmountKept;
    BandThroughEditor(b, index);
    AmountLeavesKept(b.minProviderCostRial);
    if b.maxProviderCostRial.Some? {
      AmountLeavesKept(b.maxProviderCostRial.value);
    }
  }

  lemma SurvivorKept(c: Config)
    requires ConfigHasIntTexts(c) && ThroughEditor(c).Some? && AsConfig(ThroughEditor(c).value) == c
    ensures ConfigKept(c)
  {
    hide PercentToBps, BpsToPercent, SortBands, DraftOf, BandOf, CandidateBandOf, AsConfigBand, BandKept,
         HasIntTexts;
    var bands := c.bands.value;
    var sorted := SortBands(bands);
    var drafts := ProfitCurveDraftFromConfig(c).bands;
    SortedInOrder(bands);
    PercentRoundTrip(c.floorBps.value);
    SortedHaveIntTexts(c);
    SameMembers(sorted, bands);
    forall i | 0 <= i < BAND_COUNT
      ensures BandKept(bands[i]) && (sorted[i].sortOrder.Some? ==> bands[i].sortOrder == sorted[i].sortOrder)
    {
      assert drafts[i] == DraftOf(sorted[i], i) && BandOf(drafts[i]).Some?;
      BandLeavesKept(sorted[i], i);
      assert AsConfig(ThroughEditor(c).value).bands.value[i] == AsConfigBand(CandidateBandOf(BandOf(drafts[i]).value));
    }
    SortOrdersPresent(sorted, bands);
    hide *;
    SameSortOrders(sorted, bands);
  }

  lemma SameSortOrders(sorted: seq<ConfigBand>, bands: seq<ConfigBand>)
    requires |sorted| == |bands| && Ordered(sorted, SortKey)
    requires forall i :: 0 <= i < |bands| ==> bands[i].sortOrder == sorted[i].sortOrder
    ensures Ordered(bands, SortKey)
  {
    assert forall i :: 0 <= i < |bands| ==> SortKey(bands[i]) == SortKey(sorted[i]);
  }

  lemma SortOrdersPresent(sorted: seq<ConfigBand>, bands: seq<ConfigBand>)
    requires forall x :: x in sorted ==> x in bands
    requires forall i :: 0 <= i < |bands| ==> BandKept(bands[i])
    ensures forall i :: 0 <= i < |sorted| ==> sorted[i].sortOrder.Some?
  {
    forall i | 0 <= i < |sorted|
      ensures sorted[i].sortOrder.Some?
    {
      assert sorted[i] in bands;
    }
  }

  // ---- Does a configuration give a partition? ----

  function MinRial(b: ConfigBand): int
    requires HasIntTexts(b)
  {
    IntValue(b.minProviderCostRial)
  }

  function MaxRial(b: ConfigBand): Option<int>
    requires HasIntTexts(b)
  {
    if b.maxProviderCostRial.None? then None else Some(IntValue(b.maxProviderCostRial.value))
  }

  /** The bands of a configuration, in order, as a partition in rial with valid margins. */
  ghost predicate IsRialPartition(bands: seq<ConfigBand>) {
    && bands != []
    && (forall i :: 0 <= i < |bands| ==> HasIntTexts(bands[i]) && 0 <= bands[i].targetGrossMarginBps <= MAX_BPS)
    && MinRial(bands[0]) == 0
    && (forall i :: 0 <= i < |bands| - 1 ==>
          MaxRial(bands[i]) == Some(MinRial(bands[i + 1])) && MinRial(bands[i]) < MinRial(bands[i + 1]))
    && MaxRial(bands[|bands| - 1]) == None
  }

  lemma BandRead(b: ConfigBand, index: nat)
    requires HasIntTexts(b) && 0 <= b.targetGrossMarginBps <= MAX_BPS
    ensures BandOf(DraftOf(b, index)).Some?
    ensures BandOf(DraftOf(b, index)).value.minRial == Abs(MinRial(b)) / 10 * 10
    ensures BandOf(DraftOf(b, index)).value.maxRial
         == if MaxRial(b).None? then None else Some(Abs(MaxRial(b).value) / 10 * 10)
  {
    hide PercentToBps, BpsToPercent, TomanText, IntText, DecimalValue, IntValue;
    PercentRoundTrip(b.targetGrossMarginBps);
    TomanDigits(b.minProviderCostRial);
    DecimalRoundTrip(Abs(MinRial(b)) / 10);
    if b.maxProviderCostRial.Some? {
      TomanDigits(b.maxProviderCostRial.value);
      DecimalRoundTrip(Abs(MaxRial(b).value) / 10);
    }
  }

  function Drafts(bands: seq<ConfigBand>): seq<Draft>
    requires forall i :: 0 <= i < |bands| ==> HasIntTexts(bands[i])
  {
    seq(|bands|, i requires 0 <= i < |bands| => DraftOf(bands[i], i))
  }

  lemma {:induction false} MinimaNonNegative(bands: seq<ConfigBand>, i: nat)
    requires IsRialPartition(bands) && i < |bands|
    ensures 0 <= MinRial(bands[i])
  {
    hide HasIntTexts;
    if i > 0 {
      MinimaNonNegative(bands, i - 1);
    }
  }

  /** The lower bounds of the bands. */
  function Cuts(bands: seq<ConfigBand>): (cuts: seq<int>)
    requires forall i :: 0 <= i < |bands| ==> HasIntTexts(bands[i])
    ensures |cuts| == |bands| && forall i :: 0 <= i < |bands| ==> cuts[i] == MinRial(bands[i])
  {
    seq(|bands|, i requires 0 <= i < |bands| => MinRial(bands[i]))
  }

  /** The bounds are still apart when they are cut to whole toman. */
  predicate StayApart(cuts: seq<int>) {
    forall i :: 0 <= i < |cuts| - 1 ==> cuts[i] / 10 < cuts[i + 1] / 10
  }

  /** The i-th band, its bounds cut to whole toman. */
  ghost predicate ShowsCut(b: Band, cuts: seq<int>, i: int)
    requires 0 <= i < |cuts|
  {
    && b.minRial == cuts[i] / 10 * 10
    && b.maxRial == if i < |cuts| - 1 then Some(cuts[i + 1] / 10 * 10) else None
  }

  lemma ShownPartitionIff(shown: seq<Band>, cuts: seq<int>)
    requires |shown| == |cuts| && cuts != [] && cuts[0] == 0
    requires forall i :: 0 <= i < |cuts| ==> ShowsCut(shown[i], cuts, i)
    ensures IsPartition(shown) <==> StayApart(cuts)
  {
    if StayApart(cuts) {
      assert forall i :: 0 <= i < |shown| - 1 ==> shown[i].minRial < shown[i + 1].minRial;
    } else {
      var i :| 0 <= i < |cuts| - 1 && cuts[i] / 10 >= cuts[i + 1] / 10;
      assert shown[i].minRial >= shown[i + 1].minRial;
    }
  }

  lemma DraftShowsCut(bands: seq<ConfigBand>, i: nat)
    requires IsRialPartition(bands) && i < |bands|
    ensures BandOf(DraftOf(bands[i], i)).Some? && ShowsCut(BandOf(DraftOf(bands[i], i)).value, Cuts(bands), i)
  {
    hide HasIntTexts, DraftOf, BandOf, MinRial, MaxRial;
    BandRead(bands[i], i);
    MinimaNonNegative(bands, i);
    if i < |bands| - 1 {
      MinimaNonNegative(bands, i + 1);
    }
  }

  lemma DraftsShowCuts(bands: seq<ConfigBand>)
    requires IsRialPartition(bands)
    ensures
      var shown := BandsOf(Drafts(bands));
      && shown.Some? && |shown.value| == |bands|
      && forall i :: 0 <= i < |bands| ==> ShowsCut(shown.value[i], Cuts(bands), i)
  {
    hide HasIntTexts, DraftOf, BandOf, Cuts, ShowsCut;
    forall i | 0 <= i < |bands|
      ensures BandOf(Drafts(bands)[i]).Some? && ShowsCut(BandOf(Drafts(bands)[i]).value, Cuts(bands), i)
    {
      DraftShowsCut(bands, i);
    }
  }

  /**
   A partition in rial is still one in the editor exactly if its boundaries stay apart when they are cut
   to whole toman.
   */
  lemma PartitionShownIff(bands: seq<ConfigBand>)
    requires IsRialPartition(bands)
    ensures Partitioned(Drafts(bands)) <==> StayApart(Cuts(bands))
  {
    DraftsShowCuts(bands);
    assert Cuts(bands) != [] && Cuts(bands)[0] == 0;
    hide IsRialPartition, Cuts, Drafts, BandsOf, IsPartition, ShowsCut, StayApart, HasIntTexts;
    ShownPartitionIff(BandsOf(Drafts(bands)).value, Cuts(bands));
  }

  /** Bands stored, or taken by default, that are a partition in sort order are shown as one under that condition. */
  lemma ConfigPartitionShownIff(c: Config)
    requires ConfigHasIntTexts(c) && IsRialPartition(SortBands(SourceBands(c)))
    ensures Partitioned(ProfitCurveDraftFromConfig(c).bands) <==> StayApart(Cuts(SortBands(SourceBands(c))))
  {
    hide SortBands, HasIntTexts, DraftOf, Partitioned, MinRial, StayApart, Cuts;
    var bands := SortBands(SourceBands(c));
    SortedHaveIntTexts(c);
    PartitionShownIff(bands);
    assert ProfitCurveDraftFromConfig(c).bands == Drafts(bands);
  }

  lemma OrderedPartitionShown(c: Config, bands: seq<ConfigBand>)
    requires SourceBands(c) == bands && Ordered(bands, SortKey) && IsRialPartition(bands) && StayApart(Cuts(bands))
    ensures ConfigHasIntTexts(c) && Partitioned(ProfitCurveDraftFromConfig(c).bands)
  {
    assert ConfigHasIntTexts(c) by { hide HasIntTexts; }
    hide *;
    BandsInOrderStay(bands);
    ConfigPartitionShownIff(c);
  }

  /** The default bands, shown to whoever has not set five, are a partition. */
  lemma DefaultsArePartition(c: Config)
    requires c.bands.None? || |c.bands.value| != BAND_COUNT
    ensures ConfigHasIntTexts(c) && Partitioned(ProfitCurveDraftFromConfig(c).bands)
  {
    assert SourceBands(c) == DEFAULT_BANDS;
    hide *;
    DefaultsAreOrdered();
    DefaultsAreRialPartition();
    OrderedPartitionShown(c, DEFAULT_BANDS);
  }

  lemma DefaultsAreOrdered()
    ensures Ordered(DEFAULT_BANDS, SortKey)
  {
    hide IntText;
  }

  lemma DefaultsAreRialPartition()
    ensures IsRialPartition(DEFAULT_BANDS) && StayApart(Cuts(DEFAULT_BANDS))
  {
    hide IntText, IntValue;
    IntTextRoundTrip(0);
    IntTextRoundTrip(50_000_000);
    IntTextRoundTrip(100_000_000);
    IntTextRoundTrip(150_000_000);
    IntTextRoundTrip(250_000_000);
  }

  // ---- What is shown for what is absent ----

  /** The curve is shown disabled exactly if the configuration says so; an absent floor is shown as 20 percent. */
  lemma AbsentIsShown(c: Config)
    requires ConfigHasIntTexts(c)
    ensures
      var d := ProfitCurveDraftFromConfig(c);
      && (!d.enabled <==> c.enabled == Some(false))
      && (c.floorBps == None ==> d.floorPercent == "20" && PercentToBps(d.floorPercent) == Some(2000))
      && (c.floorBps.Some? ==> d.floorPercent == BpsToPercent(c.floorBps.value))
      && |d.bands| == 5
  {
    hide BpsToPercent, PercentToBps, Decimal, HasIntTexts, DraftOf, SortBands;
    TwentyPercent();
  }

  lemma TwentyPercent()
    ensures BpsToPercent(2000) == "20" && PercentToBps("20") == Some(2000)
  {
    PercentShown(2000);
    PercentRoundTrip(2000);
    TwoDigitText(20);
    hide BpsToPercent, PercentToBps, Decimal;
  }

  lemma DecimalGrows(n: nat, d: nat)
    requires 0 < n && d < 10
    ensures Decimal(10 * n + d) == Decimal(n) + ["0123456789"[d]]
  {
    DigitWritten(d);
    assert (10 * n + d) / 10 == n && (10 * n + d) % 10 == d;
  }

  lemma OneDigitText(d: nat)
    requires d < 10
    ensures Decimal(d) == ["0123456789"[d]]
  {
    DigitWritten(d);
  }

  lemma TwoDigitText(n: nat)
    requires 10 <= n < 100
    ensures Decimal(n) == ["0123456789"[n / 10], "0123456789"[n % 10]]
  {
    OneDigitText(n / 10);
    DecimalGrows(n / 10, n % 10);
    hide Decimal;
    assert 10 * (n / 10) + n % 10 == n;
  }

  lemma MillionText(n: nat)
    requires 0 < n
    ensures Decimal(n * 1_000_000) == Decimal(n) + "000000"
  {
    hide Decimal;
    DecimalGrows(n, 0);
    DecimalGrows(10 * n, 0);
    DecimalGrows(100 * n, 0);
    DecimalGrows(1000 * n, 0);
    DecimalGrows(10000 * n, 0);
    DecimalGrows(100000 * n, 0);
  }

  lemma TomanOf(n: nat)
    ensures TomanText(IntText(n)) == Decimal(n / 10)
  {
    IntTextRoundTrip(n);
  }

  lemma DefaultDraft(id: string, sortOrder: int, min: nat, max: Option<int>, marginBps: nat, index: nat)
    requires marginBps % 100 == 0 && (max.Some? ==> max.value >= 0)
    ensures DraftOf(DefaultBand(id, sortOrder, min, max, marginBps), index)
         == Draft(id, sortOrder, Decimal(min), if max.None? then "" else Decimal(max.value), Decimal(marginBps / 100))
  {
    hide TomanText, IntText, BpsToPercent, Decimal;
    TomanOf(min * 10);
    if max.Some? { TomanOf(max.value * 10); }
    PercentShown(marginBps);
  }

  lemma DefaultAmountsAre()
    ensures Decimal(0) == "0"
    ensures Decimal(5_000_000) == "5000000" && Decimal(10_000_000) == "10000000"
    ensures Decimal(15_000_000) == "15000000" && Decimal(25_000_000) == "25000000"
  {
    OneDigitText(0);
    OneDigitText(5);
    hide Decimal;
    TwoDigitText(10);
    TwoDigitText(15);
    TwoDigitText(25);
    MillionText(5);
    MillionText(10);
    MillionText(15);
    MillionText(25);
  }

  lemma DefaultMarginsAre()
    ensures Decimal(70) == "70" && Decimal(60) == "60" && Decimal(50) == "50" && Decimal(40) == "40" && Decimal(30) == "30"
  {
    hide Decimal;
    TwoDigitText(70);
    TwoDigitText(60);
    TwoDigitText(50);
    TwoDigitText(40);
    TwoDigitText(30);
  }

  lemma DefaultsShown(c: Config)
    requires SourceBands(c) == DEFAULT_BANDS && ConfigHasIntTexts(c) && IsRialPartition(DEFAULT_BANDS)
    requires Ordered(DEFAULT_BANDS, SortKey)
    ensures ProfitCurveDraftFromConfig(c).bands == Drafts(DEFAULT_BANDS)
  {
    BandsInOrderStay(DEFAULT_BANDS);
    hide SortBands, Ordered, DraftOf, HasIntTexts;
  }

  lemma DraftsOfDefaults()
    requires IsRialPartition(DEFAULT_BANDS)
    ensures Drafts(DEFAULT_BANDS) == [
      Draft("band-0-5m", 0, "0", "5000000", "70"),
      Draft("band-5-10m", 1, "5000000", "10000000", "60"),
      Draft("band-10-15m", 2, "10000000", "15000000", "50"),
      Draft("band-15-25m", 3, "15000000", "25000000", "40"),
      Draft("band-25m-plus", 4, "25000000", "", "30")]
  {
    hide Decimal, DraftOf, DefaultBand, IsRialPartition;
    DefaultAmountsAre();
    DefaultMarginsAre();
    DefaultDraft("band-0-5m", 0, 0, Some(5_000_000), 7000, 0);
    DefaultDraft("band-5-10m", 1, 5_000_000, Some(10_000_000), 6000, 1);
    DefaultDraft("band-10-15m", 2, 10_000_000, Some(15_000_000), 5000, 2);
    DefaultDraft("band-15-25m", 3, 15_000_000, Some(25_000_000), 4000, 3);
    DefaultDraft("band-25m-plus", 4, 25_000_000, None, 3000, 4);
  }

  /** The bands are shown in the order of their sort orders, one that has none counting as zero. */
  lemma ShownInSortOrder(c: Config, i: nat, j: nat)
    requires ConfigHasIntTexts(c) && i < j < 5
    ensures
      var bands := SortBands(SourceBands(c));
      && |bands| == 5 && multiset(bands) == multiset(SourceBands(c))
      && HasIntTexts(bands[i]) && ProfitCurveDraftFromConfig(c).bands[i] == DraftOf(bands[i], i)
      && match (bands[i].sortOrder, bands[j].sortOrder)
         case (Some(m), Some(n)) => m <= n
         case (Some(m), None) => m <= 0
         case (None, Some(n)) => 0 <= n
         case (None, None) => true
  {
    SortedHaveIntTexts(c);
    SortedInOrder(SourceBands(c));
    hide SortBands, DraftOf, HasIntTexts, SourceBands;
    assert SortKey(SortBands(SourceBands(c))[i]) <= SortKey(SortBands(SourceBands(c))[j]);
  }

  /** What is shown to whoever has not stored five bands. */
  lemma DefaultDraftsAre(c: Config)
    requires c.bands.None? || |c.bands.value| != 5
    ensures ConfigHasIntTexts(c)
    ensures ProfitCurveDraftFromConfig(c).bands == [
      Draft("band-0-5m", 0, "0", "5000000", "70"),
      Draft("band-5-10m", 1, "5000000", "10000000", "60"),
      Draft("band-10-15m", 2, "10000000", "15000000", "50"),
      Draft("band-15-25m", 3, "15000000", "25000000", "40"),
      Draft("band-25m-plus", 4, "25000000", "", "30")]
  {
    DefaultsArePartition(c);
    assert SourceBands(c) == DEFAULT_BANDS;
    hide *;
    DefaultsAreOrdered();
    DefaultsAreRialPartition();
    DefaultsShown(c);
    DraftsOfDefaults();
  }
}
