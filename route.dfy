/** The mock-record endpoint: `GET /api/resources?count=N` reads the count,
    clamps it, and generates that many random records. Every random draw is
    an input (`MockDraw`); the JSON response and its headers are not part of
    this model. */
module MockRoute {
  import opened Wrappers
  import opened Resource
  import opened Random
  import Text
  import Pools

  /** The count used when none is given, and the most ever generated. */
  const MaxCount: int := 1000000
  const DefaultCountText: string := "1000000"

  /** The lowest upper bound on patient numbers. */
  const MinPatientPool: int := 100000

  /** The longest array `Array.from` can create; a longer length throws. */
  const MaxArrayLength: int := 4294967295

  /** The random draws behind one generated record. Timestamps, the uuid
      key and the twelve-character uid are taken as given strings. */
  datatype MockDraw = MockDraw(
    state: Unit,
    createdTime: string,
    fetchTime: string,
    processedTime: string,
    key: string,
    uid: string,
    patient: Unit,
    resourceType: Unit,
    version: Unit,
    description: Unit,
    summaryRoll: Unit,
    summary: Unit)

  /** `Math.max(100_000, Math.floor(count / 2))`. */
  function MaxPatientId(count: int): (m: int)
    ensures m >= MinPatientPool
    ensures m >= count / 2
    ensures m == MinPatientPool || m == count / 2
  {
    if count / 2 > MinPatientPool then count / 2 else MinPatientPool
  }

  /** The invariants every generated record keeps. */
  predicate WellFormedMock(r: ResourceWrapper, maxPatient: int): (b: bool)
    ensures b ==> maxPatient >= 1 && r.State() != Unspecified && r.resource.metadata.version != VersionUnspecified
  {
    var m := r.resource.metadata;
    && r.State() in Pools.GeneratedStates
    && (m.processedTime.Some? <==> r.State() == Completed)
    && (m.version == R4 || m.version == R4B)
    && m.resourceType in Pools.ResourceTypes
    && NumberedPatient(m.identifier.patientId, maxPatient)
    && r.resource.humanReadableStr in Pools.HealthcareDescriptions
    && (r.resource.aiSummary.None? || r.resource.aiSummary.value in Pools.AiSummaries)
  }

  /** One record: a state from the four, a processed time exactly for
      completed records, a patient between 1 and `maxPatient`, and a summary
      present when the draw falls below 0.6. */
  function MockResource(maxPatient: int, d: MockDraw): (r: ResourceWrapper)
    requires maxPatient >= 1
    ensures WellFormedMock(r, maxPatient)
    ensures r.State() != Unspecified
    ensures r.resource.aiSummary.Some? <==> d.summaryRoll < 0.6
  {
    var state := ArrayElement(Pools.GeneratedStates, d.state);
    var patient := FakerInt(1, maxPatient, d.patient);
    var m := Metadata(
      state,
      d.createdTime,
      d.fetchTime,
      if state == Completed then Some(d.processedTime) else None,
      Identifier(d.key, d.uid, PatientIdFor(patient)),
      Pools.ResourceTypes[Pick(d.resourceType, |Pools.ResourceTypes|)],
      if d.version > 0.5 then R4 else R4B);
    ResourceWrapper(ResourceJson(
      m,
      ArrayElement(Pools.HealthcareDescriptions, d.description),
      if d.summaryRoll < 0.6 then Some(ArrayElement(Pools.AiSummaries, d.summary)) else None))
  }

  /** `generateMockResources(count)`: `Array.from({ length: count })` mapped
      to records; a negative length makes an empty array. */
  function GenerateMockResources(count: int, draws: nat -> MockDraw): (rs: seq<ResourceWrapper>)
    requires count <= MaxArrayLength
    ensures |rs| == if count < 0 then 0 else count
    ensures forall i | 0 <= i < |rs| :: rs[i] == MockResource(MaxPatientId(count), draws(i))
  {
    var n := if count < 0 then 0 else count;
    seq(n, i requires 0 <= i < n => MockResource(MaxPatientId(count), draws(i)))
  }

  /** Every generated record is well formed, with patients numbered up to
      `max(100000, floor(count / 2))`, and none is unspecified. */
  lemma {:induction false} GeneratedRecordsWellFormed(count: int, draws: nat -> MockDraw)
    requires count <= MaxArrayLength
    ensures forall r | r in GenerateMockResources(count, draws) ::
              WellFormedMock(r, MaxPatientId(count)) && r.State() != Unspecified
  {
    var rs := GenerateMockResources(count, draws);
    forall r | r in rs
      ensures WellFormedMock(r, MaxPatientId(count)) && r.State() != Unspecified
    {
      var i :| 0 <= i < |rs| && rs[i] == r;
    }
  }

  // ---------------------------------------------------------------------
  // The count parameter

  /** `parseInt(countParam || '1000000', 10) || 1000000`, then at most
      1000000: a missing or empty parameter reads as the default, and a
      `NaN` or zero reading falls back to it. */
  function EffectiveCount(countParam: Option<string>): (n: int)
    ensures n <= MaxCount
  {
    var text := if countParam.GetOr("") == "" then DefaultCountText else countParam.value;
    var parsed := match Text.ParseInt(text)
      case None => MaxCount
      case Some(v) => if v == 0 then MaxCount else v;
    if parsed < MaxCount then parsed else MaxCount
  }

  /** `GET`: the records for the effective count. */
  function Get(countParam: Option<string>, draws: nat -> MockDraw): (rs: seq<ResourceWrapper>)
    ensures |rs| <= MaxCount
    ensures forall i | 0 <= i < |rs| ::
              rs[i] == MockResource(MaxPatientId(EffectiveCount(countParam)), draws(i))
  {
    GenerateMockResources(EffectiveCount(countParam), draws)
  }

  lemma ThousandThousandWritten()
    ensures Text.IntToString(MaxCount) == DefaultCountText
  {
  }

  lemma DefaultCountParses()
    ensures Text.ParseInt(DefaultCountText) == Some(MaxCount)
  {
    ThousandThousandWritten();
    assert DefaultCountText + [] == DefaultCountText;
    Text.ParseIntOfIntToString(MaxCount, []);
  }

  /** A missing or empty parameter gives one million records. */
  lemma {:induction false} MissingCountIsMax(countParam: Option<string>)
    requires countParam.GetOr("") == ""
    ensures EffectiveCount(countParam) == MaxCount
  {
    DefaultCountParses();
  }

  /** A parameter that reads as `NaN` or as zero gives one million. */
  lemma {:induction false} UnreadableCountIsMax(s: string)
    requires Text.ParseInt(s).None? || Text.ParseInt(s) == Some(0)
    ensures EffectiveCount(Some(s)) == MaxCount
  {
    if s == "" {
      DefaultCountParses();
    }
  }

  /** The count is the leading integer of the parameter, whatever follows
      it, as long as it lies between 1 and one million; larger counts are
      clamped. */
  lemma {:induction false} LeadingIntegerIsCount(k: int, rest: string)
    requires k != 0
    requires rest == [] || !Text.IsDigit(rest[0])
    ensures EffectiveCount(Some(Text.IntToString(k) + rest)) == if k < MaxCount then k else MaxCount
  {
    Text.ParseIntOfIntToString(k, rest);
  }

  /** A negative count is kept, and yields no records at all. */
  lemma {:induction false} NegativeCountYieldsNothing(k: int, draws: nat -> MockDraw)
    requires k < 0
    ensures EffectiveCount(Some(Text.IntToString(k))) == k
    ensures Get(Some(Text.IntToString(k)), draws) == []
  {
    LeadingIntegerIsCount(k, []);
    assert Text.IntToString(k) + [] == Text.IntToString(k);
  }

  /** A missing parameter asks for exactly one million records. */
  lemma {:induction false} MissingCountGeneratesMax(draws: nat -> MockDraw)
    ensures |Get(None, draws)| == MaxCount
  {
    MissingCountIsMax(None);
  }

  lemma TwoHundredFiftyWritten()
    ensures Text.IntToString(250) + "abc" == "250abc"
  {
  }

  /** "250abc" asks for 250 records. */
  lemma TrailingTextIgnored()
    ensures EffectiveCount(Some("250abc")) == 250
  {
    TwoHundredFiftyWritten();
    LeadingIntegerIsCount(250, "abc");
  }
}
