/** The record types every part of the dashboard works over: one EHR
    resource, its metadata, its identifier, and the two string enumerations. */
module Resource {
  import opened Wrappers
  import Text

  /** The processing state of a resource; a string enumeration in the source. */
  datatype ProcessingState = Unspecified | NotStarted | Processing | Completed | Failed

  /** The FHIR version a resource is written in. */
  datatype FhirVersion = VersionUnspecified | R4 | R4B

  const StatePrefix: string := "PROCESSING_STATE_"

  /** What follows the common prefix in each enumeration string. */
  function StateSuffix(s: ProcessingState): string {
    match s
    case Unspecified => "UNSPECIFIED"
    case NotStarted => "NOT_STARTED"
    case Processing => "PROCESSING"
    case Completed => "COMPLETED"
    case Failed => "FAILED"
  }

  /** The enumeration's string value, which is what the search box matches. */
  function StateName(s: ProcessingState): (name: string)
    ensures Text.IsPrefix(StatePrefix, name)
    ensures name[|StatePrefix|..] == StateSuffix(s)
  {
    StatePrefix + StateSuffix(s)
  }

  /** Distinct states have distinct string values. */
  lemma {:induction false} StateNameInjective(s: ProcessingState, t: ProcessingState)
    requires s != t
    ensures StateName(s) != StateName(t)
  {
    assert StateSuffix(s) != StateSuffix(t);
  }

  /** The identifier text of patient number `k`. */
  function PatientIdFor(k: int): string {
    "patient-" + Text.IntToString(k)
  }

  /** `id` names a patient numbered between 1 and `max`. */
  predicate NumberedPatient(id: string, max: int) {
    exists k | 1 <= k <= max :: id == PatientIdFor(k)
  }

  /** The patient number can be read back from the identifier. */
  lemma PatientIdReadsBack(k: int)
    ensures |PatientIdFor(k)| > 8
    ensures Text.ParseInt(PatientIdFor(k)[8..]) == Some(k)
  {
    assert PatientIdFor(k)[8..] == Text.IntToString(k) + [];
    Text.ParseIntOfIntToString(k, []);
  }

  datatype Identifier = Identifier(key: string, uid: string, patientId: string)

  /** Timestamps are ISO strings; `processedTime` may be absent. */
  datatype Metadata = Metadata(
    state: ProcessingState,
    createdTime: string,
    fetchTime: string,
    processedTime: Option<string>,
    identifier: Identifier,
    resourceType: string,
    version: FhirVersion)

  datatype ResourceJson = ResourceJson(
    metadata: Metadata,
    humanReadableStr: string,
    aiSummary: Option<string>)

  /** One row of the table. */
  datatype ResourceWrapper = ResourceWrapper(resource: ResourceJson) {
    function State(): ProcessingState { resource.metadata.state }
    function PatientId(): string { resource.metadata.identifier.patientId }
  }
}
