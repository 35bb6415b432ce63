/** The five fixed records the table's behaviour is checked against. Some
    strings are written as concatenations of short pieces; the value is the
    same, and the pieces let the verifier examine each one separately. */
module SampleData {
  import opened Wrappers
  import opened Resource

  function Record(state: ProcessingState, created: string, fetched: string, processed: Option<string>,
                  key: string, uid: string, patientId: string, resourceType: string,
                  version: FhirVersion, text: string, summary: Option<string>): ResourceWrapper
  {
    ResourceWrapper(ResourceJson(
      Metadata(state, created, fetched, processed, Identifier(key, uid, patientId), resourceType, version),
      text, summary))
  }

  const Records: seq<ResourceWrapper> := [
    Record(Completed, "2024-01-15T10:30:00Z", "2024-01-15T10:35:00Z", Some("2024-01-15T10:40:00Z"),
           "patient-001-observation-001", "obs-12345", "patient-001", "Observation", R4,
           "Blood" + " pressure measurement: 120/80 mmHg recorded on January 15, 2024",
           Some("Normal blood pressure reading within healthy range for adult patient.")),
    Record(Processing, "2024-01-16T09:15:00Z", "2024-01-16T09:20:00Z", None,
           "patient-002-medication-001", "med-67890", "patient-002", "MedicationRequest", R4,
           "Prescription " + "for Lisinopril " + "10mg once daily " + "for hypertension" + " management",
           None),
    Record(Failed, "2024-01-17T14:22:00Z", "2024-01-17T14:25:00Z", None,
           "patient-003-allergy-001", "allergy-54321", "patient-003", "AllergyIntolerance", R4B,
           "Patient reported" + " allergy to " + "penicillin with " + "severe reaction " + "history",
           None),
    Record(NotStarted, "2024-01-18T11:45:00Z", "2024-01-18T11:50:00Z", None,
           "patient-001-lab-001", "lab-98765", "patient-001", "DiagnosticReport", R4,
           "Complete " + "blood" + " count (CBC) laboratory results pending analysis",
           None),
    Record(Completed, "2024-01-19T16:30:00Z", "2024-01-19T16:35:00Z", Some("2024-01-19T16:45:00Z"),
           "patient-004-condition-001", "cond-11111", "patient-004", "Condition", R4,
           "Diagnosed with " + "Type 2 Diabetes " + "Mellitus, well-" + "controlled with " + "medication",
           Some("Chronic " + "condition " + "managed with " + "metformin " + "therapy, " +
                "patient shows " + "good compliance " + "and stable " + "glucose levels."))
  ]
}
