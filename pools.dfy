/** The fixed value pools that both mock-data sources draw from. The route
    handler and the API service each hold their own copy of these lists; the
    copies are identical. */
module Pools {
  import opened Resource

  const HealthcareDescriptions: seq<string> := [
    "Blood pressure reading: 120/80 mmHg, heart rate 72 bpm, normal sinus rhythm",
    "Prescribed Metformin 500mg twice daily for Type 2 diabetes management",
    "Patient reports penicillin allergy with previous anaphylactic reaction",
    "Complete blood count shows normal white cell count, hemoglobin 13.5 g/dL",
    "Chest X-ray reveals clear lungs, no acute cardiopulmonary process",
    "Annual wellness visit: BMI 24.2, all vital signs within normal limits",
    "Flu vaccination administered, patient tolerated well, no adverse reactions",
    "MRI brain shows no acute abnormalities, follow-up in 6 months recommended",
    "Colonoscopy completed, 2 small polyps removed and sent for pathology",
    "Patient counseled on smoking cessation, nicotine replacement therapy initiated"
  ]

  const AiSummaries: seq<string> := [
    "Normal vital signs indicate stable cardiovascular health",
    "Medication therapy appropriately managed with good patient compliance",
    "Critical allergy information documented for safe care coordination",
    "Laboratory values within expected range for patient demographics",
    "Imaging results support continued conservative management approach",
    "Preventive care measures completed per clinical guidelines",
    "Vaccination status updated, patient protected against seasonal influenza",
    "Follow-up imaging recommended to monitor previous findings",
    "Routine screening completed with appropriate therapeutic intervention",
    "Patient education provided with evidence-based treatment plan"
  ]

  /** The states a generated record may take: every state but `Unspecified`. */
  const GeneratedStates: seq<ProcessingState> := [Completed, Processing, Failed, NotStarted]

  const ResourceTypes: seq<string> := [
    "Observation",
    "MedicationRequest",
    "AllergyIntolerance",
    "DiagnosticReport",
    "Condition",
    "Patient",
    "Encounter",
    "Procedure"
  ]
}
