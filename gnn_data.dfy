/**
 * The two record types of src/utils/gnnModel.ts: the patient data the form collects
 * and the treatment records the rule table holds.
 *
 * Scores are integer hundredths: an efficacy of 0.85 is written 85. Every score and every
 * adjustment in the rule table has two decimals; the source adds them as doubles, so the
 * hundredths are exact up to the rounding of those additions (0.79 + 0.15, for one, is
 * 0.9400000000000001 as a double and 94 here).
 */
module GnnData {

  datatype Treatment = Treatment(
    name: string,
    efficacyScore: int,    // hundredths
    confidenceScore: int,  // hundredths
    description: string,
    sideEffects: seq<string>,
    mechanismOfAction: string)

  /** The form's state, which is also the payload handed to the model: every field
      is a string as the form holds it, the empty string meaning "not filled in". */
  datatype PatientData = PatientData(
    patientId: string,
    age: string,
    gender: string,
    cancerType: string,
    cancerStage: string,
    selectedMutations: seq<string>,
    otherMutations: string,
    selectedExpressions: map<string, string>,
    previousTreatments: string,
    treatmentResponse: string)

  /** `p.selectedMutations.includes(m)` */
  predicate Carries(p: PatientData, m: string): (b: bool)
    ensures b <==> exists k :: 0 <= k < |p.selectedMutations| && p.selectedMutations[k] == m
  {
    m in p.selectedMutations
  }

  /** The condition of the BRCA rules: BRCA1 or BRCA2 is selected. */
  predicate CarriesBrca(p: PatientData)
  {
    Carries(p, "BRCA1") || Carries(p, "BRCA2")
  }
}
