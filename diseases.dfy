/**
 * The display metadata of a disease: the entry of the static table for a
 * known identifier, otherwise a default built from the identifier itself.
 * Only a few of the table's entries are reproduced; icons and colours are
 * presentation and are not kept.
 */
module Diseases {
  import Names

  datatype Urgency = Low | Medium | High

  datatype Info = Info(name: string, description: string, urgency: Urgency)

  const Table: map<string, Info> := map[
    "intestinal_cancer" := Info("Intestinal Cancer",
      "Cancer affecting the intestines, which can cause various digestive and systemic symptoms.", High),
    "crohns_disease" := Info("Crohn's Disease",
      "A chronic inflammatory bowel disease that affects the lining of the digestive tract.", Medium),
    "migraine" := Info("Migraine",
      "A headache of varying intensity, often with nausea and sensitivity to light.", Low),
    "meningitis" := Info("Meningitis",
      "Inflammation of the membranes surrounding the brain and spinal cord.", High)
  ]

  const DefaultDescription: string := "A medical condition detected by the expert system."

  /**
   * The table entry of a known identifier; otherwise the formatted identifier
   * as name, the default description and low urgency (medical/script.js:361-367).
   */
  function InfoFor(disease: string): (info: Info)
    ensures disease in Table ==> info == Table[disease]
    ensures disease !in Table ==>
      info.name == Names.FormatDiseaseName(disease) &&
      info.description == DefaultDescription && info.urgency == Low
  {
    if disease in Table then Table[disease]
    else Info(Names.FormatDiseaseName(disease), DefaultDescription, Low)
  }

  /** The "Seek Medical Attention" badge is shown for high urgency only. */
  function ShowsUrgencyBadge(info: Info): (shown: bool)
    ensures shown ==> info.urgency != Low && info.urgency != Medium
    ensures info.urgency == High ==> shown
  {
    info.urgency == High
  }

  /**
   * An identifier missing from the table is shown under its formatted name,
   * which has the identifier's length, no underscore, and is already in
   * formatted form; it never gets the urgency badge.
   */
  lemma UnknownDiseaseDefaults(disease: string)
    requires disease !in Table
    ensures var info := InfoFor(disease);
      !ShowsUrgencyBadge(info) &&
      |info.name| == |disease| &&
      (forall i :: 0 <= i < |info.name| ==> info.name[i] != '_') &&
      Names.FormatSymptomName(info.name) == info.name
  {
    Names.DiseaseNameIsSymptomName(disease);
    Names.FormatIdempotent(disease);
  }

  /** A known identifier shows the table's name and urgency. */
  lemma KnownEntries()
    ensures InfoFor("crohns_disease").name == "Crohn's Disease"
    ensures ShowsUrgencyBadge(InfoFor("meningitis")) && !ShowsUrgencyBadge(InfoFor("crohns_disease"))
  {
  }
}
