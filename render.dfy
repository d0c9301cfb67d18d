/**
 * What the page shows, with the HTML left out: the selection counter, the
 * summary line of the results view, the formatted symptom tags and one card
 * per result.
 */
module Render {
  import opened DecimalText
  import Names
  import Bands
  import Diseases
  import opened Ranking

  /**
   * A count, a space and a noun, with an `s` appended when plural; this is
   * how lines 7 and 344 print their counts.
   */
  function Counted(n: nat, noun: string, plural: bool): (r: string)
    ensures |r| == |Decimal(n)| + 1 + |noun| + (if plural then 1 else 0)
    ensures plural ==> r[|r| - 1] == 's'
  {
    Decimal(n) + " " + noun + (if plural then "s" else "")
  }

  /** A counted noun starts with the count's digits, then a space, then the noun. */
  lemma CountedParts(n: nat, noun: string, plural: bool)
    ensures var r := Counted(n, noun, plural);
      r[..|Decimal(n)|] == Decimal(n) && r[|Decimal(n)|] == ' ' &&
      r[|Decimal(n)| + 1..|Decimal(n)| + 1 + |noun|] == noun
  {
    var d := Decimal(n);
    var r := Counted(n, noun, plural);
    assert r == d + (" " + noun + (if plural then "s" else ""));
  }

  /** The selection counter: its text, and whether it carries `has-selection`. */
  datatype Counter = Counter(text: string, highlighted: bool)

  /** updateSelectedCount for `count` checked boxes; the noun is plural unless count is 1. */
  function SelectionCounter(count: nat): (c: Counter)
    ensures c.highlighted <==> count > 0
  {
    Counter(Counted(count, "symptom", count != 1) + " selected", count > 0)
  }

  /** The symptom count of the results summary: plural only for more than one. */
  function SummarySymptoms(symptoms: nat): string {
    Counted(symptoms, "symptom", symptoms > 1)
  }

  /** The condition count of the results summary: plural only for more than one. */
  function SummaryConditions(conditions: nat): string {
    Counted(conditions, "potential condition", conditions > 1)
  }

  /** The results summary line. */
  function ResultsSummary(conditions: nat, symptoms: nat): string {
    "Found " + SummaryConditions(conditions) + " based on " + SummarySymptoms(symptoms)
  }

  lemma SelectionCounterExamples()
    ensures SelectionCounter(0) == Counter("0 symptoms selected", false)
    ensures SelectionCounter(1) == Counter("1 symptom selected", true)
    ensures SelectionCounter(2) == Counter("2 symptoms selected", true)
  {
  }

  /**
   * The counter and the summary print a symptom count alike for every count of
   * one or more, and differently for zero: "0 symptoms" against "0 symptom".
   */
  lemma PluralRulesDifferAtZero(c: nat, n: nat)
    ensures SelectionCounter(0).text == "0 symptoms selected"
    ensures ResultsSummary(c, 0) == "Found " + SummaryConditions(c) + " based on " + "0 symptom"
    ensures SelectionCounter(0).text != SummarySymptoms(0) + " selected"
    ensures n >= 1 ==> SelectionCounter(n).text == SummarySymptoms(n) + " selected"
    ensures c >= 1 ==> SummaryConditions(c) == Counted(c, "potential condition", c != 1)
  {
    assert Decimal(0) == "0";
    assert |SelectionCounter(0).text| == 19;
    assert |SummarySymptoms(0) + " selected"| == 18;
  }

  /** Different counts give different counter texts. */
  lemma SelectionCounterReadBack(m: nat, n: nat)
    requires SelectionCounter(m).text == SelectionCounter(n).text
    ensures m == n
  {
    var x := NounAfterCount("symptom", m != 1, " selected");
    var y := NounAfterCount("symptom", n != 1, " selected");
    CountedThen(m, "symptom", m != 1, " selected");
    CountedThen(n, "symptom", n != 1, " selected");
    DecimalThenText(m, x, n, y);
  }

  /** The text that follows the digits of a counted noun. */
  function NounAfterCount(noun: string, plural: bool, rest: string): (x: string)
    ensures x != [] && x[0] == ' '
  {
    " " + noun + (if plural then "s" else "") + rest
  }

  lemma CountedThen(n: nat, noun: string, plural: bool, rest: string)
    ensures Counted(n, noun, plural) + rest == Decimal(n) + NounAfterCount(noun, plural, rest)
  {
  }

  /** One result card, without its markup. */
  datatype Card = Card(name: string, description: string, urgencyBadge: bool,
                       band: Bands.Band, confidence: real)

  /** The card for one result: the disease's metadata and the band of its confidence. */
  function CardFor(r: Diagnosis): (c: Card)
    ensures c.name == Diseases.InfoFor(r.disease).name
    ensures c.description == Diseases.InfoFor(r.disease).description
    ensures c.urgencyBadge <==> Diseases.InfoFor(r.disease).urgency == Diseases.High
    ensures c.band == Bands.BandOf(r.confidence) && c.confidence == r.confidence
  {
    var info := Diseases.InfoFor(r.disease);
    Card(info.name, info.description, Diseases.ShowsUrgencyBadge(info),
         Bands.BandOf(r.confidence), r.confidence)
  }

  /** The `results.forEach` loop that appends one card per result. */
  method RenderCards(results: seq<Diagnosis>) returns (cards: seq<Card>)
    ensures |cards| == |results|
    ensures forall i :: 0 <= i < |results| ==> cards[i] == CardFor(results[i])
  {
    cards := [];
    var i := 0;
    while i < |results|
      invariant 0 <= i <= |results|
      invariant |cards| == i
      invariant forall k :: 0 <= k < i ==> cards[k] == CardFor(results[k])
    {
      cards := cards + [CardFor(results[i])];
      i := i + 1;
    }
  }

  /** On sorted results no card shows a higher band than a card above it. */
  lemma CardsFollowBands(results: seq<Diagnosis>)
    requires SortedDesc(results)
    ensures forall i, j :: 0 <= i < j < |results| ==>
      CardFor(results[i]).band.Rank() >= CardFor(results[j]).band.Rank()
  {
    forall i, j | 0 <= i < j < |results|
      ensures CardFor(results[i]).band.Rank() >= CardFor(results[j]).band.Rank()
    {
      Bands.BandMonotone(results[j].confidence, results[i].confidence);
    }
  }

  /** The results view without its markup. */
  datatype Page = Page(summary: string, symptomTags: seq<string>, cards: seq<Card>)

  /** The selected symptoms, each under its formatted name (medical/script.js:351). */
  function SymptomTags(symptoms: seq<string>): (tags: seq<string>)
    ensures |tags| == |symptoms|
    ensures forall i :: 0 <= i < |symptoms| ==> tags[i] == Names.FormatSymptomName(symptoms[i])
  {
    seq(|symptoms|, i requires 0 <= i < |symptoms| => Names.FormatSymptomName(symptoms[i]))
  }

  /** renderResults: sorts the results in place, then builds the view from them. */
  method RenderResults(results: array<Diagnosis>, selectedSymptoms: seq<string>) returns (page: Page)
    modifies results
    ensures SortedDesc(results[..])
    ensures multiset(results[..]) == multiset(old(results[..]))
    ensures KeepsTies(old(results[..]), results[..])
    ensures page.summary == ResultsSummary(results.Length, |selectedSymptoms|)
    ensures page.symptomTags == SymptomTags(selectedSymptoms)
    ensures |page.cards| == results.Length
    ensures forall i :: 0 <= i < results.Length ==> page.cards[i] == CardFor(results[i])
  {
    SortByConfidence(results);
    var cards := RenderCards(results[..]);
    page := Page(ResultsSummary(results.Length, |selectedSymptoms|), SymptomTags(selectedSymptoms), cards);
  }
}
