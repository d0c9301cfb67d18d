/**
 * Display names built from identifiers such as `abdominal_pain`, by two
 * global regular-expression replaces (medical/script.js:432-433).
 * The first turns every underscore into a space. In the second, `\w`
 * is the ASCII class [A-Za-z0-9_] and `\b\w` matches a word character that
 * stands at index 0 or right after a character outside that class; each match
 * is replaced by its upper-case form.
 */
module Names {

  /** The regular-expression class `\w`. */
  predicate IsWordChar(c: char) {
    'A' <= c <= 'Z' || 'a' <= c <= 'z' || '0' <= c <= '9' || c == '_'
  }

  /** `toUpperCase` on a one-character string holding a `\w` character. */
  function ToUpper(c: char): (u: char)
    ensures IsWordChar(u) == IsWordChar(c)
    ensures u == '_' <==> c == '_'
    ensures 'a' <= c <= 'z' ==> u as int == c as int - 32
    ensures !('a' <= c <= 'z') ==> u == c
  {
    if 'a' <= c <= 'z' then (c as int - 32) as char else c
  }

  /** What the first replace makes of one character. */
  function Spaced(c: char): char {
    if c == '_' then ' ' else c
  }

  /** `\b\w` matches at index i of the string t. */
  predicate WordStartAt(t: string, i: nat)
    requires i < |t|
  {
    IsWordChar(t[i]) && (i == 0 || !IsWordChar(t[i - 1]))
  }

  /** The first replace (medical/script.js:432): every underscore becomes a space. */
  function ReplaceUnderscores(s: string): (t: string)
    ensures |t| == |s|
    ensures forall i :: 0 <= i < |s| ==> t[i] == Spaced(s[i])
  {
    if s == [] then [] else [Spaced(s[0])] + ReplaceUnderscores(s[1..])
  }

  /**
   * `\b\w` matches at index i of t, where afterWord says whether the character
   * before t[0] was a word character.
   */
  predicate StartsWordAfter(t: string, i: nat, afterWord: bool)
    requires i < |t|
  {
    IsWordChar(t[i]) && !(if i == 0 then afterWord else IsWordChar(t[i - 1]))
  }

  /**
   * The second replace (medical/script.js:433): every word character at a word
   * start is upper-cased, scanning t left to right.
   */
  function UpperWordStarts(t: string, afterWord: bool): (r: string)
    ensures |r| == |t|
    ensures forall i :: 0 <= i < |t| ==>
      r[i] == if StartsWordAfter(t, i, afterWord) then ToUpper(t[i]) else t[i]
  {
    if t == [] then []
    else
      var head := if IsWordChar(t[0]) && !afterWord then ToUpper(t[0]) else t[0];
      var tail := UpperWordStarts(t[1..], IsWordChar(t[0]));
      assert forall i :: 1 <= i < |t| ==>
        StartsWordAfter(t[1..], i - 1, IsWordChar(t[0])) == StartsWordAfter(t, i, afterWord);
      [head] + tail
  }

  /** formatSymptomName. */
  function FormatSymptomName(symptom: string): (r: string)
    ensures |r| == |symptom|
    ensures forall i :: 0 <= i < |r| ==> r[i] != '_'
    ensures forall i :: 0 <= i < |symptom| ==>
      r[i] == if WordStartAt(ReplaceUnderscores(symptom), i)
              then ToUpper(Spaced(symptom[i])) else Spaced(symptom[i])
  {
    var t := ReplaceUnderscores(symptom);
    assert forall i :: 0 <= i < |t| ==> StartsWordAfter(t, i, false) == WordStartAt(t, i);
    UpperWordStarts(t, false)
  }

  /** formatDiseaseName: the same two replaces as formatSymptomName. */
  function FormatDiseaseName(disease: string): (r: string)
    ensures |r| == |disease|
  {
    UpperWordStarts(ReplaceUnderscores(disease), false)
  }

  /** The two formatters agree on every input. */
  lemma DiseaseNameIsSymptomName(name: string)
    ensures FormatDiseaseName(name) == FormatSymptomName(name)
  {
  }

  /**
   * A character of the result differs from the underscore-free input exactly
   * when it is a lower-case ASCII letter at a word start.
   */
  lemma ChangedExactlyAtLowerWordStarts(s: string, i: nat)
    requires i < |s|
    ensures FormatSymptomName(s)[i] != Spaced(s[i]) <==>
      WordStartAt(ReplaceUnderscores(s), i) && 'a' <= s[i] <= 'z'
  {
  }

  /** Formatting a formatted name changes nothing. */
  lemma FormatIdempotent(s: string)
    ensures FormatSymptomName(FormatSymptomName(s)) == FormatSymptomName(s)
  {
    var r := FormatSymptomName(s);
    var t := ReplaceUnderscores(s);
    var rr := FormatSymptomName(r);
    assert ReplaceUnderscores(r) == r by {
      forall i | 0 <= i < |r| ensures ReplaceUnderscores(r)[i] == r[i] {
      }
    }
    forall i | 0 <= i < |r| ensures IsWordChar(r[i]) == IsWordChar(t[i]) {
    }
    forall i | 0 <= i < |r| ensures rr[i] == r[i] {
      assert WordStartAt(r, i) == WordStartAt(t, i);
    }
  }

  lemma ExampleBackPain()
    ensures FormatSymptomName("back_pain") == "Back Pain"
  {
  }

  /** A word starting with a digit keeps its letters lower-case. */
  lemma ExampleDigitStart()
    ensures FormatSymptomName("3rd_x") == "3rd X"
  {
  }

  /** An apostrophe is not a word character, so the letter after it is a word start. */
  lemma ExampleApostrophe()
    ensures FormatSymptomName("crohn's") == "Crohn'S"
  {
  }
}
