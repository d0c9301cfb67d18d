# Symptom checker front-end: decision rules

This project models the decision rules in `medical/script.js`, the browser
page of a symptom checker. The page collects checked symptoms and posts them
to a diagnosis server. It then shows an error, a "No Conditions Matched"
view, or one card per returned condition. The diagnosis itself runs on the
server, which is not part of this model. What is modelled is the logic the
page applies around the request:

- `Names`: `formatSymptomName` and `formatDiseaseName`. Every `_` becomes a
  space, then each `\b\w` match is upper-cased. `\w` is ASCII
  `[A-Za-z0-9_]`, so `3rd_x` becomes `3rd X` and `crohn's` becomes `Crohn'S`.
- `Bands`: the high / moderate / low match level, with thresholds 70 and 50.
- `Ranking`: the in-place sort by descending confidence.
  `Array.prototype.sort` is stable, so results with equal confidence keep
  the server's order. The contract says the array ends up sorted, is a
  permutation of the input, and keeps that order inside each group of equal
  confidence. `StableSortUnique` proves these three facts fix the result
  exactly.
- `Diseases`: the metadata lookup, which falls back to a default for an
  unknown identifier, and the urgency badge rule.
- `Render`: the selection counter, the results summary line, the formatted
  symptom tags, and the `forEach` loop that builds one card per result.
- `Diagnose`: the validation before the request, and the choice of view for a
  response. The response is given as its status, its body text and an
  abstract JSON parse outcome.
- `DecimalText`: the decimal text of a non-negative integer in a template
  literal (`${n}`). `Wrappers`: an `Option` type.

Line 78 builds a message from the body's `details` or `error`. That
`throw` sits inside a `try`, and its `catch` (lines 79-80) replaces it with
`Server error: <status> - <body text>`, so the page always shows the generic
message. `NotOkTry` models the discarded message. `NotOkShowsServerError`,
`NotOkIgnoresParse` and `DetailsAreNotShown` prove the shown message is
always the generic one.

`response.ok` is modelled as the Fetch Standard defines it: a status from 200
to 299.

## Model

| member | source | states |
|---|---|---|
| `Names.ToUpper` | medical/script.js:433 | `toUpperCase` on a `\w` character: lower-case ASCII letters move to upper case and everything else is unchanged; word-ness and `_` are preserved |
| `Names.ReplaceUnderscores` | medical/script.js:432 | same length; each character is the input's, with `_` replaced by a space |
| `Names.UpperWordStarts` | medical/script.js:433 | same length; index i is upper-cased exactly when it holds a word character whose predecessor (or the preceding context, at index 0) is not one; every other character is left alone |
| `Names.FormatSymptomName` | medical/script.js:430-434 | same length as the identifier; no `_` in the output; character i is `ToUpper` of the underscore-free character when `\b\w` matches at i in the underscore-free string, else that character |
| `Names.FormatDiseaseName` | medical/script.js:436-440 | same length as the identifier |
| `Names.DiseaseNameIsSymptomName` | medical/script.js:430-440 | `formatDiseaseName` and `formatSymptomName` agree on every input |
| `Names.ChangedExactlyAtLowerWordStarts` | medical/script.js:431-433 | an output character differs from the underscore-free input exactly when it is a lower-case letter at a word start |
| `Names.FormatIdempotent` | medical/script.js:430-434 | formatting a formatted name returns it unchanged |
| `Names.ExampleBackPain` | medical/script.js:430-434 | `back_pain` gives `Back Pain` |
| `Names.ExampleDigitStart` | medical/script.js:430-434 | `3rd_x` gives `3rd X`: the word starts with a digit, so its `r` stays lower-case |
| `Names.ExampleApostrophe` | medical/script.js:430-434 | `crohn's` gives `Crohn'S`: an apostrophe is not `\w`, so the next letter starts a word |
| `Bands.BandOf` | medical/script.js:370-378 | high iff confidence >= 70; medium iff 50 <= confidence < 70; low iff confidence < 50 |
| `Bands.BandMonotone` | medical/script.js:370-378 | raising the confidence never lowers the band |
| `Bands.ClassAndLabelAgree` | medical/script.js:370-378 | class and label are set together: equal classes, or equal labels, mean the same band |
| `Ranking.SwapKeepsTies` | medical/script.js:338 | exchanging two neighbours of different confidence keeps the order inside every confidence group |
| `Ranking.SwapDown` | medical/script.js:338 | exchanges two neighbours of different confidence, leaving the rest of the array alone; they remain a permutation and ties keep their order |
| `Ranking.InsertAt` | medical/script.js:338 | from a sorted prefix of length i, produces a sorted prefix of length i + 1 and leaves every result after index i where it was; a permutation; ties keep their order |
| `Ranking.SortByConfidence` | medical/script.js:338 | after the sort, confidences do not increase with the index; the array is a permutation of the input (same multiset); results of equal confidence keep their input order |
| `Ranking.StableSortUnique` | medical/script.js:338 | two sorted permutations that order each confidence group alike are equal, so the contract above fixes the result of the stable sort |
| `Diseases.InfoFor` | medical/script.js:361-367 | a known identifier gets its table entry; an unknown one gets its formatted name, the default description and low urgency |
| `Diseases.UnknownDiseaseDefaults` | medical/script.js:361-367 | an unknown identifier never shows the urgency badge, and its name has the identifier's length, no `_`, and is already formatted |
| `Diseases.KnownEntries` | medical/script.js:130-335 | `crohns_disease` shows the table's name `Crohn's Disease`; meningitis (high urgency) shows the badge and Crohn's disease (medium) does not |
| `Render.SelectionCounter` | medical/script.js:2-14 | the counter is highlighted exactly when at least one symptom is checked |
| `Render.SelectionCounterExamples` | medical/script.js:7 | 0, 1 and 2 read "0 symptoms selected", "1 symptom selected", "2 symptoms selected" |
| `Render.SelectionCounterReadBack` | medical/script.js:7 | different counts give different counter texts |
| `Render.PluralRulesDifferAtZero` | medical/script.js:344 | for zero symptoms the counter reads "0 symptoms selected" while the summary's symptom phrase is "0 symptom"; for every count of one or more the counter text is the summary's symptom phrase followed by " selected", and the summary's condition phrase follows the counter's `!== 1` rule |
| `Render.Counted` | medical/script.js:344 | a counted noun is as long as the digits, a space, the noun and one more character exactly when plural, and then ends in `s` |
| `Render.CountedParts` | medical/script.js:7 | a counted noun starts with the count's digits, then a space, then the noun |
| `Render.ResultsSummary` | medical/script.js:344 | its counts use the `> 1` rule, which `PluralRulesDifferAtZero` sets against the counter's rule |
| `Render.CardFor` | medical/script.js:359-409 | a card shows the looked-up name and description, the urgency badge exactly for high urgency, and the band of the result's confidence |
| `Render.RenderCards` | medical/script.js:358-410 | one card per result, in order, each being `CardFor` of its result (name, description, badge, band, confidence) |
| `Render.CardsFollowBands` | medical/script.js:338-378 | over sorted results, no card shows a higher band than a card above it |
| `Render.SymptomTags` | medical/script.js:351 | one tag per selected symptom, each its formatted name |
| `Render.RenderResults` | medical/script.js:126-427 | sorts the array in place (sorted, permutation, ties kept); the summary counts the results and symptoms; tags and cards follow the sorted array |
| `Diagnose.Begin` | medical/script.js:47-50 | no request (an alert) exactly when no symptom is checked; otherwise the checked symptoms are posted |
| `Diagnose.OrElse` | medical/script.js:78 | JavaScript's logical or on an optional string: the string if present and non-empty, else the fallback |
| `Diagnose.NotOkTry` | medical/script.js:76-78 | the try block for a failed response always throws |
| `Diagnose.IsOk` | medical/script.js:75 | `response.ok`; `ErrorViewExactly` shows that every status outside 200-299 ends in the error view |
| `Diagnose.ServerErrorMessage` | medical/script.js:80 | the message is the prefix "Server error: ", the status's digits, the separator " - " and the whole body text, in that order |
| `Diagnose.HandleResponse` | medical/script.js:73-84 | a response that is not ok throws the server-error message; an ok one throws the SyntaxError message when its text is not JSON and otherwise passes on its `results` |
| `Diagnose.ShowData` | medical/script.js:85-91 | never an error; the no-results view exactly when `results` is missing or empty; otherwise the results view with those results and the selected symptoms |
| `Diagnose.Complete` | medical/script.js:73-100 | an error view exactly when the first handler threw, showing that exception's message; a results view has at least one result and the selected symptoms |
| `Diseases.ShowsUrgencyBadge` | medical/script.js:388 | the badge shows for high urgency only; `UnknownDiseaseDefaults` and `KnownEntries` show it absent for unknown and medium-urgency diseases and present for meningitis |
| `Diagnose.CatchAndRethrow` | medical/script.js:79-81 | an exception from the try block is replaced by the catch's own; a normal completion would pass through |
| `Diagnose.NotOkShowsServerError` | medical/script.js:75-81 | every response that is not ok shows "Server error: <status> - <body text>" |
| `Diagnose.NotOkIgnoresParse` | medical/script.js:75-81 | for a response that is not ok, whether and how the body parses makes no difference to the view |
| `Diagnose.DetailsAreNotShown` | medical/script.js:76-81 | for every status that is not ok and every body whose `details` is non-empty, the try block throws those details, and the page shows `Server error: <status> - <body text>` instead |
| `Diagnose.DetailsAreNotShownExample` | medical/script.js:76-81 | a 400 response with body `{"details":"x"}` throws "x" in the try block and shows the server-error message for 400 and that body |
| `Diagnose.ServerErrorMessageReadBack` | medical/script.js:80 | the error message determines the status and the body text |
| `Diagnose.ErrorViewExactly` | medical/script.js:73-100 | an error view appears exactly when the response is not ok or its text is not JSON |
| `Diagnose.OkWithoutResultsShowsNoResults` | medical/script.js:86-87 | an ok JSON response shows the no-results view exactly when `results` is missing or empty |
| `Diagnose.OkWithResultsShowsThem` | medical/script.js:88-90 | otherwise `renderResults` receives the returned results and the selected symptoms unchanged |
| `Diagnose.ResultsViewCounts` | medical/script.js:344 | a results page always has at least one result and one symptom, so its `> 1` rule agrees with the counter's `!== 1` rule |
| `DecimalText.Decimal` | medical/script.js:80 | `${n}` is a non-empty string of digits that starts with 0 only for 0 |
| `DecimalText.ValueOfDecimal` | medical/script.js:80 | reading back the digits of `${n}` gives n |
| `DecimalText.DecimalThenText` | medical/script.js:80 | digits followed by text that starts with a non-digit determine both the number and the text |

## Left out

- DOM reads and writes, event wiring, `alert`, the loading spinner, button state, `resetForm` and scrolling (lines 2-34, 53-62, 91-93, 96-99, 421-426): these are UI plumbing. Checked boxes become a list or count argument; rendering becomes a returned value.
- `fetch`, promises and asynchrony: network I/O. A response is an argument: status, body text and the parse outcome.
- JSON parsing: a library call. Its outcome is the abstract `Parsed` value, so the SyntaxError's wording is an input. A body that parses to `null` is not modelled; in the source, `data.results` would then throw a TypeError that the page displays. A non-array `results` value is not modelled either.
- Number formatting: `confidence.toFixed(1)`, the bar width and the animation delay (lines 381, 391, 397). Confidences are exact `real`s, so NaN and Infinity are not modelled; `JSON.parse` does turn an out-of-range number such as `1e400` into Infinity.
- `Decimal` covers the way a non-negative integer prints. It does not cover exponent notation, which JavaScript uses from 10^21 upwards; HTTP statuses and list lengths never get that large.
- Diagnose.ErrorViewExactly: the page also shows the error view when `fetch` rejects without any response (lines 95-99, 114-124). A `Response` always exists in the model, so this path is not modelled.
- Diagnose.ErrorViewExactly: the page also shows the error view when `renderResults` throws. This happens when a result's `disease` is neither a string nor a table key, because `formatDiseaseName` then calls `.replace` on it (lines 362, 437). It also happens when `confidence` is not a number, at `toFixed` (line 391). `Diagnosis` fixes both field types, so these paths are not modelled.
- HTML templates, icons, colours and CSS classes beyond the band's class and label: presentation only.
- Diseases.InfoFor: `Table` holds 4 of the 28 entries of the `diseaseInfo` table (medical/script.js:130-335), so the model treats the other 24 identifiers as unknown. For one of them, such as `pneumonia` (high urgency at line 259), `InfoFor` gives the default description and low urgency and `UnknownDiseaseDefaults` denies the badge, while the page shows its entry and the badge.
- `Diseases.InfoFor`: a JavaScript object lookup also finds inherited keys such as `constructor`. A `map` lookup does not, so the model assumes the server never sends an identifier such as `constructor`.
- The symptom-to-disease inference: it runs on the server, which is not part of this model.
