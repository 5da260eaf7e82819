# Scholarship application form — a Dafny model of its decision logic

The form is a single browser script. It checks each field as the user leaves it, scores the finished
application out of 100, and shows a tier comment under the score. It also collects the repeatable
"achievement" and "evidence link" inputs into lists and keeps an in-memory list of attached images with
a preview whose buttons remove them. This project models that logic as pure Dafny functions over
immutable values and proves what the script promises about it.

Modules, one per concern of the script:

- `Options`: the result of `parseFloat` / `parseInt`, with `None` for NaN and `Or` for `parsed || 0`.
- `Text`: ECMAScript whitespace, `\d` and case-insensitive `[A-Z]`, and `String.prototype.trim`.
  Trim is modelled as the two positions where it cuts (`TrimBounds`) and the slice between them.
- `Validators`: `isValidEmail`, `isValidPhone`, `isValidStudentId`. Each is a direct check over
  characters, with a lemma proving it accepts exactly the language of the script's regular expression.
  That language is written as a ghost predicate built from the pattern's pieces.
- `Validation`: `validateField` over a `Field` record. The six checks run in `validateField`'s order: required,
  email, phone, student id, GPA and URL. Each check that fires clears `isValid` and overwrites
  `message`. `Fold` runs them. `ValidateAll` is the loop in `handleSubmit` that validates every control.
- `Scoring`: `calculateScore`. It adds six components in exact real arithmetic and rounds once with
  `Math.round`, modelled as `Floor(x + 0.5)`. Three are capped with `Math.min`, rank and income are
  fixed lookups, and the GPA part is uncapped, so the bound of 100 needs a GPA in [0, 4].
- `Tiers`: the comment `showSuccessModal` picks by the 85 / 70 / 55 thresholds.
- `Collect`: the `achievements` / `evidences` lists (trimmed, blanks dropped, order kept) and the
  image metadata `imageCount` / `imageNames`.
- `Gallery`: the image list and its preview. It covers `removeImage` (splice one, redraw with indices
  0..n-2) and the effect of the file reader's `onload` callback (push, append a button for the new
  last index).
- `Submission`: how the collected lists feed the score, and the worked example's tier.

Three behaviours of the script that a reader might not expect, all modelled as written:

- When several checks fail, the LAST failing check's message is kept, not the first.
  Later `if`s overwrite `message`.
- A required radio button passes when any button of its group is checked. Nothing checks that exactly
  one is.
- The required check only looks at controls whose `value` trims to the empty string. A radio button or
  checkbox reports `"on"` as its `value` when it has no `value` attribute, and its attribute otherwise.
  So the "choose an option" and "must agree" branches run only for a button or box whose `value`
  attribute is empty or all whitespace; any other radio button or checkbox passes the required check. The model
  keeps that condition as written: `value` is an input of `Field`.

## Model

| member | source | states |
|---|---|---|
| Text.TrimBounds | script.js:39 | trim cuts off only whitespace (everything before the start and from the end on is whitespace) and leaves no whitespace at either end of what it keeps |
| Text.Trim | script.js:220 | the trimmed value has no whitespace at either end and is empty exactly when the value is all whitespace, which is when `!value.trim()` holds |
| Text.TrimIdempotent | script.js:220 | trimming an already trimmed value changes nothing, so the pushed entries are trimmed values |
| Validators.EmailAgreesWithPattern | script.js:102-104 | the check accepts exactly the strings of `^[^\s@]+@[^\s@]+\.[^\s@]+$`: no whitespace, one `@`, non-empty local part, a dot in the domain that is neither its first nor its last character |
| Validators.ValidEmailMatchesPattern | script.js:103 | every accepted address splits into local part, `@`, host, `.`, top-level part, each a non-empty run without whitespace or `@` |
| Validators.PatternIsValidEmail | script.js:103 | every string of the regular expression's shape passes the check |
| Validators.PhoneAgreesWithPattern | script.js:106-108 | the check accepts exactly `0` followed by nine or ten ASCII digits, the language of `^0\d{9,10}$` |
| Validators.StudentIdAgreesWithPattern | script.js:110-112 | the check accepts exactly two ASCII letters of either case followed by four to eight ASCII digits, the language of `/^[A-Z]{2}\d{4,8}$/i` |
| Validators.PhoneExamples | script.js:106-108 | `0123456789` and `01234567890` pass; `123456789`, `1234567890`, `01234567890123` and a number with a letter fail |
| Validators.StudentIdExamples | script.js:110-112 | `AB1234`, `ab1234` and `Sv12345678` pass; `A1234`, `AB123` and `ABC1234` fail |
| Validators.EmailAccepted | script.js:102-104 | `an@uni.vn` is a valid address |
| Validators.EmailRejectedShapes | script.js:102-104 | addresses with no dot in the domain, an empty local part, or a dot first or last in the domain are rejected |
| Validators.EmailRejectedCharacters | script.js:102-104 | an address with a space or with a second `@` is rejected |
| Validation.Fold | script.js:35-88 | running the checks in order leaves the verdict unchanged when none fires; otherwise it is invalid and carries the message of the last check that fired |
| Validation.ValidateField | script.js:33-99 | a field is valid exactly when none of the six checks fires; an invalid field's message is that of the last check in `validateField`'s order that fired; the message is empty exactly when the field is valid |
| Validation.CheckMessagesNonEmpty | script.js:44-87 | no check produces an empty message, so an empty message means a valid field |
| Validation.ValidateAll | script.js:134-137 | every control is validated, none skipped, with one verdict per control; submission may go on exactly when every verdict is valid |
| Validation.LastFiredWins | script.js:58-88 | among the checks that fired, only the message of the last one can remain |
| Validation.EmptyOptionalFieldIsValid | script.js:39-88 | a field that is not required and is left empty passes with an empty message, whatever its type or name |
| Validation.RequiredBlankFieldFails | script.js:38-55 | a required blank field fails unless it is a radio button whose group has a selection or a ticked agreement box; if its value is empty, the message is the one its kind calls for |
| Validation.GpaFieldVerdict | script.js:75-82 | a GPA field fails only for being required and blank or for a parsed value below 0 or above 4; an unparseable value never fails |
| Validation.LaterCheckOverwritesMessage | script.js:38-67 | a required phone field holding only spaces fails both the required and the phone check, and the user sees the phone message |
| Scoring.Round | script.js:267 | `Math.round` gives the nearest integer, with halves rounded up |
| Scoring.GpaPoints | script.js:240-242 | the GPA earns ten points per grade point, so a GPA in [0, 4] earns between 0 and 40 |
| Scoring.RankPoints | script.js:244-246 | the rank earns at most 10 points and earns some points exactly when it is excellent, good, fair or average |
| Scoring.IncomePoints | script.js:248-253 | the income earns exactly one of 15, 10, 5 or 2 points |
| Scoring.Capped | script.js:255-265 | a list earns the per-item points times its length, but never more than the cap: the smaller of the two |
| Scoring.WholePoints | script.js:244-265 | the five non-GPA components sum to a whole number between 2 and 60 |
| Scoring.Score | script.js:237-268 | with a GPA in [0, 4], or none, the score is an integer between 2 and 100 |
| Scoring.RoundShift | script.js:267 | adding a whole number before rounding is the same as adding it after |
| Scoring.ScoreRoundsOnlyGpa | script.js:237-267 | rounding once at the end gives `round(gpa * 10)` plus the whole-number components |
| Scoring.ScoreMonotoneInGpa | script.js:241-242 | raising the GPA never lowers the score |
| Scoring.IncomePointsAntitone | script.js:249-253 | a higher income never earns more income points |
| Scoring.ScoreAntitoneInIncome | script.js:248-253 | raising the income never raises the score |
| Scoring.RankPointsOrdered | script.js:245-246 | excellent > good > fair > average > any other rank, which earns 0 |
| Scoring.MissingNumbersCountAsZero | script.js:241-249 | a missing or unparseable GPA or income scores exactly as 0 does |
| Scoring.GpaIsUncapped | script.js:241-242 | the GPA part has no cap: a GPA of 5 with every other component at its maximum scores 110 |
| Scoring.WorkedExample | script.js:237-267 | GPA 3.6, excellent rank, income 2,500,000, 2 situations, 3 achievements and 2 evidence links score 78 |
| Tiers.TierOf | script.js:347-351 | the tier is excellent from 85 up, good from 70 to 84, fair from 55 to 69, and needs-improvement below 55; every score gets exactly one tier |
| Tiers.TierMonotone | script.js:347-351 | a higher score never gets a lower tier |
| Tiers.CommentsDistinct | script.js:348-351 | the four tiers show four different comments |
| Collect.Entries | script.js:218-229 | the collected list is no longer than the inputs and every entry is non-empty and trimmed |
| Collect.EntriesMembership | script.js:219-221 | a value is collected exactly when it is the non-blank trim of some input |
| Collect.EntriesAppend | script.js:219-221 | collecting from two runs of inputs gives the first run's entries followed by the second's, so input order is kept |
| Collect.CollectEntries | script.js:218-222 | the `forEach` that pushes each non-blank trimmed value builds the order-preserving trimmed filter of the inputs |
| Collect.BlankInputsIgnored | script.js:220 | a blank input contributes nothing wherever it sits |
| Collect.ImageNames | script.js:233 | there is one name per image, in order |
| Collect.CollectLists | script.js:217-233 | achievements and evidences are no longer than their inputs and hold only non-empty trimmed values; `imageCount` equals the number of names and of images |
| Collect.RemovedImageLeavesMetadata | script.js:322 | after removing image `i`, the recorded names are the old names without the `i`-th |
| Gallery.SpliceOne | script.js:322 | `splice(index, 1)` removes the element at an in-range index and keeps the rest in order; a negative index counts from the end; an index past the end removes nothing |
| Gallery.Redraw | script.js:325-335 | the redrawn preview shows image `i` at position `i` with a button that removes index `i` |
| Gallery.RemoveImage | script.js:321-336 | after a removal the preview is in step with the images, and an in-range index removes exactly that image |
| Gallery.AddLoadedImage | script.js:300-315 | a loaded image goes at the end of the list, and a preview that was in step stays in step |
| Gallery.RemoveReindexes | script.js:321-335 | removing image `i` of `n` keeps earlier items, moves later images down one place, and numbers the buttons 0..n-2 with no gap or repeat |
| Gallery.ButtonRemovesItsOwnImage | script.js:313-332 | while the preview is in step, the button under picture `j` removes exactly picture `j` and leaves the preview in step |
| Submission.BlankAchievementScoresNothing | script.js:259-261 | an achievement box left blank does not change the score |
| Submission.WorkedExampleTier | script.js:347-351 | the worked example's score of 78 falls in the "good" tier |

## Left out

- Rendering and events are not modelled because they carry no decisions, apart from the image preview
  that `Gallery` describes. This covers the listeners,
  the `error` CSS class and error text, scrolling to the first error, the loading button, the modal,
  `closeModal` and `clearForm`.
- Gallery.ItemFor: the script builds each preview item as an HTML string and inserts the image's
  `name` and `data` into `innerHTML` without escaping (script.js:311-313, 330-332). A file name holding
  `"` can therefore end the double-quoted `alt` attribute early and, followed by more markup, add
  attributes or elements such as an extra remove button. The model keeps each item as a record of picture, alt text and button index, so
  `Gallery.InSync`, `Gallery.RemoveReindexes` and `Gallery.ButtonRemovesItsOwnImage` describe the items
  the template means to build, which is what the page shows for names without `"`.
- The document store is an external service. `addDoc`, `collection`, `serverTimestamp`, the
  `submittedAt` clock value and the store-failure `alert` are not modelled.
- Reading files is asynchronous I/O. `handleImageUpload`'s `FileReader` and its `image/` type filter
  are not modelled. Only the effect of its `onload` callback is (`Gallery.AddLoadedImage`), with the
  image as an input.
- `isValidURL` relies on the URL parser of the WHATWG URL Standard. It is the parameter `isValidUrl`,
  so nothing is assumed about which strings it accepts.
- `parseFloat` and `parseInt` read a numeric prefix. Their results are `Option` inputs, with `None`
  for NaN. `Infinity` and `-0` are not represented.
- `Scoring.Score` uses exact real arithmetic, not IEEE-754 doubles. A double's rounding error in
  `(gpa / 4.0) * 40` could move a value that sits exactly on a half.
- `Scoring.RankPoints`: the lookup considers only the object's four own keys. In JavaScript, a rank
  equal to an inherited property name such as `constructor` would find a function. The rank comes from
  a fixed radio group, so the model does not follow that path.
- The first loop of `collectFormData`, which copies every named control into the record, is not
  modelled. The score reads four of the fields that loop fills, and each is an input of
  `Scoring.Answers` instead: `gpa` and `income` as the results of `parseFloat` and `parseInt` on the
  controls' values, `rank` as the value of the checked radio button of that name, and the count of
  checked `situation` boxes.
- `addAchievement` and `addEvidence` only append an empty input box. The model takes the input boxes'
  values as a sequence.
- Strings are sequences of Unicode scalar values, while JavaScript strings are UTF-16 code units. The
  three patterns and `trim` only test ASCII and Basic Multilingual Plane characters, so verdicts agree.
  Lengths of strings with astral characters would differ. `IsValidPhone` and `IsValidStudentId` read
  lengths, but a string holding an astral character fails their character tests whatever its length.
