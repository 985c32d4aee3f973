# Verb Practice: the quiz core, in Dafny

Verb Practice is a one-page Streamlit app (`app.py`). It shows an English
irregular verb, asks for its past form (V2) and past participle (V3), and
says whether the answer is right. After a correct answer the learner can
save a sentence of their own into the verb's record in `Data.json`.

This project models the logic under that page:

- **Text** (`text.dfy`): Python's `str.strip()` and `str.lower()` at the
  ASCII level. `Normalise` is `attempt.strip().lower()`.
- **Verbs** (`verbs.dfy`): the verb records. It also holds
  `save_user_example` as a loop over an array that updates one record in
  place. `AddExample` is the value that loop computes.
- **Grading** (`grading.dfy`): the answer check. `Accepts` is a
  normalisation-free statement of what the check accepts, and the check is
  proved equal to it.
- **Session** (`session.dfy`): the three session keys `verb`, `result` and
  `form_id`. `PracticeSession` is a class whose methods are the first run,
  "Check", the two advance buttons and "Save my sentence". The same steps
  exist as functions on a `State` value. `Replay` runs them over any
  sequence of "Check" and advance presses. "Save my sentence" is not an
  event there, because it leaves the session keys as they were.
- **Persistence** (`persistence.dfy`): the verb collection across reruns.
  It covers the `@st.cache_data` load and the rewrite of `Data.json`.
  See "Findings".

`random.choice(verbs)` becomes an index supplied by the caller. A
`requires` keeps it inside the collection. The source has no guard for an
empty collection: `random.choice` would raise there.

Where the code and the design description of the app disagree, the model
follows the code:

- The stored V2/V3 are compared verbatim. They are not stripped or
  lower-cased. So a stored form with an upper-case letter or surrounding
  whitespace can never be answered correctly (`GradeWrongForUnnormalStoredForm`).
- Saving for a verb that is not in the collection does not fail. The
  collection is left unchanged, and the file is still rewritten.
- There is no comparative/superlative quiz in `app.py`.

## Model

| member | source | states |
|---|---|---|
| `Text.IsSpace` | app.py:171-172 | the whitespace `strip()` removes is exactly the ASCII table of `str.isspace()`: space, tab, line feed, carriage return, vertical tab, form feed and the separators 0x1C-0x1F |
| `Text.FirstNonSpace` | app.py:171-172 | the left scan of `strip()`: everything it skips is whitespace, and it stops at a non-space or at the end |
| `Text.EndOfText` | app.py:171-172 | the right scan of `strip()`: everything it skips is whitespace, and it never passes the left scan's stop |
| `Text.Strip` | app.py:171-172 | `strip()` returns a string with no whitespace at either end |
| `Text.StripPadded` | app.py:171-172 | whatever whitespace surrounds a trimmed `m`, `strip()` returns exactly `m` |
| `Text.StripIgnoresPadding` | app.py:171-172 | adding whitespace around any string does not change what `strip()` returns |
| `Text.StripIdempotent` | app.py:171-172 | stripping twice is stripping once |
| `Text.Lower` | app.py:171-172 | `lower()` leaves no upper-case letter |
| `Text.LowerFixedIff` | app.py:171-172 | `lower()` leaves a string unchanged exactly when it has no upper-case letter |
| `Text.LowerEqIff` | app.py:171-172 | two strings lower-case alike exactly when they differ only in letter case |
| `Text.StripLowerCommute` | app.py:171-172 | stripping and lower-casing can be done in either order |
| `Text.Normalise` | app.py:171-172 | `strip().lower()` gives a string with no upper-case letter and no whitespace at either end |
| `Text.NormaliseFixedIff` | app.py:171-172 | the normalisation leaves a string unchanged exactly when it is already normal |
| `Text.NormaliseIdempotent` | app.py:171-172 | normalising twice is normalising once |
| `Grading.NormaliseMatchesIff` | app.py:171-172 | a normalised attempt equals a stored form exactly when the stored form is normal and the attempt is that form up to letter case, with whitespace around it |
| `Grading.Grade` | app.py:169-176 | the outcome is Correct exactly when both typed forms are accepted for the stored V2 and V3; otherwise it is Wrong |
| `Grading.GradeIgnoresPadding` | app.py:171-172 | whitespace typed around either form never changes the outcome |
| `Grading.GradeIgnoresCase` | app.py:171-172 | the letter case of what is typed never changes the outcome |
| `Grading.NormaliseCaseBlind` | app.py:171-172 | attempts that differ only in letter case normalise alike |
| `Grading.GradeWrongForUnnormalStoredForm` | app.py:171-172 | a stored V2 or V3 with an upper-case letter or surrounding whitespace makes every answer Wrong |
| `Grading.GradeStoredForms` | app.py:170-173 | typing back the stored forms is Correct exactly when both are normal |
| `Grading.GradeNoPartialCredit` | app.py:170-176 | a V3 that does not match makes the outcome Wrong, whatever the V2 is |
| `Grading.GoShoutedIsCorrect` | app.py:169-174 | `" WENT "`/`"GONE"` is Correct against "went"/"gone" |
| `Grading.GoWentWentIsWrong` | app.py:169-176 | `"went"`/`"went"` is Wrong against "went"/"gone" |
| `Verbs.WithExample` | app.py:101-103 | the record gains a `user_examples` list that is the old one (or none) plus the sentence; no other field changes |
| `Verbs.FirstMatch` | app.py:99-100 | finds the first record whose `v1` is the key, and finds none exactly when no record has it |
| `Verbs.AddExample` | app.py:99-104 | what the loop leaves in memory: the same length; the first record whose `v1` is the key gains the sentence at the end of its examples, with no other field changed; every other record is unchanged |
| `Verbs.SaveUserExample` | app.py:98-104 | the array afterwards equals `AddExample` of the array before: the first record with the current verb's `v1` gains the sentence |
| `Verbs.AddExampleChangesOnlyFirstMatch` | app.py:99-104 | only the first matching record changes, to old examples plus the sentence; every other record (later duplicates included), the length and the order stay the same |
| `Verbs.AddExampleWithoutMatch` | app.py:99-104 | with no record for the verb, the collection is unchanged |
| `Verbs.AddExampleKeepsBaseForms` | app.py:99-104 | a save changes no `v1`, so every later lookup finds the same record |
| `Verbs.FirstMatchSameKeys` | app.py:99-100 | the record found depends only on the `v1` fields |
| `Verbs.SavesKeepOrder` | app.py:103 | applied twice to the same in-memory collection, two saves on the same verb leave its examples as before plus the two sentences, in the order saved; as written, saves in separate reruns do not compose (see Findings) |
| `Session.Start` | app.py:119-121 | the first run draws a verb of the collection, with no result and form counter 0 |
| `Session.Checked` | app.py:169-176 | "Check" sets a result that is Correct exactly when both forms are accepted; verb and counter stay |
| `Session.Advanced` | app.py:212-216 | advancing draws a verb of the collection, clears the result and adds exactly 1 to the counter, even if the same verb is drawn |
| `Session.Offered` | app.py:179-241 | the check form is always on the page; an advance is possible only while a result is shown (the buttons under lines 179 and 220) and its draw lands in the collection |
| `Session.Step` | app.py:169-241 | one press: the counter goes up by exactly 1 on an advance and stays on a check; the result is cleared exactly by an advance; a check keeps the verb, and the verb stays in the collection |
| `Session.Replay` | app.py:119-241 | a run that happens starts from a draw inside the collection, keeps its verb in the collection, and every prefix of it happens too; with no presses it happens exactly when the first draw is valid |
| `Session.ReplayInvariant` | app.py:119-241 | on every run, the counter is the number of advances and the verb is in the collection; there is no result exactly at the start and after an advance, and otherwise the result is the grade of the last check |
| `Session.ReplayFormIdMonotone` | app.py:212-241 | along a run the form counter never decreases |
| `Session.PracticeSession.constructor` | app.py:119-150 | the session starts in `Start`: the drawn verb, no result, counter 0 (lines 119-121 and 149-150) |
| `Session.PracticeSession.Check` | app.py:169-176 | the session moves to `Checked` |
| `Session.PracticeSession.Next` | app.py:237-241 | offered only while a result is shown; the session moves to `Advanced` |
| `Session.PracticeSession.SaveSentence` | app.py:203-207 | offered only after a Correct answer; a sentence that is blank once stripped changes nothing; otherwise the stripped sentence is saved through `AddExample` |
| `Session.GoStoredFormsAreCorrect` | app.py:169-174 | "went"/"gone" is Correct for "go" |
| `Persistence.Boot` | app.py:92-95 | the first load caches what the file holds |
| `Persistence.Load` | app.py:116 | `verbs = load_data()` gives what the file holds as long as the cache still matches the file |
| `Persistence.SaveAsWritten` | app.py:92-116 | as written: the next rerun loads the same collection as before, and the file is rewritten from that cached collection plus the sentence |
| `Persistence.Save` | app.py:98-107 | corrected save: the file becomes the loaded collection plus the sentence, and the cache follows it |
| `Persistence.SaveAsWrittenForgetsEarlierSave` | app.py:92-116 | as written, a save does not change what the next rerun loads, and a second save writes the first load plus only the second sentence |
| `Persistence.SaveAsWrittenLosesA` | app.py:92-116 | as written, saving "A" then "B" for "go" leaves only "B" in the file |
| `Persistence.SaveExtendsFile` | app.py:106-107 | corrected: each save extends the file the previous saves wrote, and the next rerun loads it |
| `Persistence.SaveKeepsBothSentences` | app.py:103-107 | corrected: saving "A" then "B" leaves both in the file, in that order |

## Left out

- Text.Strip: strips ASCII whitespace only. Python's `str.strip()` also strips non-ASCII whitespace (U+0085, U+00A0, U+2000 and others). The model has no Unicode tables.
- Text.Lower: lower-cases only `A`-`Z`. Python's `str.lower()` also lower-cases other letters (`É`, Cyrillic, Greek and more). The model has no Unicode tables.
- All Streamlit rendering: the CSS, HTML markdown, headers, success/error boxes, columns and widgets. Also the form keys built from `form_id`, `st.rerun` and the list of saved sentences shown after a correct answer (app.py:193-196). None of it decides anything.
- `reset_form` (app.py:110-113) is defined but never called.
- Reading and writing `Data.json` (`open`, `json.load`, `json.dump`). The file is modelled only as the last collection written to it (`Persistence.Store.file`). JSON encoding and its round-trip fidelity belong to a library outside this model.
- `random.choice` is an index chosen by the caller. Its distribution is not modelled.
- Aliasing between `st.session_state.verb` and the records of the collection. The session holds its own copy of the record (a value), so the saved-sentence list shown on the page is not modelled.
- The dictionary guard `"verb" not in st.session_state` (and the same guard for `form_id`). It is modelled as the constructor running once, on the first run.

## Findings

| source | as written | input that shows it | evidently intended | confidence | as-written member | corrected member |
|---|---|---|---|---|---|---|
| app.py:92-116 | `load_data` is cached by `@st.cache_data`, so every rerun gets a copy of the collection as first loaded; each save appends to that copy and writes it over `Data.json`, and the cache is never cleared | save "A" for "go", then, in the next rerun, save "B" for "go": `Data.json` ends with `user_examples` `["B"]` and "A" is lost; the same happens across different verbs | every saved sentence stays in the file (`["A", "B"]`), and later reruns see it | medium, not executed; it rests on `st.cache_data` handing back a copy of the value cached at the first call, which is that library's documented behaviour | `Persistence.SaveAsWrittenLosesA` | `Persistence.SaveKeepsBothSentences` |
