# MindEase stress check — a verified model

MindEase is a student-wellness web app. A React front end has three pages, and a FastAPI back end serves them:

- the assessment page. The student fills in twenty 0-to-max scores grouped in five sections. The page posts them to `/predict` and then posts the answer's label and factors to `/explain`. The result card shows the label, the "Key Factors" line and the AI explanation.
- the chat page. It keeps a transcript that opens with a greeting. Each non-blank message is posted to `/chat` together with the texts of the earlier transcript. The reply and its advice are then appended. "Clear" restarts the transcript after a confirmation.
- the monitoring dashboard. It shows three bars counting the stored predictions per stress label, a "Total Records" count, and a newest-first table with a coloured label badge and a "Key Factors" cell.

The back end does four things:

- maps the classifier's integer to a label ("Unknown" outside 0..2);
- derives stress factors from six threshold rules, in a fixed order, with "General Stress" when no rule fires;
- stores `", ".join(factors)` with the record;
- cuts the generator's reply out of the generated text: the piece after the last `"<|assistant|>\n"` marker, stripped.

For `/chat` it uses only the last four history entries, joined with newlines.

The model has one module per concern:

| file | module | models |
|---|---|---|
| `wrappers.dfy` | `Wrappers` | `Option` |
| `text.dfy` | `Text` | Python's `str.join`, `str.split(sep)`, `[-1]` and `str.strip()`; JavaScript's `trim()` |
| `catalog.dfy` | `Catalog` | the assessment page's field catalog and its initial form |
| `scoring.dfy` | `Scoring` | `/predict`: validation, labels, factor rules, the saved record, and the rows of `/monitoring-data` |
| `generation.dfy` | `Generation` | `/explain` and `/chat` around an abstract text generator |
| `assessment.dfy` | `Assessment` | the assessment page controller (a class) and its result card |
| `chat.dfy` | `Chat` | the chat page controller (a class) |
| `monitoring.dfy` | `Monitoring` | the dashboard's chart, total, table and badges |

In three places the model follows the code where one might expect otherwise:

- an edited score is stored exactly as entered, with no clamping to `[0, max]`;
- a failed submit leaves the earlier result card in place;
- the chat context posted with a message is the transcript *before* that message was added.

## Model

| member | source | states |
|---|---|---|
| `Text.Join` | stress_app_project/backend/main.py:161 | `sep.join(parts)`; its length and its inverse are stated by `Text.JoinLength` and `Text.SplitJoin` |
| `Text.LastPiece` | stress_app_project/backend/main.py:193 | `s.split(sep)[-1]`; what it is stated by `Text.LastPieceFollowsSeparator` |
| `Text.Strip` | stress_app_project/backend/main.py:193 | `strip()` and `trim()` over a given whitespace set; stated by `Text.StripSlice`, `Text.StripEmptyIff` and `Text.StripIdempotent` |
| `Text.FindFrom` | stress_app_project/backend/main.py:216 | the index found is the first occurrence of the separator at or after the start; `Absent` means there is none |
| `Text.Split` | stress_app_project/backend/main.py:216 | `str.split(sep)` always yields at least one piece |
| `Text.JoinSplit` | stress_app_project/backend/main.py:216 | joining the pieces of a split with the same separator gives back the original text |
| `Text.SplitJoin` | stress_app_project/backend/main.py:161 | splitting a join gives back the parts, when no part contains the separator's first character |
| `Text.JoinLength` | stress_app_project/backend/main.py:201 | a join's length is the parts' total length plus one separator between each pair |
| `Text.LastPieceAfterSeparator` | stress_app_project/backend/main.py:193 | when the marker occurs, `split(marker)[-1]` is the suffix directly after an occurrence of the marker |
| `Text.LastPieceFollowsSeparator` | stress_app_project/backend/main.py:216 | `split(marker)[-1]` holds no marker; it is the whole text when there is no marker, and otherwise the suffix directly after an occurrence of the marker, with none inside it |
| `Text.FirstKept` | stress_app_project/backend/main.py:193 | the stripped text starts at the first non-whitespace character; everything before it is whitespace |
| `Text.EndKept` | stress_app_project/backend/main.py:193 | the stripped text ends after the last non-whitespace character; everything after it is whitespace |
| `Text.StripSlice` | stress_app_project/backend/main.py:216 | `strip()` keeps a contiguous slice; everything cut on either side is whitespace; the result neither starts nor ends with whitespace |
| `Text.StripEmptyIff` | stress_app_project/frontend/src/pages/ChatPage.js:35 | a stripped text is empty exactly when every character is whitespace |
| `Text.NoOccurrenceAfter` | stress_app_project/backend/main.py:193 | no occurrence of the separator starts inside a suffix that holds none |
| `Text.NoOverlap` | stress_app_project/backend/main.py:193 | a separator whose first character occurs only at its head never overlaps one of its own occurrences |
| `Text.SliceKeepsAbsence` | stress_app_project/backend/main.py:193 | a slice of a text without the marker has no marker either |
| `Text.StripKeepsAbsence` | stress_app_project/backend/main.py:193 | stripping a text without the marker leaves no marker |
| `Text.StripIdempotent` | stress_app_project/backend/main.py:216 | stripping twice is stripping once |
| `Catalog.Names` | stress_app_project/frontend/src/pages/PredictionPage.js:60 | the names of the flattened fields, position by position |
| `Catalog.CatalogConcatenation` | stress_app_project/frontend/src/pages/PredictionPage.js:7-60 | `flatMap` lays out the five groups' fields in group order |
| `Catalog.NamesInLayoutOrder` | stress_app_project/frontend/src/pages/PredictionPage.js:7-60 | the flattened names are the twenty fields in the page's layout order |
| `Catalog.CatalogSize` | stress_app_project/frontend/src/pages/PredictionPage.js:7-58 | there are twenty fields, each with a `max` of at least 1 |
| `Catalog.CatalogDistinct` | stress_app_project/frontend/src/pages/PredictionPage.js:7-58 | no two fields share a name |
| `Catalog.FieldNamesListed` | stress_app_project/frontend/src/pages/PredictionPage.js:60 | the form's key set has exactly the members of the flattened name list |
| `Catalog.ZeroAllSpec` | stress_app_project/frontend/src/pages/PredictionPage.js:64 | the `reduce` adds every field's name with value 0 and keeps every other key as it was |
| `Catalog.InitialFormZero` | stress_app_project/frontend/src/pages/PredictionPage.js:64 | the initial form has exactly the catalog's keys, and each is 0 |
| `Scoring.LabelFor` | stress_app_project/backend/main.py:144-145 | `labels.get(prediction, "Unknown")`; characterised by `Scoring.LabelForCases` |
| `Scoring.FactorsFor` | stress_app_project/backend/main.py:147-154 | the factor list; characterised by `Scoring.FactorsForSpec` and computed by `Scoring.DeriveFactors` |
| `Scoring.FactorsText` | stress_app_project/backend/main.py:161 | `", ".join(factors)`; round trip stated by `Scoring.SavedFactorsRoundTrip` |
| `Scoring.SavedFor` | stress_app_project/backend/main.py:158-162 | the saved record: the declared inputs, the label and the factor text |
| `Scoring.MonitoringRowAsWritten` | stress_app_project/backend/main.py:224 | a `/monitoring-data` row as written, without `predicted_factors` |
| `Scoring.MonitoringRow` | stress_app_project/backend/main.py:224 | a row that also carries the stored `predicted_factors` text |
| `Scoring.RulesApplicable` | stress_app_project/backend/main.py:62-82 | a body that passes `StudentData` validation has every field a factor rule reads |
| `Scoring.Declared` | stress_app_project/backend/main.py:142 | `data.dict()` has exactly the declared fields, with the body's values |
| `Scoring.LabelForCases` | stress_app_project/backend/main.py:144-145 | 0, 1 and 2 map to Low, Medium and High Stress; every other integer maps to "Unknown", which is not a charted label (both directions) |
| `Scoring.RulesSpelledOut` | stress_app_project/backend/main.py:148-153 | the rule table holds, in order, the handler's six tests (field, direction, threshold) and their factors |
| `Scoring.Hit` | stress_app_project/backend/main.py:148-153 | one conditional append adds at most one entry, and adds the factor exactly when its test holds |
| `Scoring.Fired` | stress_app_project/backend/main.py:147-153 | at most one factor per rule |
| `Scoring.FiredSource` | stress_app_project/backend/main.py:147-153 | every factor in the list is the factor of a rule that fired |
| `Scoring.DeriveFactors` | stress_app_project/backend/main.py:147-154 | the handler's sequence of conditional appends computes exactly the factor list of the rule table |
| `Scoring.FiredIff` | stress_app_project/backend/main.py:147-153 | after the first `n` tests, a rule's factor is in the list exactly when that rule is among the first `n` and fires |
| `Scoring.FiredDistinct` | stress_app_project/backend/main.py:147-153 | no factor appears twice |
| `Scoring.RuleFactors` | stress_app_project/backend/main.py:148-153 | the rules' factors, in rule order |
| `Scoring.RuleFactorsDistinct` | stress_app_project/backend/main.py:148-153 | the six factor names are pairwise distinct |
| `Scoring.FactorsForSpec` | stress_app_project/backend/main.py:147-154 | between 1 and 6 distinct factors; each rule's factor is present exactly when the rule fires; the list is `["General Stress"]` exactly when no rule fires |
| `Scoring.ZeroBodyFactors` | stress_app_project/backend/main.py:147-154 | an all-zero body fires only the sleep (< 3) and support (< 2) rules |
| `Scoring.PredictStress` | stress_app_project/backend/main.py:138-170 | 422 exactly when validation fails; 503 exactly when the body is valid and no model is loaded; otherwise the answer and the saved record |
| `Scoring.FactorsNamed` | stress_app_project/backend/main.py:148-154 | every returned factor is one of the seven factor names |
| `Scoring.FactorNamesPlain` | stress_app_project/backend/main.py:148-154 | no factor name is empty or contains a comma |
| `Scoring.SavedFactorsRoundTrip` | stress_app_project/backend/main.py:161 | the stored `predicted_factors` text is non-empty and splits on `", "` back into the returned list |
| `Scoring.NewRecordCharted` | stress_app_project/backend/main.py:145 | saving a prediction adds one to the total and one to that prediction's bar; an "Unknown" record adds to no bar |
| `Scoring.AsWrittenFactorsCellEmpty` | stress_app_project/backend/main.py:224 | as written, the dashboard's "Key Factors" cell is empty although the stored factor text is not |
| `Scoring.MonitoringRowShowsFactors` | stress_app_project/backend/main.py:224 | with the column served, the cell shows the stored text, which splits back into the factors |
| `Generation.ExtractReply` | stress_app_project/backend/main.py:193 | the generated text after its last assistant marker, stripped; stated by `Generation.ExtractReplySpec` |
| `Generation.LastMarker` | stress_app_project/backend/main.py:193 | the last piece starts directly after an occurrence of the marker, and no occurrence starts later |
| `Generation.ExtractReplyMarkerFree` | stress_app_project/backend/main.py:193 | the extracted reply contains no assistant marker |
| `Generation.ExtractReplySpec` | stress_app_project/backend/main.py:193 | the reply is the stripped whole text when there is no marker; otherwise it is the stripped suffix directly after the LAST marker (no occurrence starts later); it holds no marker and never starts or ends with whitespace |
| `Generation.GetExplanation` | stress_app_project/backend/main.py:172-195 | `/explain`; its three outcomes are stated by `Generation.ExplanationCases` |
| `Generation.ExplanationCases` | stress_app_project/backend/main.py:172-195 | "AI offline." without the generator; "Focus on deep breathing." when generation raises; otherwise the reply extracted from this request's generation |
| `Generation.RecentHistory` | stress_app_project/backend/main.py:200 | `history[-4:]`: the last four entries, or all of them when there are fewer |
| `Generation.ConversationText` | stress_app_project/backend/main.py:200-201 | `"\n".join(history[-4:])`; stated by `Generation.ConversationLines` |
| `Generation.ChatEndpoint` | stress_app_project/backend/main.py:197-219 | `/chat`; stated by `Generation.ChatAdviceFixed` and `Generation.OlderHistoryIgnored` |
| `Generation.ChatAdviceFixed` | stress_app_project/backend/main.py:199-219 | with the generator loaded the advice is always "Active Listening"; without it the fixed offline answer |
| `Generation.OlderHistoryIgnored` | stress_app_project/backend/main.py:200-201 | entries before the last four never change the chat answer |
| `Generation.RecentOfLonger` | stress_app_project/backend/main.py:200 | with at least four entries, entries added in front do not change `history[-4:]` |
| `Generation.ConversationLines` | stress_app_project/backend/main.py:201 | the conversation text splits on newlines back into the last four entries, when none contains a newline |
| `Assessment.Combine` | stress_app_project/frontend/src/pages/PredictionPage.js:80 | the card keeps the answer's prediction, label and factors and adds the explanation |
| `Assessment.Edited` | stress_app_project/frontend/src/pages/PredictionPage.js:175 | an edit replaces one key's value with the entered number and keeps every other key |
| `Assessment.AssessmentSession.constructor` | stress_app_project/frontend/src/pages/PredictionPage.js:64-67 | the page starts with the all-zero form, no result and no loading |
| `Assessment.AssessmentSession.UpdateField` | stress_app_project/frontend/src/pages/PredictionPage.js:175 | the form becomes the edited form and keeps its keys |
| `Assessment.AssessmentSession.SubmitEnabled` | stress_app_project/frontend/src/pages/PredictionPage.js:188 | `disabled={loading}`; `Assessment.AssessmentSession.Submit` states it is off while a submit is awaited and on again afterwards |
| `Assessment.AssessmentSession.Submit` | stress_app_project/frontend/src/pages/PredictionPage.js:73-91 | posts the form; posts `/explain` only after `/predict` succeeds, with its label and factors; sets the result only when both succeed and otherwise keeps the old result; `loading` is set while awaiting, when the submit button is disabled, and cleared afterwards, when it is enabled again |
| `Assessment.AssessmentSession.CloseResult` | stress_app_project/frontend/src/pages/PredictionPage.js:126 | "Close Result" clears the result |
| `Assessment.Accent` | stress_app_project/frontend/src/pages/PredictionPage.js:114-120 | the card's accent colour; stated by `Assessment.CardFromPrediction` |
| `Assessment.FactorsLine` | stress_app_project/frontend/src/pages/PredictionPage.js:118 | `result.factors.join(", ")`; stated by `Assessment.CardFromPrediction` |
| `Assessment.CardFromPrediction` | stress_app_project/frontend/src/pages/PredictionPage.js:114-118 | the card is red exactly when the label is "High Stress"; its "Key Factors" line equals the saved factor text and splits back into the factors |
| `Assessment.CatalogMatchesStudentData` | stress_app_project/backend/main.py:62-82 | the page's field names are exactly the fields of `StudentData` |
| `Assessment.FormValidated` | stress_app_project/frontend/src/pages/PredictionPage.js:78 | every form the page can hold passes `/predict`'s validation |
| `Assessment.ZeroFormDeclared` | stress_app_project/frontend/src/pages/PredictionPage.js:64 | a form that is 0 on every catalog field is 0 on every declared field |
| `Assessment.InitialFormFactors` | stress_app_project/frontend/src/pages/PredictionPage.js:64 | submitting the untouched form yields the factors "Poor Sleep" and "Low Social Support" |
| `Chat.IsBlank` | stress_app_project/frontend/src/pages/ChatPage.js:35 | `!msgText.trim()`; characterised by `Chat.BlankIff` |
| `Chat.BlankIff` | stress_app_project/frontend/src/pages/ChatPage.js:35 | a message is blank exactly when every character is whitespace |
| `Chat.CapitalVisible` | stress_app_project/frontend/src/pages/ChatPage.js:35 | a text that starts with a capital letter is not blank |
| `Chat.SuggestionsNotBlank` | stress_app_project/frontend/src/pages/ChatPage.js:8-13 | every quick-suggestion chip sends its text |
| `Chat.Texts` | stress_app_project/frontend/src/pages/ChatPage.js:45 | the context is the transcript's texts, position by position |
| `Chat.BotAnswer` | stress_app_project/frontend/src/pages/ChatPage.js:48-61 | the answer is the reply with its advice, timed on arrival; or the connection error with no advice, timed like the message |
| `Chat.AdviceCard` | stress_app_project/frontend/src/pages/ChatPage.js:121 | `{m.advice && ...}`: the tip card's text, if any |
| `Chat.ServedAnswerAdvice` | stress_app_project/frontend/src/pages/ChatPage.js:121 | every answer `/chat` serves shows a tip card: "Active Listening", or "Check server." when the generator is not loaded |
| `Chat.Exchange` | stress_app_project/frontend/src/pages/ChatPage.js:40-61 | a send's two appended messages; stated by `Chat.ExchangeSpec` |
| `Chat.ExchangeAdvice` | stress_app_project/frontend/src/pages/ChatPage.js:38-61 | no tip card under the user's message or under the connection error; a served answer carries the served advice |
| `Chat.ExchangeSpec` | stress_app_project/frontend/src/pages/ChatPage.js:40-61 | a send keeps the earlier transcript, then adds the user's message and the bot's answer, so user and bot keep alternating |
| `Chat.UserAnswered` | stress_app_project/frontend/src/pages/ChatPage.js:40-61 | in an alternating transcript, the bot's message follows every user message |
| `Chat.ContextWindow` | stress_app_project/frontend/src/pages/ChatPage.js:45 | of the transcript the page posts, only the last four texts can influence the reply |
| `Chat.ChatSession.constructor` | stress_app_project/frontend/src/pages/ChatPage.js:17-25 | the transcript is the greeting alone; the input is empty and nothing is loading |
| `Chat.ChatSession.SendEnabled` | stress_app_project/frontend/src/pages/ChatPage.js:166 | the send button is disabled while loading or while the input is blank; `Chat.ChatSession.SendInput` states that pressing it sends exactly when it is enabled, and `Chat.ChatSession.Send` that it is disabled while a post is awaited |
| `Chat.ChatSession.SetInput` | stress_app_project/frontend/src/pages/ChatPage.js:159 | the input holds the typed text |
| `Chat.ChatSession.Send` | stress_app_project/frontend/src/pages/ChatPage.js:34-64 | a blank message changes nothing; otherwise it posts the message with the pre-send transcript's texts, appends the exchange, empties the input and keeps the transcript alternating; the send button is disabled while the post is awaited |
| `Chat.ChatSession.SendInput` | stress_app_project/frontend/src/pages/ChatPage.js:161-166 | Enter and the send button send the input box's text: a post is made, and the transcript grows by one exchange, exactly when the send button was enabled |
| `Chat.ChatSession.ClearChat` | stress_app_project/frontend/src/pages/ChatPage.js:66-74 | when confirmed, the transcript is the "cleared" greeting alone; otherwise it is unchanged |
| `Monitoring.WithLabel` | stress_app_project/frontend/src/pages/MonitoringPage.js:23-25 | the filter keeps only records with the given label, all taken from the data |
| `Monitoring.CountIsMultiplicity` | stress_app_project/frontend/src/pages/MonitoringPage.js:23-25 | a bar's count is the number of records with that label |
| `Monitoring.ChartData` | stress_app_project/frontend/src/pages/MonitoringPage.js:22-26 | three bars, Low, Medium and High in that order, each counting its label |
| `Monitoring.ChartAppend` | stress_app_project/frontend/src/pages/MonitoringPage.js:22-26 | a record added to the data raises its own label's bar by one and leaves the other bars unchanged |
| `Monitoring.ChartSumBound` | stress_app_project/frontend/src/pages/MonitoringPage.js:22-26 | the bars never add up to more than "Total Records"; they add up to exactly that when every label is one of the three |
| `Monitoring.TotalRecords` | stress_app_project/frontend/src/pages/MonitoringPage.js:75 | `data.length`; bounded against the bars by `Monitoring.ChartSumBound` |
| `Monitoring.DisplayOrder` | stress_app_project/frontend/src/pages/MonitoringPage.js:93 | `[...data].reverse()`; stated by `Monitoring.DisplayOrderAt` |
| `Monitoring.DisplayOrderAt` | stress_app_project/frontend/src/pages/MonitoringPage.js:93 | `[...data].reverse()` puts the newest record first, position by position |
| `Monitoring.DisplayOrderInvolution` | stress_app_project/frontend/src/pages/MonitoringPage.js:93 | reversing is undone by reversing again and loses or adds no record |
| `Monitoring.MultisetOfReverse` | stress_app_project/frontend/src/pages/MonitoringPage.js:93 | the reversed copy holds the same records |
| `Monitoring.Table` | stress_app_project/frontend/src/pages/MonitoringPage.js:89-102 | the empty state shows exactly when there is no data; otherwise there is one row per record, newest first |
| `Monitoring.FactorsCell` | stress_app_project/frontend/src/pages/MonitoringPage.js:98-100 | the "Key Factors" cell; stated by `Scoring.AsWrittenFactorsCellEmpty` and `Scoring.MonitoringRowShowsFactors` |
| `Monitoring.BadgeStyle` | stress_app_project/frontend/src/pages/MonitoringPage.js:28-33 | `getBadgeStyle(label)`; characterised by `Monitoring.BadgeChoice` |
| `Monitoring.BadgeChoice` | stress_app_project/frontend/src/pages/MonitoringPage.js:28-33 | red exactly for "High Stress", yellow exactly for "Medium Stress", green for every other label |

## Left out

- HTTP transport, CORS, the database session and the SQL table are not modelled. Each remote call's outcome is a parameter, and a stored record is a value.
- The trained classifier is not modelled. `Scoring.PredictStress` takes `int(model.predict(...)[0])` as a parameter.
- The text generator is not modelled. It is a function parameter from the request-dependent prompt parts to the generated text, or to a failure. The fixed prompt wording and the sampling settings are not modelled.
- Clocks, `window.confirm`, `alert`, `print`, `console.error`, `scrollIntoView`, animations and styles other than the badge and accent colours are left out. Times and the confirmation answer are parameters.
- Concurrency is not modelled. Each page handler runs as one step, so overlapping sends are not covered. A quick-suggestion chip is not disabled while loading, so two sends can in fact overlap and break the strict alternation in `Chat.Alternating`.
- `Assessment.AssessmentSession.UpdateField`: `+e.target.value` is modelled as an integer. Fractional values and `NaN` are not modelled. An emptied input, which gives 0, is covered.
- `Scoring.Validated`: pydantic's coercion of non-integer values into `int` is not modelled. A body is valid exactly when it has every declared field with an integer value.
- Unicode is modelled at the level of characters. UTF-16 surrogates and Python's exact `isspace` table beyond the listed characters are not modelled.
- The three extra input columns served by `/monitoring-data` (`anxiety_level`, `sleep_quality`, `study_load`) are not kept in `Monitoring.Record`, because the dashboard does not read them.
- The show/hide reference guide toggle and `ReferencePage.js`, `App.js`, `train.py`, `seed_db.py` and `database.py` are not part of this model.

## Findings

| source | as written | input that shows it | evidently intended | confidence | as-written member | corrected member |
|---|---|---|---|---|---|---|
| stress_app_project/backend/main.py:224 | `/monitoring-data` rows omit `predicted_factors`, but the dashboard's "Key Factors" column (MonitoringPage.js:99) shows `row.predicted_factors` | any stored prediction, e.g. the all-zero form, saved with "Poor Sleep, Low Social Support" | each row carries the stored `predicted_factors` text | not executed | `Scoring.MonitoringRowAsWritten` with `Scoring.AsWrittenFactorsCellEmpty` | `Scoring.MonitoringRow` with `Scoring.MonitoringRowShowsFactors` |
