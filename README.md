# Recruiter backend: verified model of the screening and report core

The Recruiter backend places AI screening calls to truck-driver candidates
through a voice platform, collects their transcripts and turns them into
assessment reports. This project models the decision logic of that service
in Dafny and proves properties about it. It covers four parts:

- **The call-report server** (`report.js`). `GET /api/call-report/:callId`
  checks the call ID and fetches the call. It picks the transcript out of one
  of three fields and drops the first message. It keeps only the `USER:` and
  `AI:` lines, and it refuses a transcript longer than 12000 code units before
  the language model sees it. `generateHTMLReport` then decides which values
  of the model's assessment appear in the report and which fall back to fixed
  text. It also decides which job cards, skills, matching rows and
  recommendations are listed, and which CSS class and caption each verdict
  gets.
- **The screening helper** (`test.js`). It normalises the transcript the
  same way. It reads `status:` and `reasons:` out of the model's answer with
  `/status:\s*(.+)/i` and `/reasons:\s*(.+)/i`. Then it applies its defaults.
- **The transcript webhook** (`server.js`). It keeps a process-wide log of
  transcript lines, de-duplicated by a `speaker:text` key. A payload is
  either a single `transcript` event, a call summary, or a
  `conversation-update`. List messages that carry the recruiter's own prompt
  are never logged; a single `transcript` event is logged whatever it says.
- **The outbound call endpoint** (`server.js`). `POST /api/call` checks the
  required fields and then the environment variables. It falls back to the
  voice "Rohan" when the requested voice is not one of the eleven allowed.

Modules:

| file | module | models |
|---|---|---|
| `js_text.dfy` | `JsText` | the JavaScript string operations the code relies on: `trim`, `split("\n")`, `join("\n")`, `startsWith`, `includes`, `toUpperCase`, `.length` in UTF-16 code units |
| `seqs.dfy` | `Seqs` | `filter`, `map` and `slice(1)` on arrays, with their algebra |
| `transcript.dfy` | `Transcript` | transcript selection, first-message removal and `extractUserAIConversation` (identical in `report.js` and `test.js`) |
| `call_report.dfy` | `CallReport` | the call-report handler up to the model call |
| `report_render.dfy` | `ReportRender` | the selection logic of `generateHTMLReport`, rendered to structured fragments |
| `field_extract.dfy` | `FieldExtract` | the regular-expression field extraction and the screening helper's defaults |
| `webhook.dfy` | `Webhook` | the transcript webhook and its log, as a class with the log's two fields |
| `call_request.dfy` | `CallRequest` | the validation and voice fallback of `POST /api/call` |

The regular expression is given twice. `FieldExtract.IsMatch` defines which
spans match at all. `FieldExtract.FindMatch` follows the backtracking
matcher: leftmost start, then the longest `\s*`, then the longest `.+`. The
lemmas tie the two together. `\s` is the ECMAScript white-space set, which
includes line breaks. `.` excludes the four line terminators. The keys are
ASCII letters and a colon, and `i` in a non-unicode pattern never maps a
non-ASCII character to an ASCII one. So ASCII case folding is exact for
these two keys.

The webhook log is a class `Webhook.TranscriptLog` with the source's two
fields: `transcriptLog` (a sequence of lines) and `loggedMessages` (a set of
keys). A ghost sequence `logged` of (speaker, text) pairs specifies them. The
invariant `Valid()` says the lines and keys are exactly those of `logged`,
with no key repeated. Each method states how `logged` changes in terms of the
value-level functions `Offer`/`OfferAll`, and lemmas prove properties of
those functions.

Where the code and the written description of the service differ, the model
follows the code. There are two such cases:

- A text transcript first loses its blank lines and then its first remaining
  line. So what is dropped is the first *non-blank* line, not line 0
  (`Transcript.NormaliseTextDropsFirstNonBlank`).
- An array transcript only loses *empty* entries before the first is
  dropped. A whitespace-only entry survives and can be the one dropped
  (`Transcript.NormaliseEntriesDropsFirstNonEmpty`). The remaining entries
  are joined with line breaks and split again, so an entry that holds line
  breaks contributes each of its lines separately.

In `test.js` the reasons are reset to `""` only when the status is empty.
With a status but no `reasons:` line, the helper returns `null`
(`FieldExtract.ReasonsCanStayNull`). The reasons field of what it returns
can therefore be `null`.

## Model

| member | source | states |
|---|---|---|
| JsText.IsWhitespace | report.js:109 | holds exactly for the ECMAScript WhiteSpace and LineTerminator characters, the set that `trim()` removes and `\s` matches |
| JsText.Trim | report.js:109 | `s.trim()`: the result is no longer than the input and neither starts nor ends with white space; `TrimEmptyIff` gives that it is empty iff the input is all white space |
| JsText.StartsWith | report.js:96 | `s.startsWith(p)`: `p` is a prefix of `s` |
| JsText.Contains | server.js:696 | `s.includes(sub)`: `sub` occurs at some position of `s` |
| JsText.Split | report.js:93 | `split("\n")`: at least one piece, none of them holding a line break; `SplitAround` splits a text joined around a line break into the two halves' pieces |
| JsText.Join | report.js:98 | `join("\n")`: the pieces with a line break between neighbours, "" for no pieces |
| JsText.JoinSplit | report.js:93-98 | joining the pieces of a split gives the text back |
| JsText.SplitJoin | report.js:93-98 | splitting the join of at least one piece without line breaks gives the pieces back |
| JsText.SplitAround | report.js:1367-1371 | the pieces of `a + "\n" + b` are the pieces of `a` followed by the pieces of `b` |
| JsText.ToUpperCase | server.js:686-687 | `toUpperCase()` for ASCII letters: the same length, each character upper-cased |
| JsText.Utf16Length | report.js:1378 | `.length`: between the number of characters and twice that, counting two code units for a character at or above U+10000 and one otherwise |
| Transcript.PickTranscript | report.js:1348-1353 | the transcript is the first truthy one of `data.transcript`, `data.artifact.transcript` and the first call transcript, else the "Transcript not available yet." text; a chosen text is never empty |
| Transcript.IsDialogueLine | report.js:94-97 | a line is kept iff, trimmed, it starts with `USER:` or `AI:` |
| Transcript.ExtractUserAIConversation | report.js:91-99 | splits the text at line breaks, keeps the dialogue lines and joins them again; what that keeps is stated by the three lemmas below |
| Transcript.ExtractKeepsExactlyDialogueLines | report.js:91-99 | the output lines of `extractUserAIConversation` are exactly the input lines whose trimmed form starts with `USER:` or `AI:`, in order, each as often as in the input |
| Transcript.ExtractKeepsCounts | report.js:91-99 | every dialogue line occurs in the output exactly as often as in the input, and no other line occurs |
| Transcript.ExtractIdempotent | report.js:91-99 | filtering an already filtered transcript changes nothing |
| Transcript.EntryText | report.js:1358 | an array entry's text: a string entry is itself, a message object gives its `text`, or "" when that is missing |
| Transcript.Survivors | report.js:1356-1366 | a text keeps its lines that are not blank once trimmed; an array keeps the entry texts that are not empty |
| Transcript.RemoveFirstMessage | report.js:1355-1367 | the survivors without the first one, joined with line breaks |
| Transcript.Normalise | report.js:1355-1371 | the first message removed, then only the dialogue lines kept; the lemmas below state the result for each shape |
| Transcript.NormaliseTextDropsFirstNonBlank | report.js:1362-1371 | for a text transcript whose first non-blank line is line k, the result is exactly the dialogue lines after line k |
| Transcript.NormaliseAllBlankText | report.js:1362-1371 | a text transcript with no non-blank line normalises to the empty text |
| Transcript.NormaliseEntriesDropsFirstNonEmpty | report.js:1356-1371 | for an array transcript whose first non-empty entry is entry k, the result is exactly the dialogue lines of the entries after entry k, joined and split again, so an entry holding line breaks contributes each of its lines; whitespace-only entries count as non-empty |
| Transcript.NormaliseSingleLineEntries | report.js:1356-1371 | when no entry holds a line break, the result is exactly the dialogue entries after the first non-empty entry |
| Transcript.NormaliseAtMostOneSurvivor | report.js:1355-1371 | when at most one line or entry survives the emptiness filter, nothing is left |
| Transcript.NormaliseFallback | report.js:1349-1371 | a call with no transcript at all yields an empty conversation, because the placeholder is the one line that is dropped |
| Transcript.NormaliseOnlyDialogue | report.js:1355-1371 | whatever the shape of the transcript, every line that reaches the model is a `USER:`/`AI:` line |
| CallReport.IsValidCallId | report.js:1329 | `/^[a-zA-Z0-9-_]+$/`: the ID is non-empty and every character is an ASCII letter, a digit, `-` or `_` |
| CallReport.PrepareCallReport | report.js:1324-1383 | an invalid call ID is refused with nothing else consulted, and only then; an upstream failure is forwarded with its status and body; otherwise the normalised transcript is refused iff it is longer than 12000 UTF-16 code units, and what is sent is within the limit and holds only dialogue lines |
| CallReport.StatusOf | report.js:1329-1383 | an invalid ID is answered with 400 and an over-long transcript with 413 |
| CallReport.CallIdExamples | report.js:1329-1331 | the call-ID pattern accepts letters, digits, `-` and `_`, and refuses the empty ID, `/`, spaces and dots |
| ReportRender.ShouldDisplay | report.js:104-110 | a value is shown iff it is present, non-empty, none of the three sentinels compared untrimmed, and not blank once trimmed |
| ReportRender.TextOf | report.js:171 | a value interpolated as it is: its text when present, "undefined" when missing |
| ReportRender.GetDisplayValue | report.js:104-115 | a value is shown as is when `shouldDisplay` holds, otherwise the fallback is shown; a shown value is never blank or a sentinel |
| ReportRender.ShownIffNotBlank | report.js:104-110 | a present value is shown exactly when it is none of the three sentinels and holds a character that is not white space |
| ReportRender.ShouldDisplayExamples | report.js:104-110 | missing and empty values, every blank text and the three exact sentinels are hidden |
| ReportRender.PaddedSentinelShown | report.js:104-110 | a sentinel is hidden, but the same sentinel behind any white space is shown, because the sentinels are compared before trimming |
| ReportRender.StatusClass | report.js:118-132 | each class is produced by exactly its status: Pass, Fail, Conditional Pass, and the two not-applicable sentinels; every other status gets no class |
| ReportRender.FitDisplayText | report.js:135-146 | GOOD, BAD and INCOMPLETE get their captions; any other present value is shown as is, and a missing or empty one as "Unknown"; the caption is never empty |
| ReportRender.CardClass | report.js:239-245 | the card gets the `_bad` modifier iff the fit is BAD and `_incomplete` iff it is INCOMPLETE, otherwise the plain class |
| ReportRender.ScoreText | report.js:1250 | a falsy score (missing, 0, empty string) is shown as "0"; a non-zero number is never shown as "0" and its digits read back as its magnitude, after a minus sign when it is negative; a non-empty string is shown as is |
| ReportRender.NatToDecimal | report.js:1250 | a natural number prints as a non-empty string of decimal digits, without a leading zero unless it is 0, that reads back as the number |
| ReportRender.IntToDecimal | report.js:1250 | a non-negative integer prints as its digits; a negative one prints as a minus sign followed by the digits of its magnitude; both read back as the value |
| ReportRender.DurationOf | report.js:157-162 | a duration line appears iff the start or the end date is shown; a shown date is printed as given, a start that is not shown reads "Unknown" and an end that is not shown reads "Present" |
| ReportRender.ListSection | report.js:185-198 | the placeholder iff there are no surviving items, otherwise exactly the items |
| ReportRender.JobCardOf | report.js:156-176 | a listed job's card: title and company as given, the duration line, and the shown responsibilities in order |
| ReportRender.JobExperienceSection | report.js:149-182 | the cards of the jobs whose title and company are both shown, in order, or the "No job experience" placeholder |
| ReportRender.KeySkillsSection | report.js:185-198 | the shown skills, in order, or the "No key skills" placeholder |
| ReportRender.RecommendationsSection | report.js:223-236 | the shown recommendations, in order, or the "No specific recommendations" placeholder |
| ReportRender.RowOf | report.js:210-218 | a matching row: the criteria and status as given, the status's class, and the notes when shown, else "No additional notes" |
| ReportRender.MatchingRows | report.js:201-220 | the rows of the entries whose status is shown, in entry order |
| ReportRender.CoverRows | report.js:1205-1232 | the organisation row when shown, then Name, Assessment Date and Address, then the phone and email rows when shown |
| ReportRender.ResultCardOf | report.js:1236-1251 | the card class and caption of the fit, the overall recommendation or "N/A", and the score text |
| ReportRender.ReportOf | report.js:102-1320 | the report section by section: cover rows, result card, job experience, key skills, matching rows, call summary, recommendations and reason for fit with their fallbacks |
| ReportRender.RenderJobExperience | report.js:149-182 | the loop builds one card per job whose title and company are both shown, in order, or the placeholder when none is |
| ReportRender.RenderList | report.js:185-198 | the loop lists every shown value, in order, or gives the placeholder when none is (used for key skills and, at report.js:223-236, recommendations) |
| ReportRender.RenderJobMatching | report.js:201-220 | the loop emits one row per JOB_MATCHING entry whose status is shown, in entry order |
| ReportRender.GenerateReport | report.js:102-1320 | the rendered report equals the report specified field by field: cover rows, result card, the four lists and the two texts with their fallbacks |
| ReportRender.MatchingRowsShape | report.js:201-220 | there are as many rows as entries with a shown status; every row's status is shown and never gets the not-applicable class, and its notes are the entry's notes when shown, else "No additional notes" |
| ReportRender.HiddenStatusHasNoRow | report.js:203-208 | removing an entry whose status is hidden leaves the table unchanged |
| ReportRender.ListSectionShape | report.js:185-198 | a list shows the placeholder iff no value is shown; otherwise it lists the shown values in their order, each as often as it occurs in the input, and no other value |
| ReportRender.JobExperienceShape | report.js:149-182 | the section shows the placeholder iff no job has both title and company shown, and every card's title and company are shown values |
| ReportRender.CoverRowsShape | report.js:1205-1232 | Name, Assessment Date and Address always appear, in that order, right after the optional organisation row; the table has between 3 and 6 rows |
| ReportRender.CoverOptionalRows | report.js:1205-1232 | a Phone, Email or Organization Name row appears iff that value is shown, and then holds exactly that value |
| ReportRender.FixedCaptions | report.js:1210-1221 | the three fixed rows never use an optional row's caption |
| ReportRender.ResultCardShape | report.js:1239-1251 | a falsy score reads "0"; the plain card class means the fit is neither BAD nor INCOMPLETE; GOOD reads "Good Fit" and a missing fit "Unknown"; the overall recommendation is shown or "N/A" |
| FieldExtract.OccursAt | test.js:26 | the key occurs at a position under the `i` flag's ASCII case folding |
| FieldExtract.IsMatch | test.js:26 | `key\s*(.+)` matches at `i` with the group spanning `[j, e)`: the key, white space up to `j`, then at least one character that is not a line terminator |
| FieldExtract.WhitespaceEnd | test.js:25-28 | `\s*` greedily consumes exactly the white-space run that follows the key |
| FieldExtract.LineEnd | test.js:25-28 | `.+` greedily runs to the first line terminator or the end of the text |
| FieldExtract.MatchAt | test.js:25-28 | a match the matcher reports at a position really is a match of the pattern there |
| FieldExtract.MatchAtIsPreferred | test.js:25-28 | among the matches at one position, the reported one has the longest white-space run and then the longest group |
| FieldExtract.FindMatch | test.js:25-33 | the reported match is a real match, and no match starts earlier |
| FieldExtract.ExtractField | test.js:25-33 | `match ? match[1].trim() : null` over the matcher's leftmost match; characterised by the two lemmas below |
| FieldExtract.ExtractStatus | test.js:25-28 | the extraction with the key `status:` |
| FieldExtract.ExtractReasons | test.js:30-33 | the extraction with the key `reasons:` |
| FieldExtract.ExtractFieldNoneIff | test.js:25-33 | extraction returns null iff the pattern matches nowhere |
| FieldExtract.ExtractFieldIsLeftmostLongest | test.js:25-33 | a found value is the trimmed group of the leftmost match, with the longest white space and then the longest group |
| FieldExtract.FirstOccurrenceDecides | test.js:25-33 | when something other than white space follows the first occurrence of the key, the value is the next non-blank text up to its line end, trimmed, which may be on a later line |
| FieldExtract.SameLineValue | test.js:25-33 | when the key's own line holds more than white space, the value is the rest of that line, trimmed |
| FieldExtract.OnlyFirstBulletExtracted | test.js:30-33 | for a bulleted reasons list, only the first bullet is returned |
| FieldExtract.UpperKeyOccurs | test.js:25-28 | the key written in capitals, `STATUS:`, is an occurrence of the case-insensitive key |
| FieldExtract.KeyIgnoresCase | test.js:25-28 | when the first occurrence of the key is written `STATUS:` and text follows on its line, that trimmed text is the status |
| FieldExtract.AbsentKeyHasNoValue | test.js:25-33 | a text without the key's first letter in any case yields null |
| FieldExtract.BlankTail | test.js:25-33 | when only white space follows the first occurrence of the key to the end of the answer, the value is "" if that white space holds a character other than a line terminator, and otherwise that occurrence does not match at all |
| FieldExtract.BlankValueMatches | test.js:25-28 | one instance: "Status:   \n" yields the empty status, because `\s*` gives a space back to `.+` |
| FieldExtract.ScreeningTranscript | test.js:43-64 | the screening prompt receives only `USER:`/`AI:` lines |
| FieldExtract.CompletionText | test.js:184 | the model's answer, trimmed, or "" when it is missing |
| FieldExtract.ScreeningVerdict | test.js:184-195 | a missing or empty status becomes "" and then the reasons become ""; with a status, the status and reasons are what the extraction found, null included |
| FieldExtract.VerdictStatusIsTrimmed | test.js:184-190 | a reported status never starts or ends with white space |
| FieldExtract.VerdictWithStatus | test.js:184-195 | whenever a non-empty status is found, the verdict carries that status and whatever reasons were found |
| FieldExtract.ReasonsCanStayNull | test.js:184-195 | an answer with a status that never mentions `reasons:` yields null reasons, not "" |
| Webhook.Key | server.js:684 | the de-duplication key: the speaker, a colon, then the text, with no escaping |
| Webhook.LineOf | server.js:686-687 | the log line: the speaker upper-cased in brackets, a colon and a space, then the text |
| Webhook.KeySet | server.js:678 | the keys of the logged pairs, which `loggedMessages` holds |
| Webhook.Offer | server.js:683-690 | `logLine` on values: the log is unchanged when the pair's key was seen, otherwise the pair is appended |
| Webhook.OfferAll | server.js:694-704 | the pairs offered one after the other, in order |
| Webhook.IsConversation | server.js:696 | a message is logged only when it does not contain the recruiter prompt |
| Webhook.Offered | server.js:694-704 | the (role, message) pairs of the list's messages without the prompt, in order |
| Webhook.OfferedBy | server.js:692-705 | the pairs a payload offers; `DispatchShape` states them branch by branch |
| Webhook.TranscriptLog.LogLine | server.js:683-690 | a pair whose key was seen changes nothing; a new pair appends exactly its upper-cased line and adds exactly its key; the log keeps one line per key |
| Webhook.TranscriptLog.LogMessages | server.js:694-704 | the loop offers the non-prompt messages to the log one by one, in order |
| Webhook.TranscriptLog.HandleTranscriptWebhook | server.js:680-708 | the log grows exactly by the pairs the payload offers, the invariant is kept, and the answer is always 200 |
| Webhook.TranscriptLog.constructor | server.js:677-678 | the server starts with an empty log and no keys |
| Webhook.OfferKeepsDistinct | server.js:683-690 | offering a pair keeps keys distinct and adds its key to the key set |
| Webhook.DistinctKeysCount | server.js:677-690 | with distinct keys, there are exactly as many keys as logged lines |
| Webhook.OfferAllExtends | server.js:683-705 | logging never removes or reorders earlier lines: the old log is a prefix of the new one |
| Webhook.OfferAllKeySet | server.js:683-705 | after a batch the logged keys are exactly the old keys plus the keys of the batch, whether or not each pair was appended |
| Webhook.OfferAllDistinct | server.js:683-705 | offering any batch keeps the logged keys pairwise distinct |
| Webhook.OfferAllKeysCovered | server.js:683-705 | every offered key is in the log afterwards |
| Webhook.OfferAllKeepsOrder | server.js:683-705 | the new lines come from the batch, in the batch's order |
| Webhook.AllSeenChangesNothing | server.js:683-705 | a batch whose keys were all seen leaves the log unchanged |
| Webhook.RedeliveryLogsNothing | server.js:683-705 | delivering the same payload twice logs nothing the second time |
| Webhook.CollidingKeysSuppressed | server.js:684 | because the key is a plain concatenation, a different (speaker, text) pair with the same key is suppressed |
| Webhook.CaseVariantsBothLogged | server.js:684-687 | the key keeps the speaker's case while the line upper-cases it, so two speakers differing only in case both log, as identical lines |
| Webhook.DispatchShape | server.js:692-705 | a `transcript` event offers exactly its one pair; `summary.messages`, or else the messages of a `conversation-update`, offer every message that does not carry the recruiter prompt, in message order, one pair per such message and no other; any other payload offers nothing |
| Webhook.OfferedEveryConversation | server.js:694-704 | every message of a list that does not carry the recruiter prompt is offered |
| Webhook.OfferedNeverPrompt | server.js:695-703 | no message carrying the recruiter prompt is offered |
| Webhook.OfferedIsSubsequence | server.js:694-698 | the offered pairs are the list's pairs, in order, with some removed |
| CallRequest.HasRequiredFields | server.js:176 | the name, phone number and voice ID are all truthy |
| CallRequest.HasEnvironment | server.js:183-188 | all four environment variables are truthy |
| CallRequest.SelectVoice | server.js:195 | the chosen voice is always one of the eleven voices listed at server.js:28-31: the requested one when it is listed (compared case-sensitively), else Rohan |
| CallRequest.StatusOf | server.js:176-193 | missing fields are answered with 400 and a missing environment with 500 |
| CallRequest.ValidateCallRequest | server.js:173-195 | missing fields are refused iff a field is falsy; a missing environment is refused iff the fields are present and a variable is falsy; a placed call uses the given name and number and an allowed voice |
| CallRequest.MissingFieldsIgnoreEnvironment | server.js:176-193 | a request with a missing field is refused with 400 whatever the environment holds |
| CallRequest.VoiceExamples | server.js:195 | "Paige" is kept; "paige" and the empty ID fall back to Rohan, since the check is case-sensitive |

## Left out

- PDF generation (Puppeteer and wkhtmltopdf), file storage, the `/download` route and the download URL: they are I/O around the report and decide nothing about its content.
- The language-model calls, the prompts they carry, and the `JSON.parse` of the model's report: they are foreign calls. The parsed assessment is a parameter (`ReportRender.Assessment`), and the model's answer text is a parameter (`FieldExtract.ScreeningVerdict`).
- The HTTP traffic to the voice platform: fetching a call and placing a call. The fetch outcome is a parameter (`CallReport.FetchOutcome`). The placed call is represented by the decision `CallRequest.PlaceCall`. A fetch that throws, such as a network failure, ends in the handler's 500 "Internal server error" answer (report.js:1665-1671); that outcome is not a `FetchOutcome` case.
- The `/vapi/webhook` handler, the `GET /transcript` viewer, the health route, the 404 and error handlers, and all console logging: they are outside the modelled core or are pure output.
- The candidate-record update, the report upload and the URLs in `test.js`: they are database and network I/O.
- The markup, inline CSS and `forPDF` style switch of `generateHTMLReport`: they are constant text. The report is rendered to structured fragments, and a job's responsibilities are kept as the list that `join(', ')` would print.
- ReportRender.GenerateReport: values that are not strings (a number in a text field, a null entry in a list) and the TypeErrors they or a missing `JOB_MATCHING`, `PERSONAL_DETAILS` or `duration` would raise are not modelled. Lists and objects that are missing are taken as empty or required.
- ReportRender.ScoreText: a number score is an integer printed in plain decimal at every size. JavaScript prints magnitudes of 10^21 and above in exponent form (`1e+21`), and fractional scores such as 87.5 have no counterpart here.
- ReportRender.TextOf: a value interpolated as it is prints `undefined` when it is missing. A JSON `null` (for example a `null` criteria in a matching row) prints `null` in JavaScript, and the model does not tell `null` from a missing key.
- ReportRender.RenderJobMatching: `Object.entries` lists integer-like keys first in ascending order. Here the entries are taken in the order given.
- Webhook.TranscriptLog.HandleTranscriptWebhook: the TypeError raised by a message without a `message` string, or by a missing speaker, is not modelled. Fields are taken as strings.
- JsText.ToUpperCase: only the ASCII letters `a`-`z` are upper-cased. JavaScript also upper-cases other letters, and some of them grow longer (`ß` becomes `SS`), so the model's equal-length result does not hold for them.
- Webhook.LineOf: `toUpperCase` is modelled for ASCII letters only. Other characters are kept, whereas JavaScript also upper-cases non-ASCII letters and may lengthen them.
- JsText.Utf16Length: a Dafny `char` is a Unicode scalar value, so a string holding a lone surrogate, which JavaScript allows and counts as one code unit, cannot be expressed. Every other character counts as JavaScript's `.length` counts it: two units at or above U+10000, one below.
- JSON shapes the datatypes cannot express: a transcript that is truthy but neither a string nor an array, whose `.split` TypeError becomes the handler's 500 answer (report.js:1364); a `null` entry in an array transcript, whose `msg.text` read throws the same way (report.js:1358); and number-valued fields in the `POST /api/call` body (server.js:174-195), which are taken as text here.
- Concurrency: the webhook's log is shared by concurrent requests, but each handler runs to completion on the event loop. The model treats each request as one atomic step.
