# Summlyzer controller core in Dafny

Summlyzer is a small web service. It takes typed text or an uploaded `.pdf`,
`.docx` or `.txt` file. It checks the text against a 750-word limit, and then
asks two remote Hugging Face models for a summary and for topic labels. All
of its decision logic sits in `SummarizeController`. This project models that
logic as pure functions over immutable datatypes and proves the properties
the controller promises.

- `Wrappers.dfy`: `Option`, which stands for a nullable value (`None` is `null`).
- `Text.dfy`: the .NET primitives the controller uses. These are
  `Char.IsWhiteSpace` (its full code-point list), `String.IsNullOrWhiteSpace`,
  `String.Trim`, `ToLower` on ASCII letters, and the decimal rendering of the
  word count, with its inverse.
- `Words.dfy`: the word count, which is `Split` on space, CR, LF and tab with
  `RemoveEmptyEntries`. It also holds an independent reference (the number of
  positions where a run of non-separators starts) and the laws of separators.
- `Extraction.dfy`: `Path.GetExtension`, the extension `switch` (lower-cased),
  the PDF text assembly (a loop method and its functional definition), the
  DOCX body rule and plain-text pass-through.
- `ModelSelection.dfy`: the tier to model-configuration selection. It is total
  over `int`: 1, 2, and everything else.
- `Ranking.dfy`: the top-5 label ranking. Labels and scores are zipped by
  index, stably sorted by descending score, and the first five are kept.
- `Inference.dfy`: how a remote reply becomes the summary text or the keyword
  list, including the fixed placeholder strings.
- `Controller.dfy`: the two routes, `SummarizeText` and `SummarizeFile`. Each
  returns its response together with the trace of collaborator calls it made
  (reader, summarizer, classifier). This makes the order "guard, count,
  limit, remote calls" a stated property.

Behaviour of the code worth knowing:

- Labels and scores of different lengths are not a malformed reply. The code
  zips them and silently truncates to the shorter list.
- Only the text route refuses blank text. The file route checks only that an
  upload exists and is non-empty. An extracted text that is empty or blank
  (a DOCX without a body, say) is still sent to both models
  (`Controller.BlankDocxIsNotRefused`).
- The PDF text is trimmed at both ends (`String.Trim()`): it neither starts nor ends with whitespace.
- The two remote calls are made one after the other: the summarizer first,
  then the classifier.

## Model

| member | source | states |
|---|---|---|
| Words.Split | Summlyzer/Controllers/SummarizeController.cs:25 | every token the split returns is non-empty and contains none of the four separators |
| Words.WordCount | Summlyzer/Controllers/SummarizeController.cs:25 | the word count is the number of maximal runs of characters outside {space, CR, LF, tab}, the same rule on both routes (line 66) |
| Words.SplitCountsRuns | Summlyzer/Controllers/SummarizeController.cs:25 | the number of tokens equals the number of maximal runs of characters outside {space, CR, LF, tab} |
| Words.SplitAtSeparator | Summlyzer/Controllers/SummarizeController.cs:25 | a separator between two texts splits them independently: the tokens of `a + [c] + b` are those of `a` followed by those of `b` |
| Words.SplitIgnoresLeadingSeparators | Summlyzer/Controllers/SummarizeController.cs:25 | leading separators produce no tokens |
| Words.SplitIgnoresTrailingSeparators | Summlyzer/Controllers/SummarizeController.cs:25 | trailing separators produce no tokens |
| Words.SeparatorRunIsOneSpace | Summlyzer/Controllers/SummarizeController.cs:25 | any non-empty run of separators gives the same tokens as a single space |
| Words.WordCountIgnoresSeparatorRuns | Summlyzer/Controllers/SummarizeController.cs:66 | the count is unchanged by leading or trailing separators and by lengthening any separator run |
| Words.DoubleSpaceExample | Summlyzer/Controllers/SummarizeController.cs:25 | `"a  b"` and `"a b"` both count 2 words |
| Words.SplitJoinWords | Summlyzer/Controllers/SummarizeController.cs:25 | splitting words joined by single spaces returns exactly those words |
| Words.WordLength | Summlyzer/Controllers/SummarizeController.cs:25 | a token ends at the first separator or at the end of the text |
| Text.Trim | Summlyzer/Controllers/SummarizeController.cs:126 | the trimmed text is an infix of the input with only whitespace before and after it, and neither starts nor ends with whitespace; it is empty exactly when the input is all whitespace; text without surrounding whitespace is unchanged |
| Text.IsNullOrWhiteSpace | Summlyzer/Controllers/SummarizeController.cs:22 | a text is null-or-blank exactly when it is null or trims to the empty text |
| Text.ToLower | Summlyzer/Controllers/SummarizeController.cs:52 | lower-casing keeps the length, turns each upper-case ASCII letter into its lower-case partner, and leaves every other character as it was |
| Text.NatToString | Summlyzer/Controllers/SummarizeController.cs:27 | the count is rendered as decimal digits without a leading zero |
| Text.ParseNatToString | Summlyzer/Controllers/SummarizeController.cs:27 | reading the rendered digits back gives the count |
| Controller.LimitMessageEmbedsCount | Summlyzer/Controllers/SummarizeController.cs:27 | the word-limit message carries the count between its fixed prefix and suffix, and the count can be read back from it |
| Controller.LimitMessageInjective | Summlyzer/Controllers/SummarizeController.cs:68 | different counts give different word-limit messages |
| Controller.LimitExceeded | Summlyzer/Controllers/SummarizeController.cs:27 | the word-limit message is the fixed prefix, then only decimal digits, then the fixed suffix |
| ModelSelection.SelectConfig | Summlyzer/Controllers/SummarizeController.cs:131-164 | for every tier code, max_length is 1024, do_sample is false, min_length is below max_length, and the endpoint is one of the three models |
| ModelSelection.SelectionFollowsTier | Summlyzer/Controllers/SummarizeController.cs:135-149 | the if-chain agrees on every integer with the tier table: 1 gives bart-large-xsum/16, 2 gives pegasus_summarizer/48, anything else gives t5_summary_en_ru_zh_base_2048/192 |
| ModelSelection.UnknownCodesSelectLong | Summlyzer/Controllers/SummarizeController.cs:145-149 | every code other than 1 and 2 selects the same long-form model with min_length 192 as code 3 |
| ModelSelection.TiersAreOrdered | Summlyzer/Controllers/SummarizeController.cs:135-149 | min_length increases from short to long, and the three tiers use three different models |
| Ranking.Insert | Summlyzer/Controllers/SummarizeController.cs:248 | inserting a pair into a ranked list keeps it ranked and adds exactly that pair |
| Ranking.Sort | Summlyzer/Controllers/SummarizeController.cs:248 | the sort returns a permutation of its input, ordered by descending score with ties in input order |
| Ranking.RankedEntries | Summlyzer/Controllers/SummarizeController.cs:247-249 | the kept pairs number min(5, min(#labels, #scores)), are ranked, and each is the pair at its own index of both lists |
| Ranking.TopLabels | Summlyzer/Controllers/SummarizeController.cs:247-251 | exactly min(5, min(#labels, #scores)) labels come back, each an input label or `""` for a null label |
| Ranking.TopLabelsFollowRanking | Summlyzer/Controllers/SummarizeController.cs:250 | the k-th returned label is the label of the k-th ranked pair, with null mapped to `""` |
| Ranking.KeptEntriesOutrankDropped | Summlyzer/Controllers/SummarizeController.cs:248-249 | every pair dropped by the cut to five comes after every kept pair in the stable descending order |
| Ranking.BeforeAsymmetric | Summlyzer/Controllers/SummarizeController.cs:248 | of two pairs, at most one is ranked before the other |
| Ranking.RankedPermutationUnique | Summlyzer/Controllers/SummarizeController.cs:248 | two ranked orderings of the same pairs are equal, so the stable descending order is determined by the input |
| Ranking.RankingIsStableSortPrefix | Summlyzer/Controllers/SummarizeController.cs:247-249 | the kept pairs are the first five of any ranked permutation of the zipped pairs |
| Ranking.RankingExample | Summlyzer/Controllers/SummarizeController.cs:244-251 | labels a, b, c scored 0.1, 0.9, 0.5 come back as b, c, a |
| Ranking.Zip | Summlyzer/Controllers/SummarizeController.cs:247 | the zip has min(#labels, #scores) pairs, the i-th pair holds the i-th label and the i-th score, and the indices are distinct |
| Text.OrEmpty | Summlyzer/Controllers/SummarizeController.cs:250 | a label is kept as it is, and a null label becomes `""`; the DOCX reader applies the same rule to a missing body (see `Extraction.TxtAndDocxTexts`) |
| Inference.SummaryText | Summlyzer/Controllers/SummarizeController.cs:174-193 | a non-2xx status, a body that is not a non-empty array, and a null first summary_text each give their own placeholder; otherwise the result is the first element's text |
| Inference.SummaryIsSentinelOrFirstText | Summlyzer/Controllers/SummarizeController.cs:184-192 | the summary is one of the three placeholders or the text of the first array element |
| Inference.SummaryIgnoresLaterElements | Summlyzer/Controllers/SummarizeController.cs:186 | elements after the first never change the summary |
| Inference.Keywords | Summlyzer/Controllers/SummarizeController.cs:231-257 | a non-2xx status gives exactly `["[Classification failed]"]`; a reply without both arrays gives exactly `["[No labels returned]"]`; otherwise the top-5 ranking; never more than five |
| Inference.KeywordsComeFromReply | Summlyzer/Controllers/SummarizeController.cs:241-257 | every keyword is a placeholder, a returned label, or `""` for a null label |
| Inference.ShortReplyKeepsEveryPair | Summlyzer/Controllers/SummarizeController.cs:247-251 | a reply with at most five pairs keeps them all, and zero pairs give an empty list rather than a placeholder |
| Inference.IsSuccessStatus | Summlyzer/Controllers/SummarizeController.cs:174 | a reply counts as successful exactly when its status is in the 2xx class (also at line 231) |
| Extraction.GetExtension | Summlyzer/Controllers/SummarizeController.cs:52 | the extension is empty, or a suffix of the name that starts with its only dot and holds no directory separator |
| Extraction.ExtensionOfStemDotExt | Summlyzer/Controllers/SummarizeController.cs:52 | a name ending in `.` plus a dot-free extension has exactly that extension |
| Extraction.ExtensionCommutesWithLower | Summlyzer/Controllers/SummarizeController.cs:52 | the extension of the lower-cased name is the lower-cased extension |
| Extraction.FormatIgnoresCase | Summlyzer/Controllers/SummarizeController.cs:52-59 | names equal up to letter case select the same reader, so `.PDF` and `.pdf` agree |
| Extraction.FormatOfExtension | Summlyzer/Controllers/SummarizeController.cs:53-59 | pdf, docx and txt in any letter case select their reader; any other extension is unsupported |
| Extraction.NoDotIsUnsupported | Summlyzer/Controllers/SummarizeController.cs:58 | a name without a dot has no extension and is unsupported |
| Extraction.FormatOf | Summlyzer/Controllers/SummarizeController.cs:52-59 | the PDF, DOCX and TXT readers are chosen only for names that end in `.pdf`, `.docx` or `.txt` in any letter case |
| Extraction.Extract | Summlyzer/Controllers/SummarizeController.cs:53-62 | no text is produced exactly when the extension is unsupported |
| Extraction.ReadPdf | Summlyzer/Controllers/SummarizeController.cs:115-126 | the nested page and word loops build every word followed by one space, in page order and then word order, and trim the result |
| Extraction.SpacedIsJoinPlusSpace | Summlyzer/Controllers/SummarizeController.cs:118-124 | appending each word and a space gives the words joined by single spaces plus one trailing space |
| Extraction.PdfTextJoinsWords | Summlyzer/Controllers/SummarizeController.cs:118-126 | for non-empty words without whitespace, the PDF text is the words of all pages joined by single spaces, so no page loses its words or its spacing |
| Extraction.PdfWordCount | Summlyzer/Controllers/SummarizeController.cs:118-126 | splitting the PDF text for the count gives back exactly the page words, so the count is the number of words |
| Extraction.PdfText | Summlyzer/Controllers/SummarizeController.cs:115-126 | the PDF text never starts or ends with whitespace, and is empty when there are no words |
| Extraction.TxtAndDocxTexts | Summlyzer/Controllers/SummarizeController.cs:94-107 | a DOCX body gives its inner text once, a DOCX without a body gives `""`, and a `.txt` upload gives its decoded text unchanged |
| Controller.CountAndInfer | Summlyzer/Controllers/SummarizeController.cs:25-39 | above 750 words, the limit message with the count and no remote call; otherwise the summarizer and then the classifier are called, and the answer holds the text, the mapped summary and the keywords |
| Controller.SummarizeText | Summlyzer/Controllers/SummarizeController.cs:20-40 | the route answers exactly when the text is non-null, not blank and at most 750 words; null or blank text gives the empty-input message, then too many words the limit message, both with no call; an answer carries the input text, the mapped summary and the keywords after the summarizer and then the classifier were called |
| Controller.SummarizeFile | Summlyzer/Controllers/SummarizeController.cs:44-84 | a missing or empty upload is refused first, then an unsupported extension, both with no call; otherwise the selected reader runs, then the same count and limit as typed text |
| Controller.NoRemoteCallOnRejection | Summlyzer/Controllers/SummarizeController.cs:22-32 | a refused request makes no remote call on either route |
| Controller.AnsweredRequestCallsBothModels | Summlyzer/Controllers/SummarizeController.cs:53-75 | an answered upload made one reader call, then the summarizer with the tier's configuration, then the classifier, all on the answered text |
| Controller.WordLimitBoundary | Summlyzer/Controllers/SummarizeController.cs:26-27 | 750 words are answered; 751 words are refused with the message for 751 |
| Controller.WordLimitWitnesses | Summlyzer/Controllers/SummarizeController.cs:26-27 | a concrete 750-word text is answered and a concrete 751-word text is refused |
| Controller.RepeatedText | Summlyzer/Controllers/SummarizeController.cs:25 | n copies of a one-letter word, joined by spaces, count n words and are not blank |
| Controller.AnsweredTextHasWords | Summlyzer/Controllers/SummarizeController.cs:22-27 | an answered typed text holds between 1 and 750 words |
| Words.NonSeparatorMakesWord | Summlyzer/Controllers/SummarizeController.cs:25 | a text with any non-separator character has at least one word |
| Controller.SameGateForBothRoutes | Summlyzer/Controllers/SummarizeController.cs:66-68 | a supported upload whose text is not blank is answered exactly as that text on the text route, after one reader call |
| Controller.BlankDocxIsNotRefused | Summlyzer/Controllers/SummarizeController.cs:46-75 | a DOCX without a body is summarized as the empty text rather than refused |
| Controller.PdfUploadAnswersJoinedWords | Summlyzer/Controllers/SummarizeController.cs:53-75 | a PDF upload of whitespace-free words is read once, then answered on the words of all pages joined by single spaces when there are at most 750 of them, and refused with their number otherwise |
| Controller.FileRouteIgnoresCase | Summlyzer/Controllers/SummarizeController.cs:52 | file names equal up to letter case get the same answer and the same calls |
| Controller.RemoteFailuresAreIsolated | Summlyzer/Controllers/SummarizeController.cs:31-32 | an answered request stays answered whatever the remote replies; the summary depends only on the summarizer's reply, and the keywords only on the classifier's |
| Controller.ClassifierFailureKeepsSummary | Summlyzer/Controllers/SummarizeController.cs:231-236 | a failed classifier call still gives the summary, with `["[Classification failed]"]` as keywords |
| Controller.CsvIsRefusedUnread | Summlyzer/Controllers/SummarizeController.cs:58-62 | a `.csv` upload is refused as unsupported without any reader call |

## Left out

- Hosting (`Summlyzer/Program.cs`): controller registration, Swagger, static files and SPA fallback. This is wiring with no logic.
- Remote calls: `HttpClient` construction, the POSTs, the Authorization header and the JSON serialisation of both payloads are not modelled. The classifier payload has 20 fixed candidate labels, `multi_label = true` and the hypothesis template. The summarizer payload parameters are modelled as `ModelConfig`. The replies are parameters of the routes.
- The bearer credential: external configuration, not part of the model.
- Document parsing and decoding: PdfPig, OpenXml and the UTF-8 `StreamReader` are foreign libraries. What they return for the uploaded bytes is the `Parsed` parameter: pages of words, an optional body text, and the decoded text.
- Exceptions: these paths throw in the source instead of returning a placeholder, so the reply datatypes cannot express them:
  - malformed JSON;
  - a first array element that is not a JSON object (line 186);
  - a missing `summary_text`;
  - a `summary_text` that is neither a string nor null (line 186);
  - a classifier root that is not an object;
  - a `labels` or `scores` value that is not an array of strings or numbers;
  - a corrupt PDF or DOCX stream;
  - a transport failure.
- Inference.SummaryText: `SummaryArray` holds one optional text per element, so the model gives every element the shape of the first. The code reads only the first element (line 186) and accepts later elements of any shape.
- Scores are `real` under the usual total order. `double` NaN ordering in `OrderByDescending` is not modelled.
- Text.ToLower: lowers ASCII letters only. .NET `ToLower()` follows the current culture and also lowers non-ASCII letters. This does not change which of `.pdf`, `.docx` or `.txt` is selected, except for exotic code points that lower to ASCII letters.
- Extraction.GetExtension: treats only `/` as a directory separator, as on a Unix host. On Windows, `\` also ends the scan.
- Console logging, `async`/`await` and stream disposal. The two remote calls are awaited in sequence, and the trace records that order.
- The HTTP status codes and the JSON shape of the 200 and 400 responses: `Response` keeps only the reason text or the three answer fields.
