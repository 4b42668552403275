/**
 The two routes of `SummarizeController`. Each returns the response together
 with the trace of collaborator calls it made — the file reader it ran and the
 two remote inference calls — so that the order "guard, count, limit, calls"
 and the absence of calls on a rejection can be stated. The replies of the
 remote models are parameters.
 */
module Controller {
  import opened Wrappers
  import opened Text
  import opened Words
  import opened Extraction
  import opened ModelSelection
  import opened Inference

  /** A collaborator call, in the order the route makes them. */
  datatype Call =
    | ReadPdf
    | ReadDocx
    | ReadTxt
    | Summarize(text: string, config: ModelConfig)
    | Classify(text: string)

  /** A 400 answer with its reason, or a 200 answer with the text, its summary and its keywords. */
  datatype Response =
    | BadRequest(reason: string)
    | Ok(inputText: string, summarizedText: string, keywords: seq<string>)

  datatype Handled = Handled(calls: seq<Call>, response: Response)

  /** The replies the two remote models would give. */
  datatype Remote = Remote(summarizer: SummarizerReply, classifier: ClassifierReply)

  /** The uploaded form file: its name and its length in bytes. */
  datatype Upload = Upload(fileName: string, length: nat)

  const MaxWords: nat := 750

  const EmptyInput := "Input text cannot be empty."
  const NoFileUploaded := "No file uploaded."
  const UnsupportedFormat := "Unsupported file format. Only .pdf, .docx, and .txt are allowed."
  const LimitPrefix := "Word limit exceeded: "
  const LimitSuffix := " words. Max allowed is 750."

  /** The word-limit rejection: the fixed prefix, the count in decimal digits,
      and the fixed suffix. */
  function LimitExceeded(count: nat): (m: string)
    ensures |m| > |LimitPrefix| + |LimitSuffix|
    ensures m[..|LimitPrefix|] == LimitPrefix
    ensures m[|m| - |LimitSuffix|..] == LimitSuffix
    ensures AllDigits(m[|LimitPrefix|..|m| - |LimitSuffix|])
  {
    LimitPrefix + NatToString(count) + LimitSuffix
  }

  /** The count can be read back from the rejection message. */
  lemma LimitMessageEmbedsCount(count: nat)
    ensures var m := LimitExceeded(count);
      && |m| == |LimitPrefix| + |NatToString(count)| + |LimitSuffix|
      && AllDigits(m[|LimitPrefix|..|m| - |LimitSuffix|])
      && ParseNat(m[|LimitPrefix|..|m| - |LimitSuffix|]) == count
  {
    var m := LimitExceeded(count);
    assert m[|LimitPrefix|..|m| - |LimitSuffix|] == NatToString(count);
    ParseNatToString(count);
  }

  /** Different counts give different messages. */
  lemma LimitMessageInjective(a: nat, b: nat)
    requires LimitExceeded(a) == LimitExceeded(b)
    ensures a == b
  {
    LimitMessageEmbedsCount(a);
    LimitMessageEmbedsCount(b);
  }

  predicate IsRemote(c: Call)
  {
    c.Summarize? || c.Classify?
  }

  /** The part both routes share once they hold a text: count the words,
      refuse above 750, otherwise summarize and then classify. `before` holds
      the calls already made. */
  function CountAndInfer(before: seq<Call>, text: string, summaryLength: int, remote: Remote): (h: Handled)
    ensures WordCount(text) > MaxWords ==> h == Handled(before, BadRequest(LimitExceeded(WordCount(text))))
    ensures WordCount(text) <= MaxWords ==>
      h.calls == before + [Summarize(text, SelectConfig(summaryLength)), Classify(text)]
      && h.response == Ok(text, SummaryText(remote.summarizer), Keywords(remote.classifier))
  {
    var count := WordCount(text);
    if count > MaxWords then Handled(before, BadRequest(LimitExceeded(count)))
    else
      var summarized := SummaryText(remote.summarizer);
      var keywords := Keywords(remote.classifier);
      Handled(before + [Summarize(text, SelectConfig(summaryLength)), Classify(text)],
              Ok(text, summarized, keywords))
  }

  /** `SummarizeText`: a null or blank text, then a text above the limit, are
      refused before any remote call; otherwise both models are called. */
  function SummarizeText(inputText: Option<string>, summaryLength: int, remote: Remote): (h: Handled)
    ensures h.response.Ok? <==> !IsNullOrWhiteSpace(inputText) && WordCount(inputText.value) <= MaxWords
    ensures IsNullOrWhiteSpace(inputText) ==> h == Handled([], BadRequest(EmptyInput))
    ensures !IsNullOrWhiteSpace(inputText) && WordCount(inputText.value) > MaxWords
      ==> h == Handled([], BadRequest(LimitExceeded(WordCount(inputText.value))))
    ensures h.response.Ok? ==>
      h.calls == [Summarize(inputText.value, SelectConfig(summaryLength)), Classify(inputText.value)]
      && h.response == Ok(inputText.value, SummaryText(remote.summarizer), Keywords(remote.classifier))
  {
    if IsNullOrWhiteSpace(inputText) then Handled([], BadRequest(EmptyInput))
    else CountAndInfer([], inputText.value, summaryLength, remote)
  }

  /** The collaborator call that runs a reader. */
  function ReaderCall(format: Format): Call
    requires format != Unsupported
  {
    match format
    case Pdf => ReadPdf
    case Docx => ReadDocx
    case Txt => ReadTxt
  }

  /** `SummarizeFile`: a missing or empty upload, then an unsupported
      extension, are refused before any reader runs; otherwise the selected
      reader runs and its text goes through the same count and limit as typed
      text. */
  function SummarizeFile(file: Option<Upload>, summaryLength: int, parsed: Parsed, remote: Remote): (h: Handled)
    ensures file.None? || file.value.length == 0 ==> h == Handled([], BadRequest(NoFileUploaded))
    ensures file.Some? && file.value.length > 0 && FormatOf(file.value.fileName) == Unsupported
      ==> h == Handled([], BadRequest(UnsupportedFormat))
    ensures file.Some? && file.value.length > 0 && FormatOf(file.value.fileName) != Unsupported ==>
      var format := FormatOf(file.value.fileName);
      h == CountAndInfer([ReaderCall(format)], Extract(format, parsed).value, summaryLength, remote)
  {
    if file.None? || file.value.length == 0 then Handled([], BadRequest(NoFileUploaded))
    else
      var format := FormatOf(file.value.fileName);
      match Extract(format, parsed)
      case None => Handled([], BadRequest(UnsupportedFormat))
      case Some(text) => CountAndInfer([ReaderCall(format)], text, summaryLength, remote)
  }

  // ----- Properties of the routes -----

  /** A refused request makes no remote call, on either route. */
  lemma NoRemoteCallOnRejection(inputText: Option<string>, file: Option<Upload>, summaryLength: int,
                                parsed: Parsed, remote: Remote)
    ensures SummarizeText(inputText, summaryLength, remote).response.BadRequest? ==>
      SummarizeText(inputText, summaryLength, remote).calls == []
    ensures var h := SummarizeFile(file, summaryLength, parsed, remote);
      h.response.BadRequest? ==> forall c :: c in h.calls ==> !IsRemote(c)
  {
  }

  /** A request that is answered has made exactly the two remote calls, the
      summarizer first, both on the same text. */
  lemma AnsweredRequestCallsBothModels(file: Option<Upload>, summaryLength: int, parsed: Parsed, remote: Remote)
    ensures var h := SummarizeFile(file, summaryLength, parsed, remote);
      h.response.Ok? ==>
        |h.calls| == 3 && !IsRemote(h.calls[0])
        && h.calls[1] == Summarize(h.response.inputText, SelectConfig(summaryLength))
        && h.calls[2] == Classify(h.response.inputText)
  {
    if file.Some? && file.value.length > 0 {
      var format := FormatOf(file.value.fileName);
      if format != Unsupported {
        ReaderThenBothModels(format, Extract(format, parsed).value, summaryLength, remote);
      }
    }
  }

  lemma ReaderThenBothModels(format: Format, text: string, summaryLength: int, remote: Remote)
    requires format != Unsupported
    ensures var h := CountAndInfer([ReaderCall(format)], text, summaryLength, remote);
      h.response.Ok? ==>
        |h.calls| == 3 && !IsRemote(h.calls[0])
        && h.calls[1] == Summarize(h.response.inputText, SelectConfig(summaryLength))
        && h.calls[2] == Classify(h.response.inputText)
  {
  }

  /** The limit is inclusive: 750 words pass and 751 are refused with the
      count in the message. */
  lemma WordLimitBoundary(text: string, summaryLength: int, remote: Remote)
    requires !IsNullOrWhiteSpace(Some(text))
    ensures WordCount(text) == 750 ==> SummarizeText(Some(text), summaryLength, remote).response.Ok?
    ensures WordCount(text) == 751 ==>
      SummarizeText(Some(text), summaryLength, remote).response == BadRequest(LimitExceeded(751))
  {
  }

  /** `n` copies of the word "a"; `JoinWords` puts single spaces between them. */
  function Repeated(n: nat): seq<string>
  {
    seq(n, _ => "a")
  }

  /** Concrete texts at the boundary: 750 words are answered, 751 refused. */
  lemma WordLimitWitnesses(summaryLength: int, remote: Remote)
    ensures SummarizeText(Some(JoinWords(Repeated(750))), summaryLength, remote).response.Ok?
    ensures SummarizeText(Some(JoinWords(Repeated(751))), summaryLength, remote).response
      == BadRequest(LimitExceeded(751))
  {
    RepeatedText(750);
    RepeatedText(751);
  }

  lemma RepeatedText(n: nat)
    requires n > 0
    ensures WordCount(JoinWords(Repeated(n))) == n
    ensures !IsNullOrWhiteSpace(Some(JoinWords(Repeated(n))))
  {
    var ws := Repeated(n);
    assert forall k :: 0 <= k < |ws| ==> IsWord(ws[k]);
    SplitJoinWords(ws);
    assert JoinWords(ws)[0] == 'a';
  }

  /** A text that is answered holds at least one word: whitespace covers all
      four separators, so a text that is not blank has a non-separator. */
  lemma AnsweredTextHasWords(inputText: Option<string>, summaryLength: int, remote: Remote)
    requires SummarizeText(inputText, summaryLength, remote).response.Ok?
    ensures 1 <= WordCount(inputText.value) <= MaxWords
  {
    var s := inputText.value;
    var i :| 0 <= i < |s| && !IsWhiteSpace(s[i]);
    NonSeparatorMakesWord(s, i);
  }

  /** Typed text and extracted file text meet the same gate: once a supported
      file has been read into a non-blank text, the file route answers exactly
      as the text route does for that text, after one reader call. */
  lemma SameGateForBothRoutes(file: Option<Upload>, summaryLength: int, parsed: Parsed, remote: Remote)
    requires file.Some? && file.value.length > 0
    requires FormatOf(file.value.fileName) != Unsupported
    requires !IsNullOrWhiteSpace(Extract(FormatOf(file.value.fileName), parsed))
    ensures var format := FormatOf(file.value.fileName);
      var text := Extract(format, parsed);
      var viaFile := SummarizeFile(file, summaryLength, parsed, remote);
      var viaText := SummarizeText(text, summaryLength, remote);
      viaFile.response == viaText.response && viaFile.calls == [ReaderCall(format)] + viaText.calls
  {
  }

  /** A PDF upload whose pages hold whitespace-free words is read once and then
      judged on those words alone: up to 750 of them are answered on the words
      joined by single spaces, more are refused with their number. */
  lemma PdfUploadAnswersJoinedWords(file: Upload, summaryLength: int, parsed: Parsed, remote: Remote)
    requires file.length > 0 && FormatOf(file.fileName) == Pdf
    requires forall k :: 0 <= k < |Flatten(parsed.pdfPages)| ==> IsPdfWord(Flatten(parsed.pdfPages)[k])
    ensures var h := SummarizeFile(Some(file), summaryLength, parsed, remote);
      |h.calls| > 0 && h.calls[0] == ReadPdf
    ensures var ws, h := Flatten(parsed.pdfPages), SummarizeFile(Some(file), summaryLength, parsed, remote);
      |ws| <= MaxWords ==> h.response == Ok(JoinWords(ws), SummaryText(remote.summarizer), Keywords(remote.classifier))
    ensures var ws, h := Flatten(parsed.pdfPages), SummarizeFile(Some(file), summaryLength, parsed, remote);
      |ws| > MaxWords ==> h.response == BadRequest(LimitExceeded(|ws|))
  {
    var ws := Flatten(parsed.pdfPages);
    var text := PdfText(parsed.pdfPages);
    PdfTextJoinsWords(parsed.pdfPages);
    PdfWordCount(parsed.pdfPages);
    assert Extract(Pdf, parsed) == Some(text);
    assert SummarizeFile(Some(file), summaryLength, parsed, remote)
      == CountAndInfer([ReadPdf], text, summaryLength, remote);
  }

  /** Unlike the text route, the file route does not refuse a blank text: a
      DOCX without a body is summarized as the empty text. */
  lemma BlankDocxIsNotRefused(file: Upload, summaryLength: int, parsed: Parsed, remote: Remote)
    requires file.length > 0 && FormatOf(file.fileName) == Docx
    requires parsed.docxBody.None?
    ensures SummarizeFile(Some(file), summaryLength, parsed, remote).response
      == Ok("", SummaryText(remote.summarizer), Keywords(remote.classifier))
  {
    assert Split("") == [];
  }

  /** The route ignores the letter case of the file name's extension. */
  lemma FileRouteIgnoresCase(name1: string, name2: string, length: nat, summaryLength: int,
                             parsed: Parsed, remote: Remote)
    requires ToLower(name1) == ToLower(name2)
    ensures SummarizeFile(Some(Upload(name1, length)), summaryLength, parsed, remote)
         == SummarizeFile(Some(Upload(name2, length)), summaryLength, parsed, remote)
  {
    FormatIgnoresCase(name1, name2);
  }

  /** The two remote calls fail independently: the summary does not depend on
      the classifier's reply, nor the keywords on the summarizer's. */
  lemma RemoteFailuresAreIsolated(inputText: Option<string>, summaryLength: int, remote1: Remote, remote2: Remote)
    requires SummarizeText(inputText, summaryLength, remote1).response.Ok?
    ensures var h1 := SummarizeText(inputText, summaryLength, remote1);
      var h2 := SummarizeText(inputText, summaryLength, remote2);
      && h2.response.Ok?
      && (remote1.summarizer == remote2.summarizer ==> h1.response.summarizedText == h2.response.summarizedText)
      && (remote1.classifier == remote2.classifier ==> h1.response.keywords == h2.response.keywords)
  {
  }

  /** A failed classifier call still yields the summary, with the placeholder
      as the only keyword. */
  lemma ClassifierFailureKeepsSummary(inputText: Option<string>, summaryLength: int, remote: Remote)
    requires SummarizeText(inputText, summaryLength, remote).response.Ok?
    requires !IsSuccessStatus(remote.classifier.status)
    ensures SummarizeText(inputText, summaryLength, remote).response
      == Ok(inputText.value, SummaryText(remote.summarizer), [ClassificationFailed])
  {
  }

  /** An upload with a name outside `.pdf`, `.docx` and `.txt` — a `.csv` file,
      say — is refused without running any reader. */
  lemma CsvIsRefusedUnread(stem: string, length: nat, summaryLength: int, parsed: Parsed, remote: Remote)
    requires length > 0
    ensures SummarizeFile(Some(Upload(stem + ".csv", length)), summaryLength, parsed, remote)
      == Handled([], BadRequest(UnsupportedFormat))
  {
    assert stem + ".csv" == stem + "." + "csv";
    FormatOfExtension(stem, "csv");
    assert ToLower("csv") == "csv";
  }
}
