/**
 How the controller turns the replies of the two remote inference calls into
 the summary text and the keyword list: each failure mode maps to a fixed
 placeholder and never aborts the request.
 */
module Inference {
  import opened Wrappers
  import opened Text
  import opened Ranking

  /** `HttpResponseMessage.IsSuccessStatusCode`: the status is in the 2xx class. */
  predicate IsSuccessStatus(status: int)
    ensures IsSuccessStatus(status) <==> status / 100 == 2
  {
    200 <= status <= 299
  }

  /** The parsed summarizer body: either a JSON array whose elements carry a
      `summary_text` string or `null`, or any other JSON value. */
  datatype SummaryJson = SummaryArray(summaryTexts: seq<Option<string>>) | OtherJson

  datatype SummarizerReply = SummarizerReply(status: int, body: SummaryJson)

  /** The parsed classifier body: a JSON object, with or without the
      `labels` (strings or `null`) and `scores` (numbers) arrays. */
  datatype ClassifierJson = ClassifierJson(labels: Option<seq<Option<string>>>, scores: Option<seq<real>>)

  datatype ClassifierReply = ClassifierReply(status: int, body: ClassifierJson)

  const ErrorGeneratingSummary := "[Error generating summary]"
  const UnexpectedFormat := "[Unexpected response format]"
  const NoSummaryReturned := "[No summary returned]"
  const ClassificationFailed := "[Classification failed]"
  const NoLabelsReturned := "[No labels returned]"

  /** The summarizer placeholders. */
  predicate IsSummarySentinel(s: string)
  {
    s == ErrorGeneratingSummary || s == UnexpectedFormat || s == NoSummaryReturned
  }

  /** The summary text the controller returns for a summarizer reply: a
      non-2xx status, a body that is not a non-empty array, and a `null`
      first `summary_text` each give their own placeholder; otherwise the
      first element's text, whatever follows it. */
  function SummaryText(reply: SummarizerReply): (r: string)
    ensures !IsSuccessStatus(reply.status) ==> r == ErrorGeneratingSummary
    ensures IsSuccessStatus(reply.status) && (reply.body.OtherJson? || |reply.body.summaryTexts| == 0)
      ==> r == UnexpectedFormat
    ensures IsSuccessStatus(reply.status) && reply.body.SummaryArray? && |reply.body.summaryTexts| > 0
      ==> r == reply.body.summaryTexts[0].GetOr(NoSummaryReturned)
  {
    if !IsSuccessStatus(reply.status) then ErrorGeneratingSummary
    else match reply.body
      case SummaryArray(texts) =>
        if |texts| > 0 then texts[0].GetOr(NoSummaryReturned) else UnexpectedFormat
      case OtherJson => UnexpectedFormat
  }

  /** The summary is a placeholder or the text of the first array element. */
  lemma SummaryIsSentinelOrFirstText(reply: SummarizerReply)
    ensures IsSummarySentinel(SummaryText(reply))
      || (reply.body.SummaryArray? && |reply.body.summaryTexts| > 0
          && reply.body.summaryTexts[0] == Some(SummaryText(reply)))
  {
  }

  /** Elements after the first never influence the summary. */
  lemma SummaryIgnoresLaterElements(status: int, first: Option<string>, rest1: seq<Option<string>>, rest2: seq<Option<string>>)
    ensures SummaryText(SummarizerReply(status, SummaryArray([first] + rest1)))
         == SummaryText(SummarizerReply(status, SummaryArray([first] + rest2)))
  {
  }

  /** The keyword list the controller returns for a classifier reply. */
  function Keywords(reply: ClassifierReply): (r: seq<string>)
    ensures !IsSuccessStatus(reply.status) ==> r == [ClassificationFailed]
    ensures IsSuccessStatus(reply.status) && (reply.body.labels.None? || reply.body.scores.None?)
      ==> r == [NoLabelsReturned]
    ensures IsSuccessStatus(reply.status) && reply.body.labels.Some? && reply.body.scores.Some?
      ==> r == TopLabels(reply.body.labels.value, reply.body.scores.value)
    ensures |r| <= TopK
  {
    if !IsSuccessStatus(reply.status) then [ClassificationFailed]
    else if reply.body.labels.Some? && reply.body.scores.Some? then
      TopLabels(reply.body.labels.value, reply.body.scores.value)
    else [NoLabelsReturned]
  }

  /** Every keyword is a placeholder, a returned label, or `""` for a `null` label. */
  lemma KeywordsComeFromReply(reply: ClassifierReply, k: nat)
    requires k < |Keywords(reply)|
    ensures var w := Keywords(reply)[k];
      || w == ClassificationFailed
      || w == NoLabelsReturned
      || (reply.body.labels.Some?
          && (exists i :: 0 <= i < |reply.body.labels.value| && w == OrEmpty(reply.body.labels.value[i])))
  {
  }

  /** A successful reply with both arrays present but shorter than five pairs
      returns every pair — possibly none, which is an empty list rather than
      a placeholder. */
  lemma ShortReplyKeepsEveryPair(reply: ClassifierReply)
    requires IsSuccessStatus(reply.status)
    requires reply.body.labels.Some? && reply.body.scores.Some?
    requires Min(|reply.body.labels.value|, |reply.body.scores.value|) <= TopK
    ensures |Keywords(reply)| == Min(|reply.body.labels.value|, |reply.body.scores.value|)
  {
  }
}
