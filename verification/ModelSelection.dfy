/**
 Which remote summarization model, and with which generation parameters, a
 request uses — keyed by the caller's integer `summaryLength`.
 */
module ModelSelection {

  /** The generation parameters sent with a summarization request. */
  datatype ModelConfig = ModelConfig(endpoint: string, minLength: nat, maxLength: nat, doSample: bool)

  /** The three tiers the integer codes stand for. */
  datatype Tier = Short | Medium | Long

  const MaxLength: nat := 1024

  const BartXsum := "https://api-inference.huggingface.co/models/facebook/bart-large-xsum"
  const Pegasus := "https://api-inference.huggingface.co/models/tuner007/pegasus_summarizer"
  const T5Long := "https://api-inference.huggingface.co/models/utrobinmv/t5_summary_en_ru_zh_base_2048"

  /** The selection as the controller writes it: 1, 2, and everything else. */
  function SelectConfig(summaryLength: int): (c: ModelConfig)
    ensures c.maxLength == 1024 && !c.doSample
    ensures c.minLength < c.maxLength
    ensures c.endpoint in {BartXsum, Pegasus, T5Long}
  {
    if summaryLength == 1 then ModelConfig(BartXsum, 16, MaxLength, false)
    else if summaryLength == 2 then ModelConfig(Pegasus, 48, MaxLength, false)
    else ModelConfig(T5Long, 192, MaxLength, false)
  }

  /** The tier an integer code stands for; unknown codes fall back to `Long`. */
  function TierOf(code: int): Tier
  {
    match code
    case 1 => Short
    case 2 => Medium
    case _ => Long
  }

  /** The configuration table, one row per tier. */
  function ConfigOf(t: Tier): ModelConfig
  {
    match t
    case Short => ModelConfig(BartXsum, 16, MaxLength, false)
    case Medium => ModelConfig(Pegasus, 48, MaxLength, false)
    case Long => ModelConfig(T5Long, 192, MaxLength, false)
  }

  /** The controller's if-chain agrees with the tier table on every integer. */
  lemma SelectionFollowsTier(code: int)
    ensures SelectConfig(code) == ConfigOf(TierOf(code))
  {
  }

  /** Every code outside {1, 2} — zero, negative or three and above — selects
      the same configuration as 3, the long-form model with minimum length 192. */
  lemma UnknownCodesSelectLong(code: int)
    requires code != 1 && code != 2
    ensures SelectConfig(code) == SelectConfig(3)
    ensures SelectConfig(code).endpoint == T5Long && SelectConfig(code).minLength == 192
  {
  }

  /** Longer tiers ask for longer summaries, and the three tiers use three
      different models. */
  lemma TiersAreOrdered()
    ensures ConfigOf(Short).minLength < ConfigOf(Medium).minLength < ConfigOf(Long).minLength
    ensures ConfigOf(Short).endpoint != ConfigOf(Medium).endpoint
    ensures ConfigOf(Medium).endpoint != ConfigOf(Long).endpoint
    ensures ConfigOf(Short).endpoint != ConfigOf(Long).endpoint
  {
  }
}
