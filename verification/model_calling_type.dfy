/**
 * ModelCallingType: the three ways a model is called, each with its code.
 */
module ModelCallingTypes {
  import opened Wrappers

  datatype CallingType = ApiLlm | ApiEmbedding | SentenceTransformersEmbedding

  /** values(), in declaration order. */
  const VALUES: seq<CallingType> := [ApiLlm, ApiEmbedding, SentenceTransformersEmbedding]

  function Code(t: CallingType): string {
    match t
    case ApiLlm => "api_llm"
    case ApiEmbedding => "api_embedding"
    case SentenceTransformersEmbedding => "sentence_transformers_embedding"
  }

  function UnknownMessage(code: Option<string>): string {
    "未知的模型调用方式: " + (if code.None? then "null" else code.value)
  }

  /** fromCode: the first constant whose code equals the text exactly; no match throws. */
  function FromCode(code: Option<string>): (r: Result<CallingType, string>)
    ensures r.Success? <==> exists t :: t in VALUES && Some(Code(t)) == code
    ensures r.Success? ==> Some(Code(r.value)) == code
    ensures r.Failure? ==> r.error == UnknownMessage(code)
  {
    if code == Some(Code(ApiLlm)) then Success(ApiLlm)
    else if code == Some(Code(ApiEmbedding)) then Success(ApiEmbedding)
    else if code == Some(Code(SentenceTransformersEmbedding)) then Success(SentenceTransformersEmbedding)
    else Failure(UnknownMessage(code))
  }

  /** The codes are pairwise distinct, so a constant's code leads back to the constant. */
  lemma FromCodeOfCode(t: CallingType)
    ensures FromCode(Some(Code(t))) == Success(t)
  {
  }

  /** Matching is case-sensitive: an upper-cased code is not recognised. */
  lemma UpperCaseRejected()
    ensures FromCode(Some("API_LLM")).Failure?
  {
    assert "API_LLM"[0] != "api_llm"[0];
    assert "API_LLM"[0] != "api_embedding"[0];
    assert "API_LLM"[0] != "sentence_transformers_embedding"[0];
  }
}
