/** What the pipeline takes from the model call: the answer text and the
    optional token counts (`get_tokens_info`), and the variables it feeds
    the prompt (`create_prompt_data`), in both versions of A_LLM.py. The
    hosted model, the prompt template and the parsers' internals are not
    part of this model. */
module Llm {
  import opened Results

  /** The `usage_metadata` counters of one call. */
  datatype Usage = Usage(input_tokens: int, output_tokens: int)

  /** The model's reply: its text and, when the endpoint reports them, its
      token counts. */
  datatype AIMessage = AIMessage(content: string, usage: Option<Usage>)

  /** `get_tokens_info(ai_message)`: the pair `(input_tokens,
      output_tokens)` when usage metadata is present, `None` (the implicit
      return) otherwise. */
  function GetTokensInfo(m: AIMessage): (r: Option<(int, int)>)
    ensures r.Some? <==> m.usage.Some?
    ensures r.Some? ==> r.value.0 == m.usage.value.input_tokens && r.value.1 == m.usage.value.output_tokens
  {
    match m.usage
    case Some(u) => Some((u.input_tokens, u.output_tokens))
    case None => None
  }

  /** The parser handed back with the prompt variables. */
  datatype OutputParser = JsonOutputParser | PydanticOutputParser

  const ContentVariable: string := "web_content"

  /** `create_prompt_data(content)` of src/mod/A_LLM.py. The format
      instructions come from the pydantic parser for `AgendaSchedule`, but
      the parser returned for reading the answer is the plain JSON one. */
  function CreatePromptData(content: string, schemaInstructions: string): (r: (OutputParser, map<string, string>))
    ensures r.0 == JsonOutputParser
    ensures r.1.Keys == {ContentVariable, "pydantic_parser"}
    ensures r.1[ContentVariable] == content && r.1["pydantic_parser"] == schemaInstructions
  {
    (JsonOutputParser, map[ContentVariable := content, "pydantic_parser" := schemaInstructions])
  }

  /** `create_prompt_data(web_content)` of code/mod/A_LLM.py: the content
      unchanged and the generic format instructions of the JSON parser
      itself, which do not describe the `AgendaSchedule` schema. Compared
      with the newer map, `pydantic_parser` is dropped and `json_parser` is
      added holding those generic instructions; the parser and the content
      variable are the same. */
  function CreatePromptDataLegacy(content: string, jsonInstructions: string): (r: (OutputParser, map<string, string>))
    ensures r.0 == CreatePromptData(content, jsonInstructions).0
    ensures r.1.Keys == {ContentVariable, "json_parser"}
    ensures r.1 == (CreatePromptData(content, jsonInstructions).1 - {"pydantic_parser"})["json_parser" := jsonInstructions]
  {
    (JsonOutputParser, map[ContentVariable := content, "json_parser" := jsonInstructions])
  }
}
