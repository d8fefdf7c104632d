/** `generate_agenda(url_input, file_input)` of app.py: the request handler
    behind the form. It loads the content (a file beats a URL), rejects
    unusable content, calls the model, parses its answer, builds the preview
    table and the text script, and returns the four-tuple (table, status,
    CSV path, TXT path). Every external step is an oracle in `Env`. */
module App {
  import opened Results
  import opened Strings
  import opened Values
  import opened Llm
  import opened Frames
  import Loader
  import TextExport
  import Schema

  const CsvPath: string := "temp_output/agenda_output.csv"
  const TxtPath: string := "temp_output/agenda_output.txt"
  const ModelName: string := "gemini-3-flash-preview"
  const AgendaKey: string := "agendas"

  const NoSourceMessage: string := "錯誤：請輸入網址或上傳檔案"
  const LoadFailurePrefix: string := "讀取失敗或內容為空: "
  const ParseFailurePrefix: string := "解析失敗，LLM 回應: "
  const ParseErrorSeparator: string := "\n錯誤: "
  const SystemErrorPrefix: string := "系統發生錯誤: "
  /** Python's message when `a, b = None` is attempted. */
  const UnpackNoneError: string := "cannot unpack non-iterable NoneType object"
  /** The word ("error") whose presence marks content as a load failure. */
  const ErrorWord: string := "錯誤"

  /** The collaborators of one request. */
  datatype Env = Env(
    load: Loader.PageOracle,
    // connect_llm_model(model_name) followed by (prompt | llm).invoke(data)
    llm: (string, map<string, string>) -> Result<AIMessage, string>,
    // json_parser.invoke(ai_message), on the message text
    parse: string -> Result<PyDict, string>,
    construct: Constructor,
    repr: Repr,
    // the pydantic parser's format instructions for AgendaSchedule
    schemaInstructions: string)

  /** The four values handed back to the form. */
  datatype Reply = Reply(table: Frame, status: string, csvPath: Option<string>, txtPath: Option<string>)

  /** What `save_to_csv` and `save_to_file` are given to write. */
  datatype Saved = Saved(csv: Frame, txt: string)

  datatype Run = Run(reply: Reply, saved: Option<Saved>)

  /** A failed request: empty table, the cause, no files. */
  function Failure(status: string): Run
  {
    Run(Reply(EmptyFrame, status, None, None), None)
  }

  /** The truthiness test of `if file_input:` / `elif url_input:`. */
  predicate Given(input: Option<string>): (b: bool)
    ensures input.None? ==> !b
    ensures input == Some("") ==> !b
    ensures b ==> |input.value| > 0
  {
    input.Some? && input.value != ""
  }

  /** `not content or "錯誤" in content` */
  predicate Rejected(content: string): (b: bool)
    ensures content == "" ==> b
    ensures ErrorWord <= content ==> b
    ensures b && content != "" ==> |ErrorWord| <= |content|
  {
    content == "" || Contains(content, ErrorWord)
  }

  const TokenPrefix: string := "Token 使用量 - Input: "
  const TokenSeparator: string := ", Output: "

  /** The status line of a successful request. */
  function TokenStatus(input: int, output: int): (s: string)
    ensures TokenPrefix <= s
    ensures |s| >= |TokenPrefix| + |TokenSeparator| + 2
  {
    TokenPrefix + (IntToString(input) + TokenSeparator + IntToString(output))
  }

  /** The status line determines both counts: different usages never give
      the same line. */
  lemma TokenStatusInjective(input: int, output: int, input': int, output': int)
    requires TokenStatus(input, output) == TokenStatus(input', output')
    ensures input == input' && output == output'
  {
    var a, b := IntToString(input), IntToString(output);
    var a', b' := IntToString(input'), IntToString(output');
    PrefixCancel(TokenPrefix, a + TokenSeparator + b, a' + TokenSeparator + b');
    NoComma(input);
    NoComma(input');
    SplitUnique(a, b, a', b', TokenSeparator, ',');
    IntToStringRoundTrip(input);
    IntToStringRoundTrip(input');
    IntToStringRoundTrip(output);
    IntToStringRoundTrip(output');
  }

  /** A rendered number holds no comma. */
  lemma NoComma(i: int)
    ensures ',' !in IntToString(i)
  {
    var s := IntToString(i);
    if i < 0 {
      assert forall k :: 1 <= k < |s| ==> s[k] == s[1..][k - 1];
    }
  }

  /** The shape every reply has: a run either failed, with an empty table,
      no paths and nothing written, or succeeded, with both fixed paths and
      the shown table being the one written to CSV. */
  predicate WellShaped(run: Run)
  {
    && (run.reply.csvPath.Some? <==> run.saved.Some?)
    && (run.reply.txtPath.Some? <==> run.saved.Some?)
    && (run.saved.None? ==> run.reply.table == EmptyFrame)
    && (run.saved.Some? ==>
          run.reply.csvPath == Some(CsvPath) && run.reply.txtPath == Some(TxtPath)
          && run.saved.value.csv == run.reply.table)
  }

  /** Lines 24-66 of the handler, once the content is loaded. */
  function Process(content: string, env: Env): (run: Run)
    ensures WellShaped(run)
    ensures run.saved.Some? ==> !Rejected(content)
  {
    if Rejected(content) then Failure(LoadFailurePrefix + content)
    else
      var data := CreatePromptData(content, env.schemaInstructions).1;
      match env.llm(ModelName, data)
      case Err(e) => Failure(SystemErrorPrefix + e)
      case Ok(message) =>
        match env.parse(message.content)
        case Err(e) => Failure(ParseFailurePrefix + message.content + ParseErrorSeparator + e)
        case Ok(response) =>
          match GetTokensInfo(message)
          case None => Failure(SystemErrorPrefix + UnpackNoneError)
          case Some(tokens) =>
            match TransformToDf(Parsed(JObj(response)), AgendaKey, env.construct)
            case Err(e) => Failure(SystemErrorPrefix + e)
            case Ok(table) =>
              var text := TextExport.TransformToText(response, env.repr);
              Run(Reply(table, TokenStatus(tokens.0, tokens.1), Some(CsvPath), Some(TxtPath)),
                  Some(Saved(table, text)))
  }

  /** `generate_agenda(url_input, file_input)` */
  function GenerateAgenda(url: Option<string>, file: Option<string>, env: Env): (run: Run)
    ensures WellShaped(run)
    ensures !Given(url) && !Given(file) ==> run == Failure(NoSourceMessage)
  {
    if Given(file) then Process(Loader.LoadContent(file.value, "file", env.load), env)
    else if Given(url) then Process(Loader.LoadContent(url.value, "url", env.load), env)
    else Failure(NoSourceMessage)
  }

  /** A supplied file is loaded as a file and the URL field is ignored. */
  lemma FileTakesPrecedence(url: Option<string>, otherUrl: Option<string>, file: Option<string>, env: Env)
    requires Given(file)
    ensures GenerateAgenda(url, file, env) == Process(Loader.LoadContent(file.value, "file", env.load), env)
    ensures GenerateAgenda(url, file, env) == GenerateAgenda(otherUrl, file, env)
  {
  }

  /** Without a file, a supplied URL is loaded as a web page. */
  lemma UrlWithoutFile(url: Option<string>, file: Option<string>, env: Env)
    requires !Given(file) && Given(url)
    ensures GenerateAgenda(url, file, env) == Process(Loader.LoadContent(url.value, "url", env.load), env)
  {
  }

  /** With neither input the request fails with the fixed prompt to supply
      one, and no collaborator is consulted: any two environments give the
      same answer. */
  lemma NoSource(url: Option<string>, file: Option<string>, env: Env, otherEnv: Env)
    requires !Given(url) && !Given(file)
    ensures GenerateAgenda(url, file, env) == Failure(NoSourceMessage)
    ensures GenerateAgenda(url, file, env) == GenerateAgenda(url, file, otherEnv)
  {
  }

  /** Empty content, or content with "錯誤" anywhere in it, stops the request
      before the model is called, and the status quotes the content. */
  lemma RejectedContent(content: string, env: Env, otherEnv: Env)
    requires Rejected(content)
    ensures Process(content, env) == Failure(LoadFailurePrefix + content)
    ensures Process(content, env) == Process(content, otherEnv)
  {
  }

  /** Every loader failure, whether of the file read or of the URL fetch,
      is caught by that test, since its text carries "錯誤"; the status then
      quotes the loader's error. */
  lemma LoaderFailureReported(url: Option<string>, file: Option<string>, env: Env, e: string)
    requires Given(file) || Given(url)
    requires Given(file) ==> env.load(Loader.FileLoader(Loader.Extension(file.value)), file.value) == Err(e)
    requires !Given(file) ==> env.load(Loader.WebPage, url.value) == Err(e)
    ensures GenerateAgenda(url, file, env) == Failure(LoadFailurePrefix + Loader.ReadErrorPrefix + e)
  {
    var content := Loader.ReadErrorPrefix + e;
    if Given(file) {
      assert Loader.LoadContent(file.value, "file", env.load) == content;
    } else {
      assert Loader.LoadContent(url.value, "url", env.load) == content;
    }
    Loader.FailureNamesError(e);
    RejectedContent(content, env, env);
  }

  /** The rejection test is Python's substring test: content is rejected
      exactly when it is empty or "錯誤" occurs in it at some position. */
  lemma RejectedIffOccurs(content: string)
    ensures Rejected(content) <==> content == "" || exists i :: OccursAt(content, ErrorWord, i)
  {
    ContainsIffOccurs(content, ErrorWord);
  }

  /** The substring test also rejects legitimate content: a fetch that
      succeeds, but where some page mentions "錯誤" anywhere (a page about
      an "error handling workshop", 錯誤處理工作坊, say), is reported as a
      load failure quoting the whole content, and the model is never
      called. */
  lemma LegitimateContentRejected(url: string, env: Env, pages: seq<string>, i: nat, j: int)
    requires url != ""
    requires env.load(Loader.WebPage, url) == Ok(pages)
    requires i < |pages| && OccursAt(pages[i], ErrorWord, j)
    ensures GenerateAgenda(Some(url), None, env) == Failure(LoadFailurePrefix + Loader.JoinPages(pages))
  {
    var content := Loader.LoadContent(url, "url", env.load);
    Loader.FetchedTextContained(url, env.load, pages, i, ErrorWord, j);
    RejectedContent(content, env, env);
    UrlWithoutFile(Some(url), None, env);
  }

  /** An answer whose list under "agendas" is not a list of objects (a
      stray string among the entries, say) is handed to pandas as is; when
      pandas raises, the request ends as a system error quoting it, and
      nothing is written. */
  lemma RejectedTableIsSystemError(content: string, env: Env, message: AIMessage, response: PyDict,
                                   items: seq<Json>, e: string)
    requires !Rejected(content)
    requires env.llm(ModelName, CreatePromptData(content, env.schemaInstructions).1) == Ok(message)
    requires env.parse(message.content) == Ok(response)
    requires message.usage.Some?
    requires Get(response, AgendaKey) == Some(JList(items)) && !AllObjects(items)
    requires env.construct(JList(items)) == Err(e)
    ensures Process(content, env) == Failure(SystemErrorPrefix + e)
  {
  }

  /** A model answer that does not parse gives a failure whose status holds
      the model's raw answer and the parse error. */
  lemma ParseFailureKeepsAnswer(content: string, env: Env, message: AIMessage, e: string)
    requires !Rejected(content)
    requires env.llm(ModelName, CreatePromptData(content, env.schemaInstructions).1) == Ok(message)
    requires env.parse(message.content) == Err(e)
    ensures Process(content, env) == Failure(ParseFailurePrefix + message.content + ParseErrorSeparator + e)
    ensures Contains(Process(content, env).reply.status, message.content)
    ensures Contains(Process(content, env).reply.status, e)
  {
    var raw := message.content;
    assert OccursAt(raw, raw, 0);
    ContainsIffOccurs(raw, raw);
    assert OccursAt(e, e, 0);
    ContainsIffOccurs(e, e);
    ContainsInConcat(ParseFailurePrefix, raw, raw);
    ContainsInConcat(ParseFailurePrefix + raw, ParseErrorSeparator, raw);
    ContainsInConcat(ParseFailurePrefix + raw + ParseErrorSeparator, e, raw);
    ContainsInConcat(ParseFailurePrefix + raw + ParseErrorSeparator, e, e);
  }

  /** An answer that parses but comes without usage metadata still fails:
      unpacking the `None` from `get_tokens_info` raises, and the handler
      reports a system error instead of the parsed table. */
  lemma MissingUsageIsSystemError(content: string, env: Env, message: AIMessage, response: Dict)
    requires !Rejected(content)
    requires env.llm(ModelName, CreatePromptData(content, env.schemaInstructions).1) == Ok(message)
    requires env.parse(message.content) == Ok(response)
    requires message.usage.None?
    ensures Process(content, env) == Failure(SystemErrorPrefix + UnpackNoneError)
  {
  }

  /** When every step succeeds the reply is the table, the token-usage line
      and the two fixed paths, and the files receive that table and the text
      script of the parsed answer. */
  lemma SuccessfulRun(content: string, env: Env, message: AIMessage, response: Dict, table: Frame)
    requires !Rejected(content)
    requires env.llm(ModelName, CreatePromptData(content, env.schemaInstructions).1) == Ok(message)
    requires env.parse(message.content) == Ok(response)
    requires message.usage.Some?
    requires TransformToDf(Parsed(JObj(response)), AgendaKey, env.construct) == Ok(table)
    ensures Process(content, env) == Run(
      Reply(table, TokenStatus(message.usage.value.input_tokens, message.usage.value.output_tokens),
            Some(CsvPath), Some(TxtPath)),
      Some(Saved(table, TextExport.TransformToText(response, env.repr))))
  {
  }

  /** An answer `{"agendas": [entry]}` gives a one-row table whose row is
      that entry, with its six fields as the model wrote them. */
  lemma SingleEntryAnswer(content: string, env: Env, message: AIMessage, entry: Schema.SpeechAgenda)
    requires !Rejected(content)
    requires env.llm(ModelName, CreatePromptData(content, env.schemaInstructions).1) == Ok(message)
    requires env.parse(message.content) == Ok([(AgendaKey, JList([JObj(Schema.SpeechAgendaRecord(entry))]))])
    requires message.usage.Some?
    ensures Process(content, env).reply.table == Records([JObj(Schema.SpeechAgendaRecord(entry))])
    ensures Schema.ValidateSpeechAgenda(Process(content, env).reply.table.rows[0]) == Some(entry)
  {
    var row := JObj(Schema.SpeechAgendaRecord(entry));
    var response := [(AgendaKey, JList([row]))];
    assert Get(response, AgendaKey) == Some(JList([row]));
    SuccessfulRun(content, env, message, response, Records([row]));
    Schema.SpeechAgendaRoundTrip(entry);
  }
}
