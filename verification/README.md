# Agenda generator: a Dafny model of its core

The program turns an event page or an uploaded file into a host's agenda.
The steps are:

1. Load the content.
2. Ask a Gemini model to extract the agenda as JSON, following the
   `AgendaSchedule` schema.
3. Show the agenda as a table.
4. Offer it as a CSV file and as a plain-text script.

This project models the logic between those external services:

- the `generate_agenda` handler of `app.py`: its input routing, its four-way
  failure classification and the reply it builds;
- `load_content`: loader selection by source type and file extension, page
  joining, and the error string it returns instead of raising;
- the two `transform_to_text` serialisers, in `src/mod/B_text.py` and
  `code/mod/B_text.py`;
- the two `transform_to_df` table builders;
- `get_tokens_info` and both versions of `create_prompt_data`;
- the `SpeechAgenda` / `AgendaSchedule` schema with its `"無"` defaults.

All external collaborators are parameters (`App.Env`):

- the document loaders;
- the chat model;
- the JSON output parser;
- the pandas constructor for any value under the key other than a list of
  objects;
- Python's `str()` of non-string values.

The proofs therefore hold for every behaviour of those collaborators, within
the limits listed under "## Left out".

Modules:

- `Results`: `Option` and `Result`.
- `Strings`: substring search, ASCII lower-casing, decimal rendering.
- `Values`: JSON-like Python values; dicts are ordered lists of pairs, looked
  up by their first match.
- `TextExport` and `LegacyTextExport`: the two text serialisers. Each is
  modelled as the accumulator loop of the source and proved equal to a
  line-list reference layout.
- `Schema`: the pydantic models, with validation and its round trip.
- `Loader`: `load_content` and the older `load_web_info`.
- `Frames`: `transform_to_df`, both versions.
- `Llm`: token usage and prompt data.
- `App`: the handler.

Three behaviours of the code are worth stating plainly:

- Each element of a list value is written to the text script as
  `str(element)` on one line of its own. An agenda entry, being a dict,
  therefore becomes a single line holding the dict's representation, not
  one line per field (`TextExport.ValueLinesShape`).
- An answer without usage metadata ends in a system error:
  `get_tokens_info` returns `None`, and unpacking it raises
  (`App.MissingUsageIsSystemError`).
- When both a file and a URL are given, the file is read and the URL is
  ignored (`App.FileTakesPrecedence`).

## Model

| member | source | states |
|---|---|---|
| Values.Str | src/mod/B_text.py:7-13 | `str(v)` of a string is the string itself, and of any other value its rendering |
| Values.GetFinds | src/mod/A_LLM.py:118-119 | the lookup finds nothing exactly when the key is not among the dict's keys, and what it finds is paired with that key in the dict |
| Values.GetEvery | src/mod/A_LLM.py:118-119 | in a dict with distinct keys every key looks up its own value |
| TextExport.TransformToText | src/mod/B_text.py:3-15 | the text is the lines of the reference layout, each followed by "\n"; it is empty exactly when the dict is empty, and otherwise ends with a newline |
| TextExport.Serialise | src/mod/B_text.py:6-13 | the loop over keys appends exactly the terminated layout of the remaining entries to the accumulated text |
| TextExport.AppendEntry | src/mod/B_text.py:7-13 | one iteration appends the key line and then the value lines, each newline-terminated |
| TextExport.AppendItems | src/mod/B_text.py:9-11 | the inner loop appends `str(item)` plus a newline for each list element, in order |
| TextExport.StrAllElements | src/mod/B_text.py:10-11 | line i of a list's rendering is `str` of element i |
| TextExport.ValueLinesShape | src/mod/B_text.py:9-13 | a list value contributes one line per element, in order, and none when empty; any other value contributes exactly the one line `str(value)` |
| TextExport.LinesAt | src/mod/B_text.py:6-13 | entry i's lines sit between the lines of the entries before it and those after it, so dict order is kept |
| TextExport.LinesConcat | src/mod/B_text.py:6-13 | the layout of two concatenated dicts is the concatenation of their layouts |
| TextExport.LinesCount | src/mod/B_text.py:6-13 | the number of lines is the sum over entries of 1 plus the list length (or 1 for a non-list) |
| TextExport.TerminateEnds | src/mod/B_text.py:7-15 | terminated text is empty iff there are no lines, and otherwise ends in "\n" |
| TextExport.TerminateAppend | src/mod/B_text.py:7-13 | terminating two line lists one after the other is terminating their concatenation |
| TextExport.SplitTerminate | src/mod/B_text.py:7-13 | splitting terminated text at newlines recovers lines that have no newline of their own |
| TextExport.TextSegments | src/mod/B_text.py:3-15 | when no rendered key or value holds a newline, splitting the script at newlines gives back the layout, with one segment per line |
| LegacyTextExport.TransformToText | code/mod/B_text.py:3-10 | the text is key, newline, value, newline for each pair in order; it is empty for an empty dict and otherwise ends with a newline |
| LegacyTextExport.Serialise | code/mod/B_text.py:6-8 | the loop appends the terminated pair layout of the remaining pairs to the accumulated text |
| LegacyTextExport.PairText | code/mod/B_text.py:7-8 | one pair adds `key + "\n" + value + "\n"` |
| LegacyTextExport.PairLinesLayout | code/mod/B_text.py:6-8 | the layout has 2n lines; line 2i is key i and line 2i+1 is value i |
| LegacyTextExport.SegmentCount | code/mod/B_text.py:3-10 | newline-free keys and values give exactly 2n newline-terminated segments |
| LegacyTextExport.AgreesWithFlattening | code/mod/B_text.py:3-10 | on string values the older serialiser produces the same text as the newer one, whatever `str()` does on other values |
| LegacyTextExport.LayoutsAgree | code/mod/B_text.py:6-8 | the older pair layout equals the newer line layout on string values |
| Schema.SpeechAgendaRecord | src/mod/A_LLM.py:27-33 | `.dict()` of an entry has the six field names as keys, in declaration order and distinct, each holding a string |
| Schema.ScheduleRecord | src/mod/A_LLM.py:36-38 | `.dict()` of a schedule has the keys event_name and agendas, distinct, and agendas holds one element per entry |
| Schema.SpeechAgendaRoundTrip | src/mod/A_LLM.py:27-33 | validating the six-field record of an agenda entry gives back that entry |
| Schema.RecordLookups | src/mod/A_LLM.py:27-33 | each of the six fields of the record is found under its own name with its own value |
| Schema.SpeakerDefaults | src/mod/A_LLM.py:31-32 | with both speaker fields missing, validation succeeds and fills both with "無" |
| Schema.RequiredFields | src/mod/A_LLM.py:28-33 | missing title, start_time, end_time or script makes validation fail |
| Schema.Collect | src/mod/A_LLM.py:38 | a list validates iff every element does, and the result holds each element's validated value in order |
| Schema.ScheduleRoundTrip | src/mod/A_LLM.py:36-38 | validating the record of a schedule gives back the schedule, its event name and all of its entries |
| Loader.Extension | src/mod/A_LLM.py:50 | the extension is empty or a suffix of the path that starts with its only dot and holds no separator; it is non-empty exactly when the final path component has a dot preceded by some non-dot character |
| Loader.ExtensionOfName | src/mod/A_LLM.py:50 | a name made of a stem with a non-dot character and a dotted suffix, under any directory, has exactly that suffix as its extension |
| Loader.RFind | src/mod/A_LLM.py:50 | the result is the position of the last occurrence of the character, or -1 when there is none |
| Loader.FileLoader | src/mod/A_LLM.py:51-63 | .pdf, .csv, .xlsx, .docx and .md (any case) select their loaders, and every other extension selects the text loader |
| Loader.SelectLoader | src/mod/A_LLM.py:47-65 | "url" selects the web loader, "file" the loader for the extension, and any other type none |
| Loader.LoadContent | src/mod/A_LLM.py:41-73 | a URL gives the web loader's pages joined or its read-error text, a file gives the same for the loader its extension selects, and any other source type gives the fixed unsupported message |
| Loader.UnsupportedSourceType | src/mod/A_LLM.py:64-65 | any other source type returns the fixed "不支援的輸入類型" message, without any loader being consulted |
| Loader.LoaderFailure | src/mod/A_LLM.py:72-73 | a loader error is returned as content "讀取內容時發生錯誤: " plus the error text |
| Loader.FailureNamesError | src/mod/A_LLM.py:73 | that error content always contains "錯誤" |
| Loader.JoinPages | src/mod/A_LLM.py:69 | no pages give the empty text, and a single page is returned unchanged, without any separator |
| Loader.JoinEnds | src/mod/A_LLM.py:69 | the joined content starts with the first page and ends with the last page |
| Loader.JoinShape | src/mod/A_LLM.py:67-70 | no pages give "", one page gives that page, and n pages give their total length plus n-1 separators |
| Loader.PageStartStep | src/mod/A_LLM.py:69 | each page starts right after the previous page and one separator |
| Loader.JoinLayout | src/mod/A_LLM.py:69 | page i appears unchanged at its start position in the joined content |
| Loader.JoinSeparators | src/mod/A_LLM.py:69 | between consecutive pages the joined content holds exactly "\n\n" |
| Loader.PageTextContained | src/mod/A_LLM.py:69 | text occurring in any one page occurs in the joined content |
| Loader.LoadWebInfo | code/mod/A_LLM.py:17-22 | the older loader returns the first page iff the fetch succeeds with at least one page, and otherwise the fetch's error, or IndexError's text "list index out of range" when the fetch succeeds with no page |
| Loader.WebInfoPrefix | code/mod/A_LLM.py:17-22 | the older loader's result is a prefix of the newer loader's content for the same URL, and equal to it on a one-page result |
| Schema.ValidateSpeechAgenda | src/mod/A_LLM.py:27-33 | validation succeeds iff the four required fields are strings and the two speaker fields are absent or strings; the entry holds the given strings, and "無" for an absent speaker field |
| Schema.ValidateSchedule | src/mod/A_LLM.py:36-38 | a schedule holds the given event name and the validated entries of the list under "agendas"; a string name and a list of valid entries always validate |
| Frames.TransformToDf | src/mod/A_LLM.py:110-122 | a schedule becomes one record per entry; a dict with the key gives one row per element when the value is a list of objects, and otherwise whatever pandas makes of the value, which may be an error; a dict without the key gives the one-row frame of the dict; anything else gives the empty frame |
| Frames.ScheduleRows | src/mod/A_LLM.py:112-113 | the rows of a schedule are objects, one per entry |
| Frames.ShapesAgree | src/mod/A_LLM.py:112-120 | a schedule object and its dict form under "agendas" give the same table |
| Frames.ScheduleRowsRoundTrip | src/mod/A_LLM.py:112-114 | the rows of a schedule's table validate back to exactly its entries |
| Frames.TwoColumnFrame | code/mod/A_LLM.py:55-61 | the older table has exactly the columns 時間 and 講稿, each as long as the dict |
| Frames.TwoColumnRoundTrip | code/mod/A_LLM.py:56-58 | zipping the two columns back gives the original dict, so keys and values stay paired in order |
| Llm.GetTokensInfo | src/mod/A_LLM.py:104-107 | a pair is returned iff usage metadata is present, and it is (input tokens, output tokens) |
| Llm.CreatePromptData | src/mod/A_LLM.py:90-101 | the parser is the JSON parser, and the data maps exactly web_content to the content and pydantic_parser to the schema instructions |
| Llm.CreatePromptDataLegacy | code/mod/A_LLM.py:39-46 | the older data has exactly the variables web_content, unchanged, and json_parser; compared with the newer data, pydantic_parser is dropped and json_parser is added holding the JSON parser's own generic instructions, which do not describe the schema; the same JSON parser is returned |
| Strings.Contains | app.py:24 | a needle at the start is found, and nothing longer than the haystack is found |
| Strings.Lower | src/mod/A_LLM.py:50 | the result has the same length, keeps every character that is not an ASCII capital, and turns each capital into its small letter |
| Strings.IntToString | app.py:64 | the rendering is a minus sign exactly for a negative number, followed by decimal digits |
| Strings.ContainsIffOccurs | app.py:24 | the `in` test holds iff the needle occurs at some position |
| Strings.ContainsInConcat | app.py:24 | a substring of either part is a substring of their concatenation |
| Strings.IntToStringRoundTrip | app.py:64 | the decimal rendering of a token count parses back to that count |
| App.Given | app.py:17-20 | a missing input and the empty string are not given, and a given input is a non-empty string |
| App.Rejected | app.py:24 | empty content is rejected, and so is content that starts with "錯誤" |
| App.TokenStatus | app.py:64 | the status line starts with the fixed "Token 使用量 - Input: " prefix and is longer than its fixed parts |
| App.TokenStatusInjective | app.py:64 | two usages that give the same status line have the same input and output counts |
| App.RejectedIffOccurs | app.py:24 | content is rejected exactly when it is empty or "錯誤" occurs in it at some position |
| App.Process | app.py:24-66 | every reply is well shaped (a failure has an empty table and no paths and writes nothing; a success has both fixed paths and writes the shown table), and nothing is written for rejected content |
| App.GenerateAgenda | app.py:11-69 | every reply is well shaped, and with neither input the reply is the fixed "請輸入網址或上傳檔案" failure |
| App.FileTakesPrecedence | app.py:17-18 | a given file is loaded as a file, whatever the URL field holds |
| App.UrlWithoutFile | app.py:19-20 | without a file, a given URL is loaded as a web page |
| App.NoSource | app.py:21-22 | with neither input the request fails with the fixed message and consults no collaborator |
| App.RejectedContent | app.py:24-25 | empty content, or content containing "錯誤", fails with the content quoted, before the model is called |
| App.LoaderFailureReported | app.py:17-25 | every loader error, of a file read or of a URL fetch, ends as a load failure quoting the loader's error message |
| App.LegitimateContentRejected | app.py:24-25 | a fetch that succeeds, but where any page mentions "錯誤" at any position, is rejected as a load failure quoting the joined content |
| App.RejectedTableIsSystemError | app.py:52-69 | an answer whose list under "agendas" is not a list of objects, and on which pandas raises, ends as a system error quoting the exception, with nothing written |
| App.ParseFailureKeepsAnswer | app.py:42-46 | an unparsable answer fails with a status holding both the raw answer and the parse error |
| App.MissingUsageIsSystemError | app.py:48 | an answer without usage metadata fails as a system error, even though it parsed |
| App.SuccessfulRun | app.py:48-66 | on success the reply is the table, the token-usage line and both paths, and the files receive that table and the text script of the answer |
| App.SingleEntryAnswer | app.py:52 | an answer holding one agenda entry gives a one-row table whose row validates back to that entry |

## Left out

- The Gradio interface (`app.py:71-135`) and the module-level `os.makedirs`: these are UI layout and file-system setup.
- The document loaders (`WebBaseLoader`, `PyPDFLoader`, the CSV, Excel, Docx, Markdown and text loaders) are an oracle `Loader.PageOracle`. It is given the loader kind and the source, and returns the pages or an exception message. Their parsing is not modelled. The encoding argument of the CSV and text loaders is not modelled either.
- `connect_llm_model`, `create_prompt_template` and the prompt texts (`src/mod/O_prompt.py` is not part of this model) are abstracted. The chat model plus the chain invocation are one oracle: given the model name and the prompt data, it returns a message or an exception message. The API key and the `USER_AGENT` environment variables are not modelled.
- The JSON output parser is an oracle from the answer text to a dict with distinct keys (`Values.PyDict`) or an error. A parsed answer that is not a JSON object is not modelled in `App`; `Frames.TransformToDf` still covers that case. Objects nested inside the answer are not constrained to distinct keys.
- `App.Process`: does not model the pydantic parser that `create_prompt_data` builds only for its format instructions. Those instructions are a parameter.
- `save_to_file` and `save_to_csv` are not modelled: the file writes, the UTF-8 BOM of the CSV, and their printed success or failure. Both functions catch their own exceptions, so they never change the reply. The model records what each is given in `App.Saved`.
- The `print` logging in `generate_agenda` is not modelled.
- Python's `str()` of non-string values (dicts, numbers, `None`, booleans) is an oracle `Values.Repr`. JSON numbers are integers only, so floats are not modelled.
- The pandas constructor is an oracle `Frames.Constructor` for every value under the key except a list of objects, which always gives one row per object. The oracle may raise, as pandas does on a mixed or ragged list. A table is a list of row values or a list of named columns; the column inference and dtypes of pandas are not modelled.
- `Strings.Lower`: lower-cases ASCII letters only, whereas Python's `str.lower` also folds non-ASCII letters. Extensions such as `.PDF` are covered; a non-ASCII extension is not.
- `App.MissingUsageIsSystemError`: covers only a message with no usage metadata at all. If a message carries `usage_metadata = None`, the code instead fails with "'NoneType' object is not subscriptable". That gives the same system-error path with a different text.
- `Schema.ValidateSpeechAgenda`: requires the fields to be JSON strings and does not model pydantic's lax coercions, or extra fields being ignored beyond lookup by name.
- `get_tokens_info` in `code/mod/A_LLM.py:49-52` is identical to the newer one and is modelled by `Llm.GetTokensInfo`.
- `Frames.TwoColumnFrame`: the older `transform_to_df` takes the values as given. The model does not apply pandas' conversions to them.
- The older `code/` handler is not part of this model; only its `create_prompt_data`, `transform_to_df` and `transform_to_text` are.
