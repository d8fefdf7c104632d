/** `load_content` of src/mod/A_LLM.py: picks a document loader from the
    source kind and the file extension, runs it, and joins the pages. The
    loaders themselves (web fetch, PDF, CSV, Excel, Word, Markdown and text
    readers) are an oracle that yields the page texts or the text of the
    exception they raised. */
module Loader {
  import opened Results
  import opened Strings

  datatype LoaderKind = WebPage | Pdf | Csv | Excel | Docx | Markdown | PlainText

  /** `loader.load()` for a loader of the given kind on the given source:
      the `page_content` of every document in order, or the exception text. */
  type PageOracle = (LoaderKind, string) -> Result<seq<string>, string>

  const UnsupportedMessage: string := "不支援的輸入類型"
  const ReadErrorPrefix: string := "讀取內容時發生錯誤: "
  const PageSeparator: string := "\n\n"

  /** The extensions with a loader of their own, as the lower-cased
      extension maps to them; everything else is read as UTF-8 text. */
  const KnownExtensions: map<string, LoaderKind> :=
    map[".pdf" := Pdf, ".csv" := Csv, ".xlsx" := Excel, ".docx" := Docx, ".md" := Markdown]

  /** Index of the last `c` in `s`, or -1 (Python's `str.rfind`). */
  function RFind(s: string, c: char): (r: int)
    ensures -1 <= r < |s|
    ensures r >= 0 ==> s[r] == c
    ensures forall j :: r < j < |s| ==> s[j] != c
  {
    if |s| == 0 then -1
    else if s[|s| - 1] == c then |s| - 1
    else RFind(s[..|s| - 1], c)
  }

  /** Some character in `s[lo..hi]` is not a dot. */
  predicate HasNonDot(s: string, lo: int, hi: int)
    requires 0 <= lo && hi <= |s|
  {
    exists j :: lo <= j < hi && s[j] != '.'
  }

  /** Position `j` lies in the final path component: no '/' from there on. */
  predicate InLastComponent(path: string, j: int)
  {
    0 <= j < |path| && forall k :: j <= k < |path| ==> path[k] != '/'
  }

  /** The final component has a dot at `i` with a non-dot at `j` before it. */
  predicate DotAfterStem(path: string, j: int, i: int)
  {
    0 <= j < i < |path| && InLastComponent(path, j) && path[j] != '.' && path[i] == '.'
  }

  /** `os.path.splitext(path)[1]` on POSIX: from the last dot of the final
      path component to the end, provided that dot is preceded in the
      component by something other than dots; otherwise "". */
  function Extension(path: string): (ext: string)
    ensures ext == "" || (ext[0] == '.' && |ext| <= |path| && path[|path| - |ext|..] == ext)
    ensures '/' !in ext
    ensures ext != "" ==> '.' !in ext[1..]
    ensures ext != "" <==> exists j, i :: DotAfterStem(path, j, i)
  {
    var sep := RFind(path, '/');
    var dot := RFind(path, '.');
    if dot > sep && HasNonDot(path, sep + 1, dot) then
      assert forall j :: 0 <= j < |path| - dot ==> path[dot..][j] == path[dot + j];
      var j :| sep + 1 <= j < dot && path[j] != '.';
      assert DotAfterStem(path, j, dot);
      path[dot..]
    else
      ""
  }

  /** A file name of a stem (with some non-dot character) followed by a
      dotted suffix, under any directory, has exactly that suffix as its
      extension; so `d/report.PDF` is read by the PDF loader. */
  lemma ExtensionOfName(dir: string, stem: string, suffix: string)
    requires '/' !in stem && '/' !in suffix
    requires |suffix| >= 1 && suffix[0] == '.' && '.' !in suffix[1..]
    requires exists k :: 0 <= k < |stem| && stem[k] != '.'
    ensures Extension(dir + "/" + stem + suffix) == suffix
  {
    var path := dir + "/" + stem + suffix;
    var p := |dir| + 1 + |stem|;
    assert path[p..] == suffix;
    var k :| 0 <= k < |stem| && stem[k] != '.';
    assert path[|dir| + 1 + k] == stem[k];
    assert forall q :: |dir| + 1 <= q < |path| ==> path[q] != '/' by {
      forall q | |dir| + 1 <= q < |path|
        ensures path[q] != '/'
      {
        if q < p {
          assert path[q] == stem[q - |dir| - 1];
        } else {
          assert path[q] == suffix[q - p];
        }
      }
    }
    assert DotAfterStem(path, |dir| + 1 + k, p);
    assert forall q :: p < q < |path| ==> path[q] != '.' by {
      forall q | p < q < |path|
        ensures path[q] != '.'
      {
        assert path[q] == suffix[q - p] == suffix[1..][q - p - 1];
      }
    }
  }

  /** The extension chain of `load_content`: the lower-cased extension
      selects its own loader when it is one of the five known ones, and
      the UTF-8 text loader otherwise. */
  function FileLoader(ext: string): (kind: LoaderKind)
    ensures kind == (if Lower(ext) in KnownExtensions then KnownExtensions[Lower(ext)] else PlainText)
    ensures kind == PlainText <==> Lower(ext) !in KnownExtensions
  {
    var e := Lower(ext);
    if e == ".pdf" then Pdf
    else if e == ".csv" then Csv
    else if e == ".xlsx" then Excel
    else if e == ".docx" then Docx
    else if e == ".md" then Markdown
    else PlainText
  }

  /** The loader for a source, or `None` for a `source_type` that is neither
      'url' nor 'file'. */
  function SelectLoader(source: string, sourceType: string): (kind: Option<LoaderKind>)
    ensures kind.None? <==> sourceType != "url" && sourceType != "file"
    ensures sourceType == "url" ==> kind == Some(WebPage)
    ensures sourceType == "file" ==> kind == Some(FileLoader(Extension(source)))
  {
    if sourceType == "url" then Some(WebPage)
    else if sourceType == "file" then Some(FileLoader(Extension(source)))
    else None
  }

  /** `"\n\n".join(pages)` */
  function JoinPages(pages: seq<string>): (r: string)
    ensures |pages| == 0 ==> r == ""
    ensures |pages| == 1 ==> r == pages[0]
  {
    if |pages| == 0 then ""
    else if |pages| == 1 then pages[0]
    else pages[0] + PageSeparator + JoinPages(pages[1..])
  }

  /** The content a loader of `kind` yields for `source`: its pages joined,
      or the read-error text when it raises. */
  function Outcome(kind: LoaderKind, source: string, load: PageOracle): string
  {
    match load(kind, source)
    case Ok(pages) => JoinPages(pages)
    case Err(e) => ReadErrorPrefix + e
  }

  /** `load_content(source, source_type)`: never raises. A URL is fetched
      with the web loader, a file is read by the loader its extension
      selects, and any other source type gets the fixed message. */
  function LoadContent(source: string, sourceType: string, load: PageOracle): (content: string)
    ensures sourceType == "url" ==> content == Outcome(WebPage, source, load)
    ensures sourceType == "file" ==> content == Outcome(FileLoader(Extension(source)), source, load)
    ensures sourceType != "url" && sourceType != "file" ==> content == UnsupportedMessage
  {
    match SelectLoader(source, sourceType)
    case None => UnsupportedMessage
    case Some(kind) =>
      match load(kind, source)
      case Ok(pages) => JoinPages(pages)
      case Err(e) => ReadErrorPrefix + e
  }

  /** An unsupported `source_type` gives exactly the fixed message, and no
      loader is consulted: the answer is the same whatever the loaders do. */
  lemma UnsupportedSourceType(source: string, sourceType: string, load: PageOracle, other: PageOracle)
    requires sourceType != "url" && sourceType != "file"
    ensures LoadContent(source, sourceType, load) == UnsupportedMessage
    ensures LoadContent(source, sourceType, load) == LoadContent(source, sourceType, other)
  {
  }

  /** A loader failure is returned, prefixed, as the content. */
  lemma LoaderFailure(source: string, sourceType: string, load: PageOracle, e: string)
    requires SelectLoader(source, sourceType).Some?
    requires load(SelectLoader(source, sourceType).value, source) == Err(e)
    ensures LoadContent(source, sourceType, load) == ReadErrorPrefix + e
  {
  }

  /** Every failure text carries the word "錯誤" ("error"). */
  lemma FailureNamesError(e: string)
    ensures Contains(ReadErrorPrefix + e, "錯誤")
  {
    assert OccursAt(ReadErrorPrefix, "錯誤", 7);
    ContainsIffOccurs(ReadErrorPrefix, "錯誤");
    ContainsInConcat(ReadErrorPrefix, e, "錯誤");
  }

  /** Sum of the page lengths. */
  function TotalLength(pages: seq<string>): nat
  {
    if |pages| == 0 then 0 else |pages[0]| + TotalLength(pages[1..])
  }

  /** Where page `i` starts in the joined text: after every earlier page
      and its separator. */
  function PageStart(pages: seq<string>, i: nat): nat
    requires i <= |pages|
  {
    if i == 0 then 0 else |pages[0]| + |PageSeparator| + PageStart(pages[1..], i - 1)
  }

  /** The joined text starts with the first page and ends with the last. */
  lemma {:induction false} JoinEnds(pages: seq<string>)
    requires |pages| > 0
    ensures pages[0] <= JoinPages(pages)
    ensures |pages[|pages| - 1]| <= |JoinPages(pages)|
    ensures JoinPages(pages)[|JoinPages(pages)| - |pages[|pages| - 1]|..] == pages[|pages| - 1]
  {
    if |pages| > 1 {
      var rest := JoinPages(pages[1..]);
      JoinEnds(pages[1..]);
      assert pages[1..][|pages| - 2] == pages[|pages| - 1];
      var joined := pages[0] + PageSeparator + rest;
      assert joined[|joined| - |pages[|pages| - 1]|..] == rest[|rest| - |pages[|pages| - 1]|..];
    }
  }

  /** No pages give "", one page gives its text unchanged, and the length
      is the pages' plus one separator between each two. */
  lemma {:induction false} JoinShape(pages: seq<string>)
    ensures |pages| == 0 ==> JoinPages(pages) == ""
    ensures |pages| == 1 ==> JoinPages(pages) == pages[0]
    ensures |pages| > 0 ==> |JoinPages(pages)| == TotalLength(pages) + |PageSeparator| * (|pages| - 1)
  {
    if |pages| > 1 {
      JoinShape(pages[1..]);
    }
  }

  /** Consecutive start positions differ by the page and one separator. */
  lemma {:induction false} PageStartStep(pages: seq<string>, i: nat)
    requires i < |pages|
    ensures PageStart(pages, i + 1) == PageStart(pages, i) + |pages[i]| + |PageSeparator|
  {
    if i > 0 {
      assert pages[1..][i - 1] == pages[i];
      PageStartStep(pages[1..], i - 1);
    }
  }

  /** The pages appear in the joined text in document order, verbatim, at
      their start positions. */
  lemma {:induction false} JoinLayout(pages: seq<string>, i: nat)
    requires i < |pages|
    ensures PageStart(pages, i) + |pages[i]| <= |JoinPages(pages)|
    ensures JoinPages(pages)[PageStart(pages, i)..PageStart(pages, i) + |pages[i]|] == pages[i]
  {
    var joined := JoinPages(pages);
    if |pages| == 1 {
      assert joined == pages[0];
    } else if i == 0 {
      assert joined == pages[0] + PageSeparator + JoinPages(pages[1..]);
      assert joined[..|pages[0]|] == pages[0];
    } else {
      var rest := JoinPages(pages[1..]);
      var shift := |pages[0]| + |PageSeparator|;
      assert joined == pages[0] + PageSeparator + rest;
      JoinLayout(pages[1..], i - 1);
      assert pages[1..][i - 1] == pages[i];
      var lo := PageStart(pages[1..], i - 1);
      assert PageStart(pages, i) == shift + lo;
      assert joined[shift + lo..shift + lo + |pages[i]|] == rest[lo..lo + |pages[i]|];
    }
  }

  /** Every page but the last is followed by "\n\n", and the next page
      starts right after it. */
  lemma {:induction false} JoinSeparators(pages: seq<string>, i: nat)
    requires i + 1 < |pages|
    ensures PageStart(pages, i + 1) == PageStart(pages, i) + |pages[i]| + |PageSeparator|
    ensures PageStart(pages, i + 1) <= |JoinPages(pages)|
    ensures JoinPages(pages)[PageStart(pages, i) + |pages[i]|..PageStart(pages, i + 1)] == PageSeparator
  {
    PageStartStep(pages, i);
    var joined := JoinPages(pages);
    var rest := JoinPages(pages[1..]);
    assert joined == pages[0] + PageSeparator + rest;
    if i == 0 {
      assert joined[|pages[0]|..|pages[0]| + 2] == PageSeparator;
    } else {
      var shift := |pages[0]| + |PageSeparator|;
      JoinSeparators(pages[1..], i - 1);
      assert pages[1..][i - 1] == pages[i];
      var lo := PageStart(pages[1..], i - 1) + |pages[i]|;
      var hi := PageStart(pages[1..], i);
      assert PageStart(pages, i) + |pages[i]| == shift + lo;
      assert PageStart(pages, i + 1) == shift + hi;
      assert joined[shift + lo..shift + hi] == rest[lo..hi];
    }
  }

  /** Text found in any one page is found in the joined content. */
  lemma PageTextContained(pages: seq<string>, i: nat, needle: string, j: int)
    requires i < |pages| && OccursAt(pages[i], needle, j)
    ensures Contains(JoinPages(pages), needle)
  {
    var joined := JoinPages(pages);
    var start := PageStart(pages, i);
    JoinLayout(pages, i);
    assert joined[start + j..start + j + |needle|] == pages[i][j..j + |needle|];
    OccursImpliesContains(joined, needle, start + j);
  }

  /** A successful fetch yields the joined pages, and so holds whatever
      text any one page holds. */
  lemma FetchedTextContained(url: string, load: PageOracle, pages: seq<string>, i: nat, needle: string, j: int)
    requires load(WebPage, url) == Ok(pages)
    requires i < |pages| && OccursAt(pages[i], needle, j)
    ensures LoadContent(url, "url", load) == JoinPages(pages)
    ensures Contains(LoadContent(url, "url", load), needle)
  {
    PageTextContained(pages, i, needle, j);
  }

  /** Python's message when `docs[0]` is read from an empty list. */
  const NoPageError: string := "list index out of range"

  /** `load_web_info(url)` of code/mod/A_LLM.py, the older loader: only
      the first page of a web page is kept, and a failed fetch or a page
      list without pages raises instead of being turned into content. */
  function LoadWebInfo(url: string, load: PageOracle): (r: Result<string, string>)
    ensures r.Ok? <==> load(WebPage, url).Ok? && |load(WebPage, url).value| > 0
    ensures r.Ok? ==> r.value == load(WebPage, url).value[0]
    ensures load(WebPage, url).Err? ==> r == Err(load(WebPage, url).error)
    ensures load(WebPage, url) == Ok([]) ==> r == Err(NoPageError)
  {
    match load(WebPage, url)
    case Err(e) => Err(e)
    case Ok(pages) => if |pages| == 0 then Err(NoPageError) else Ok(pages[0])
  }

  /** What the older loader returns is where the newer `load_content` of
      the same URL begins, and the two agree exactly on a one-page result. */
  lemma WebInfoPrefix(url: string, load: PageOracle)
    requires LoadWebInfo(url, load).Ok?
    ensures LoadWebInfo(url, load).value <= LoadContent(url, "url", load)
    ensures |load(WebPage, url).value| == 1 ==> LoadWebInfo(url, load).value == LoadContent(url, "url", load)
  {
    var pages := load(WebPage, url).value;
    JoinLayout(pages, 0);
    JoinShape(pages);
  }
}
