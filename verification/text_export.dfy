/** The plain-text script export: `transform_to_text` of src/mod/B_text.py.
    Every key of the parsed answer becomes one line, followed by one line per
    element of a list value (flattened one level) or one line holding
    `str(value)`. Each line is terminated by "\n". */
module TextExport {
  import opened Values

  /** Each segment followed by "\n", in order. */
  function Terminate(segments: seq<string>): string
  {
    if |segments| == 0 then "" else segments[0] + "\n" + Terminate(segments[1..])
  }

  /** Terminated text is empty only for no segments, and otherwise ends in
      "\n". */
  lemma {:induction false} TerminateEnds(segments: seq<string>)
    ensures |segments| == 0 <==> Terminate(segments) == ""
    ensures |segments| > 0 ==> Terminate(segments)[|Terminate(segments)| - 1] == '\n'
  {
    if |segments| > 0 {
      TerminateEnds(segments[1..]);
    }
  }

  lemma {:induction false} TerminateAppend(a: seq<string>, b: seq<string>)
    ensures Terminate(a + b) == Terminate(a) + Terminate(b)
  {
    if |a| > 0 {
      assert (a + b)[1..] == a[1..] + b;
      TerminateAppend(a[1..], b);
    } else {
      assert a + b == b;
    }
  }

  /** `[str(item) for item in items]` */
  function StrAll(items: seq<Json>, repr: Repr): (lines: seq<string>)
    ensures |lines| == |items|
  {
    if |items| == 0 then [] else [Str(items[0], repr)] + StrAll(items[1..], repr)
  }

  /** A list value contributes one line per element, `str(element)`, in
      list order. */
  lemma {:induction false} StrAllElements(items: seq<Json>, repr: Repr)
    ensures forall i :: 0 <= i < |items| ==> StrAll(items, repr)[i] == Str(items[i], repr)
  {
    if |items| > 0 {
      StrAllElements(items[1..], repr);
      assert forall i :: 1 <= i < |items| ==> items[i] == items[1..][i - 1];
    }
  }

  /** The lines a value contributes after its key line. */
  function ValueLines(v: Json, repr: Repr): seq<string>
  {
    if v.JList? then StrAll(v.items, repr) else [Str(v, repr)]
  }

  /** A list value gives one line per element, `str(element)`, in list
      order (none for an empty list, which leaves the key line alone); any
      other value gives exactly the one line `str(value)`. */
  lemma ValueLinesShape(v: Json, repr: Repr)
    ensures v.JList? ==> |ValueLines(v, repr)| == |v.items|
    ensures v.JList? ==> forall i :: 0 <= i < |v.items| ==> ValueLines(v, repr)[i] == Str(v.items[i], repr)
    ensures !v.JList? ==> ValueLines(v, repr) == [Str(v, repr)]
  {
    if v.JList? {
      StrAllElements(v.items, repr);
    }
  }

  /** The key line followed by the value lines of one entry. */
  function EntryLines(key: string, val: Json, repr: Repr): seq<string>
  {
    [key] + ValueLines(val, repr)
  }

  /** The reference layout: each key line immediately followed by its
      value lines, keys in iteration order. */
  function Lines(d: Dict, repr: Repr): seq<string>
  {
    if |d| == 0 then [] else EntryLines(d[0].0, d[0].1, repr) + Lines(d[1..], repr)
  }

  /** Number of lines one key contributes: its own plus one per list
      element, or plus one for a non-list value. */
  function EntryLineCount(v: Json): nat
  {
    1 + (if v.JList? then |v.items| else 1)
  }

  /** Number of lines of the whole export: the entries' counts summed. */
  function LineCount(d: Dict): nat
  {
    if |d| == 0 then 0 else EntryLineCount(d[0].1) + LineCount(d[1..])
  }

  /** The inner loop: `for item in val: text += str(item) + "\n"`. */
  function AppendItems(text: string, items: seq<Json>, repr: Repr): (r: string)
    ensures r == text + Terminate(StrAll(items, repr))
    decreases |items|
  {
    if |items| == 0 then text
    else
      var line := Str(items[0], repr);
      assert StrAll(items, repr) == [line] + StrAll(items[1..], repr);
      assert Terminate([line]) == line + "\n" + Terminate([]);
      AppendTerminated(text, [line], StrAll(items[1..], repr));
      AppendItems(text + line + "\n", items[1..], repr)
  }

  /** One pass of the outer loop body for the pair `key`, `val`: appends the
      key line and then the value lines. */
  function AppendEntry(text: string, key: string, val: Json, repr: Repr): (r: string)
    ensures r == text + Terminate(EntryLines(key, val, repr))
  {
    var withKey := text + key + "\n";
    TerminateAppend([key], ValueLines(val, repr));
    assert Terminate([key]) == key + "\n";
    if val.JList? then AppendItems(withKey, val.items, repr) else withKey + Str(val, repr) + "\n"
  }

  /** The outer loop over the dict, accumulating into `text`. */
  function Serialise(text: string, d: Dict, repr: Repr): (r: string)
    ensures r == text + Terminate(Lines(d, repr))
    decreases |d|
  {
    if |d| == 0 then text
    else
      var entry := EntryLines(d[0].0, d[0].1, repr);
      var rest := Lines(d[1..], repr);
      assert Lines(d, repr) == entry + rest;
      AppendTerminated(text, entry, rest);
      Serialise(AppendEntry(text, d[0].0, d[0].1, repr), d[1..], repr)
  }

  lemma AppendTerminated(text: string, a: seq<string>, b: seq<string>)
    ensures text + Terminate(a) + Terminate(b) == text + Terminate(a + b)
  {
    TerminateAppend(a, b);
  }

  /** `transform_to_text(result)`: the "\n"-terminated lines of the
      reference layout. An empty dict gives "", anything else ends in "\n". */
  function TransformToText(d: Dict, repr: Repr): (text: string)
    ensures text == Terminate(Lines(d, repr))
    ensures |d| == 0 <==> text == ""
    ensures text != "" ==> text[|text| - 1] == '\n'
  {
    var lines := Lines(d, repr);
    TerminateEnds(lines);
    assert |d| > 0 ==> |lines| > 0;
    assert "" + Terminate(lines) == Terminate(lines);
    Serialise("", d, repr)
  }

  /** Entry `i` contributes its key line and then its value lines, right
      after the lines of all earlier entries and right before those of all
      later ones: keys come in iteration order and each key is immediately
      followed by its own values. */
  lemma {:induction false} LinesAt(d: Dict, repr: Repr, i: nat)
    requires i < |d|
    ensures Lines(d, repr) == Lines(d[..i], repr) + (EntryLines(d[i].0, d[i].1, repr) + Lines(d[i + 1..], repr))
  {
    assert d == d[..i] + d[i..];
    LinesConcat(d[..i], d[i..], repr);
    assert d[i..][0] == d[i];
    assert d[i..][1..] == d[i + 1..];
  }

  /** The layout of a concatenation is the concatenation of the layouts. */
  lemma {:induction false} LinesConcat(a: Dict, b: Dict, repr: Repr)
    ensures Lines(a + b, repr) == Lines(a, repr) + Lines(b, repr)
  {
    if |a| == 0 {
      assert a + b == b;
    } else {
      assert (a + b)[1..] == a[1..] + b;
      LinesConcat(a[1..], b, repr);
    }
  }

  /** The total number of lines is the sum over keys of one plus the list
      length (for a list value) or plus one (for any other value). */
  lemma {:induction false} LinesCount(d: Dict, repr: Repr)
    ensures |Lines(d, repr)| == LineCount(d)
  {
    if |d| > 0 {
      LinesCount(d[1..], repr);
      assert |EntryLines(d[0].0, d[0].1, repr)| == EntryLineCount(d[0].1);
    }
  }

  /** Position of the first "\n" in `s`, or `|s|` when there is none. */
  function NewlineIndex(s: string): (n: nat)
    ensures n <= |s|
    ensures n < |s| ==> s[n] == '\n'
    ensures forall j :: 0 <= j < n ==> s[j] != '\n'
  {
    if |s| == 0 || s[0] == '\n' then 0 else 1 + NewlineIndex(s[1..])
  }

  /** Splits a text into its "\n"-terminated segments; an unterminated tail
      is a last segment of its own. */
  function SplitTerminated(text: string): seq<string>
    decreases |text|
  {
    if text == "" then []
    else
      var n := NewlineIndex(text);
      if n == |text| then [text] else [text[..n]] + SplitTerminated(text[n + 1..])
  }

  /** Terminating newline-free segments and splitting them again gives the
      segments back. */
  lemma {:induction false} SplitTerminate(segments: seq<string>)
    requires forall k :: 0 <= k < |segments| ==> '\n' !in segments[k]
    ensures SplitTerminated(Terminate(segments)) == segments
  {
    if |segments| > 0 {
      var text := Terminate(segments);
      var s := segments[0];
      assert text == s + "\n" + Terminate(segments[1..]);
      assert text[|s|] == '\n';
      forall j | 0 <= j < |s| ensures text[j] != '\n' {
        assert text[j] == s[j];
      }
      NewlineIndexIs(text, |s|);
      assert text[..|s|] == s;
      assert text[|s| + 1..] == Terminate(segments[1..]);
      SplitTerminate(segments[1..]);
    }
  }

  lemma NewlineIndexIs(s: string, n: nat)
    requires n < |s| && s[n] == '\n'
    requires forall j :: 0 <= j < n ==> s[j] != '\n'
    ensures NewlineIndex(s) == n
  {
  }

  /** When no key and no rendered value contains a newline, the `text`
      that `transform_to_text` returns has exactly one "\n"-terminated
      segment per line of the layout, and the segments are those lines. */
  lemma {:induction false} TextSegments(d: Dict, repr: Repr, text: string)
    requires forall k :: 0 <= k < |Lines(d, repr)| ==> '\n' !in Lines(d, repr)[k]
    requires text == TransformToText(d, repr)
    ensures SplitTerminated(text) == Lines(d, repr)
    ensures |SplitTerminated(text)| == LineCount(d)
  {
    SplitTerminate(Lines(d, repr));
    LinesCount(d, repr);
  }
}
