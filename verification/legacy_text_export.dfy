/** The earlier plain-text export, `transform_to_text` of code/mod/B_text.py:
    every key and every value must already be a string, and each pair
    becomes a key line and a value line. */
module LegacyTextExport {
  import opened Values
  import TextExport

  /** A dict whose keys and values are all `str` (the only input on which
      the Python concatenation does not raise). */
  type StrDict = seq<(string, string)>

  /** The reference layout: key, then value, pair after pair. */
  function PairLines(d: StrDict): seq<string>
  {
    if |d| == 0 then [] else [d[0].0, d[0].1] + PairLines(d[1..])
  }

  /** The loop `text += (i + "\n"); text += (result[i] + "\n")`. */
  function Serialise(text: string, d: StrDict): (r: string)
    ensures r == text + TextExport.Terminate(PairLines(d))
    decreases |d|
  {
    if |d| == 0 then text
    else
      var pair := [d[0].0, d[0].1];
      var rest := PairLines(d[1..]);
      assert PairLines(d) == pair + rest;
      PairText(d[0].0, d[0].1);
      TextExport.AppendTerminated(text, pair, rest);
      Serialise(text + d[0].0 + "\n" + d[0].1 + "\n", d[1..])
  }

  lemma PairText(key: string, value: string)
    ensures TextExport.Terminate([key, value]) == key + "\n" + value + "\n"
  {
    assert [key, value][1..] == [value] && [value][1..] == [];
    assert TextExport.Terminate([value]) == value + "\n" + TextExport.Terminate([]);
  }

  /** `transform_to_text(result)`: "" for an empty dict, otherwise the
      key and value lines of every pair, each terminated by "\n". */
  function TransformToText(d: StrDict): (text: string)
    ensures text == TextExport.Terminate(PairLines(d))
    ensures |d| == 0 ==> text == ""
    ensures |d| > 0 ==> text[|text| - 1] == '\n'
  {
    TextExport.TerminateEnds(PairLines(d));
    Serialise("", d)
  }

  /** Pair `i` occupies lines `2 * i` (its key) and `2 * i + 1` (its
      value), so there are exactly twice as many lines as keys. */
  lemma {:induction false} PairLinesLayout(d: StrDict)
    ensures |PairLines(d)| == 2 * |d|
    ensures forall i :: 0 <= i < |d| ==> PairLines(d)[2 * i] == d[i].0 && PairLines(d)[2 * i + 1] == d[i].1
  {
    if |d| > 0 {
      PairLinesLayout(d[1..]);
      var rest := PairLines(d[1..]);
      assert PairLines(d) == [d[0].0, d[0].1] + rest;
      forall i | 1 <= i < |d|
        ensures PairLines(d)[2 * i] == d[i].0 && PairLines(d)[2 * i + 1] == d[i].1
      {
        assert d[1..][i - 1] == d[i];
        assert PairLines(d)[2 * i] == rest[2 * (i - 1)];
        assert PairLines(d)[2 * i + 1] == rest[2 * (i - 1) + 1];
      }
    }
  }

  /** When no key or value holds a newline, the text has exactly two
      "\n"-terminated segments per key. */
  lemma SegmentCount(d: StrDict)
    requires forall i :: 0 <= i < |d| ==> '\n' !in d[i].0 && '\n' !in d[i].1
    ensures |TextExport.SplitTerminated(TransformToText(d))| == 2 * |d|
  {
    PairLinesLayout(d);
    var lines := PairLines(d);
    forall k | 0 <= k < |lines| ensures '\n' !in lines[k] {
      if k % 2 == 0 {
        assert lines[2 * (k / 2)] == d[k / 2].0;
      } else {
        assert lines[2 * (k / 2) + 1] == d[k / 2].1;
      }
    }
    TextExport.SplitTerminate(lines);
  }

  /** The same dict seen as parsed JSON: every value a JSON string. */
  function Lift(d: StrDict): Dict
  {
    seq(|d|, i requires 0 <= i < |d| => (d[i].0, JStr(d[i].1)))
  }

  /** On string-to-string dicts the list-flattening export of
      src/mod/B_text.py produces exactly this text, whatever `str()` does
      to non-strings. */
  lemma {:induction false} AgreesWithFlattening(d: StrDict, repr: Repr)
    ensures TransformToText(d) == TextExport.TransformToText(Lift(d), repr)
  {
    LayoutsAgree(d, repr);
  }

  lemma {:induction false} LayoutsAgree(d: StrDict, repr: Repr)
    ensures PairLines(d) == TextExport.Lines(Lift(d), repr)
  {
    if |d| > 0 {
      assert Lift(d)[1..] == Lift(d[1..]);
      assert Lift(d)[0] == (d[0].0, JStr(d[0].1));
      LayoutsAgree(d[1..], repr);
    }
  }
}
