/** The Python values that flow through the pipeline: what the JSON output
    parser produces from the model's answer, and the rows handed to the
    table and text exporters. */
module Values {
  import opened Results

  /** A parsed JSON value as Python holds it. Numbers are integers here;
      a Python `dict` is a `JObj` whose pairs are in insertion order. */
  datatype Json =
    | JNull
    | JBool(b: bool)
    | JNum(n: int)
    | JStr(s: string)
    | JList(items: seq<Json>)
    | JObj(fields: seq<(string, Json)>)

  /** A Python `dict` with string keys, in iteration order. */
  type Dict = seq<(string, Json)>

  /** Python's `str()` on a value that is not a string. Its exact text
      (the `repr` of a list or dict) is not modelled. */
  type Repr = Json -> string

  /** Python's `str(v)`: a string is itself, anything else is rendered. */
  function Str(v: Json, repr: Repr): (s: string)
    ensures v.JStr? ==> s == v.s
    ensures !v.JStr? ==> s == repr(v)
  {
    if v.JStr? then v.s else repr(v)
  }

  /** `list(d.keys())` */
  function KeysOf(d: Dict): seq<string>
  {
    seq(|d|, i requires 0 <= i < |d| => d[i].0)
  }

  /** `list(d.values())` */
  function ValuesOf(d: Dict): seq<Json>
  {
    seq(|d|, i requires 0 <= i < |d| => d[i].1)
  }

  /** `d[k]` if `k in d`, else `None`. */
  function Get(d: Dict, k: string): Option<Json>
  {
    if |d| == 0 then None
    else if d[0].0 == k then Some(d[0].1)
    else Get(d[1..], k)
  }

  /** A lookup finds a key exactly when the key is among the dict's keys,
      and what it finds is paired with that key in the dict. Stated as a
      lemma rather than on `Get` itself so that the many lookups of schema
      validation stay cheap to verify. */
  lemma {:induction false} GetFinds(d: Dict, k: string)
    ensures Get(d, k).None? <==> k !in KeysOf(d)
    ensures Get(d, k).Some? ==> (k, Get(d, k).value) in d
  {
    if |d| > 0 {
      assert KeysOf(d) == [d[0].0] + KeysOf(d[1..]);
      if d[0].0 != k {
        GetFinds(d[1..], k);
      }
    }
  }

  /** Looking up the key at position `i`, when no earlier position holds
      the same key, yields the value at position `i`. In a Python dict,
      whose keys are distinct, this holds at every position. */
  lemma {:induction false} GetAt(d: Dict, i: int)
    requires 0 <= i < |d|
    requires forall j :: 0 <= j < i ==> d[j].0 != d[i].0
    ensures Get(d, d[i].0) == Some(d[i].1)
  {
    if i > 0 {
      assert d[1..][i - 1] == d[i];
      GetAt(d[1..], i - 1);
    }
  }

  /** No key occurs twice, as in every Python dict. */
  predicate DistinctKeys(d: Dict)
  {
    forall i, j :: 0 <= i < j < |d| ==> d[i].0 != d[j].0
  }

  /** A dict as Python holds one: distinct keys in insertion order. */
  type PyDict = d: Dict | DistinctKeys(d) witness []

  /** In a Python dict every key looks up its own value. */
  lemma GetEvery(d: PyDict)
    ensures forall i :: 0 <= i < |d| ==> Get(d, d[i].0) == Some(d[i].1)
  {
    forall i | 0 <= i < |d|
      ensures Get(d, d[i].0) == Some(d[i].1)
    {
      GetAt(d, i);
    }
  }
}
