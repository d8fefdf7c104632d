/** The preview table: `transform_to_df` of src/mod/A_LLM.py (one row per
    agenda entry, whatever shape the answer came in) and of
    code/mod/A_LLM.py (keys and values as two parallel columns). A table is
    either a sequence of rows, row `i` built from element `i` of the list
    it came from, or a sequence of named columns. */
module Frames {
  import opened Results
  import opened Values
  import opened Schema

  datatype Frame =
    | Records(rows: seq<Json>)
    | Columns(columns: seq<(string, seq<Json>)>)

  /** `pd.DataFrame()` */
  const EmptyFrame: Frame := Records([])

  /** What `transform_to_df` may be handed: a validated schedule object,
      or any parsed JSON value. */
  datatype Response = Schedule(schedule: AgendaSchedule) | Parsed(value: Json)

  /** `pd.DataFrame(v)` for a value other than a list of objects (a
      scalar, an object, a list of lists or scalars, or a mixed list);
      pandas decides the shape or raises, and that is not modelled. */
  type Constructor = Json -> Result<Frame, string>

  /** Every element is a JSON object: the list of records that pandas
      always turns into one row per element. */
  predicate AllObjects(items: seq<Json>)
  {
    forall i :: 0 <= i < |items| ==> items[i].JObj?
  }

  /** The rows of a schedule: each entry's `.dict()`, in schedule order. */
  function ScheduleRows(s: AgendaSchedule): (rows: seq<Json>)
    ensures |rows| == |s.agendas|
    ensures AllObjects(rows)
  {
    seq(|s.agendas|, i requires 0 <= i < |s.agendas| => JObj(SpeechAgendaRecord(s.agendas[i])))
  }

  /** `transform_to_df(response, key)` */
  function TransformToDf(response: Response, key: string, construct: Constructor): (r: Result<Frame, string>)
    ensures response.Schedule? ==> r == Ok(Records(ScheduleRows(response.schedule)))
    ensures response.Parsed? && response.value.JObj? && Get(response.value.fields, key).None?
      ==> r == Ok(Records([response.value]))
    ensures response.Parsed? && response.value.JObj? && Get(response.value.fields, key).Some?
      ==> r == (match Get(response.value.fields, key).value
                case JList(items) => if AllObjects(items) then Ok(Records(items)) else construct(JList(items))
                case other => construct(other))
    ensures response.Parsed? && !response.value.JObj? ==> r == Ok(EmptyFrame)
  {
    match response
    case Schedule(s) => Ok(Records(ScheduleRows(s)))
    case Parsed(JObj(fields)) =>
      (match Get(fields, key)
       case Some(JList(items)) => if AllObjects(items) then Ok(Records(items)) else construct(JList(items))
       case Some(other) => construct(other)
       case None => Ok(Records([JObj(fields)])))
    case Parsed(_) => Ok(EmptyFrame)
  }

  /** A schedule object and the JSON object with the same content (its
      `.dict()`) give the same table under the default key "agendas": both
      shapes of answer normalise to the same rows. */
  lemma ShapesAgree(s: AgendaSchedule, construct: Constructor)
    ensures TransformToDf(Schedule(s), "agendas", construct)
         == TransformToDf(Parsed(JObj(ScheduleRecord(s))), "agendas", construct)
  {
    GetAt(ScheduleRecord(s), 1);
    assert ScheduleRecord(s)[1].1 == JList(ScheduleRows(s));
  }

  /** The rows of a schedule's table validate back to its entries, one for
      one and in order: no entry is lost, added or reordered. */
  lemma ScheduleRowsRoundTrip(s: AgendaSchedule, construct: Constructor)
    ensures TransformToDf(Schedule(s), "agendas", construct).Ok?
    ensures TransformToDf(Schedule(s), "agendas", construct).value.Records?
    ensures ValidateAll(TransformToDf(Schedule(s), "agendas", construct).value.rows) == Some(s.agendas)
  {
    var rows := ScheduleRows(s);
    forall i | 0 <= i < |rows| ensures ValidateSpeechAgenda(rows[i]) == Some(s.agendas[i]) {
      SpeechAgendaRoundTrip(s.agendas[i]);
    }
    assert ValidateAll(rows).value == s.agendas;
  }

  /** Column names of the earlier two-column table ("time", "script"). */
  const TimeColumn: string := "時間"
  const ScriptColumn: string := "講稿"

  /** `transform_to_df(response)` of code/mod/A_LLM.py: the keys as one
      column, the values as another, so that row `i` pairs key `i` with its
      own value. */
  function TwoColumnFrame(d: Dict): (f: Frame)
    ensures f.Columns? && |f.columns| == 2
    ensures f.columns[0].0 == TimeColumn && f.columns[1].0 == ScriptColumn
    ensures |f.columns[0].1| == |d| && |f.columns[1].1| == |d|
  {
    Columns([(TimeColumn, seq(|d|, i requires 0 <= i < |d| => JStr(KeysOf(d)[i]))),
             (ScriptColumn, ValuesOf(d))])
  }

  /** Reads row `i` of a two-column table back as a key/value pair. */
  function ZipRows(f: Frame): Dict
    requires f.Columns? && |f.columns| == 2 && |f.columns[0].1| == |f.columns[1].1|
    requires forall i :: 0 <= i < |f.columns[0].1| ==> f.columns[0].1[i].JStr?
  {
    seq(|f.columns[0].1|, i requires 0 <= i < |f.columns[0].1| => (f.columns[0].1[i].s, f.columns[1].1[i]))
  }

  /** Reading the two columns back row by row gives the original dict,
      pairs in the same order: the table has one row per key (none for an
      empty dict) and never separates a key from its value. */
  lemma TwoColumnRoundTrip(d: Dict)
    ensures forall i :: 0 <= i < |d| ==> TwoColumnFrame(d).columns[0].1[i].JStr?
    ensures ZipRows(TwoColumnFrame(d)) == d
  {
    var z := ZipRows(TwoColumnFrame(d));
    forall i | 0 <= i < |d| ensures z[i] == d[i] {
      assert z[i] == (KeysOf(d)[i], ValuesOf(d)[i]);
    }
  }
}
