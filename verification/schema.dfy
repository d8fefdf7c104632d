/** The output schema of src/mod/A_LLM.py: `SpeechAgenda` (one agenda
    entry) and `AgendaSchedule` (an event and its ordered entries), with the
    validation pydantic applies when a parsed JSON object is turned into
    them and the `.dict()` view that turns them back. */
module Schema {
  import opened Results
  import opened Values

  /** Default of `speaker_title` and `speaker_name` ("none"). */
  const DefaultSpeaker: string := "無"

  datatype SpeechAgenda = SpeechAgenda(
    title: string,
    start_time: string,
    end_time: string,
    speaker_title: string,
    speaker_name: string,
    script: string)

  datatype AgendaSchedule = AgendaSchedule(event_name: string, agendas: seq<SpeechAgenda>)

  /** A field declared `str` without a default: it must be present and be a
      string. */
  function RequiredStr(d: Dict, name: string): Option<string>
  {
    match Get(d, name)
    case Some(JStr(s)) => Some(s)
    case _ => None
  }

  /** A field declared `str` with a default: absent means the default, a
      present value must be a string. */
  function DefaultedStr(d: Dict, name: string, default: string): Option<string>
  {
    match Get(d, name)
    case None => Some(default)
    case Some(JStr(s)) => Some(s)
    case _ => None
  }

  /** `name` is present and holds a string. */
  predicate HasStr(d: Dict, name: string)
  {
    Get(d, name).Some? && Get(d, name).value.JStr?
  }

  /** `name` is absent or holds a string. */
  predicate MayHaveStr(d: Dict, name: string)
  {
    Get(d, name).None? || Get(d, name).value.JStr?
  }

  /** `SpeechAgenda(**obj)`; `None` stands for a validation error. Keys the
      schema does not declare are ignored. Validation succeeds exactly when
      the four required fields are strings and the two speaker fields are
      absent or strings; the entry then holds the given strings, and "無"
      for an absent speaker field. */
  function ValidateSpeechAgenda(v: Json): (r: Option<SpeechAgenda>)
    ensures r.Some? <==> (v.JObj? && HasStr(v.fields, "title") && HasStr(v.fields, "start_time")
      && HasStr(v.fields, "end_time") && HasStr(v.fields, "script")
      && MayHaveStr(v.fields, "speaker_title") && MayHaveStr(v.fields, "speaker_name"))
    ensures r.Some? ==> (Get(v.fields, "title") == Some(JStr(r.value.title))
      && Get(v.fields, "start_time") == Some(JStr(r.value.start_time))
      && Get(v.fields, "end_time") == Some(JStr(r.value.end_time))
      && Get(v.fields, "script") == Some(JStr(r.value.script)))
    ensures r.Some? ==> (Get(v.fields, "speaker_title") == Some(JStr(r.value.speaker_title))
      || (Get(v.fields, "speaker_title").None? && r.value.speaker_title == DefaultSpeaker))
    ensures r.Some? ==> (Get(v.fields, "speaker_name") == Some(JStr(r.value.speaker_name))
      || (Get(v.fields, "speaker_name").None? && r.value.speaker_name == DefaultSpeaker))
  {
    if !v.JObj? then None
    else
      var d := v.fields;
      var title := RequiredStr(d, "title");
      var start := RequiredStr(d, "start_time");
      var end := RequiredStr(d, "end_time");
      var speakerTitle := DefaultedStr(d, "speaker_title", DefaultSpeaker);
      var speakerName := DefaultedStr(d, "speaker_name", DefaultSpeaker);
      var script := RequiredStr(d, "script");
      if title.Some? && start.Some? && end.Some? && speakerTitle.Some? && speakerName.Some? && script.Some?
      then Some(SpeechAgenda(title.value, start.value, end.value, speakerTitle.value, speakerName.value, script.value))
      else None
  }

  /** `item.dict()`: the six fields in declaration order. */
  function SpeechAgendaRecord(a: SpeechAgenda): (d: Dict)
    ensures KeysOf(d) == ["title", "start_time", "end_time", "speaker_title", "speaker_name", "script"]
    ensures DistinctKeys(d)
    ensures forall i :: 0 <= i < |d| ==> d[i].1.JStr?
  {
    [("title", JStr(a.title)),
     ("start_time", JStr(a.start_time)),
     ("end_time", JStr(a.end_time)),
     ("speaker_title", JStr(a.speaker_title)),
     ("speaker_name", JStr(a.speaker_name)),
     ("script", JStr(a.script))]
  }

  /** Validating the `.dict()` of an entry gives the entry back. */
  lemma SpeechAgendaRoundTrip(a: SpeechAgenda)
    ensures ValidateSpeechAgenda(JObj(SpeechAgendaRecord(a))) == Some(a)
  {
    RecordLookups(a);
  }

  /** Each field of the record is found under its own name. */
  lemma RecordLookups(a: SpeechAgenda)
    ensures var d := SpeechAgendaRecord(a);
      && Get(d, "title") == Some(JStr(a.title))
      && Get(d, "start_time") == Some(JStr(a.start_time))
      && Get(d, "end_time") == Some(JStr(a.end_time))
      && Get(d, "speaker_title") == Some(JStr(a.speaker_title))
      && Get(d, "speaker_name") == Some(JStr(a.speaker_name))
      && Get(d, "script") == Some(JStr(a.script))
  {
    var d := SpeechAgendaRecord(a);
    GetAt(d, 0);
    GetAt(d, 1);
    GetAt(d, 2);
    GetAt(d, 3);
    GetAt(d, 4);
    GetAt(d, 5);
  }

  /** `speaker_title` and `speaker_name` may be left out and then read
      "無"; the other four fields are what the entry says they are. */
  lemma SpeakerDefaults(d: Dict, title: string, start: string, end: string, script: string)
    requires Get(d, "title") == Some(JStr(title)) && Get(d, "start_time") == Some(JStr(start))
    requires Get(d, "end_time") == Some(JStr(end)) && Get(d, "script") == Some(JStr(script))
    requires Get(d, "speaker_title").None? && Get(d, "speaker_name").None?
    ensures ValidateSpeechAgenda(JObj(d)) == Some(SpeechAgenda(title, start, end, DefaultSpeaker, DefaultSpeaker, script))
  {
  }

  /** `title`, `start_time`, `end_time` and `script` have no default:
      leaving any of them out is a validation error. */
  lemma RequiredFields(d: Dict, name: string)
    requires name in ["title", "start_time", "end_time", "script"]
    requires Get(d, name).None?
    ensures ValidateSpeechAgenda(JObj(d)).None?
  {
  }

  /** Applies a validator to every element: all must pass, and then the
      results come in list order. */
  function Collect<T, U>(validate: T -> Option<U>, items: seq<T>): (r: Option<seq<U>>)
    ensures r.Some? <==> forall i :: 0 <= i < |items| ==> validate(items[i]).Some?
    ensures r.Some? ==> |r.value| == |items|
    ensures r.Some? ==> forall i :: 0 <= i < |items| ==> validate(items[i]) == Some(r.value[i])
  {
    if |items| == 0 then Some([])
    else
      var head := validate(items[0]);
      var rest := Collect(validate, items[1..]);
      assert forall i :: 1 <= i < |items| ==> items[i] == items[1..][i - 1];
      if head.Some? && rest.Some? then Some([head.value] + rest.value) else None
  }

  /** Validation of the `agendas` list, entry by entry. */
  function ValidateAll(items: seq<Json>): Option<seq<SpeechAgenda>>
  {
    Collect(ValidateSpeechAgenda, items)
  }

  /** `AgendaSchedule(**obj)`: the event name must be a string and the
      entries a list of valid agenda entries, kept in list order. */
  function ValidateSchedule(v: Json): (r: Option<AgendaSchedule>)
    ensures r.Some? ==> v.JObj? && Get(v.fields, "event_name") == Some(JStr(r.value.event_name))
    ensures r.Some? ==> (Get(v.fields, "agendas").Some? && Get(v.fields, "agendas").value.JList?
      && ValidateAll(Get(v.fields, "agendas").value.items) == Some(r.value.agendas))
    ensures (v.JObj? && HasStr(v.fields, "event_name") && Get(v.fields, "agendas").Some?
      && Get(v.fields, "agendas").value.JList? && ValidateAll(Get(v.fields, "agendas").value.items).Some?)
      ==> r.Some?
  {
    if !v.JObj? then None
    else
      match (RequiredStr(v.fields, "event_name"), Get(v.fields, "agendas"))
      case (Some(name), Some(JList(items))) =>
        (match ValidateAll(items)
         case Some(entries) => Some(AgendaSchedule(name, entries))
         case None => None)
      case _ => None
  }

  /** `schedule.dict()`: the event name, then the entries' records in order. */
  function ScheduleRecord(s: AgendaSchedule): (d: Dict)
    ensures KeysOf(d) == ["event_name", "agendas"]
    ensures DistinctKeys(d)
    ensures d[1].1.JList? && |d[1].1.items| == |s.agendas|
  {
    [("event_name", JStr(s.event_name)),
     ("agendas", JList(seq(|s.agendas|, i requires 0 <= i < |s.agendas| => JObj(SpeechAgendaRecord(s.agendas[i])))))]
  }

  /** Validating the `.dict()` of a schedule gives the schedule back, entries
      in the same order. */
  lemma ScheduleRoundTrip(s: AgendaSchedule)
    ensures ValidateSchedule(JObj(ScheduleRecord(s))) == Some(s)
  {
    var d := ScheduleRecord(s);
    GetAt(d, 0);
    GetAt(d, 1);
    var items := d[1].1.items;
    forall i | 0 <= i < |items| ensures ValidateSpeechAgenda(items[i]) == Some(s.agendas[i]) {
      SpeechAgendaRoundTrip(s.agendas[i]);
    }
    var r := ValidateAll(items);
    assert r.value == s.agendas;
  }
}
