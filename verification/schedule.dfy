/**
 The study schedule built from spreadsheet rows (`processar_linha` in
 api_maker.py): five insertion-ordered maps, keyed by composite strings,
 of weeks (semanas), days (dias), main topics (temas), subtopics (subtemas)
 and lessons (aulas).

 A week, day or topic lists its children by KEY: those records are never
 replaced, so a key names the same record the Python list holds. A subtopic
 lists its lessons by VALUE, because a later row can overwrite the lesson
 stored under a key while the list keeps the record appended earlier.
 */
module Schedule {
  import opened Text
  import opened Seqs
  import opened OrderedMaps

  datatype Option<T> = None | Some(value: T)

  datatype Lesson = Lesson(nome: string, linkAula: string, linkQuestoes: string)
  datatype Subtopic = Subtopic(nome: string, aulas: seq<Lesson>)
  datatype Topic = Topic(nome: string, subtemas: seq<string>)
  datatype Day = Day(nome: string, areaConhecimento: string, temas: seq<string>)
  datatype Week = Week(numero: string, periodo: string, dias: seq<string>)

  datatype State = State(
    semanas: OMap<Week>,
    dias: OMap<Day>,
    temas: OMap<Topic>,
    subtemas: OMap<Subtopic>,
    aulas: OMap<Lesson>)

  function EmptyState(): State {
    State(Empty(), Empty(), Empty(), Empty(), Empty())
  }

  /** One spreadsheet row: the cell of each column the schedule reads, `None`
      when the column is missing or the cell is empty. */
  datatype Row = Row(
    semana: Option<string>,
    dia: Option<string>,
    temaPrincipal: Option<string>,
    subtema: Option<string>,
    aula: Option<string>,
    linkAula: Option<string>,
    linkQuestoes: Option<string>)

  /** A row after every cell has gone through `Clean`. */
  datatype Fields = Fields(
    semana: string,
    dia: string,
    temaPrincipal: string,
    subtema: string,
    aula: string,
    linkAula: string,
    linkQuestoes: string)

  /** `limpar`: an absent cell becomes "", a present one loses its
      surrounding whitespace. */
  function Clean(cell: Option<string>): (r: string)
    ensures cell.None? ==> r == ""
    ensures cell.Some? ==> exists i :: StrippedAt(cell.value, r, i)
    ensures r == [] || (!IsSpace(r[0]) && !IsSpace(r[|r| - 1]))
  {
    match cell
    case None => ""
    case Some(v) => Strip(v)
  }

  function Normalize(row: Row): Fields {
    Fields(
      Clean(row.semana), Clean(row.dia), Clean(row.temaPrincipal), Clean(row.subtema),
      Clean(row.aula), Clean(row.linkAula), Clean(row.linkQuestoes))
  }

  /** `extrair_periodo`: `s.split('(')[1].split(')')[0]` when `s` holds both a
      `(` and a `)`, else "". That is the text after the first `(` up to the
      next `(` or `)`, or to the end of `s`. */
  function ExtractPeriod(s: string): (r: string)
    ensures !('(' in s && ')' in s) ==> r == ""
    ensures '(' in s && ')' in s ==> r == SegmentFrom(s, IndexOf(s, '(') + 1, {'(', ')'})
  {
    if '(' in s && ')' in s then
      PeriodIsSegment(s);
      Split(Split(s, '(')[1], ')')[0]
    else
      ""
  }

  /** The second part of `split('(')`, cut at its first `)`, is the text from
      the first `(` to the next parenthesis of either kind. */
  lemma PeriodIsSegment(s: string)
    requires '(' in s
    ensures |Split(s, '(')| >= 2
    ensures Split(Split(s, '(')[1], ')')[0] == SegmentFrom(s, IndexOf(s, '(') + 1, {'(', ')'})
  {
    var i := IndexOf(s, '(');
    var open := SegmentFrom(s, i + 1, {'('});
    assert |Split(s, '(')| >= 2 && Split(s, '(')[1] == open by {
      SplitSecondSegment(s, '(');
    }
    assert Split(open, ')')[0] == open[..IndexOf(open, ')')] by {
      SplitHead(open, ')');
    }
    assert open[..IndexOf(open, ')')] == SegmentFrom(s, i + 1, {'(', ')'}) by {
      SegmentNarrow(s, i + 1, '(', ')');
    }
  }

  /** `extrair_area_conhecimento`: `s.split('-')[1].strip()` when `s` holds a
      `-`, else "". That is the text between the first and the second `-` (or
      the end of `s`), stripped. */
  function ExtractArea(s: string): (r: string)
    ensures r == if '-' in s then Strip(SegmentFrom(s, IndexOf(s, '-') + 1, {'-'})) else ""
  {
    if '-' in s then
      SplitSecondSegment(s, '-');
      Strip(Split(s, '-')[1])
    else
      ""
  }

  /** The separator of the composite keys: `f"{semana}_{dia}"` and so on. */
  const Separator: char := '_'

  function JoinKey(parent: string, own: string): string {
    parent + [Separator] + own
  }

  function DayKey(f: Fields): string {
    JoinKey(f.semana, f.dia)
  }

  function TopicKey(f: Fields): string {
    JoinKey(DayKey(f), f.temaPrincipal)
  }

  function SubtopicKey(f: Fields): string {
    JoinKey(TopicKey(f), f.subtema)
  }

  function LessonKey(f: Fields): string {
    JoinKey(SubtopicKey(f), f.aula)
  }

  function LessonOf(f: Fields): Lesson {
    Lesson(f.aula, f.linkAula, f.linkQuestoes)
  }

  /** A week is added under its own label when the label is new. */
  function AddWeek(st: State, semana: string): State {
    if semana != "" && semana !in st.semanas.entries then
      st.(semanas := Put(st.semanas, semana, Week(semana, ExtractPeriod(semana), [])))
    else
      st
  }

  /** A new day is stored, and appended to its week's list when that week exists. */
  function AddDay(st: State, semana: string, dia: string): State {
    var k := JoinKey(semana, dia);
    if dia != "" && k !in st.dias.entries then
      var st1 := st.(dias := Put(st.dias, k, Day(dia, ExtractArea(dia), [])));
      if semana in st1.semanas.entries then
        var w := st1.semanas.entries[semana];
        st1.(semanas := Put(st1.semanas, semana, w.(dias := w.dias + [k])))
      else
        st1
    else
      st
  }

  /** A new topic is stored, and appended to its day's list when that day exists. */
  function AddTopic(st: State, dayKey: string, tema: string): State {
    var k := JoinKey(dayKey, tema);
    if tema != "" && k !in st.temas.entries then
      var st1 := st.(temas := Put(st.temas, k, Topic(tema, [])));
      if dayKey in st1.dias.entries then
        var d := st1.dias.entries[dayKey];
        st1.(dias := Put(st1.dias, dayKey, d.(temas := d.temas + [k])))
      else
        st1
    else
      st
  }

  /** A new subtopic is stored, and appended to its topic's list when that topic exists. */
  function AddSubtopic(st: State, topicKey: string, subtema: string): State {
    var k := JoinKey(topicKey, subtema);
    if subtema != "" && k !in st.subtemas.entries then
      var st1 := st.(subtemas := Put(st.subtemas, k, Subtopic(subtema, [])));
      if topicKey in st1.temas.entries then
        var t := st1.temas.entries[topicKey];
        st1.(temas := Put(st1.temas, topicKey, t.(subtemas := t.subtemas + [k])))
      else
        st1
    else
      st
  }

  /** A lesson is stored (overwriting any lesson under the same key) and
      appended to its subtopic's list when that subtopic exists. */
  function AddLesson(st: State, subtopicKey: string, lesson: Lesson): State {
    if lesson.nome != "" then
      var st1 := st.(aulas := Put(st.aulas, JoinKey(subtopicKey, lesson.nome), lesson));
      if subtopicKey in st1.subtemas.entries then
        var s := st1.subtemas.entries[subtopicKey];
        st1.(subtemas := Put(st1.subtemas, subtopicKey, s.(aulas := s.aulas + [lesson])))
      else
        st1
    else
      st
  }

  /** `processar_linha` after its cells are cleaned: the row's week, day,
      topic, subtopic and lesson are folded in, in that order. */
  function ProcessFields(st: State, f: Fields): State {
    var s1 := AddWeek(st, f.semana);
    var s2 := AddDay(s1, f.semana, f.dia);
    var s3 := AddTopic(s2, DayKey(f), f.temaPrincipal);
    var s4 := AddSubtopic(s3, TopicKey(f), f.subtema);
    AddLesson(s4, SubtopicKey(f), LessonOf(f))
  }

  /** `processar_linha`: clean the row's cells, then fold it into the schedule. */
  function ProcessRow(st: State, row: Row): State {
    ProcessFields(st, Normalize(row))
  }

  /** The rows of every file, in order, folded into an empty schedule. */
  function Build(rows: seq<Row>): State
    decreases |rows|
  {
    if rows == [] then EmptyState()
    else ProcessRow(Build(rows[..|rows| - 1]), rows[|rows| - 1])
  }

  // ----- The invariant the fold keeps -----

  ghost predicate WeekOk(st: State, w: string)
    requires w in st.semanas.entries
  {
    var week := st.semanas.entries[w];
    && w != ""
    && week.numero == w
    && week.periodo == ExtractPeriod(w)
    && IsSubseq(week.dias, st.dias.keys)
    && forall i :: 0 <= i < |week.dias| ==>
         week.dias[i] in st.dias.entries && week.dias[i] == JoinKey(w, st.dias.entries[week.dias[i]].nome)
  }

  ghost predicate DayOk(st: State, d: string)
    requires d in st.dias.entries
  {
    var day := st.dias.entries[d];
    && day.nome != ""
    && day.areaConhecimento == ExtractArea(day.nome)
    && IsSubseq(day.temas, st.temas.keys)
    && forall i :: 0 <= i < |day.temas| ==>
         day.temas[i] in st.temas.entries && day.temas[i] == JoinKey(d, st.temas.entries[day.temas[i]].nome)
  }

  ghost predicate TopicOk(st: State, t: string)
    requires t in st.temas.entries
  {
    var topic := st.temas.entries[t];
    && topic.nome != ""
    && IsSubseq(topic.subtemas, st.subtemas.keys)
    && forall i :: 0 <= i < |topic.subtemas| ==>
         topic.subtemas[i] in st.subtemas.entries
         && topic.subtemas[i] == JoinKey(t, st.subtemas.entries[topic.subtemas[i]].nome)
  }

  ghost predicate SubtopicOk(st: State, s: string)
    requires s in st.subtemas.entries
  {
    var sub := st.subtemas.entries[s];
    && sub.nome != ""
    && forall i :: 0 <= i < |sub.aulas| ==> sub.aulas[i].nome != "" && JoinKey(s, sub.aulas[i].nome) in st.aulas.entries
  }

  ghost predicate WeeksOk(st: State) {
    forall w :: w in st.semanas.entries ==> WeekOk(st, w)
  }

  ghost predicate DaysOk(st: State) {
    forall d :: d in st.dias.entries ==> DayOk(st, d)
  }

  ghost predicate TopicsOk(st: State) {
    forall t :: t in st.temas.entries ==> TopicOk(st, t)
  }

  ghost predicate SubtopicsOk(st: State) {
    forall s :: s in st.subtemas.entries ==> SubtopicOk(st, s)
  }

  ghost predicate LessonsOk(st: State) {
    forall l :: l in st.aulas.entries ==> st.aulas.entries[l].nome != ""
  }

  ghost predicate MapsOk(st: State) {
    && WellFormed(st.semanas)
    && WellFormed(st.dias)
    && WellFormed(st.temas)
    && WellFormed(st.subtemas)
    && WellFormed(st.aulas)
  }

  /** What every schedule built by `Build` satisfies: each map lists its keys
      once, each record is stored under the key derived from its labels, each
      child list names existing children in their insertion order. */
  ghost predicate Valid(st: State) {
    && MapsOk(st)
    && WeeksOk(st)
    && DaysOk(st)
    && TopicsOk(st)
    && SubtopicsOk(st)
    && LessonsOk(st)
  }

  /** `st'` keeps every key of `st` in the same insertion order and every
      label of `st`'s records; only child lists and lessons may change. */
  ghost predicate Grows(st: State, st': State) {
    && st.semanas.keys <= st'.semanas.keys
    && st.dias.keys <= st'.dias.keys
    && st.temas.keys <= st'.temas.keys
    && st.subtemas.keys <= st'.subtemas.keys
    && st.aulas.keys <= st'.aulas.keys
    && (forall w :: w in st.semanas.entries ==>
          w in st'.semanas.entries
          && st'.semanas.entries[w].numero == st.semanas.entries[w].numero
          && st'.semanas.entries[w].periodo == st.semanas.entries[w].periodo)
    && (forall d :: d in st.dias.entries ==>
          d in st'.dias.entries
          && st'.dias.entries[d].nome == st.dias.entries[d].nome
          && st'.dias.entries[d].areaConhecimento == st.dias.entries[d].areaConhecimento)
    && (forall t :: t in st.temas.entries ==>
          t in st'.temas.entries && st'.temas.entries[t].nome == st.temas.entries[t].nome)
    && (forall s :: s in st.subtemas.entries ==>
          s in st'.subtemas.entries && st'.subtemas.entries[s].nome == st.subtemas.entries[s].nome)
    && (forall l :: l in st.aulas.entries ==> l in st'.aulas.entries)
  }
}
