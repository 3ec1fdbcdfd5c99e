/**
 The read side of the API: the lookups behind `get_semana`, `get_dia`,
 `get_subtema` and the cross-entity search `buscar`, as pure functions of
 the schedule returning either a result or the error the endpoint answers
 with.
 */
module Queries {
  import opened Text
  import opened Seqs
  import opened OrderedMaps
  import opened Schedule

  /** An endpoint's failure: the HTTP status it is answered with and the
      message of its error body. */
  datatype Error = NotFound(message: string) | BadRequest(message: string)

  function Status(e: Error): int {
    match e
    case NotFound(_) => 404
    case BadRequest(_) => 400
  }

  datatype Result<T> = Ok(value: T) | Err(error: Error)

  const WeekNotFound: string := "Semana não encontrada"
  const DayNotFound: string := "Dia não encontrado"
  const SubtopicNotFound: string := "Subtema não encontrado"
  const TermRequired: string := "Parâmetro de busca 'q' é obrigatório"

  /** `needle.lower() in hay.lower()`. */
  predicate Matches(hay: string, needle: string) {
    Contains(Lower(hay), Lower(needle))
  }

  /** `get_semana`: the week stored under exactly that number. A stored week
      is a non-empty record, so the `if semana:` test fails only for a
      missing key. */
  function GetWeek(st: State, numero: string): (r: Result<Week>)
    ensures r.Ok? <==> numero in st.semanas.entries
    ensures r.Ok? ==> r.value == st.semanas.entries[numero]
    ensures r.Err? ==> r.error == NotFound(WeekNotFound) && Status(r.error) == 404
  {
    if numero in st.semanas.entries then Ok(st.semanas.entries[numero])
    else Err(NotFound(WeekNotFound))
  }

  /** In a valid schedule `get_semana` succeeds exactly when some stored week
      carries that number, and then answers that week: a week is stored
      under its own number, so no two stored weeks share one. */
  lemma GetWeekSpec(st: State, numero: string)
    requires Valid(st)
    ensures GetWeek(st, numero).Ok? <==>
      exists k :: k in st.semanas.entries && st.semanas.entries[k].numero == numero
    ensures forall k :: k in st.semanas.entries && st.semanas.entries[k].numero == numero ==>
      GetWeek(st, numero) == Ok(st.semanas.entries[k])
    ensures GetWeek(st, numero).Ok? ==> GetWeek(st, numero).value in Values(st.semanas)
  {
    forall k | k in st.semanas.entries && st.semanas.entries[k].numero == numero
      ensures GetWeek(st, numero) == Ok(st.semanas.entries[k])
    {
      assert WeekOk(st, k);
    }
    if numero in st.semanas.entries {
      assert WeekOk(st, numero);
      var j :| 0 <= j < |st.semanas.keys| && st.semanas.keys[j] == numero;
      assert Values(st.semanas)[j] == st.semanas.entries[numero];
    }
  }

  predicate DayNamed(nome: string, d: Day) {
    Matches(d.nome, nome)
  }

  predicate SubtopicNamed(nome: string, s: Subtopic) {
    Matches(s.nome, nome)
  }

  /** `get_dia`: every stored day whose name contains `nome`, ignoring case,
      in insertion order; not found when there is none. */
  function GetDays(st: State, nome: string): (r: Result<seq<Day>>)
    ensures r.Ok? ==> r.value == Filter(st.dias, d => DayNamed(nome, d)) && r.value != []
    ensures r.Err? ==> r.error == NotFound(DayNotFound) && Filter(st.dias, d => DayNamed(nome, d)) == []
  {
    var found := Filter(st.dias, d => DayNamed(nome, d));
    if found != [] then Ok(found) else Err(NotFound(DayNotFound))
  }

  /** `get_subtema`: the same lookup over the subtopics. */
  function GetSubtopics(st: State, nome: string): (r: Result<seq<Subtopic>>)
    ensures r.Ok? ==> r.value == Filter(st.subtemas, s => SubtopicNamed(nome, s)) && r.value != []
    ensures r.Err? ==> r.error == NotFound(SubtopicNotFound) && Filter(st.subtemas, s => SubtopicNamed(nome, s)) == []
  {
    var found := Filter(st.subtemas, s => SubtopicNamed(nome, s));
    if found != [] then Ok(found) else Err(NotFound(SubtopicNotFound))
  }

  /** The five result lists of `buscar`. */
  datatype SearchResults = SearchResults(
    semanas: seq<Week>,
    dias: seq<Day>,
    temas: seq<Topic>,
    subtemas: seq<Subtopic>,
    aulas: seq<Lesson>)

  /** What `buscar` looks at in each kind of record, for a lower-cased term. */
  predicate WeekHit(termo: string, w: Week) {
    Contains(Lower(w.numero), termo) || Contains(Lower(w.periodo), termo)
  }

  predicate DayHit(termo: string, d: Day) {
    Contains(Lower(d.nome), termo) || Contains(Lower(d.areaConhecimento), termo)
  }

  predicate TopicHit(termo: string, t: Topic) {
    Contains(Lower(t.nome), termo)
  }

  predicate SubtopicHit(termo: string, s: Subtopic) {
    Contains(Lower(s.nome), termo)
  }

  predicate LessonHit(termo: string, l: Lesson) {
    Contains(Lower(l.nome), termo)
  }

  /** `buscar`: the term is lower-cased once; an empty term is refused,
      otherwise each map is filtered in insertion order. */
  function Search(st: State, q: string): (r: Result<SearchResults>)
    ensures r.Err? <==> q == ""
    ensures r.Err? ==> r.error == BadRequest(TermRequired) && Status(r.error) == 400
    ensures r.Ok? ==>
      var termo := Lower(q);
      && r.value.semanas == Filter(st.semanas, w => WeekHit(termo, w))
      && r.value.dias == Filter(st.dias, d => DayHit(termo, d))
      && r.value.temas == Filter(st.temas, t => TopicHit(termo, t))
      && r.value.subtemas == Filter(st.subtemas, s => SubtopicHit(termo, s))
      && r.value.aulas == Filter(st.aulas, l => LessonHit(termo, l))
  {
    var termo := Lower(q);
    if termo == "" then
      Err(BadRequest(TermRequired))
    else
      Ok(SearchResults(
        Filter(st.semanas, w => WeekHit(termo, w)),
        Filter(st.dias, d => DayHit(termo, d)),
        Filter(st.temas, t => TopicHit(termo, t)),
        Filter(st.subtemas, s => SubtopicHit(termo, s)),
        Filter(st.aulas, l => LessonHit(termo, l))))
  }

  /** `get_dia` answers not-found exactly when no stored day's name contains
      the searched name; otherwise it answers exactly the matching stored
      days, in insertion order, one entry per matching key (two keys holding
      equal days give two equal entries). */
  lemma GetDaysSpec(st: State, nome: string)
    requires WellFormed(st.dias)
    ensures GetDays(st, nome).Err? <==> forall k :: k in st.dias.entries ==> !DayNamed(nome, st.dias.entries[k])
    ensures GetDays(st, nome).Ok? ==>
      && IsSubseq(GetDays(st, nome).value, Values(st.dias))
      && forall d :: d in GetDays(st, nome).value <==>
           DayNamed(nome, d) && exists k :: k in st.dias.entries && st.dias.entries[k] == d
    ensures GetDays(st, nome).Ok? ==>
      |GetDays(st, nome).value| == CountIf(Values(st.dias), d => DayNamed(nome, d))
  {
    var p := d => DayNamed(nome, d);
    var found := Filter(st.dias, p);
    assert GetDays(st, nome) == if found != [] then Ok(found) else Err(NotFound(DayNotFound));
    FilterEmpty(st.dias, p);
    FilterMembers(st.dias, p);
  }

  /** `get_subtema` answers not-found exactly when no stored subtopic's name
      contains the searched name; otherwise it answers exactly the matching
      stored subtopics, in insertion order, one entry per matching key. */
  lemma GetSubtopicsSpec(st: State, nome: string)
    requires WellFormed(st.subtemas)
    ensures GetSubtopics(st, nome).Err? <==> forall k :: k in st.subtemas.entries ==> !SubtopicNamed(nome, st.subtemas.entries[k])
    ensures GetSubtopics(st, nome).Ok? ==>
      && IsSubseq(GetSubtopics(st, nome).value, Values(st.subtemas))
      && forall s :: s in GetSubtopics(st, nome).value <==>
           SubtopicNamed(nome, s) && exists k :: k in st.subtemas.entries && st.subtemas.entries[k] == s
    ensures GetSubtopics(st, nome).Ok? ==>
      |GetSubtopics(st, nome).value| == CountIf(Values(st.subtemas), s => SubtopicNamed(nome, s))
  {
    var p := s => SubtopicNamed(nome, s);
    var found := Filter(st.subtemas, p);
    assert GetSubtopics(st, nome) == if found != [] then Ok(found) else Err(NotFound(SubtopicNotFound));
    FilterEmpty(st.subtemas, p);
    FilterMembers(st.subtemas, p);
  }

  /** An empty name is contained in every name, so it finds every day. */
  lemma GetDaysEmptyName(st: State)
    requires WellFormed(st.dias)
    ensures GetDays(st, "").Ok? <==> st.dias.keys != []
  {
    GetDaysSpec(st, "");
    forall k | k in st.dias.entries ensures DayNamed("", st.dias.entries[k]) {
      ContainsEmpty(Lower(st.dias.entries[k].nome));
    }
    if st.dias.keys != [] {
      assert st.dias.keys[0] in st.dias.entries;
    }
  }

  /** Each list `buscar` returns keeps the insertion order of its map. */
  lemma SearchOrder(st: State, q: string)
    requires q != ""
    ensures Search(st, q).Ok?
    ensures var res := Search(st, q).value;
      && IsSubseq(res.semanas, Values(st.semanas))
      && IsSubseq(res.dias, Values(st.dias))
      && IsSubseq(res.temas, Values(st.temas))
      && IsSubseq(res.subtemas, Values(st.subtemas))
      && IsSubseq(res.aulas, Values(st.aulas))
  {
  }

  /** The weeks and days `buscar` returns are exactly the stored ones whose
      number or period, name or knowledge area, contain the lower-cased term,
      one entry per matching key. */
  lemma SearchWeeksDays(st: State, q: string)
    requires MapsOk(st) && q != ""
    ensures Search(st, q).Ok?
    ensures var res := Search(st, q).value; var termo := Lower(q);
      && (forall w :: w in res.semanas <==> WeekHit(termo, w) && exists k :: k in st.semanas.entries && st.semanas.entries[k] == w)
      && (forall d :: d in res.dias <==> DayHit(termo, d) && exists k :: k in st.dias.entries && st.dias.entries[k] == d)
      && |res.semanas| == CountIf(Values(st.semanas), w => WeekHit(termo, w))
      && |res.dias| == CountIf(Values(st.dias), d => DayHit(termo, d))
  {
    SearchWeeks(st, q);
    SearchDays(st, q);
  }

  lemma SearchWeeks(st: State, q: string)
    requires WellFormed(st.semanas) && q != ""
    ensures Search(st, q).Ok?
    ensures forall w :: w in Search(st, q).value.semanas <==>
      WeekHit(Lower(q), w) && exists k :: k in st.semanas.entries && st.semanas.entries[k] == w
    ensures |Search(st, q).value.semanas| == CountIf(Values(st.semanas), w => WeekHit(Lower(q), w))
  {
    var termo := Lower(q);
    FilterMembers(st.semanas, w => WeekHit(termo, w));
  }

  lemma SearchDays(st: State, q: string)
    requires WellFormed(st.dias) && q != ""
    ensures Search(st, q).Ok?
    ensures forall d :: d in Search(st, q).value.dias <==>
      DayHit(Lower(q), d) && exists k :: k in st.dias.entries && st.dias.entries[k] == d
    ensures |Search(st, q).value.dias| == CountIf(Values(st.dias), d => DayHit(Lower(q), d))
  {
    var termo := Lower(q);
    FilterMembers(st.dias, d => DayHit(termo, d));
  }

  /** The topics, subtopics and lessons `buscar` returns are exactly the
      stored ones whose name contains the lower-cased term, one entry per
      matching key. */
  lemma SearchByName(st: State, q: string)
    requires MapsOk(st) && q != ""
    ensures Search(st, q).Ok?
    ensures var res := Search(st, q).value; var termo := Lower(q);
      && (forall t :: t in res.temas <==> TopicHit(termo, t) && exists k :: k in st.temas.entries && st.temas.entries[k] == t)
      && (forall s :: s in res.subtemas <==> SubtopicHit(termo, s) && exists k :: k in st.subtemas.entries && st.subtemas.entries[k] == s)
      && (forall l :: l in res.aulas <==> LessonHit(termo, l) && exists k :: k in st.aulas.entries && st.aulas.entries[k] == l)
      && |res.temas| == CountIf(Values(st.temas), t => TopicHit(termo, t))
      && |res.subtemas| == CountIf(Values(st.subtemas), s => SubtopicHit(termo, s))
      && |res.aulas| == CountIf(Values(st.aulas), l => LessonHit(termo, l))
  {
    SearchTopics(st, q);
    SearchSubtopics(st, q);
    SearchLessons(st, q);
  }

  lemma SearchTopics(st: State, q: string)
    requires WellFormed(st.temas) && q != ""
    ensures Search(st, q).Ok?
    ensures forall t :: t in Search(st, q).value.temas <==>
      TopicHit(Lower(q), t) && exists k :: k in st.temas.entries && st.temas.entries[k] == t
    ensures |Search(st, q).value.temas| == CountIf(Values(st.temas), t => TopicHit(Lower(q), t))
  {
    var termo := Lower(q);
    FilterMembers(st.temas, t => TopicHit(termo, t));
  }

  lemma SearchSubtopics(st: State, q: string)
    requires WellFormed(st.subtemas) && q != ""
    ensures Search(st, q).Ok?
    ensures forall s :: s in Search(st, q).value.subtemas <==>
      SubtopicHit(Lower(q), s) && exists k :: k in st.subtemas.entries && st.subtemas.entries[k] == s
    ensures |Search(st, q).value.subtemas| == CountIf(Values(st.subtemas), s => SubtopicHit(Lower(q), s))
  {
    var termo := Lower(q);
    FilterMembers(st.subtemas, s => SubtopicHit(termo, s));
  }

  lemma SearchLessons(st: State, q: string)
    requires WellFormed(st.aulas) && q != ""
    ensures Search(st, q).Ok?
    ensures forall l :: l in Search(st, q).value.aulas <==>
      LessonHit(Lower(q), l) && exists k :: k in st.aulas.entries && st.aulas.entries[k] == l
    ensures |Search(st, q).value.aulas| == CountIf(Values(st.aulas), l => LessonHit(Lower(q), l))
  {
    var termo := Lower(q);
    FilterMembers(st.aulas, l => LessonHit(termo, l));
  }

  /** Only an empty term is refused: a term of spaces is searched for as it
      is, because the term is lower-cased but not stripped. */
  lemma SearchBlankTerm(st: State)
    ensures Search(st, "").Err?
    ensures Search(st, " ").Ok?
  {
  }

  /** The term is compared in lower case only, so searching for its
      lower-cased form gives the same answer. */
  lemma SearchLowerTerm(st: State, q: string)
    ensures Search(st, Lower(q)) == Search(st, q)
  {
    LowerIdempotent(q);
  }

  /** Searching for a stored week's own number finds that week. */
  lemma SearchFindsWeekByNumber(st: State, k: string)
    requires WellFormed(st.semanas)
    requires k in st.semanas.entries && st.semanas.entries[k].numero != ""
    ensures var w := st.semanas.entries[k];
      Search(st, w.numero).Ok? && w in Search(st, w.numero).value.semanas
  {
    var w := st.semanas.entries[k];
    var n := Lower(w.numero);
    ContainsInfix([], n, []);
    assert [] + n + [] == n;
    SearchWeeks(st, w.numero);
  }
}
