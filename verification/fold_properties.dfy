/**
 What the whole fold over the rows of every file produces: at each of the
 five levels the keys are the keys the rows name, without repeats, in the
 order in which each was first named. Also how composite keys can and
 cannot collide.
 */
module FoldProperties {
  import opened Text
  import opened Seqs
  import opened OrderedMaps
  import opened Schedule
  import opened ScheduleProofs
  import opened RowProperties

  /** The five maps of the schedule. */
  datatype Level = Weeks | Days | Topics | Subtopics | Lessons

  /** The key sequence of one map. */
  function Keys(st: State, lv: Level): seq<string> {
    match lv
    case Weeks => st.semanas.keys
    case Days => st.dias.keys
    case Topics => st.temas.keys
    case Subtopics => st.subtemas.keys
    case Lessons => st.aulas.keys
  }

  /** The cell that must be non-empty for a row to file something at a level. */
  function LabelOf(f: Fields, lv: Level): string {
    match lv
    case Weeks => f.semana
    case Days => f.dia
    case Topics => f.temaPrincipal
    case Subtopics => f.subtema
    case Lessons => f.aula
  }

  /** The key a row files under at a level. */
  function KeyOf(f: Fields, lv: Level): string {
    match lv
    case Weeks => f.semana
    case Days => DayKey(f)
    case Topics => TopicKey(f)
    case Subtopics => SubtopicKey(f)
    case Lessons => LessonKey(f)
  }

  /** The keys the rows name at a level, in row order, repeats included. */
  function RowKeys(rows: seq<Row>, lv: Level): seq<string>
    decreases |rows|
  {
    if rows == [] then []
    else
      var f := Normalize(rows[|rows| - 1]);
      RowKeys(rows[..|rows| - 1], lv) + (if LabelOf(f, lv) != "" then [KeyOf(f, lv)] else [])
  }

  /** One row appends its key to a level exactly when its label is non-empty
      and the key is not there yet. */
  lemma ProcessFieldsKeys(st: State, f: Fields, lv: Level)
    requires Valid(st)
    ensures Keys(ProcessFields(st, f), lv) ==
      Keys(st, lv) + (if LabelOf(f, lv) != "" && KeyOf(f, lv) !in Keys(st, lv) then [KeyOf(f, lv)] else [])
  {
    var st' := ProcessFields(st, f);
    var k := KeyOf(f, lv);
    var added := if LabelOf(f, lv) != "" && k !in Keys(st, lv) then [k] else [];
    match lv
    case Weeks =>
      assert st'.semanas.keys == st.semanas.keys + added by { ProcessFieldsWeekKeys(st, f); }
    case Days =>
      assert st'.dias.keys == st.dias.keys + added by { ProcessFieldsDay(st, f); }
    case Topics =>
      assert st'.temas.keys == st.temas.keys + added by { ProcessFieldsTopic(st, f); }
    case Subtopics =>
      assert st'.subtemas.keys == st.subtemas.keys + added by { ProcessFieldsSubtopic(st, f); }
    case Lessons =>
      assert st'.aulas.keys == st.aulas.keys + added by { ProcessFieldsLesson(st, f); }
  }

  lemma DedupSnoc<T>(s: seq<T>, x: T)
    ensures Dedup(s + [x]) == if x in s then Dedup(s) else Dedup(s) + [x]
  {
    assert (s + [x])[..|s|] == s;
    assert x in Dedup(s) <==> x in s by {
      if x in s {
        var i :| 0 <= i < |s| && s[i] == x;
      }
    }
  }

  /** Each level of a built schedule lists the keys named by the rows, each
      once, in the order in which a row first named it: a record is created
      at most once per key and never removed. */
  lemma {:induction false} BuildKeys(rows: seq<Row>, lv: Level)
    ensures Keys(Build(rows), lv) == Dedup(RowKeys(rows, lv))
    decreases |rows|
  {
    if rows != [] {
      var pre := rows[..|rows| - 1];
      var f := Normalize(rows[|rows| - 1]);
      BuildKeys(pre, lv);
      BuildValid(pre);
      KeysStep(Build(pre), f, lv, RowKeys(pre, lv));
    }
  }

  /** The induction step of `BuildKeys`: one more row extends the
      de-duplicated key list by its key, if non-empty and new. */
  lemma KeysStep(st: State, f: Fields, lv: Level, ks: seq<string>)
    requires Valid(st) && Keys(st, lv) == Dedup(ks)
    ensures Keys(ProcessFields(st, f), lv) == Dedup(ks + (if LabelOf(f, lv) != "" then [KeyOf(f, lv)] else []))
  {
    var k := KeyOf(f, lv);
    ProcessFieldsKeys(st, f, lv);
    if LabelOf(f, lv) != "" {
      DedupSnoc(ks, k);
      if k in ks {
        var i :| 0 <= i < |ks| && ks[i] == k;
      }
    } else {
      assert ks + [] == ks;
    }
  }

  /** The separator can merge two different paths: week "A_B" with day "C"
      and week "A" with day "B_C" are filed under the same day key. */
  lemma KeyCollision()
    ensures JoinKey("A_B", "C") == JoinKey("A", "B_C")
  {
  }

  /** Keys do not collide when the labels being appended hold no separator:
      the last separator of a key then marks where the parent key ends. */
  lemma JoinKeyInjective(p: string, o: string, p': string, o': string)
    requires Separator !in o && Separator !in o'
    requires JoinKey(p, o) == JoinKey(p', o')
    ensures p == p' && o == o'
  {
    var s := JoinKey(p, o);
    SeparatorInLonger(p, o, p', o');
    SeparatorInLonger(p', o', p, o);
    assert o == s[|s| - |o|..] == o';
    assert p == s[..|p|] == p';
  }

  /** Of two labels that end the same key, the longer one holds the
      separator that precedes the shorter. */
  lemma SeparatorInLonger(p: string, o: string, p': string, o': string)
    requires JoinKey(p, o) == JoinKey(p', o')
    ensures |o| < |o'| ==> Separator in o'
  {
    if |o| < |o'| {
      var s := JoinKey(p, o);
      assert s[|s| - |o| - 1] == Separator;
      assert o'[|o'| - |o| - 1] == s[|s| - |o| - 1];
    }
  }

  /** In a valid schedule no week, day or topic lists the same child twice. */
  lemma ChildListsDistinct(st: State)
    requires Valid(st)
    ensures forall w :: w in st.semanas.entries ==> Distinct(st.semanas.entries[w].dias)
    ensures forall d :: d in st.dias.entries ==> Distinct(st.dias.entries[d].temas)
    ensures forall t :: t in st.temas.entries ==> Distinct(st.temas.entries[t].subtemas)
  {
    forall w | w in st.semanas.entries ensures Distinct(st.semanas.entries[w].dias) {
      assert WeekOk(st, w);
      SubseqDistinct(st.semanas.entries[w].dias, st.dias.keys);
    }
    forall d | d in st.dias.entries ensures Distinct(st.dias.entries[d].temas) {
      assert DayOk(st, d);
      SubseqDistinct(st.dias.entries[d].temas, st.temas.keys);
    }
    forall t | t in st.temas.entries ensures Distinct(st.temas.entries[t].subtemas) {
      assert TopicOk(st, t);
      SubseqDistinct(st.temas.entries[t].subtemas, st.subtemas.keys);
    }
  }
}
