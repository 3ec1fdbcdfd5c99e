/**
 What folding rows into the schedule guarantees: the invariant `Valid` holds
 after every row, nothing recorded is ever lost or relabelled, and each level
 is created at most once per key and linked to its parent only then.
 */
module ScheduleProofs {
  import opened Text
  import opened Seqs
  import opened OrderedMaps
  import opened Schedule

  // ----- Frame lemmas: a record stays well-formed while the maps it points into only grow -----

  lemma WeekOkFrame(st: State, st': State, w: string)
    requires w in st.semanas.entries && WeekOk(st, w)
    requires w in st'.semanas.entries && st'.semanas.entries[w] == st.semanas.entries[w]
    requires st.dias.keys <= st'.dias.keys
    requires forall d :: d in st.dias.entries ==> d in st'.dias.entries && st'.dias.entries[d].nome == st.dias.entries[d].nome
    ensures WeekOk(st', w)
  {
    SubseqPrefix(st.semanas.entries[w].dias, st.dias.keys, st'.dias.keys);
  }

  lemma DayOkFrame(st: State, st': State, d: string)
    requires d in st.dias.entries && DayOk(st, d)
    requires d in st'.dias.entries && st'.dias.entries[d] == st.dias.entries[d]
    requires st.temas.keys <= st'.temas.keys
    requires forall t :: t in st.temas.entries ==> t in st'.temas.entries && st'.temas.entries[t].nome == st.temas.entries[t].nome
    ensures DayOk(st', d)
  {
    SubseqPrefix(st.dias.entries[d].temas, st.temas.keys, st'.temas.keys);
  }

  lemma TopicOkFrame(st: State, st': State, t: string)
    requires t in st.temas.entries && TopicOk(st, t)
    requires t in st'.temas.entries && st'.temas.entries[t] == st.temas.entries[t]
    requires st.subtemas.keys <= st'.subtemas.keys
    requires forall s :: s in st.subtemas.entries ==> s in st'.subtemas.entries && st'.subtemas.entries[s].nome == st.subtemas.entries[s].nome
    ensures TopicOk(st', t)
  {
    SubseqPrefix(st.temas.entries[t].subtemas, st.subtemas.keys, st'.subtemas.keys);
  }

  lemma SubtopicOkFrame(st: State, st': State, s: string)
    requires s in st.subtemas.entries && SubtopicOk(st, s)
    requires s in st'.subtemas.entries && st'.subtemas.entries[s] == st.subtemas.entries[s]
    requires forall l :: l in st.aulas.entries ==> l in st'.aulas.entries
    ensures SubtopicOk(st', s)
  {
  }

  // ----- A part of the invariant holds while the fields it reads are unchanged -----

  lemma WeeksSame(st: State, st': State)
    requires WeeksOk(st)
    requires st'.semanas == st.semanas && st'.dias == st.dias
    ensures WeeksOk(st')
  {
    forall w | w in st'.semanas.entries ensures WeekOk(st', w) {
      assert WeekOk(st, w);
    }
  }

  lemma DaysSame(st: State, st': State)
    requires DaysOk(st)
    requires st'.dias == st.dias && st'.temas == st.temas
    ensures DaysOk(st')
  {
    forall d | d in st'.dias.entries ensures DayOk(st', d) {
      assert DayOk(st, d);
    }
  }

  lemma TopicsSame(st: State, st': State)
    requires TopicsOk(st)
    requires st'.temas == st.temas && st'.subtemas == st.subtemas
    ensures TopicsOk(st')
  {
    forall t | t in st'.temas.entries ensures TopicOk(st', t) {
      assert TopicOk(st, t);
    }
  }

  lemma SubtopicsSame(st: State, st': State)
    requires SubtopicsOk(st)
    requires st'.subtemas == st.subtemas && st'.aulas == st.aulas
    ensures SubtopicsOk(st')
  {
    forall s | s in st'.subtemas.entries ensures SubtopicOk(st', s) {
      assert SubtopicOk(st, s);
    }
  }

  // ----- Each level keeps the invariant -----

  lemma AddWeekValid(st: State, semana: string)
    requires Valid(st)
    ensures Valid(AddWeek(st, semana))
  {
    var st' := AddWeek(st, semana);
    if semana != "" && semana !in st.semanas.entries {
      forall w | w in st'.semanas.entries ensures WeekOk(st', w) {
        if w != semana {
          WeekOkFrame(st, st', w);
        }
      }
      DaysSame(st, st');
      TopicsSame(st, st');
      SubtopicsSame(st, st');
    }
  }

  lemma AddDayParent(st: State, semana: string, dia: string)
    requires semana in st.semanas.entries && WeekOk(st, semana)
    requires dia != "" && JoinKey(semana, dia) !in st.dias.entries
    ensures WeekOk(AddDay(st, semana, dia), semana)
  {
    var k := JoinKey(semana, dia);
    var st' := AddDay(st, semana, dia);
    var old_ := st.semanas.entries[semana].dias;
    assert st'.dias.keys == st.dias.keys + [k];
    assert st'.semanas.entries[semana].dias == old_ + [k];
    SubseqExtend(old_, st.dias.keys, k);
    var new_ := old_ + [k];
    forall i | 0 <= i < |new_|
      ensures new_[i] in st'.dias.entries && new_[i] == JoinKey(semana, st'.dias.entries[new_[i]].nome)
    {
      if i < |old_| {
        assert new_[i] == old_[i] && old_[i] in st.dias.entries;
      }
    }
  }

  lemma AddDayWeeks(st: State, semana: string, dia: string)
    requires WeeksOk(st)
    requires dia != "" && JoinKey(semana, dia) !in st.dias.entries
    ensures WeeksOk(AddDay(st, semana, dia))
  {
    var k := JoinKey(semana, dia);
    var st' := AddDay(st, semana, dia);
    assert st'.dias.keys == st.dias.keys + [k];
    forall w | w in st'.semanas.entries ensures WeekOk(st', w) {
      assert WeekOk(st, w);
      if w == semana {
        AddDayParent(st, semana, dia);
      } else {
        WeekOkFrame(st, st', w);
      }
    }
  }

  lemma AddDayDays(st: State, semana: string, dia: string)
    requires DaysOk(st)
    requires dia != "" && JoinKey(semana, dia) !in st.dias.entries
    ensures DaysOk(AddDay(st, semana, dia))
  {
    var k := JoinKey(semana, dia);
    var st' := AddDay(st, semana, dia);
    forall d | d in st'.dias.entries ensures DayOk(st', d) {
      if d != k {
        DayOkFrame(st, st', d);
      }
    }
  }

  lemma AddDayValid(st: State, semana: string, dia: string)
    requires Valid(st)
    ensures Valid(AddDay(st, semana, dia))
  {
    var st' := AddDay(st, semana, dia);
    if dia != "" && JoinKey(semana, dia) !in st.dias.entries {
      AddDayWeeks(st, semana, dia);
      AddDayDays(st, semana, dia);
      TopicsSame(st, st');
      SubtopicsSame(st, st');
    }
  }

  lemma AddTopicDays(st: State, dayKey: string, tema: string)
    requires DaysOk(st)
    requires tema != "" && JoinKey(dayKey, tema) !in st.temas.entries
    ensures DaysOk(AddTopic(st, dayKey, tema))
  {
    var k := JoinKey(dayKey, tema);
    var st' := AddTopic(st, dayKey, tema);
    assert st'.temas.keys == st.temas.keys + [k];
    forall d | d in st'.dias.entries ensures DayOk(st', d) {
      assert DayOk(st, d);
      if d == dayKey {
        AddTopicParent(st, dayKey, tema);
      } else {
        DayOkFrame(st, st', d);
      }
    }
  }

  lemma AddTopicParent(st: State, dayKey: string, tema: string)
    requires dayKey in st.dias.entries && DayOk(st, dayKey)
    requires tema != "" && JoinKey(dayKey, tema) !in st.temas.entries
    ensures DayOk(AddTopic(st, dayKey, tema), dayKey)
  {
    var k := JoinKey(dayKey, tema);
    var st' := AddTopic(st, dayKey, tema);
    var old_ := st.dias.entries[dayKey].temas;
    assert st'.temas.keys == st.temas.keys + [k];
    assert st'.dias.entries[dayKey].temas == old_ + [k];
    SubseqExtend(old_, st.temas.keys, k);
    var new_ := old_ + [k];
    forall i | 0 <= i < |new_|
      ensures new_[i] in st'.temas.entries && new_[i] == JoinKey(dayKey, st'.temas.entries[new_[i]].nome)
    {
      if i < |old_| {
        assert new_[i] == old_[i] && old_[i] in st.temas.entries;
      }
    }
  }

  lemma AddTopicWeeks(st: State, dayKey: string, tema: string)
    requires WeeksOk(st)
    requires tema != "" && JoinKey(dayKey, tema) !in st.temas.entries
    ensures WeeksOk(AddTopic(st, dayKey, tema))
  {
    var st' := AddTopic(st, dayKey, tema);
    assert st'.dias.keys == st.dias.keys;
    forall w | w in st'.semanas.entries ensures WeekOk(st', w) {
      WeekOkFrame(st, st', w);
    }
  }

  lemma AddTopicTopics(st: State, dayKey: string, tema: string)
    requires TopicsOk(st)
    requires tema != "" && JoinKey(dayKey, tema) !in st.temas.entries
    ensures TopicsOk(AddTopic(st, dayKey, tema))
  {
    var k := JoinKey(dayKey, tema);
    var st' := AddTopic(st, dayKey, tema);
    forall t | t in st'.temas.entries ensures TopicOk(st', t) {
      if t != k {
        TopicOkFrame(st, st', t);
      }
    }
  }

  lemma AddTopicValid(st: State, dayKey: string, tema: string)
    requires Valid(st)
    ensures Valid(AddTopic(st, dayKey, tema))
  {
    var st' := AddTopic(st, dayKey, tema);
    if tema != "" && JoinKey(dayKey, tema) !in st.temas.entries {
      AddTopicWeeks(st, dayKey, tema);
      AddTopicDays(st, dayKey, tema);
      AddTopicTopics(st, dayKey, tema);
      SubtopicsSame(st, st');
    }
  }

  lemma AddSubtopicTopics(st: State, topicKey: string, subtema: string)
    requires TopicsOk(st)
    requires subtema != "" && JoinKey(topicKey, subtema) !in st.subtemas.entries
    ensures TopicsOk(AddSubtopic(st, topicKey, subtema))
  {
    var k := JoinKey(topicKey, subtema);
    var st' := AddSubtopic(st, topicKey, subtema);
    assert st'.subtemas.keys == st.subtemas.keys + [k];
    forall t | t in st'.temas.entries ensures TopicOk(st', t) {
      assert TopicOk(st, t);
      if t == topicKey {
        AddSubtopicParent(st, topicKey, subtema);
      } else {
        TopicOkFrame(st, st', t);
      }
    }
  }

  lemma AddSubtopicParent(st: State, topicKey: string, subtema: string)
    requires topicKey in st.temas.entries && TopicOk(st, topicKey)
    requires subtema != "" && JoinKey(topicKey, subtema) !in st.subtemas.entries
    ensures TopicOk(AddSubtopic(st, topicKey, subtema), topicKey)
  {
    var k := JoinKey(topicKey, subtema);
    var st' := AddSubtopic(st, topicKey, subtema);
    var old_ := st.temas.entries[topicKey].subtemas;
    assert st'.subtemas.keys == st.subtemas.keys + [k];
    assert st'.temas.entries[topicKey].subtemas == old_ + [k];
    SubseqExtend(old_, st.subtemas.keys, k);
    var new_ := old_ + [k];
    forall i | 0 <= i < |new_|
      ensures new_[i] in st'.subtemas.entries && new_[i] == JoinKey(topicKey, st'.subtemas.entries[new_[i]].nome)
    {
      if i < |old_| {
        assert new_[i] == old_[i] && old_[i] in st.subtemas.entries;
      }
    }
  }

  lemma AddSubtopicDays(st: State, topicKey: string, subtema: string)
    requires DaysOk(st)
    requires subtema != "" && JoinKey(topicKey, subtema) !in st.subtemas.entries
    ensures DaysOk(AddSubtopic(st, topicKey, subtema))
  {
    var st' := AddSubtopic(st, topicKey, subtema);
    assert st'.temas.keys == st.temas.keys;
    forall d | d in st'.dias.entries ensures DayOk(st', d) {
      DayOkFrame(st, st', d);
    }
  }

  lemma AddSubtopicSubtopics(st: State, topicKey: string, subtema: string)
    requires SubtopicsOk(st)
    requires subtema != "" && JoinKey(topicKey, subtema) !in st.subtemas.entries
    ensures SubtopicsOk(AddSubtopic(st, topicKey, subtema))
  {
    var k := JoinKey(topicKey, subtema);
    var st' := AddSubtopic(st, topicKey, subtema);
    forall s | s in st'.subtemas.entries ensures SubtopicOk(st', s) {
      if s != k {
        SubtopicOkFrame(st, st', s);
      }
    }
  }

  lemma AddSubtopicValid(st: State, topicKey: string, subtema: string)
    requires Valid(st)
    ensures Valid(AddSubtopic(st, topicKey, subtema))
  {
    var st' := AddSubtopic(st, topicKey, subtema);
    if subtema != "" && JoinKey(topicKey, subtema) !in st.subtemas.entries {
      WeeksSame(st, st');
      AddSubtopicDays(st, topicKey, subtema);
      AddSubtopicTopics(st, topicKey, subtema);
      AddSubtopicSubtopics(st, topicKey, subtema);
    }
  }

  lemma AddLessonTopics(st: State, subtopicKey: string, lesson: Lesson)
    requires TopicsOk(st)
    requires lesson.nome != ""
    ensures TopicsOk(AddLesson(st, subtopicKey, lesson))
  {
    var st' := AddLesson(st, subtopicKey, lesson);
    assert st'.subtemas.keys == st.subtemas.keys;
    forall t | t in st'.temas.entries ensures TopicOk(st', t) {
      TopicOkFrame(st, st', t);
    }
  }

  lemma AddLessonSubtopics(st: State, subtopicKey: string, lesson: Lesson)
    requires SubtopicsOk(st)
    requires lesson.nome != ""
    ensures SubtopicsOk(AddLesson(st, subtopicKey, lesson))
  {
    var st' := AddLesson(st, subtopicKey, lesson);
    forall s | s in st'.subtemas.entries ensures SubtopicOk(st', s) {
      if s != subtopicKey {
        SubtopicOkFrame(st, st', s);
      } else {
        assert SubtopicOk(st, s);
      }
    }
  }

  lemma AddLessonValid(st: State, subtopicKey: string, lesson: Lesson)
    requires Valid(st)
    ensures Valid(AddLesson(st, subtopicKey, lesson))
  {
    var st' := AddLesson(st, subtopicKey, lesson);
    if lesson.nome != "" {
      assert st'.semanas == st.semanas && st'.dias == st.dias && st'.temas == st.temas;
      WeeksSame(st, st');
      DaysSame(st, st');
      AddLessonTopics(st, subtopicKey, lesson);
      AddLessonSubtopics(st, subtopicKey, lesson);
      AddLessonMaps(st, subtopicKey, lesson);
    }
  }

  lemma AddLessonMaps(st: State, subtopicKey: string, lesson: Lesson)
    requires MapsOk(st) && LessonsOk(st)
    requires lesson.nome != ""
    ensures MapsOk(AddLesson(st, subtopicKey, lesson)) && LessonsOk(AddLesson(st, subtopicKey, lesson))
  {
    var st' := AddLesson(st, subtopicKey, lesson);
    assert st'.aulas == Put(st.aulas, JoinKey(subtopicKey, lesson.nome), lesson);
  }

  /** Folding one row keeps the invariant. */
  lemma ProcessFieldsValid(st: State, f: Fields)
    requires Valid(st)
    ensures Valid(ProcessFields(st, f))
  {
    var s1 := AddWeek(st, f.semana);
    AddWeekValid(st, f.semana);
    var s2 := AddDay(s1, f.semana, f.dia);
    AddDayValid(s1, f.semana, f.dia);
    var s3 := AddTopic(s2, DayKey(f), f.temaPrincipal);
    AddTopicValid(s2, DayKey(f), f.temaPrincipal);
    var s4 := AddSubtopic(s3, TopicKey(f), f.subtema);
    AddSubtopicValid(s3, TopicKey(f), f.subtema);
    AddLessonValid(s4, SubtopicKey(f), LessonOf(f));
  }

  /** Every schedule built from rows satisfies the invariant. */
  lemma {:induction false} BuildValid(rows: seq<Row>)
    ensures Valid(Build(rows))
    decreases |rows|
  {
    if rows != [] {
      BuildValid(rows[..|rows| - 1]);
      ProcessFieldsValid(Build(rows[..|rows| - 1]), Normalize(rows[|rows| - 1]));
    }
  }
}

module RowProperties {
  import opened Text
  import opened Seqs
  import opened OrderedMaps
  import opened Schedule

  lemma GrowsTransitive(a: State, b: State, c: State)
    requires Grows(a, b) && Grows(b, c)
    ensures Grows(a, c)
  {
  }

  // ----- What each level touches -----

  lemma AddWeekEffect(st: State, semana: string)
    ensures var st' := AddWeek(st, semana);
      && st'.dias == st.dias && st'.temas == st.temas && st'.subtemas == st.subtemas && st'.aulas == st.aulas
      && Grows(st, st')
  {
  }

  lemma AddDayEffect(st: State, semana: string, dia: string)
    ensures var st' := AddDay(st, semana, dia);
      && st'.temas == st.temas && st'.subtemas == st.subtemas && st'.aulas == st.aulas
      && Grows(st, st')
  {
    var k := JoinKey(semana, dia);
    if dia != "" && k !in st.dias.entries {
      var st1 := st.(dias := Put(st.dias, k, Day(dia, ExtractArea(dia), [])));
      assert Grows(st, st1);
      if semana in st1.semanas.entries {
        var w := st1.semanas.entries[semana];
        var st2 := st1.(semanas := Put(st1.semanas, semana, w.(dias := w.dias + [k])));
        assert Grows(st1, st2);
        GrowsTransitive(st, st1, st2);
      }
    }
  }

  lemma AddTopicEffect(st: State, dayKey: string, tema: string)
    ensures var st' := AddTopic(st, dayKey, tema);
      && st'.semanas == st.semanas && st'.subtemas == st.subtemas && st'.aulas == st.aulas
      && Grows(st, st')
  {
  }

  lemma AddSubtopicEffect(st: State, topicKey: string, subtema: string)
    ensures var st' := AddSubtopic(st, topicKey, subtema);
      && st'.semanas == st.semanas && st'.dias == st.dias && st'.aulas == st.aulas
      && Grows(st, st')
  {
  }

  lemma AddLessonEffect(st: State, subtopicKey: string, lesson: Lesson)
    ensures var st' := AddLesson(st, subtopicKey, lesson);
      && st'.semanas == st.semanas && st'.dias == st.dias && st'.temas == st.temas
      && Grows(st, st')
  {
  }

  // ----- What each level does to its own map and to its parent's child list -----

  lemma AddWeekLinks(st: State, semana: string)
    ensures var st' := AddWeek(st, semana);
      var created := semana != "" && semana !in st.semanas.entries;
      && st'.semanas.keys == st.semanas.keys + (if created then [semana] else [])
      && (forall w :: w in st'.semanas.entries <==> w in st.semanas.entries || (created && w == semana))
      && (created ==> st'.semanas.entries[semana] == Week(semana, ExtractPeriod(semana), []))
      && (forall w :: w in st.semanas.entries ==> st'.semanas.entries[w] == st.semanas.entries[w])
  {
  }

  lemma AddDayLinks(st: State, semana: string, dia: string)
    ensures var st' := AddDay(st, semana, dia);
      var k := JoinKey(semana, dia);
      var created := dia != "" && k !in st.dias.entries;
      && st'.dias.keys == st.dias.keys + (if created then [k] else [])
      && (forall d :: d in st'.dias.entries <==> d in st.dias.entries || (created && d == k))
      && (created ==> st'.dias.entries[k] == Day(dia, ExtractArea(dia), []))
      && (forall d :: d in st.dias.entries ==> st'.dias.entries[d] == st.dias.entries[d])
      && st'.semanas.keys == st.semanas.keys
      && (forall w :: w in st'.semanas.entries <==> w in st.semanas.entries)
      && (forall w :: w in st.semanas.entries ==>
            st'.semanas.entries[w] == st.semanas.entries[w].(dias := st.semanas.entries[w].dias + (if created && w == semana then [k] else [])))
  {
  }

  lemma AddTopicLinks(st: State, dayKey: string, tema: string)
    ensures var st' := AddTopic(st, dayKey, tema);
      var k := JoinKey(dayKey, tema);
      var created := tema != "" && k !in st.temas.entries;
      && st'.temas.keys == st.temas.keys + (if created then [k] else [])
      && (forall t :: t in st'.temas.entries <==> t in st.temas.entries || (created && t == k))
      && (created ==> st'.temas.entries[k] == Topic(tema, []))
      && (forall t :: t in st.temas.entries ==> st'.temas.entries[t] == st.temas.entries[t])
      && st'.dias.keys == st.dias.keys
      && (forall d :: d in st'.dias.entries <==> d in st.dias.entries)
      && (forall d :: d in st.dias.entries ==>
            st'.dias.entries[d] == st.dias.entries[d].(temas := st.dias.entries[d].temas + (if created && d == dayKey then [k] else [])))
  {
  }

  lemma AddSubtopicLinks(st: State, topicKey: string, subtema: string)
    ensures var st' := AddSubtopic(st, topicKey, subtema);
      var k := JoinKey(topicKey, subtema);
      var created := subtema != "" && k !in st.subtemas.entries;
      && st'.subtemas.keys == st.subtemas.keys + (if created then [k] else [])
      && (forall s :: s in st'.subtemas.entries <==> s in st.subtemas.entries || (created && s == k))
      && (created ==> st'.subtemas.entries[k] == Subtopic(subtema, []))
      && (forall s :: s in st.subtemas.entries ==> st'.subtemas.entries[s] == st.subtemas.entries[s])
      && st'.temas.keys == st.temas.keys
      && (forall t :: t in st'.temas.entries <==> t in st.temas.entries)
      && (forall t :: t in st.temas.entries ==>
            st'.temas.entries[t] == st.temas.entries[t].(subtemas := st.temas.entries[t].subtemas + (if created && t == topicKey then [k] else [])))
  {
  }

  lemma AddLessonLinks(st: State, subtopicKey: string, lesson: Lesson)
    ensures var st' := AddLesson(st, subtopicKey, lesson);
      var k := JoinKey(subtopicKey, lesson.nome);
      && (lesson.nome == "" ==> st'.aulas == st.aulas)
      && (lesson.nome != "" ==>
            && st'.aulas.entries == st.aulas.entries[k := lesson]
            && st'.aulas.keys == st.aulas.keys + (if k in st.aulas.entries then [] else [k]))
      && st'.subtemas.keys == st.subtemas.keys
      && (forall s :: s in st'.subtemas.entries <==> s in st.subtemas.entries)
      && (forall s :: s in st.subtemas.entries ==>
            st'.subtemas.entries[s] == st.subtemas.entries[s].(aulas := st.subtemas.entries[s].aulas + (if lesson.nome != "" && s == subtopicKey then [lesson] else [])))
  {
  }

  /** The intermediate states of `ProcessFields`, with what each level leaves alone. */
  lemma Stages(st: State, f: Fields) returns (s1: State, s2: State, s3: State, s4: State)
    ensures && s1 == AddWeek(st, f.semana)
            && s2 == AddDay(s1, f.semana, f.dia)
            && s3 == AddTopic(s2, DayKey(f), f.temaPrincipal)
            && s4 == AddSubtopic(s3, TopicKey(f), f.subtema)
            && ProcessFields(st, f) == AddLesson(s4, SubtopicKey(f), LessonOf(f))
    ensures var st' := ProcessFields(st, f);
      && s1.dias == st.dias && s1.temas == st.temas && s1.subtemas == st.subtemas && s1.aulas == st.aulas
      && s2.temas == s1.temas && s2.subtemas == s1.subtemas && s2.aulas == s1.aulas
      && s3.semanas == s2.semanas && s3.subtemas == s2.subtemas && s3.aulas == s2.aulas
      && s4.semanas == s3.semanas && s4.dias == s3.dias && s4.aulas == s3.aulas
      && st'.semanas == s4.semanas && st'.dias == s4.dias && st'.temas == s4.temas
      && Grows(st, s1) && Grows(s1, s2) && Grows(s2, s3) && Grows(s3, s4) && Grows(s4, st')
  {
    s1 := AddWeek(st, f.semana);
    s2 := AddDay(s1, f.semana, f.dia);
    s3 := AddTopic(s2, DayKey(f), f.temaPrincipal);
    s4 := AddSubtopic(s3, TopicKey(f), f.subtema);
    AddWeekEffect(st, f.semana);
    AddDayEffect(s1, f.semana, f.dia);
    AddTopicEffect(s2, DayKey(f), f.temaPrincipal);
    AddSubtopicEffect(s3, TopicKey(f), f.subtema);
    AddLessonEffect(s4, SubtopicKey(f), LessonOf(f));
  }

  /** Processing a row never removes a key, never reorders the keys already
      present, and never changes the label of a stored week, day, topic or
      subtopic (nor a week's period or a day's knowledge area). */
  lemma ProcessFieldsGrows(st: State, f: Fields)
    ensures Grows(st, ProcessFields(st, f))
  {
    var s1, s2, s3, s4 := Stages(st, f);
    var st' := ProcessFields(st, f);
    GrowsTransitive(st, s1, s2);
    GrowsTransitive(st, s2, s3);
    GrowsTransitive(st, s3, s4);
    GrowsTransitive(st, s4, st');
  }

  /** A row whose week, day, topic, subtopic and lesson cells are all empty
      after cleaning leaves the schedule as it was, whatever its links say. */
  lemma ProcessRowBlank(st: State, row: Row)
    requires var f := Normalize(row);
      f.semana == "" && f.dia == "" && f.temaPrincipal == "" && f.subtema == "" && f.aula == ""
    ensures ProcessRow(st, row) == st
  {
  }

  /** The week map after the week and day steps of a row. */
  lemma WeekAndDay(st: State, semana: string, dia: string)
    ensures var st' := AddDay(AddWeek(st, semana), semana, dia);
      var created := semana != "" && semana !in st.semanas.entries;
      && (semana != "" ==> semana in st'.semanas.entries)
      && (created ==>
            && st'.semanas.entries[semana].numero == semana
            && st'.semanas.entries[semana].periodo == ExtractPeriod(semana))
      && st'.semanas.keys == st.semanas.keys + (if created then [semana] else [])
      && (forall w :: w in st'.semanas.entries <==> w in st.semanas.entries || (created && w == semana))
      && (forall w :: w in st.semanas.entries ==>
            && st'.semanas.entries[w].numero == st.semanas.entries[w].numero
            && st'.semanas.entries[w].periodo == st.semanas.entries[w].periodo)
  {
    var s1 := AddWeek(st, semana);
    AddWeekLinks(st, semana);
    AddDayLinks(s1, semana, dia);
  }

  /** A row with a non-empty week leaves a week under that label: a new one,
      appended to the week keys, whose number is the label and whose period
      is extracted from it; a week already present keeps its number and
      period (only its day list may grow). */
  lemma ProcessFieldsWeekKeys(st: State, f: Fields)
    ensures var st' := ProcessFields(st, f);
      var created := f.semana != "" && f.semana !in st.semanas.entries;
      && (f.semana != "" ==> f.semana in st'.semanas.entries)
      && (created ==>
            && st'.semanas.entries[f.semana].numero == f.semana
            && st'.semanas.entries[f.semana].periodo == ExtractPeriod(f.semana))
      && st'.semanas.keys == st.semanas.keys + (if created then [f.semana] else [])
      && (forall w :: w in st'.semanas.entries <==> w in st.semanas.entries || (created && w == f.semana))
      && (forall w :: w in st.semanas.entries ==>
            && st'.semanas.entries[w].numero == st.semanas.entries[w].numero
            && st'.semanas.entries[w].periodo == st.semanas.entries[w].periodo)
  {
    var s1, s2, s3, s4 := Stages(st, f);
    assert ProcessFields(st, f).semanas == s2.semanas;
    WeekAndDay(st, f.semana, f.dia);
  }

  /** In a schedule that keeps the invariant, a row with a non-empty week
      `W` leaves `semanas[W]` with number `W` and the period extracted from
      `W`, whether it was created now or earlier. */
  lemma ProcessFieldsWeek(st: State, f: Fields)
    requires WeeksOk(st)
    ensures var st' := ProcessFields(st, f);
      f.semana != "" ==>
        && f.semana in st'.semanas.entries
        && st'.semanas.entries[f.semana].numero == f.semana
        && st'.semanas.entries[f.semana].periodo == ExtractPeriod(f.semana)
  {
    ProcessFieldsWeekKeys(st, f);
    if f.semana != "" && f.semana in st.semanas.entries {
      assert WeekOk(st, f.semana);
    }
  }

  /** A row with a non-empty day whose key is new appends that key to the
      day keys and stores a day named after the cell, with its extracted
      area; the key is appended to the row's week's day list, and to no
      other, exactly when the day is new and the week exists by then. */
  lemma ProcessFieldsDay(st: State, f: Fields)
    ensures var st' := ProcessFields(st, f);
      var k := DayKey(f);
      var created := f.dia != "" && k !in st.dias.entries;
      && st'.dias.keys == st.dias.keys + (if created then [k] else [])
      && (forall d :: d in st'.dias.entries <==> d in st.dias.entries || (created && d == k))
      && (created ==> && k in st'.dias.entries
                      && st'.dias.entries[k].nome == f.dia
                      && st'.dias.entries[k].areaConhecimento == ExtractArea(f.dia))
      && (forall w :: w in st'.semanas.entries ==>
            st'.semanas.entries[w].dias ==
              (if w in st.semanas.entries then st.semanas.entries[w].dias else [])
              + (if created && w == f.semana then [k] else []))
  {
    var s1, s2, s3, s4 := Stages(st, f);
    var k := DayKey(f);
    AddWeekLinks(st, f.semana);
    AddDayLinks(s1, f.semana, f.dia);
    AddTopicLinks(s2, k, f.temaPrincipal);
    assert ProcessFields(st, f).semanas == s2.semanas;
    assert ProcessFields(st, f).dias.keys == s2.dias.keys;
  }

  /** The same for topics: a new topic key is appended once, and only to the
      list of the row's day, when that day exists by then. */
  lemma ProcessFieldsTopic(st: State, f: Fields)
    ensures var st' := ProcessFields(st, f);
      var k := TopicKey(f);
      var created := f.temaPrincipal != "" && k !in st.temas.entries;
      && st'.temas.keys == st.temas.keys + (if created then [k] else [])
      && (forall x :: x in st'.temas.entries <==> x in st.temas.entries || (created && x == k))
      && (created ==> k in st'.temas.entries && st'.temas.entries[k].nome == f.temaPrincipal)
      && (forall d :: d in st'.dias.entries ==>
            st'.dias.entries[d].temas ==
              (if d in st.dias.entries then st.dias.entries[d].temas else [])
              + (if created && d == DayKey(f) then [k] else []))
  {
    var s1, s2, s3, s4 := Stages(st, f);
    AddDayLinks(s1, f.semana, f.dia);
    AddTopicLinks(s2, DayKey(f), f.temaPrincipal);
    AddSubtopicLinks(s3, TopicKey(f), f.subtema);
    assert ProcessFields(st, f).dias == s3.dias;
    assert ProcessFields(st, f).temas.keys == s3.temas.keys;
  }

  /** The same for subtopics, under the row's topic. */
  lemma ProcessFieldsSubtopic(st: State, f: Fields)
    ensures var st' := ProcessFields(st, f);
      var k := SubtopicKey(f);
      var created := f.subtema != "" && k !in st.subtemas.entries;
      && st'.subtemas.keys == st.subtemas.keys + (if created then [k] else [])
      && (forall x :: x in st'.subtemas.entries <==> x in st.subtemas.entries || (created && x == k))
      && (created ==> k in st'.subtemas.entries && st'.subtemas.entries[k].nome == f.subtema)
      && (forall t :: t in st'.temas.entries ==>
            st'.temas.entries[t].subtemas ==
              (if t in st.temas.entries then st.temas.entries[t].subtemas else [])
              + (if created && t == TopicKey(f) then [k] else []))
  {
    var s1, s2, s3, s4 := Stages(st, f);
    AddTopicLinks(s2, DayKey(f), f.temaPrincipal);
    AddSubtopicLinks(s3, TopicKey(f), f.subtema);
    AddLessonLinks(s4, SubtopicKey(f), LessonOf(f));
    assert ProcessFields(st, f).temas == s4.temas;
  }

  /** Lessons are last-write-wins and append-always: a non-empty lesson cell
      stores the row's lesson under its key, replacing any earlier one (the
      key keeps its place), and appends the lesson to the row's subtopic's
      list whenever that subtopic exists, whether or not the key was new.
      An empty lesson cell leaves the lessons and every lesson list alone. */
  lemma ProcessFieldsLesson(st: State, f: Fields)
    ensures var st' := ProcessFields(st, f);
      var k := LessonKey(f);
      && (f.aula == "" ==> st'.aulas == st.aulas)
      && (f.aula != "" ==>
            && st'.aulas.entries == st.aulas.entries[k := LessonOf(f)]
            && st'.aulas.keys == st.aulas.keys + (if k in st.aulas.entries then [] else [k]))
      && (forall s :: s in st'.subtemas.entries ==>
            st'.subtemas.entries[s].aulas ==
              (if s in st.subtemas.entries then st.subtemas.entries[s].aulas else [])
              + (if f.aula != "" && s == SubtopicKey(f) then [LessonOf(f)] else []))
  {
    var s1, s2, s3, s4 := Stages(st, f);
    AddSubtopicLinks(s3, TopicKey(f), f.subtema);
    AddLessonLinks(s4, SubtopicKey(f), LessonOf(f));
    assert s4.aulas == st.aulas;
    assert s3.subtemas == st.subtemas;
  }

  /** The lesson-map part of `ProcessFieldsLesson` alone. */
  lemma ProcessFieldsLessonMap(st: State, f: Fields)
    ensures var st' := ProcessFields(st, f);
      var k := LessonKey(f);
      && (f.aula == "" ==> st'.aulas == st.aulas)
      && (f.aula != "" ==>
            && st'.aulas.entries == st.aulas.entries[k := LessonOf(f)]
            && st'.aulas.keys == st.aulas.keys + (if k in st.aulas.entries then [] else [k]))
  {
    var s1, s2, s3, s4 := Stages(st, f);
    AddLessonLinks(s4, SubtopicKey(f), LessonOf(f));
    assert s4.aulas == st.aulas;
  }
}
