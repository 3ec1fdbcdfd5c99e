/**
 Concrete schedules: the examples the code's own documentation gives, and
 small sheets that show how repeated, partial and re-written rows are
 folded in.
 */
module Scenarios {
  import opened Text
  import opened Seqs
  import opened OrderedMaps
  import opened Schedule
  import opened ScheduleProofs
  import opened RowProperties
  import opened Queries

  /** The index of the first `c` in a concrete string. */
  lemma IndexAt(s: string, c: char, i: nat)
    requires i < |s| && s[i] == c && c !in s[..i]
    ensures IndexOf(s, c) == i
  {
    var r := IndexOf(s, c);
    InPrefix(s, i, r);
    InPrefix(s, r, i);
  }

  lemma InPrefix(s: string, j: int, k: int)
    ensures 0 <= k < j <= |s| ==> s[k] in s[..j]
  {
    if 0 <= k < j <= |s| {
      assert s[..j][k] == s[k];
    }
  }

  /** The period of `a + "(" + p + ")" + rest` when neither `a` nor `p`
      holds a parenthesis of the kind that would end them. */
  lemma PeriodOf(s: string, a: string, p: string, rest: string)
    requires s == a + "(" + p + ")" + rest
    requires '(' !in a && '(' !in p && ')' !in p
    ensures ExtractPeriod(s) == p
  {
    assert s == a + "(" + (p + ")" + rest);
    assert s[|a| + 1 + |p|] == ')';
    IndexAfter(s, a, '(', p + ")" + rest);
    SegmentAfter(s, a, '(', p, ")" + rest, {'(', ')'});
  }

  /** The area of `a + "-" + seg + rest`: `a` holds no dash, `seg` is the
      dash-free text `r` padded by the whitespace `pre` and `post`, and
      `rest` is empty or starts with the second dash. */
  lemma AreaOf(s: string, a: string, seg: string, rest: string, pre: string, r: string, post: string)
    requires s == a + "-" + seg + rest && seg == pre + r + post
    requires '-' !in a && '-' !in r && AllSpace(pre) && AllSpace(post) && (rest == [] || rest[0] == '-')
    requires r != [] && !IsSpace(r[0]) && !IsSpace(r[|r| - 1])
    ensures ExtractArea(s) == r
  {
    assert forall k :: 0 <= k < |seg| ==> seg[k] !in {'-'} by {
      NoDashInSpace(pre);
      NoDashInSpace(post);
      assert '-' !in seg;
    }
    IndexAfter(s, a, '-', seg + rest);
    SegmentAfter(s, a, '-', seg, rest, {'-'});
    StripOf(seg, pre, r, post);
  }

  lemma NoDashInSpace(s: string)
    requires AllSpace(s)
    ensures '-' !in s
  {
    assert !IsSpace('-');
  }

  /** In `a + [c] + tail` with no `c` in `a`, the first `c` is at `|a|`. */
  lemma IndexAfter(s: string, a: string, c: char, tail: string)
    requires s == a + [c] + tail
    requires c !in a
    ensures c in s && IndexOf(s, c) == |a|
  {
    var n := |a|;
    assert s[n] == c && c !in s[..n] by {
      assert s == a + ([c] + tail);
      assert s[..n] == a;
    }
    IndexAt(s, c, n);
  }

  /** In `a + [c] + seg + rest`, with no stop in `seg` and `rest` empty or
      starting at a stop, `seg` is the segment after position `|a|`. */
  lemma SegmentAfter(s: string, a: string, c: char, seg: string, rest: string, stops: set<char>)
    requires s == a + [c] + seg + rest
    requires forall k :: 0 <= k < |seg| ==> seg[k] !in stops
    requires rest == [] || rest[0] in stops
    ensures SegmentFrom(s, |a| + 1, stops) == seg
  {
    var n := |a|;
    assert s[n + 1..] == seg + rest by {
      assert s == (a + [c]) + (seg + rest);
    }
    assert n + 1 + |seg| == |s| || s[n + 1 + |seg|] in stops by {
      if rest != [] {
        assert s[n + 1..][|seg|] == rest[0];
      }
    }
    SegmentUnique(s, n + 1, stops, seg);
  }

  /** `strip()` of text padded by whitespace on both sides. */
  lemma StripOf(s: string, pre: string, r: string, post: string)
    requires s == pre + r + post && AllSpace(pre) && AllSpace(post)
    requires r != [] && !IsSpace(r[0]) && !IsSpace(r[|r| - 1])
    ensures Strip(s) == r
  {
    assert s[..|pre|] == pre && s[|pre| + |r|..] == post && s[|pre|..|pre| + |r|] == r;
    StripUnique(s, r, |pre|);
  }

  /** The period is the text between the parentheses of the week label. */
  lemma PeriodExample(s: string)
    requires s == "Semana 01 (11/08-17/08)"
    ensures ExtractPeriod(s) == "11/08-17/08"
  {
    assert s == "Semana 01 " + "(" + "11/08-17/08" + ")" + "";
    PeriodOf(s, "Semana 01 ", "11/08-17/08", "");
  }

  /** A week label without both parentheses has no period. */
  lemma PeriodMissing()
    ensures ExtractPeriod("Semana 01") == ""
    ensures ExtractPeriod("Semana 01 (11/08") == ""
  {
    assert '(' !in "Semana 01";
    assert ')' !in "Semana 01 (11/08";
  }

  /** The area is the stripped text after the day label's first dash. */
  lemma AreaExample(s: string)
    requires s == "Dia 1 - Ginecologia e Obstetrícia"
    ensures ExtractArea(s) == "Ginecologia e Obstetrícia"
  {
    var r := "Ginecologia e Obstetrícia";
    AreaExampleParts(s, r);
    PlainEnds(r);
    assert s == "Dia 1 " + "-" + (" " + r) + "" && " " + r == " " + r + "";
    AreaOf(s, "Dia 1 ", " " + r, "", " ", r, "");
  }

  lemma AreaExampleParts(s: string, r: string)
    requires s == "Dia 1 - Ginecologia e Obstetrícia" && r == "Ginecologia e Obstetrícia"
    ensures s == "Dia 1 " + "-" + (" " + r)
    ensures '-' !in "Dia 1 " && AllSpace(" ") && AllSpace("")
  {
  }

  /** Only the text up to a second dash is kept. */
  lemma AreaSecondDash(s: string)
    requires s == "Dia 2 - Clínica - Cardiologia"
    ensures ExtractArea(s) == "Clínica"
  {
    var r := "Clínica";
    AreaSecondDashParts(s, r);
    PlainEnds(r);
    AreaOf(s, "Dia 2 ", " " + r + " ", "- Cardiologia", " ", r, " ");
  }

  lemma AreaSecondDashParts(s: string, r: string)
    requires s == "Dia 2 - Clínica - Cardiologia" && r == "Clínica"
    ensures s == "Dia 2 " + "-" + (" " + r + " ") + "- Cardiologia"
    ensures '-' !in "Dia 2 " && AllSpace(" ")
  {
  }

  /** A text of letters, spaces and dots holds no dash and, when its first
      and last characters are letters, is left alone by `strip()`. */
  lemma PlainEnds(r: string)
    requires r == "Ginecologia e Obstetrícia" || r == "Clínica"
    ensures '-' !in r && !IsSpace(r[0]) && !IsSpace(r[|r| - 1])
  {
  }

  /** A case-insensitive fragment of a day's name finds it. */
  lemma DayNameExample()
    ensures DayNamed("obstet", Day("Dia 1 - Ginecologia e Obstetrícia", "Ginecologia e Obstetrícia", []))
  {
    var hay := Lower("Dia 1 - Ginecologia e Obstetrícia");
    assert hay[22..] == "obstetrícia";
    assert Lower("obstet") == "obstet";
    assert OccursAt(hay, "obstet", 22);
  }

  /** One more row is folded into what the earlier rows built. */
  lemma BuildSnoc(rows: seq<Row>, row: Row)
    ensures Build(rows + [row]) == ProcessRow(Build(rows), row)
  {
    assert (rows + [row])[..|rows|] == rows;
  }

  /** The fold of three rows, one step at a time. */
  lemma BuildThree(rows: seq<Row>)
    requires |rows| == 3
    ensures Build(rows) == ProcessRow(ProcessRow(ProcessRow(EmptyState(), rows[0]), rows[1]), rows[2])
  {
    var a, b := rows[..1], rows[..2];
    assert a == [] + [rows[0]];
    assert b == a + [rows[1]];
    assert rows == b + [rows[2]];
    BuildSnoc([], rows[0]);
    BuildSnoc(a, rows[1]);
    BuildSnoc(b, rows[2]);
  }

  /** `w` is the only week, and both it and the day map list `ks`. */
  ghost predicate OnlyWeekWithDays(st: State, w: string, ks: seq<string>) {
    && st.semanas.keys == [w]
    && w in st.semanas.entries
    && st.semanas.entries[w].dias == ks
    && st.dias.keys == ks
    && (forall k :: k in st.dias.entries <==> k in ks)
  }

  /** A row with only a week and a day cell, folded into an empty schedule. */
  lemma FirstDayRow(f: Fields, w: string, d: string)
    requires w != "" && d != ""
    requires f == Fields(w, d, "", "", "", "", "")
    ensures OnlyWeekWithDays(ProcessFields(EmptyState(), f), w, [JoinKey(w, d)])
  {
    var st := EmptyState();
    ProcessFieldsWeekKeys(st, f);
    ProcessFieldsDay(st, f);
  }

  /** A further row of the same week with only a day cell: the day is
      appended to the week and to the day map exactly when it is new. */
  lemma NextDayRow(st: State, f: Fields, w: string, d: string, ks: seq<string>)
    requires w != "" && d != ""
    requires f == Fields(w, d, "", "", "", "", "")
    requires OnlyWeekWithDays(st, w, ks)
    ensures OnlyWeekWithDays(ProcessFields(st, f), w, ks + (if JoinKey(w, d) in ks then [] else [JoinKey(w, d)]))
  {
    ProcessFieldsWeekKeys(st, f);
    ProcessFieldsDay(st, f);
  }

  /** Three rows naming days D1, D2 and D1 again of one week, folded into
      an empty schedule. */
  lemma ThreeDayRows(f0: Fields, f1: Fields, f2: Fields, w: string, d1: string, d2: string)
    requires w != "" && d1 != "" && d2 != "" && d1 != d2
    requires f0 == Fields(w, d1, "", "", "", "", "") && f2 == f0
    requires f1 == Fields(w, d2, "", "", "", "", "")
    ensures OnlyWeekWithDays(ProcessFields(ProcessFields(ProcessFields(EmptyState(), f0), f1), f2),
                             w, [JoinKey(w, d1), JoinKey(w, d2)])
  {
    var k1, k2 := JoinKey(w, d1), JoinKey(w, d2);
    assert k1 != k2 by {
      assert k1[|w| + 1..] == d1;
      assert k2[|w| + 1..] == d2;
    }
    var s1 := ProcessFields(EmptyState(), f0);
    FirstDayRow(f0, w, d1);
    var s2 := ProcessFields(s1, f1);
    NextDayRow(s1, f1, w, d2, [k1]);
    assert [k1] + [k2] == [k1, k2];
    NextDayRow(s2, f2, w, d1, [k1, k2]);
  }

  /** Rows naming days D1, D2 and D1 again of one week give that week the
      day list [D1, D2]: a repeated day is neither re-created nor re-linked. */
  lemma RepeatedDay(rows: seq<Row>, w: string, d1: string, d2: string)
    requires w != "" && d1 != "" && d2 != "" && d1 != d2
    requires |rows| == 3
    requires Normalize(rows[0]) == Fields(w, d1, "", "", "", "", "")
    requires Normalize(rows[1]) == Fields(w, d2, "", "", "", "", "")
    requires Normalize(rows[2]) == Fields(w, d1, "", "", "", "", "")
    ensures OnlyWeekWithDays(Build(rows), w, [JoinKey(w, d1), JoinKey(w, d2)])
  {
    BuildThree(rows);
    ThreeDayRows(Normalize(rows[0]), Normalize(rows[1]), Normalize(rows[2]), w, d1, d2);
  }

  /** The subtopic level holds only the row's subtopic, listing `ls`. */
  ghost predicate SubtopicLevel(st: State, f: Fields, ls: seq<Lesson>) {
    && st.subtemas.keys == [SubtopicKey(f)]
    && (forall x :: x in st.subtemas.entries <==> x == SubtopicKey(f))
    && st.subtemas.entries[SubtopicKey(f)].nome == f.subtema
    && st.subtemas.entries[SubtopicKey(f)].aulas == ls
  }

  predicate FullRow(f: Fields) {
    f.semana != "" && f.dia != "" && f.temaPrincipal != "" && f.subtema != "" && f.aula != ""
  }

  /** Two rows that name the same week, day, topic and subtopic. */
  predicate SamePath(f: Fields, g: Fields) {
    g.semana == f.semana && g.dia == f.dia && g.temaPrincipal == f.temaPrincipal && g.subtema == f.subtema
  }

  /** A fully filled row folded into an empty schedule creates one subtopic
      listing the row's lesson. */
  lemma FirstRowSubtopic(f: Fields)
    requires FullRow(f)
    ensures SubtopicLevel(ProcessFields(EmptyState(), f), f, [LessonOf(f)])
  {
    var st := ProcessFields(EmptyState(), f);
    var k := SubtopicKey(f);
    assert && st.subtemas.keys == [k]
           && (forall x :: x in st.subtemas.entries <==> x == k)
           && st.subtemas.entries[k].nome == f.subtema by {
      ProcessFieldsSubtopic(EmptyState(), f);
    }
    assert st.subtemas.entries[k].aulas == [LessonOf(f)] by {
      ProcessFieldsLesson(EmptyState(), f);
    }
  }

  /** ... and stores that lesson under its key. */
  lemma FirstRowLessons(f: Fields)
    requires FullRow(f)
    ensures var st := ProcessFields(EmptyState(), f);
      && st.aulas.keys == [LessonKey(f)]
      && st.aulas.entries == map[LessonKey(f) := LessonOf(f)]
  {
    ProcessFieldsLessonMap(EmptyState(), f);
  }

  /** A further full row on the same path appends its lesson to the one
      subtopic's list and creates nothing at that level. */
  lemma NextRowSubtopic(st: State, f: Fields, g: Fields, ls: seq<Lesson>, ls': seq<Lesson>)
    requires FullRow(g) && SamePath(f, g) && SubtopicLevel(st, f, ls) && ls' == ls + [LessonOf(g)]
    ensures SubtopicLevel(ProcessFields(st, g), f, ls')
  {
    var st' := ProcessFields(st, g);
    var k := SubtopicKey(f);
    assert SubtopicKey(g) == k;
    assert && st'.subtemas.keys == [k]
           && (forall x :: x in st'.subtemas.entries <==> x == k) by {
      ProcessFieldsSubtopic(st, g);
    }
    assert st'.subtemas.entries[k].nome == f.subtema by {
      ProcessFieldsGrows(st, g);
    }
    assert st'.subtemas.entries[k].aulas == ls' by {
      ProcessFieldsLesson(st, g);
    }
  }

  /** Two full rows on the same path with lessons L1 and L2 give one subtopic
      whose lesson list is [L1, L2], whether or not the two lessons share a
      name. */
  lemma TwoLessons(f: Fields, g: Fields)
    requires FullRow(f) && FullRow(g) && SamePath(f, g)
    ensures SubtopicLevel(ProcessFields(ProcessFields(EmptyState(), f), g), f, [LessonOf(f), LessonOf(g)])
  {
    FirstRowSubtopic(f);
    NextRowSubtopic(ProcessFields(EmptyState(), f), f, g, [LessonOf(f)], [LessonOf(f), LessonOf(g)]);
  }

  /** The lesson map after the same two rows keeps both lessons when their
      names differ; when they are equal it keeps only L2 under the shared
      key, while the subtopic still lists both. */
  lemma TwoLessonsMap(f: Fields, g: Fields)
    requires FullRow(f) && FullRow(g) && SamePath(f, g)
    ensures var st := ProcessFields(ProcessFields(EmptyState(), f), g);
      && (f.aula != g.aula ==> st.aulas.keys == [LessonKey(f), LessonKey(g)])
      && (f.aula == g.aula ==> st.aulas.keys == [LessonKey(f)] && st.aulas.entries[LessonKey(f)] == LessonOf(g))
  {
    var s1 := ProcessFields(EmptyState(), f);
    FirstRowLessons(f);
    ProcessFieldsLessonMap(s1, g);
    var s2 := ProcessFields(s1, g);
    var kf, kg := LessonKey(f), LessonKey(g);
    assert SubtopicKey(g) == SubtopicKey(f);
    LessonKeysDiffer(f, g);
    assert s1.aulas.keys == [kf] && s1.aulas.entries == map[kf := LessonOf(f)];
    if f.aula != g.aula {
      assert kg !in s1.aulas.entries;
      assert s2.aulas.keys == [kf] + [kg];
    } else {
      assert kg in s1.aulas.entries;
      assert s2.aulas.keys == [kf] + [];
    }
  }

  /** Two rows under the same subtopic share a lesson key exactly when they
      name the same lesson. */
  lemma LessonKeysDiffer(f: Fields, g: Fields)
    requires SubtopicKey(g) == SubtopicKey(f)
    ensures LessonKey(f) == LessonKey(g) <==> f.aula == g.aula
  {
    var n := |SubtopicKey(f)| + 1;
    assert LessonKey(f)[n..] == f.aula;
    assert LessonKey(g)[n..] == g.aula;
  }

  /** A row whose week cell is empty still creates its day, under the key
      "_" followed by the day, linked to no week (no week is stored under the
      empty name, since a week is only added for a non-empty cell). */
  lemma DayWithoutWeek(st: State, f: Fields)
    requires f.semana == "" && f.dia != "" && DayKey(f) !in st.dias.entries
    requires "" !in st.semanas.entries
    ensures DayKey(f) == [Separator] + f.dia
    ensures var st' := ProcessFields(st, f);
      && st'.semanas == st.semanas
      && st'.dias.keys == st.dias.keys + [DayKey(f)]
      && DayKey(f) in st'.dias.entries
      && st'.dias.entries[DayKey(f)].nome == f.dia
  {
    var s1, s2, s3, s4 := Stages(st, f);
    DayWithoutWeekStages(st, f, s1, s2, s3, s4, ProcessFields(st, f));
  }

  /** `DayWithoutWeek` over the stages of `ProcessFields`: the week stage
      does nothing, the day stage files the day, the later stages keep it. */
  lemma DayWithoutWeekStages(st: State, f: Fields, s1: State, s2: State, s3: State, s4: State, st': State)
    requires f.semana == "" && f.dia != "" && DayKey(f) !in st.dias.entries
    requires "" !in st.semanas.entries
    requires s1 == AddWeek(st, f.semana) && s2 == AddDay(s1, f.semana, f.dia)
    requires s3 == AddTopic(s2, DayKey(f), f.temaPrincipal)
    requires s4.semanas == s3.semanas && s4.dias == s3.dias
    requires st'.semanas == s4.semanas && st'.dias == s4.dias
    ensures DayKey(f) == [Separator] + f.dia
    ensures && st'.semanas == st.semanas
            && st'.dias.keys == st.dias.keys + [DayKey(f)]
            && DayKey(f) in st'.dias.entries
            && st'.dias.entries[DayKey(f)].nome == f.dia
  {
    var k := DayKey(f);
    assert k == JoinKey("", f.dia);
    assert s1 == st;
    assert s2.semanas == st.semanas && s2.dias.keys == st.dias.keys + [k] && k in s2.dias.entries && s2.dias.entries[k].nome == f.dia by {
      AddDayNoWeek(st, f.dia);
    }
    assert s3.dias.keys == s2.dias.keys && k in s3.dias.entries && s3.dias.entries[k].nome == f.dia by {
      AddTopicKeepsDay(s2, k, f.temaPrincipal, k);
    }
  }

  lemma AddDayNoWeek(st: State, dia: string)
    requires dia != "" && JoinKey("", dia) !in st.dias.entries && "" !in st.semanas.entries
    ensures var s := AddDay(st, "", dia);
      && s.semanas == st.semanas
      && s.dias.keys == st.dias.keys + [JoinKey("", dia)]
      && JoinKey("", dia) in s.dias.entries
      && s.dias.entries[JoinKey("", dia)].nome == dia
  {
  }

  lemma AddTopicKeepsDay(st: State, dayKey: string, tema: string, k: string)
    requires k in st.dias.entries
    ensures var s := AddTopic(st, dayKey, tema);
      && s.dias.keys == st.dias.keys
      && k in s.dias.entries
      && s.dias.entries[k].nome == st.dias.entries[k].nome
  {
  }
}
