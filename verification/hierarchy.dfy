/**
 `estruturar_hierarquia`: the nested view served as the full schedule. Weeks
 are sorted by their number with Python's stable `sorted`, and each week,
 day and topic is expanded by following its child list in order.
 */
module Hierarchy {
  import opened Text
  import opened Seqs
  import opened OrderedMaps
  import opened Schedule

  datatype RSubtopic = RSubtopic(nome: string, aulas: seq<Lesson>)
  datatype RTopic = RTopic(nome: string, subtemas: seq<RSubtopic>)
  datatype RDay = RDay(nome: string, areaConhecimento: string, temas: seq<RTopic>)
  datatype RWeek = RWeek(numero: string, periodo: string, dias: seq<RDay>)

  predicate SortedByNumero(ws: seq<Week>) {
    forall i, j :: 0 <= i < j < |ws| ==> LexLe(ws[i].numero, ws[j].numero)
  }

  /** Places `w` before the first week whose number is not smaller. */
  function Insert(w: Week, ws: seq<Week>): (r: seq<Week>)
    requires SortedByNumero(ws)
    ensures SortedByNumero(r)
    ensures multiset(r) == multiset(ws) + multiset{w}
  {
    if ws == [] then [w]
    else if LexLe(w.numero, ws[0].numero) then
      InsertFront(w, ws);
      [w] + ws
    else
      LexLeTotal(w.numero, ws[0].numero);
      var rest := Insert(w, ws[1..]);
      assert ws == [ws[0]] + ws[1..];
      InsertBehind(ws[0], w, ws[1..], rest);
      [ws[0]] + rest
  }

  /** A week no greater than the first of a sorted list can go in front. */
  lemma InsertFront(w: Week, ws: seq<Week>)
    requires SortedByNumero(ws) && ws != [] && LexLe(w.numero, ws[0].numero)
    ensures SortedByNumero([w] + ws)
  {
    forall j | 0 <= j < |ws| ensures LexLe(w.numero, ws[j].numero) {
      LexLeTransitive(w.numero, ws[0].numero, ws[j].numero);
    }
    var r := [w] + ws;
    forall i, j | 0 <= i < j < |r| ensures LexLe(r[i].numero, r[j].numero) {
      if i > 0 {
        assert r[i] == ws[i - 1] && r[j] == ws[j - 1];
      } else {
        assert r[j] == ws[j - 1];
      }
    }
  }

  /** The head of a sorted list stays in front of the rest once `w` (no
      smaller than the head) is inserted into that rest. */
  lemma InsertBehind(h: Week, w: Week, tl: seq<Week>, rest: seq<Week>)
    requires SortedByNumero([h] + tl) && LexLe(h.numero, w.numero)
    requires SortedByNumero(rest) && multiset(rest) == multiset(tl) + multiset{w}
    ensures SortedByNumero([h] + rest)
    ensures multiset([h] + rest) == multiset([h] + tl) + multiset{w}
  {
    var s := [h] + tl;
    forall j | 0 <= j < |rest| ensures LexLe(h.numero, rest[j].numero) {
      assert rest[j] in multiset(rest);
      if rest[j] != w {
        assert rest[j] in multiset(tl);
        var k :| 0 <= k < |tl| && tl[k] == rest[j];
        assert s[0] == h && s[k + 1] == rest[j];
        assert LexLe(s[0].numero, s[k + 1].numero);
      }
    }
    var r := [h] + rest;
    forall i, j | 0 <= i < j < |r| ensures LexLe(r[i].numero, r[j].numero) {
      if i > 0 {
        assert r[i] == rest[i - 1] && r[j] == rest[j - 1];
      } else {
        assert r[j] == rest[j - 1];
      }
    }
  }

  /** Python's `sorted(ws, key=lambda x: x["numero"])`, as an insertion
      sort. */
  function Sort(ws: seq<Week>): (r: seq<Week>)
    ensures SortedByNumero(r)
    ensures multiset(r) == multiset(ws)
  {
    if ws == [] then []
    else
      assert ws == [ws[0]] + ws[1..];
      Insert(ws[0], Sort(ws[1..]))
  }

  /** The subtopics named by `keys`, in order, each with its lesson list as
      stored; a key with no subtopic is skipped. */
  function RenderSubtopics(st: State, keys: seq<string>): (r: seq<RSubtopic>)
    ensures |r| <= |keys|
    ensures (forall j :: 0 <= j < |keys| ==> keys[j] in st.subtemas.entries) ==>
      && |r| == |keys|
      && forall j :: 0 <= j < |keys| ==>
           r[j].nome == st.subtemas.entries[keys[j]].nome && r[j].aulas == st.subtemas.entries[keys[j]].aulas
    decreases |keys|
  {
    if keys == [] then []
    else
      var k := keys[|keys| - 1];
      var rest := RenderSubtopics(st, keys[..|keys| - 1]);
      if k in st.subtemas.entries then
        var s := st.subtemas.entries[k];
        rest + [RSubtopic(s.nome, s.aulas)]
      else
        rest
  }

  function RenderTopic(st: State, t: Topic): RTopic {
    RTopic(t.nome, RenderSubtopics(st, t.subtemas))
  }

  /** The topics named by `keys`, in order, each expanded. */
  function RenderTopics(st: State, keys: seq<string>): (r: seq<RTopic>)
    ensures |r| <= |keys|
    ensures (forall j :: 0 <= j < |keys| ==> keys[j] in st.temas.entries) ==>
      && |r| == |keys|
      && forall j :: 0 <= j < |keys| ==> r[j] == RenderTopic(st, st.temas.entries[keys[j]])
    decreases |keys|
  {
    if keys == [] then []
    else
      var k := keys[|keys| - 1];
      var rest := RenderTopics(st, keys[..|keys| - 1]);
      if k in st.temas.entries then rest + [RenderTopic(st, st.temas.entries[k])] else rest
  }

  function RenderDay(st: State, d: Day): RDay {
    RDay(d.nome, d.areaConhecimento, RenderTopics(st, d.temas))
  }

  /** The days named by `keys`, in order, each expanded. */
  function RenderDays(st: State, keys: seq<string>): (r: seq<RDay>)
    ensures |r| <= |keys|
    ensures (forall j :: 0 <= j < |keys| ==> keys[j] in st.dias.entries) ==>
      && |r| == |keys|
      && forall j :: 0 <= j < |keys| ==> r[j] == RenderDay(st, st.dias.entries[keys[j]])
    decreases |keys|
  {
    if keys == [] then []
    else
      var k := keys[|keys| - 1];
      var rest := RenderDays(st, keys[..|keys| - 1]);
      if k in st.dias.entries then rest + [RenderDay(st, st.dias.entries[k])] else rest
  }

  function RenderWeek(st: State, w: Week): RWeek {
    RWeek(w.numero, w.periodo, RenderDays(st, w.dias))
  }

  /** The whole nested schedule: every stored week, sorted by number, each
      expanded down to its lessons. */
  function Render(st: State): (r: seq<RWeek>)
    ensures |r| == |Sort(Values(st.semanas))|
    ensures forall i :: 0 <= i < |r| ==> r[i] == RenderWeek(st, Sort(Values(st.semanas))[i])
  {
    var ws := Sort(Values(st.semanas));
    seq(|ws|, i requires 0 <= i < |ws| => RenderWeek(st, ws[i]))
  }

  /** In a valid schedule the weeks are rendered in strictly increasing order
      of number. */
  lemma RenderWeeksOrdered(st: State)
    requires Valid(st)
    ensures var r := Render(st);
      forall i, j :: 0 <= i < j < |r| ==> LexLe(r[i].numero, r[j].numero) && r[i].numero != r[j].numero
  {
    var ws := Sort(Values(st.semanas));
    var r := Render(st);
    SortedWeeks(st);
    forall i, j | 0 <= i < j < |r| ensures LexLe(r[i].numero, r[j].numero) && r[i].numero != r[j].numero {
      assert r[i].numero == ws[i].numero && r[j].numero == ws[j].numero;
    }
  }

  /** In a valid schedule there is one rendered week for each stored week
      and none other, each the expansion of the week stored under its number. */
  lemma RenderWeeksComplete(st: State)
    requires Valid(st)
    ensures var r := Render(st);
      && |r| == |st.semanas.keys|
      && (forall i :: 0 <= i < |r| ==>
            && r[i].numero in st.semanas.entries
            && r[i] == RenderWeek(st, st.semanas.entries[r[i].numero]))
      && (forall w :: w in st.semanas.entries ==> exists i :: 0 <= i < |r| && r[i].numero == w)
  {
    var ws := Sort(Values(st.semanas));
    var r := Render(st);
    SortedWeeks(st);
    RenderedSlots(st, ws, r);
  }

  /** Expanding each slot of the sorted stored weeks keeps the slot's number,
      so the expansions cover the stored weeks one to one. */
  lemma RenderedSlots(st: State, ws: seq<Week>, r: seq<RWeek>)
    requires |ws| == |st.semanas.keys|
    requires forall i :: 0 <= i < |ws| ==> ws[i].numero in st.semanas.entries && st.semanas.entries[ws[i].numero] == ws[i]
    requires forall w :: w in st.semanas.entries ==> exists i :: 0 <= i < |ws| && ws[i].numero == w
    requires |r| == |ws| && forall i :: 0 <= i < |r| ==> r[i] == RenderWeek(st, ws[i])
    ensures |r| == |st.semanas.keys|
    ensures forall i :: 0 <= i < |r| ==>
      && r[i].numero in st.semanas.entries
      && r[i] == RenderWeek(st, st.semanas.entries[r[i].numero])
    ensures forall w :: w in st.semanas.entries ==> exists i :: 0 <= i < |r| && r[i].numero == w
  {
    forall i | 0 <= i < |r| ensures r[i].numero in st.semanas.entries && r[i] == RenderWeek(st, st.semanas.entries[r[i].numero]) {
      assert r[i].numero == ws[i].numero;
    }
    forall w | w in st.semanas.entries ensures exists i :: 0 <= i < |r| && r[i].numero == w {
      var i :| 0 <= i < |ws| && ws[i].numero == w;
      assert r[i].numero == w;
    }
  }

  /** The stored weeks, in key order, are the weeks filed under their own
      number, so no two are equal. */
  lemma StoredWeeks(st: State)
    requires Valid(st)
    ensures var vs := Values(st.semanas);
      && |vs| == |st.semanas.keys|
      && (forall k :: 0 <= k < |vs| ==> vs[k].numero == st.semanas.keys[k] && st.semanas.entries[vs[k].numero] == vs[k])
      && (forall a, b :: 0 <= a < b < |vs| ==> vs[a] != vs[b])
  {
    var vs := Values(st.semanas);
    forall k | 0 <= k < |vs| ensures vs[k].numero == st.semanas.keys[k] {
      assert WeekOk(st, st.semanas.keys[k]);
    }
  }

  /** The sorted stored weeks: as many as keys, each filed under its own
      number, numbers pairwise different, every key present. */
  lemma SortedWeeks(st: State)
    requires Valid(st)
    ensures var ws := Sort(Values(st.semanas));
      && |ws| == |st.semanas.keys|
      && (forall i :: 0 <= i < |ws| ==> ws[i].numero in st.semanas.entries && st.semanas.entries[ws[i].numero] == ws[i])
      && (forall i, j :: 0 <= i < j < |ws| ==> ws[i].numero != ws[j].numero)
      && (forall w :: w in st.semanas.entries ==> exists i :: 0 <= i < |ws| && ws[i].numero == w)
  {
    var vs := Values(st.semanas);
    var ws := Sort(vs);
    StoredWeeks(st);
    PermutedWeeks(st.semanas, vs, ws);
  }

  /** A permutation of the stored weeks, listed in key order, has one slot
      per key, each holding the week filed under its number. */
  lemma PermutedWeeks(weeks: OMap<Week>, vs: seq<Week>, ws: seq<Week>)
    requires WellFormed(weeks)
    requires multiset(ws) == multiset(vs)
    requires |vs| == |weeks.keys|
    requires forall k :: 0 <= k < |vs| ==> vs[k].numero == weeks.keys[k] && weeks.entries[vs[k].numero] == vs[k]
    requires forall a, b :: 0 <= a < b < |vs| ==> vs[a] != vs[b]
    ensures |ws| == |weeks.keys|
    ensures forall i :: 0 <= i < |ws| ==> ws[i].numero in weeks.entries && weeks.entries[ws[i].numero] == ws[i]
    ensures forall i, j :: 0 <= i < j < |ws| ==> ws[i].numero != ws[j].numero
    ensures forall w :: w in weeks.entries ==> exists i :: 0 <= i < |ws| && ws[i].numero == w
  {
    assert |ws| == |vs| by {
      assert |multiset(ws)| == |multiset(vs)|;
    }
    forall i | 0 <= i < |ws|
      ensures ws[i].numero in weeks.entries && weeks.entries[ws[i].numero] == ws[i]
    {
      SlotStored(weeks, vs, ws, i);
    }
    forall i, j | 0 <= i < j < |ws| ensures ws[i].numero != ws[j].numero {
      SortedDistinctSlots(vs, ws, i, j);
      SlotStored(weeks, vs, ws, i);
      SlotStored(weeks, vs, ws, j);
    }
    forall w | w in weeks.entries ensures exists i :: 0 <= i < |ws| && ws[i].numero == w {
      KeyHasSlot(weeks, vs, ws, w);
    }
  }

  /** Every slot of a permutation of the stored weeks holds a week filed
      under its own number. */
  lemma SlotStored(weeks: OMap<Week>, vs: seq<Week>, ws: seq<Week>, i: int)
    requires multiset(ws) == multiset(vs)
    requires forall k :: 0 <= k < |vs| ==> vs[k].numero in weeks.entries && weeks.entries[vs[k].numero] == vs[k]
    requires 0 <= i < |ws|
    ensures ws[i].numero in weeks.entries && weeks.entries[ws[i].numero] == ws[i]
  {
    assert ws[i] in multiset(vs);
    var k :| 0 <= k < |vs| && vs[k] == ws[i];
  }

  /** Every key of the week map is the number of some slot of a permutation
      of the stored weeks. */
  lemma KeyHasSlot(weeks: OMap<Week>, vs: seq<Week>, ws: seq<Week>, w: string)
    requires WellFormed(weeks) && w in weeks.entries
    requires multiset(ws) == multiset(vs)
    requires |vs| == |weeks.keys| && forall k :: 0 <= k < |vs| ==> vs[k].numero == weeks.keys[k]
    ensures exists i :: 0 <= i < |ws| && ws[i].numero == w
  {
    var k :| 0 <= k < |weeks.keys| && weeks.keys[k] == w;
    assert vs[k] in multiset(ws);
    var i :| 0 <= i < |ws| && ws[i] == vs[k];
  }

  /** Two slots of a permutation of a map's values that hold the same week
      come from two keys with that value; in a valid schedule that cannot
      happen, because a week's number is its key. */
  lemma SortedDistinctSlots(vs: seq<Week>, ws: seq<Week>, i: int, j: int)
    requires multiset(ws) == multiset(vs)
    requires forall a, b :: 0 <= a < b < |vs| ==> vs[a] != vs[b]
    requires 0 <= i < j < |ws|
    ensures ws[i] != ws[j]
  {
    if ws[i] == ws[j] {
      assert multiset(ws)[ws[i]] >= 2 by {
        assert ws == ws[..i] + [ws[i]] + ws[i + 1..j] + [ws[j]] + ws[j + 1..];
      }
      MultiplicityOfDistinct(vs, ws[i]);
    }
  }

  lemma {:induction false} MultiplicityOfDistinct(vs: seq<Week>, x: Week)
    requires forall a, b :: 0 <= a < b < |vs| ==> vs[a] != vs[b]
    ensures multiset(vs)[x] <= 1
  {
    if vs != [] {
      var vs' := vs[..|vs| - 1];
      MultiplicityOfDistinct(vs', x);
      assert vs == vs' + [vs[|vs| - 1]];
      assert vs[|vs| - 1] !in vs';
    }
  }

  /** In a valid schedule every expanded week, day and topic lists exactly
      its stored children, in the order of its child list. */
  lemma RenderMirrors(st: State)
    requires Valid(st)
    ensures forall w :: w in st.semanas.entries ==>
      var week := st.semanas.entries[w];
      var rw := RenderWeek(st, week);
      && |rw.dias| == |week.dias|
      && forall j :: 0 <= j < |week.dias| ==> rw.dias[j] == RenderDay(st, st.dias.entries[week.dias[j]])
    ensures forall d :: d in st.dias.entries ==>
      var day := st.dias.entries[d];
      var rd := RenderDay(st, day);
      && |rd.temas| == |day.temas|
      && forall j :: 0 <= j < |day.temas| ==> rd.temas[j] == RenderTopic(st, st.temas.entries[day.temas[j]])
    ensures forall t :: t in st.temas.entries ==>
      var topic := st.temas.entries[t];
      var rt := RenderTopic(st, topic);
      && |rt.subtemas| == |topic.subtemas|
      && forall j :: 0 <= j < |topic.subtemas| ==>
           && rt.subtemas[j].nome == st.subtemas.entries[topic.subtemas[j]].nome
           && rt.subtemas[j].aulas == st.subtemas.entries[topic.subtemas[j]].aulas
  {
    forall w | w in st.semanas.entries ensures WeekOk(st, w) {
    }
    forall d | d in st.dias.entries ensures DayOk(st, d) {
    }
    forall t | t in st.temas.entries ensures TopicOk(st, t) {
    }
  }
}
