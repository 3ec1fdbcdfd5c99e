# Study schedule builder and queries, in Dafny

A model of the logic in `api_maker.py`, a small read-only HTTP API over a
medical study schedule. The API reads spreadsheet rows, one per lesson. Each
row holds a week (`Semana`), a day (`Dia`), a main topic (`Tema Principal`),
a subtopic (`Subtema`), a lesson (`Aula`) and two links.

The model covers three parts of the program:

- **The row fold.** `processar_linha` folds the rows into five
  insertion-ordered dictionaries: `semanas`, `dias`, `temas`, `subtemas` and
  `aulas`. Keys are composite strings joined with `_`.
- **Two label parsers.** `extrair_periodo` reads a week label and
  `extrair_area_conhecimento` reads a day label.
- **The read side.** `estruturar_hierarquia` builds the nested view. The
  endpoints `get_semana`, `get_dia` and `get_subtema` look records up, and
  `buscar` is the cross-entity search.

Modules:

| module | file | content |
|---|---|---|
| `Text` | `text.dfy` | Python's `strip()`, `lower()`, `in`, `split(c)` and string `<`, plus their characterisations |
| `Seqs` | `seqs.dfy` | distinctness, subsequences, first-seen de-duplication |
| `OrderedMaps` | `ordered_map.dfy` | Python's `dict`: key order plus a `map`; assignment, `values()`, filtering loops |
| `Schedule` | `schedule.dfy` | the records, `limpar`, the two parsers, the key scheme, the per-level steps of `processar_linha`, the fold over all rows, and the invariant the fold keeps |
| `ScheduleProofs` | `schedule_proofs.dfy` | every step of a row keeps the invariant |
| `RowProperties` | `schedule_proofs.dfy` | what one row does to each map and to each child list |
| `FoldProperties` | `fold_properties.dfy` | what the whole fold produces; how keys can and cannot collide |
| `Hierarchy` | `hierarchy.dfy` | `estruturar_hierarquia`: the sort by week number and the nesting |
| `Queries` | `queries.dfy` | `get_semana`, `get_dia`, `get_subtema`, `buscar` |
| `Scenarios` | `scenarios.dfy` | the worked examples of the docstrings, and small row sequences |

Modelling choices:

- **Child lists.** Python's parent lists alias the child dictionaries. A
  week, day or topic is never replaced after creation, so the model lists
  those children by key. A subtopic lists its lessons by value, because a
  later row can overwrite `aulas[k]` while the subtopic's list keeps the
  dictionary appended earlier.
- **The fold.** `Build` folds the rows of all files, in order, into an empty
  schedule. The state is an explicit value, not a global.
- **Errors.** Each query returns `Ok(value)` or `Err(error)`. The error
  carries the HTTP status and the message the endpoint answers with.

Notable behaviours of the code, each stated by a member below:

- **Days without a week.** A row with an empty week still creates its day,
  under the key `"_" + dia`. That day is linked to no week. See
  `Scenarios.DayWithoutWeek`.
- **Key collisions.** The `_` separator can merge two paths: week `A_B` with
  day `C`, and week `A` with day `B_C`, give the same key. See
  `FoldProperties.KeyCollision`.
- **The period.** `extrair_periodo` uses split semantics. The period ends at
  the next `(` or `)` after the first `(`, not necessarily at the matching
  `)`.
- **The area.** `extrair_area_conhecimento` keeps only the text between the
  first and the second `-`, not everything after the first one.
- **The search term.** `buscar` rejects only an empty `q`. A term of spaces
  is searched for as it is.
- **Equal records under different keys.** Two keys can hold equal records,
  for example the day `D` of week `W1` and the day `D` of week `W2`. The
  lookups and the search list such a record once per key.
- **Lessons.** Lessons are not de-duplicated. `aulas[k]` is last-write-wins
  and keeps its position. The lesson is appended to its subtopic's list on
  every row.

## Model

| member | source | states |
|---|---|---|
| Text.Strip | api_maker.py:73-74 | `strip()` returns a slice of its input whose margins are whitespace only and which neither starts nor ends with whitespace; it is empty exactly when the input is all whitespace |
| Text.StripUnique | api_maker.py:73-74 | any slice of `s` with whitespace-only margins that neither starts nor ends with whitespace is `strip(s)`, so the contract of `Strip` determines it |
| Text.StripIdempotent | api_maker.py:73-74 | cleaning a cleaned cell changes nothing |
| Text.Lower | api_maker.py:308 | `lower()` keeps the length, leaves no capital in its result, changes no character other than a capital, and turns each capital into its small letter |
| Text.LowerKeepsLowerCase | api_maker.py:308 | a string without capitals is its own lower-case form |
| Text.Contains | api_maker.py:308 | `needle in hay` holds exactly when `needle` occurs at some index of `hay` |
| Text.ContainsEmpty | api_maker.py:308 | the empty name is contained in every name |
| Text.Split | api_maker.py:140 | `split(c)` returns at least one part, no part holds `c`, and joining the parts with `c` gives back the input |
| Text.SplitJoin | api_maker.py:140 | splitting the join of separator-free parts gives back the parts (round trip) |
| Text.SegmentUnique | api_maker.py:140 | the text from an index up to the first stop character, or to the end, is the only prefix with those properties |
| Text.SplitSecondSegment | api_maker.py:148 | when `c` occurs, the second part of `split(c)` is the text after the first `c` up to the next `c` |
| Text.LexLeTotal | api_maker.py:164 | any two week numbers are comparable under Python's string order |
| Text.LexLeAntisymmetric | api_maker.py:164 | two strings each no greater than the other are equal |
| Text.LexLeTransitive | api_maker.py:164 | the string order is transitive |
| Seqs.DedupFirstSeen | api_maker.py:86-122 | keeping the first occurrence of each key lists the keys in the order in which they first appear |
| Seqs.SubseqDistinct | api_maker.py:101-122 | a subsequence of a repeat-free key list has no repeats |
| OrderedMaps.Put | api_maker.py:127-131 | `d[k] = v` stores `v` under `k` and leaves other keys alone; a present key keeps its position and a new key is appended last |
| OrderedMaps.Values | api_maker.py:413 | `d.values()` lists the value of every key, in key order |
| OrderedMaps.Filter | api_maker.py:306-309 | the filtering loop keeps only values satisfying the test, keeps them in `values()` order, misses none of them, and has one entry for each position of `values()` whose value passes, so equal values under two keys appear twice |
| OrderedMaps.FilterUnique | api_maker.py:306-309 | any list of passing values, in `values()` order, with one entry per passing position, is the filtered list: the contract of `Filter` determines its result |
| OrderedMaps.FilterMembers | api_maker.py:306-309 | in a well-formed map, a value is in the filtered list exactly when it is stored under some key and passes the test |
| OrderedMaps.FilterEmpty | api_maker.py:311-313 | the filtered list is empty exactly when no stored value passes the test |
| OrderedMaps.FilterAll | api_maker.py:307-309 | a test every value passes returns all of `values()` |
| Schedule.Clean | api_maker.py:73-74 | `limpar` turns an absent cell into "" and a present one into its stripped slice |
| Schedule.ExtractPeriod | api_maker.py:135-141 | "" unless the label holds both `(` and `)`; otherwise the text after the first `(` up to the next parenthesis of either kind, or to the end |
| Schedule.PeriodIsSegment | api_maker.py:140 | `split('(')[1].split(')')[0]` is that text |
| Schedule.ExtractArea | api_maker.py:143-149 | "" when the label has no `-`; otherwise the stripped text between the first `-` and the next `-`, or the end |
| ScheduleProofs.AddWeekValid | api_maker.py:86-91 | adding a week keeps the invariant: each map lists its keys once, each record sits under the key built from its labels, each child list names existing children in insertion order |
| ScheduleProofs.AddDayValid | api_maker.py:94-102 | adding a day, and linking it to an existing week, keeps the invariant |
| ScheduleProofs.AddTopicValid | api_maker.py:105-112 | adding a topic, and linking it to an existing day, keeps the invariant |
| ScheduleProofs.AddSubtopicValid | api_maker.py:115-122 | adding a subtopic, and linking it to an existing topic, keeps the invariant |
| ScheduleProofs.AddLessonValid | api_maker.py:125-133 | storing a lesson and appending it to an existing subtopic keeps the invariant |
| ScheduleProofs.ProcessFieldsValid | api_maker.py:69-133 | one row keeps the invariant |
| ScheduleProofs.BuildValid | api_maker.py:43-53 | the schedule built from any rows satisfies the invariant |
| RowProperties.AddWeekLinks | api_maker.py:86-91 | a non-empty new week label adds `Week(label, period, [])` at the end of the week keys; every stored week is left unchanged |
| RowProperties.AddDayLinks | api_maker.py:94-102 | a non-empty new day key adds the day at the end of the day keys; only the row's week gains the key in its list, and only when the day is new |
| RowProperties.AddTopicLinks | api_maker.py:105-112 | the same for a topic under its day |
| RowProperties.AddSubtopicLinks | api_maker.py:115-122 | the same for a subtopic under its topic |
| RowProperties.AddLessonLinks | api_maker.py:125-133 | a non-empty lesson overwrites `aulas[k]`, with `k` keeping its place, and is appended to its subtopic's list whether or not `k` was new; an empty lesson changes nothing |
| RowProperties.ProcessFieldsGrows | api_maker.py:86-133 | a row never removes a key, never reorders keys and never changes the name of a stored week, day, topic or subtopic, nor a week's period or a day's area |
| RowProperties.ProcessRowBlank | api_maker.py:73-133 | a row whose five label cells are empty after cleaning leaves the schedule unchanged |
| RowProperties.ProcessFieldsWeekKeys | api_maker.py:86-91 | after a row with week `W`, `semanas[W]` exists; when new it has number `W` and the extracted period, and is appended; existing weeks keep number and period |
| RowProperties.ProcessFieldsWeek | api_maker.py:86-91 | in a schedule keeping the invariant, after a row with week `W`, `semanas[W]` has number `W` and period `extrair_periodo(W)`, however many rows named `W` |
| RowProperties.ProcessFieldsDay | api_maker.py:94-102 | over a whole row, a new day key is appended once, with the cell as name and the extracted area, and linked only to the row's week |
| RowProperties.ProcessFieldsTopic | api_maker.py:105-112 | over a whole row, a new topic key is appended once and linked only to the row's day |
| RowProperties.ProcessFieldsSubtopic | api_maker.py:115-122 | over a whole row, a new subtopic key is appended once and linked only to the row's topic |
| RowProperties.ProcessFieldsLesson | api_maker.py:125-133 | over a whole row, lessons are last-write-wins in the map and append-always in the subtopic's list |
| RowProperties.ProcessFieldsLessonMap | api_maker.py:125-131 | over a whole row, the lesson map gets `aulas[k] = lesson`, and only for a non-empty lesson |
| FoldProperties.ProcessFieldsKeys | api_maker.py:86-133 | at every level, a row appends its key exactly when its label is non-empty and the key is absent |
| FoldProperties.BuildKeys | api_maker.py:86-133 | at every level the keys of the built schedule are the keys the rows name, once each, in first-seen order |
| FoldProperties.KeyCollision | api_maker.py:94 | week `A_B` with day `C` and week `A` with day `B_C` share a day key |
| FoldProperties.JoinKeyInjective | api_maker.py:94 | when the appended labels hold no `_`, equal keys come from equal parent keys and labels |
| FoldProperties.ChildListsDistinct | api_maker.py:101-122 | in a schedule keeping the invariant, no week, day or topic lists a child twice |
| Hierarchy.Insert | api_maker.py:164 | inserting a week into a list sorted by number gives a sorted list with the same weeks plus the new one |
| Hierarchy.Sort | api_maker.py:164 | `sorted(..., key=numero)` returns a permutation of its input sorted by number |
| Hierarchy.RenderSubtopics | api_maker.py:189-194 | each listed subtopic is rendered with its name and its stored lesson list, in list order |
| Hierarchy.RenderTopics | api_maker.py:182-196 | each listed topic is expanded, in list order |
| Hierarchy.RenderDays | api_maker.py:174-198 | each listed day is expanded, in list order |
| Hierarchy.RenderWeeksOrdered | api_maker.py:164-200 | in a schedule keeping the invariant, rendered week numbers strictly increase |
| Hierarchy.RenderWeeksComplete | api_maker.py:164-200 | in a schedule keeping the invariant, each stored week is rendered exactly once, expanded from the week stored under its number |
| Hierarchy.SortedWeeks | api_maker.py:164 | the sorted stored weeks have one slot per key, distinct numbers, and each is the week stored under its number |
| Hierarchy.RenderMirrors | api_maker.py:166-198 | in a schedule keeping the invariant, every rendered week, day and topic lists exactly its stored children, in child-list order |
| Queries.GetWeekSpec | api_maker.py:268-271 | in a schedule keeping the invariant, `get_semana` succeeds exactly when some stored week has that number, then answers that week, which is one of `values()`; otherwise 404 "Semana não encontrada" |
| Queries.GetDaysSpec | api_maker.py:306-313 | `get_dia` answers 404 "Dia não encontrado" exactly when no stored day's name contains the given name, ignoring case; otherwise it answers the matching stored days, in insertion order, one entry per matching key |
| Queries.GetSubtopicsSpec | api_maker.py:361-368 | the same for `get_subtema`, with 404 "Subtema não encontrado" |
| Queries.GetDaysEmptyName | api_maker.py:306-311 | an empty name finds a day exactly when some day is stored |
| Queries.SearchOrder | api_maker.py:412-436 | each list `buscar` answers keeps the insertion order of its map |
| Queries.SearchWeeksDays | api_maker.py:412-421 | the weeks and days found are exactly the stored ones whose number or period, or name or area, contain the term, one entry per matching key |
| Queries.SearchWeeks | api_maker.py:413-415 | a week is found exactly when it is stored and its number or period contains the term, one entry per matching key |
| Queries.SearchDays | api_maker.py:418-421 | a day is found exactly when it is stored and its name or area contains the term, one entry per matching key |
| Queries.SearchByName | api_maker.py:423-436 | the topics, subtopics and lessons found are exactly the stored ones whose name contains the term, one entry per matching key |
| Queries.SearchTopics | api_maker.py:424-426 | a topic is found exactly when it is stored and its name contains the term, one entry per matching key |
| Queries.SearchSubtopics | api_maker.py:429-431 | a subtopic is found exactly when it is stored and its name contains the term, one entry per matching key |
| Queries.SearchLessons | api_maker.py:434-436 | a lesson is found exactly when it is stored and its name contains the term, one entry per matching key |
| Queries.SearchLowerTerm | api_maker.py:400 | the term is compared only after `lower()`, so a term and its lower-cased form find the same records |
| Queries.SearchFindsWeekByNumber | api_maker.py:413-415 | searching for a stored week's non-empty number finds that week |
| Queries.SearchBlankTerm | api_maker.py:400-402 | an empty term is refused; a term of one space is searched for |
| Scenarios.PeriodExample | api_maker.py:137 | "Semana 01 (11/08-17/08)" gives the period "11/08-17/08" |
| Scenarios.PeriodMissing | api_maker.py:139-141 | a label missing `(` or `)` has the period "" |
| Scenarios.AreaExample | api_maker.py:145 | "Dia 1 - Ginecologia e Obstetrícia" gives the area "Ginecologia e Obstetrícia" |
| Scenarios.AreaSecondDash | api_maker.py:147-148 | "Dia 2 - Clínica - Cardiologia" gives "Clínica", the text before the second dash |
| Scenarios.DayNameExample | api_maker.py:308 | "obstet" finds the day "Dia 1 - Ginecologia e Obstetrícia", ignoring case |
| Scenarios.BuildSnoc | api_maker.py:52-53 | folding one more row processes it on top of what the earlier rows built |
| Scenarios.BuildThree | api_maker.py:52-53 | three rows are processed one after the other, from an empty schedule |
| Scenarios.FirstDayRow | api_maker.py:86-102 | a week-and-day row on an empty schedule gives one week listing one day |
| Scenarios.NextDayRow | api_maker.py:94-102 | a further day of the same week is appended to the week and to the days exactly when it is new |
| Scenarios.ThreeDayRows | api_maker.py:94-102 | days D1, D2, D1 of one week give the day list [D1, D2] |
| Scenarios.RepeatedDay | api_maker.py:94-102 | the same for three raw rows folded by `Build` |
| Scenarios.FirstRowSubtopic | api_maker.py:115-133 | a full row on an empty schedule gives one subtopic listing the row's lesson |
| Scenarios.FirstRowLessons | api_maker.py:125-131 | the same row stores exactly that lesson under its key |
| Scenarios.NextRowSubtopic | api_maker.py:125-133 | a further full row on the same path appends its lesson to that subtopic's list and creates no subtopic |
| Scenarios.TwoLessons | api_maker.py:125-133 | two full rows on one path list both lessons in the subtopic, even when they share a name |
| Scenarios.TwoLessonsMap | api_maker.py:126-131 | the lesson map keeps both lessons when their names differ, and only the later one when the names are equal |
| Scenarios.LessonKeysDiffer | api_maker.py:126 | under one subtopic, two rows share a lesson key exactly when they name the same lesson |
| Scenarios.DayWithoutWeek | api_maker.py:94-102 | a row with an empty week and a new day stores the day under `"_" + dia`, appended to the day keys, and changes no week |

## Left out

- HTTP plumbing is not modelled: the Flask application, routes, `jsonify`, the root and listing endpoints, and the Swagger blueprint with its static document. An error's status and message are carried in the `Error` value instead.
- File discovery with `glob`, reading with `pandas`, and the per-file `try`/`except` are not modelled. `Build` takes the rows of all files already concatenated. A file that fails part-way is not modelled.
- The summary prints and the start-up code are not modelled.
- Cell coercion is not modelled: `str(valor or '')` of a non-string cell, a pandas NaN becoming "nan", a falsy number becoming "". A cell is an optional string, and `limpar` strips it.
- Text.Lower: maps only `A`-`Z` and the Latin-1 capitals. Other Unicode case mappings of Python's `lower()` are left out.
- Sort stability is not modelled. Strings compare by code point, as in Python, and stored week numbers are distinct, so stability never matters.
- The global `dados_cronograma` and the storing of the hierarchy into it are not modelled. The state is a value passed through the fold, and `Render` returns the hierarchy.
- Queries.GetWeek: returns the stored week, whose day list holds keys. `jsonify` would serialise the aliased day dictionaries; that is not modelled.
- Queries.GetDays: the same holds for the nested topic lists of the returned days.
- Scenarios.DayWithoutWeek: requires that no week is stored under "". `AddWeek` only ever stores non-empty labels, so that holds in every built schedule.
- Scenarios.TwoLessons: states the subtopic level only. `Scenarios.TwoLessonsMap` states the lesson map.
