/** The SQL assembly of pa3/ui/courses.py. `find_courses` keeps five
    lists — the SELECT items, the relations joined, the ON conditions, the
    WHERE conditions and the query arguments — and hands them to helpers
    that append to them; `construct_query` then joins them into one query
    string whose `?` placeholders take the arguments in order. */
module Courses {
  import opened Python

  /** A query argument: a string from the form, or an integer (a time, an
      enrollment bound). */
  datatype Param = Str(s: string) | Int(i: int)

  /** `[s for s in ws]` as arguments. */
  function Strs(ws: seq<string>): (r: seq<Param>)
    ensures |r| == |ws| && forall i :: 0 <= i < |ws| ==> r[i] == Str(ws[i])
  {
    if ws == [] then [] else Strs(ws[..|ws| - 1]) + [Str(ws[|ws| - 1])]
  }

  /** The arguments left in front after inserting each word of ws at
      index 0 in turn: the words, last one first. */
  function FrontInserted(ws: seq<string>): (r: seq<Param>)
    ensures |r| == |ws| && forall i :: 0 <= i < |ws| ==> r[i] == Str(ws[|ws| - 1 - i])
  {
    if ws == [] then [] else [Str(ws[|ws| - 1])] + FrontInserted(ws[..|ws| - 1])
  }

  /** The number of placeholders in a list of clauses. */
  function Marks(xs: seq<string>): nat
  {
    if xs == [] then 0 else Marks(xs[..|xs| - 1]) + CountChar(xs[|xs| - 1], '?')
  }

  lemma {:induction false} MarksConcat(xs: seq<string>, ys: seq<string>)
    ensures Marks(xs + ys) == Marks(xs) + Marks(ys)
    decreases |ys|
  {
    if ys == [] {
      assert xs + ys == xs;
    } else {
      var init := ys[..|ys| - 1];
      assert (xs + ys)[..|xs + ys| - 1] == xs + init;
      MarksConcat(xs, init);
    }
  }

  /** Joining with a separator that holds no placeholder adds none. */
  lemma {:induction false} MarksJoin(sep: string, xs: seq<string>)
    requires '?' !in sep
    ensures CountChar(Join(sep, xs), '?') == Marks(xs)
    decreases |xs|
  {
    if |xs| == 1 {
      assert xs == [] + [xs[0]];
    } else if |xs| > 1 {
      var init := xs[..|xs| - 1];
      MarksJoin(sep, init);
      CountCharAbsent(sep, '?');
      CountCharConcat(Join(sep, init), sep, '?');
      CountCharConcat(Join(sep, init) + sep, xs[|xs| - 1], '?');
    }
  }

  /** A string of letters, digits and punctuation other than `?`. */
  lemma NoMark(s: string)
    requires '?' !in s
    ensures CountChar(s, '?') == 0
  {
    CountCharAbsent(s, '?');
  }

  // ---------------------------------------------------------------------
  // build_terms_query

  /** The table alias `"c" + str(k)`. */
  function Alias(k: nat): (r: string)
    ensures '?' !in r
  {
    "c" + DecimalString(k)
  }

  /** `relations` after k further words: the base relation, then one
      aliased copy per word. */
  function Relations(k: nat): (r: seq<string>)
    ensures |r| == k + 1
  {
    if k == 0 then ["catalog_index"] else Relations(k - 1) + ["catalog_index" + " " + Alias(k - 1)]
  }

  /** `on` after k further words: one join condition per alias. */
  function Ons(k: nat): (r: seq<string>)
    ensures |r| == k
  {
    if k == 0 then [] else Ons(k - 1) + ["catalog_index.course_id = " + Alias(k - 1) + ".course_id"]
  }

  /** `terms` after k further words: one word condition per relation. */
  function Terms(k: nat): (r: seq<string>)
    ensures |r| == k + 1
  {
    if k == 0 then ["catalog_index.word = ?"] else Terms(k - 1) + [Alias(k - 1) + ".word=?"]
  }

  /** The parenthesised join `build_terms_query` returns for k + 1 words. */
  function TermsQuery(k: nat): string
  {
    "(" + Join(" JOIN ", Relations(k)) + " ON " + Join(" AND ", Ons(k))
    + " AND (" + Join(" AND ", Terms(k)) + "))"
  }

  lemma {:induction false} RelationsMarks(k: nat)
    ensures Marks(Relations(k)) == 0
  {
    hide CountChar;
    if k > 0 {
      RelationsMarks(k - 1);
      assert Relations(k)[..k] == Relations(k - 1);
      NoMark("catalog_index" + " " + Alias(k - 1));
    } else {
      NoMark("catalog_index");
      assert Relations(0)[..0] == [];
    }
  }

  lemma {:induction false} OnsMarks(k: nat)
    ensures Marks(Ons(k)) == 0
  {
    hide CountChar;
    if k > 0 {
      OnsMarks(k - 1);
      assert Ons(k)[..k - 1] == Ons(k - 1);
      NoMark("catalog_index.course_id = " + Alias(k - 1) + ".course_id");
    }
  }

  lemma {:induction false} TermsMarks(k: nat)
    ensures Marks(Terms(k)) == k + 1
  {
    hide CountChar;
    var s := if k == 0 then "catalog_index.word = ?" else Alias(k - 1) + ".word=?";
    var body := if k == 0 then "catalog_index.word = " else Alias(k - 1) + ".word=";
    assert s == body + ['?'];
    NoMark(body);
    CountCharConcat(body, ['?'], '?');
    CountCharSingle('?');
    if k > 0 {
      TermsMarks(k - 1);
      assert Terms(k)[..k] == Terms(k - 1);
    } else {
      assert Terms(0)[..0] == [];
    }
  }

  /** The joined query for k + 1 words has k + 1 placeholders, one per
      word the arguments receive. */
  lemma TermsQueryMarks(k: nat)
    ensures CountChar(TermsQuery(k), '?') == k + 1
  {
    hide CountChar;
    var a, b, c := Join(" JOIN ", Relations(k)), Join(" AND ", Ons(k)), Join(" AND ", Terms(k));
    MarksJoin(" JOIN ", Relations(k));
    MarksJoin(" AND ", Ons(k));
    MarksJoin(" AND ", Terms(k));
    RelationsMarks(k);
    OnsMarks(k);
    TermsMarks(k);
    NoMark("(");
    NoMark(" ON ");
    NoMark(" AND (");
    NoMark("))");
    CountCharConcat("(", a, '?');
    CountCharConcat("(" + a, " ON ", '?');
    CountCharConcat("(" + a + " ON ", b, '?');
    CountCharConcat("(" + a + " ON " + b, " AND (", '?');
    CountCharConcat("(" + a + " ON " + b + " AND (", c, '?');
    CountCharConcat("(" + a + " ON " + b + " AND (" + c, "))", '?');
  }

  /** `build_terms_query(args, s, where, on)`. With several words the
      first word and then each further word are inserted at the front of
      `args` and the join is returned; `on` is rebound to a fresh local
      list, so the caller's `on` and `where` are untouched. With one word
      it is appended to `args` with one WHERE condition. With no word,
      `words[0]` raises IndexError before anything changes. */
  method BuildTermsQuery(args: List<Param>, s: string, where: List<string>, on: List<string>)
    returns (r: Outcome<string>)
    requires where != on
    modifies args, where
    ensures on.items == old(on.items)
    ensures var words := Split(s);
            if |words| > 1 then
              && r == Ok(TermsQuery(|words| - 1))
              && args.items == FrontInserted(words) + old(args.items)
              && where.items == old(where.items)
            else if |words| == 1 then
              && r == Ok("catalog_index")
              && args.items == old(args.items) + [Str(words[0])]
              && where.items == old(where.items) + ["catalog_index.word = ?"]
            else
              && r == Raised(IndexError)
              && args.items == old(args.items)
              && where.items == old(where.items)
  {
    hide Join, Split, DecimalString, Strip;
    var words := Split(s);
    var base := "catalog_index";
    if |words| > 1 {
      args.Insert(0, Str(words[0]));
      var rest := words[1..];
      var relations := [base];
      var ons: seq<string> := [];
      var terms := ["catalog_index.word = ?"];
      var counter := 0;
      while counter < |rest|
        invariant 0 <= counter <= |rest|
        invariant relations == Relations(counter) && ons == Ons(counter) && terms == Terms(counter)
        invariant args.items == FrontInserted(words[..counter + 1]) + old(args.items)
        invariant where.items == old(where.items) && on.items == old(on.items)
      {
        var word := rest[counter];
        var alias := "c" + DecimalString(counter);
        var relationAlias := base + " " + alias;
        relations := relations + [relationAlias];
        ons := ons + ["catalog_index.course_id = " + alias + ".course_id"];
        terms := terms + [alias + ".word=?"];
        args.Insert(0, Str(word));
        assert words[..counter + 2][..counter + 1] == words[..counter + 1];
        counter := counter + 1;
      }
      assert words[..counter + 1] == words;
      r := Ok("(" + Join(" JOIN ", relations) + " ON " + Join(" AND ", ons)
              + " AND (" + Join(" AND ", terms) + "))");
      return;
    }
    if |words| == 0 {
      return Raised(IndexError);
    }
    args.Append(Str(words[0]));
    where.Append("catalog_index.word = ?");
    r := Ok(base);
  }

  /** Whatever the number of words, a call that returns adds exactly as
      many arguments as the placeholders it adds to the returned relation
      and to `where`. */
  lemma TermsArgsMatchMarks(s: string)
    requires |Split(s)| >= 1
    ensures var words := Split(s);
            |words| == if |words| > 1 then CountChar(TermsQuery(|words| - 1), '?')
                       else CountChar("catalog_index.word = ?", '?')
  {
    hide CountChar;
    var words := Split(s);
    if |words| > 1 {
      TermsQueryMarks(|words| - 1);
    } else {
      NoMark("catalog_index.word = ");
      CountCharConcat("catalog_index.word = ", ['?'], '?');
      CountCharSingle('?');
      assert "catalog_index.word = ?" == "catalog_index.word = " + ['?'];
    }
  }

  /** `process_dept_terms(col, value, on, select, where, args, relations)`:
      `"courses.title"` joins the SELECT items unless already there; a
      department adds one WHERE condition and its argument; search terms
      add the catalog join condition and then the relation that
      `build_terms_query` returns (IndexError propagates from there, after
      the join condition was appended). */
  method ProcessDeptTerms(col: string, value: string, on: List<string>, select: List<string>,
                          where: List<string>, args: List<Param>, relations: List<string>)
    returns (r: Outcome<()>)
    requires on != select && on != where && on != relations
    requires select != where && select != relations && where != relations
    modifies on, select, where, args, relations
    ensures select.items == if "courses.title" in old(select.items) then old(select.items)
                            else old(select.items) + ["courses.title"]
    ensures col == "dept" ==>
              && r == Ok(())
              && where.items == old(where.items) + ["courses.dept = ?"]
              && args.items == old(args.items) + [Str(value)]
              && on.items == old(on.items) && relations.items == old(relations.items)
    ensures col != "dept" ==>
              && on.items == old(on.items) + ["courses.course_id = catalog_index.course_id"]
              && var words := Split(value);
                 if |words| > 1 then
                   && r == Ok(())
                   && relations.items == old(relations.items) + [TermsQuery(|words| - 1)]
                   && args.items == FrontInserted(words) + old(args.items)
                   && where.items == old(where.items)
                 else if |words| == 1 then
                   && r == Ok(())
                   && relations.items == old(relations.items) + ["catalog_index"]
                   && args.items == old(args.items) + [Str(words[0])]
                   && where.items == old(where.items) + ["catalog_index.word = ?"]
                 else
                   && r == Raised(IndexError)
                   && relations.items == old(relations.items)
                   && args.items == old(args.items)
                   && where.items == old(where.items)
  {
    if "courses.title" !in select.items {
      select.Append("courses.title");
    }
    if col == "dept" {
      where.Append("courses.dept = ?");
      args.Append(Str(value));
      return Ok(());
    }
    on.Append("courses.course_id = catalog_index.course_id");
    var q := BuildTermsQuery(args, value, where, on);
    match q
    case Raised(e) =>
      return Raised(e);
    case Ok(relation) =>
      relations.Append(relation);
      return Ok(());
  }

  /** The department condition holds one placeholder, for the one argument
      appended with it; the catalog join condition holds none, so the
      terms branch adds exactly the placeholders `build_terms_query` adds. */
  lemma DeptTermsMarks()
    ensures Marks(["courses.dept = ?"]) == 1
    ensures Marks(["courses.course_id = catalog_index.course_id"]) == 0
  {
    hide CountChar;
    CountCharSingle('?');
    NoMark("courses.dept = ");
    assert "courses.dept = ?" == "courses.dept = " + ['?'];
    CountCharConcat("courses.dept = ", ['?'], '?');
    NoMark("courses.course_id = catalog_index.course_id");
  }

  // ---------------------------------------------------------------------
  // process_day, process_time, process_relations, process_enroll

  /** `"( ?"` followed by `", ?"` for each further value. */
  function InList(m: nat): string
    requires m >= 1
  {
    if m == 1 then "( ?" else InList(m - 1) + ", ?"
  }

  /** The WHERE condition for m days. */
  function DayClause(m: nat): string
    requires m >= 1
  {
    if m == 1 then "meeting_patterns.day = ?" else "meeting_patterns.day IN " + InList(m) + ")"
  }

  lemma {:induction false} InListMarks(m: nat)
    requires m >= 1
    ensures CountChar(InList(m), '?') == m
  {
    hide CountChar;
    var tail := if m == 1 then "( " else ", ";
    NoMark(tail);
    CountCharSingle('?');
    CountCharConcat(tail, ['?'], '?');
    if m == 1 {
      assert InList(1) == tail + ['?'];
    } else {
      InListMarks(m - 1);
      assert InList(m) == InList(m - 1) + (tail + ['?']);
      CountCharConcat(InList(m - 1), tail + ['?'], '?');
    }
  }

  /** The condition for m days has one placeholder per day. */
  lemma DayClauseMarks(m: nat)
    requires m >= 1
    ensures CountChar(DayClause(m), '?') == m
  {
    hide CountChar;
    CountCharSingle('?');
    if m == 1 {
      NoMark("meeting_patterns.day = ");
      CountCharConcat("meeting_patterns.day = ", ['?'], '?');
      assert DayClause(1) == "meeting_patterns.day = " + ['?'];
    } else {
      InListMarks(m);
      NoMark("meeting_patterns.day IN ");
      NoMark(")");
      CountCharConcat("meeting_patterns.day IN ", InList(m), '?');
      CountCharConcat("meeting_patterns.day IN " + InList(m), ")", '?');
    }
  }

  /** `process_day(col, value, args, where)`: every day becomes an
      argument, in order, and one condition with a placeholder per day is
      added; an empty list raises IndexError at `value[0]`. */
  method ProcessDay(col: string, value: seq<string>, args: List<Param>, where: List<string>)
    returns (r: Outcome<()>)
    modifies args, where
    ensures value == [] ==> r == Raised(IndexError) && args.items == old(args.items) && where.items == old(where.items)
    ensures value != [] ==>
              && r == Ok(())
              && args.items == old(args.items) + Strs(value)
              && where.items == old(where.items) + [DayClause(|value|)]
  {
    if |value| == 1 {
      args.Append(Str(value[0]));
      where.Append("meeting_patterns.day = ?");
      assert Strs(value) == [Str(value[0])];
      return Ok(());
    }
    if value == [] {
      return Raised(IndexError);
    }
    var terms := "( ?";
    args.Append(Str(value[0]));
    var j := 1;
    while j < |value|
      invariant 1 <= j <= |value|
      invariant terms == InList(j)
      invariant args.items == old(args.items) + Strs(value[..j]) && where.items == old(where.items)
    {
      terms := terms + ", ?";
      args.Append(Str(value[j]));
      assert value[..j + 1][..j] == value[..j];
      j := j + 1;
    }
    assert value[..j] == value;
    where.Append("meeting_patterns.day IN " + terms + ")");
    r := Ok(());
  }

  /** The condition `process_time` adds for a column. */
  function TimeClause(col: string): string
  {
    if col == "time_start" then "meeting_patterns.time_start >= ?" else "meeting_patterns.time_end <= ?"
  }

  /** `process_time(col, value, where)`: one condition, a lower bound for
      `time_start` and an upper bound otherwise; the argument is appended
      by the caller. */
  method ProcessTime(col: string, value: int, where: List<string>)
    modifies where
    ensures where.items == old(where.items) + [TimeClause(col)]
  {
    if col == "time_start" {
      where.Append("meeting_patterns.time_start >= ?");
    } else {
      where.Append("meeting_patterns.time_end <= ?");
    }
  }

  /** Each time condition holds exactly one placeholder, for the one
      argument the caller appends. */
  lemma TimeClauseMarks(col: string)
    ensures CountChar(TimeClause(col), '?') == 1
  {
    hide CountChar;
    var body := if col == "time_start" then "meeting_patterns.time_start >= " else "meeting_patterns.time_end <= ";
    assert TimeClause(col) == body + ['?'];
    NoMark(body);
    CountCharSingle('?');
    CountCharConcat(body, ['?'], '?');
  }

  /** The condition joining sections to their meeting patterns. */
  const MeetingJoin: string := "sections.meeting_pattern_id = " + "meeting_patterns.meeting_pattern_id"

  /** `process_relations(relations, on)`: the meeting-pattern and section
      tables, and the two conditions that join them to the courses. */
  method ProcessRelations(relations: List<string>, on: List<string>)
    requires relations != on
    modifies relations, on
    ensures relations.items == old(relations.items) + ["meeting_patterns", "sections"]
    ensures on.items == old(on.items) + ["courses.course_id = sections.course_id",
                                         MeetingJoin]
  {
    relations.Append("meeting_patterns");
    relations.Append("sections");
    on.Append("courses.course_id = sections.course_id");
    on.Append(MeetingJoin);
  }

  /** The placeholders of a two-item list are those of its items. */
  lemma MarksPair(a: string, b: string)
    ensures Marks([a, b]) == CountChar(a, '?') + CountChar(b, '?')
  {
    hide CountChar;
    var w := [a, b];
    assert w[..1][..0] == [] && w[..1] == [a];
    assert Marks([a]) == CountChar(a, '?');
  }

  /** The two tables `process_relations` adds hold no placeholder. */
  lemma RelationsTablesMarks()
    ensures Marks(["meeting_patterns", "sections"]) == 0
  {
    hide CountChar, Marks;
    NoMark("meeting_patterns");
    NoMark("sections");
    MarksPair("meeting_patterns", "sections");
  }

  /** The two join conditions `process_relations` adds hold no
      placeholder, matching the no arguments it adds. */
  lemma RelationsJoinMarks()
    ensures Marks(["courses.course_id = sections.course_id", MeetingJoin]) == 0
  {
    hide CountChar, Marks;
    NoMark("courses.course_id = sections.course_id");
    NoMark("sections.meeting_pattern_id = ");
    NoMark("meeting_patterns.meeting_pattern_id");
    CountCharConcat("sections.meeting_pattern_id = ", "meeting_patterns.meeting_pattern_id", '?');
    MarksPair("courses.course_id = sections.course_id", MeetingJoin);
  }

  /** The condition `process_enroll` adds for a column. */
  function EnrollClause(col: string): string
  {
    if col == "enroll_lower" then "sections.enrollment >= ?" else "sections.enrollment <= ?"
  }

  /** `process_enroll(col, value, args, select, where)`: the enrollment
      column, one bound on it, and the bound as the argument. */
  method ProcessEnroll(col: string, value: int, args: List<Param>, select: List<string>, where: List<string>)
    requires select != where
    modifies args, select, where
    ensures select.items == old(select.items) + ["sections.enrollment"]
    ensures where.items == old(where.items) + [EnrollClause(col)]
    ensures args.items == old(args.items) + [Int(value)]
  {
    select.Append("sections.enrollment");
    if col == "enroll_lower" {
      where.Append("sections.enrollment >= ?");
    } else {
      where.Append("sections.enrollment <= ?");
    }
    args.Append(Int(value));
  }

  /** Each enrollment condition holds exactly one placeholder. */
  lemma EnrollClauseMarks(col: string)
    ensures CountChar(EnrollClause(col), '?') == 1
  {
    hide CountChar;
    var body := if col == "enroll_lower" then "sections.enrollment >= " else "sections.enrollment <= ";
    assert EnrollClause(col) == body + ['?'];
    NoMark(body);
    CountCharSingle('?');
    CountCharConcat(body, ['?'], '?');
  }

  // ---------------------------------------------------------------------
  // build_distance_query

  /** `build_distance_query(time, building, select, where, args, on)`: the
      walking-time column computed between buildings a and b, the two
      conditions on it, and their two arguments in the same order. */
  method BuildDistanceQuery(time: Param, building: string, select: List<string>, where: List<string>,
                            args: List<Param>, on: List<string>)
    requires select != where && select != on && where != on
    modifies select, where, args, on
    ensures on.items == old(on.items) + ["sections.building_code = a.building_code"]
    ensures select.items == old(select.items)
                            + ["a.building_code", "time_between(a.lon, a.lat, b.lon, b.lat) AS walking_time"]
    ensures where.items == old(where.items) + ["walking_time <= ?", "b.building_code = ?"]
    ensures args.items == old(args.items) + [time, Str(building)]
  {
    on.Append("sections.building_code = a.building_code");
    select.Extend(["a.building_code", "time_between(a.lon, a.lat, b.lon, b.lat) AS walking_time"]);
    where.Append("walking_time <= ?");
    where.Append("b.building_code = ?");
    args.Append(time);
    args.Append(Str(building));
  }

  /** The two distance conditions hold two placeholders, one for each of
      the two arguments appended with them. */
  lemma DistanceMarks()
    ensures Marks(["walking_time <= ?", "b.building_code = ?"]) == 2
  {
    hide CountChar;
    var w := ["walking_time <= ?", "b.building_code = ?"];
    CountCharSingle('?');
    NoMark("walking_time <= ");
    NoMark("b.building_code = ");
    assert w[0] == "walking_time <= " + ['?'] && w[1] == "b.building_code = " + ['?'];
    CountCharConcat("walking_time <= ", ['?'], '?');
    CountCharConcat("b.building_code = ", ['?'], '?');
    assert w[..1][..0] == [] && w[..1] == [w[0]];
  }

  // ---------------------------------------------------------------------
  // construct_query

  /** `construct_query(select, relations, on, where)`. When both `on`
      and `where` are empty the second branch runs last and wins, so the
      query ends in an empty WHERE. */
  function ConstructQuery(select: seq<string>, relations: seq<string>, on: seq<string>, where: seq<string>)
    : (query: string)
    ensures var head := "SELECT " + Join(", ", select) + " FROM " + Join(" JOIN ", relations);
            query == head
                     + (if on != [] then " ON " + Join(" AND ", on) else "")
                     + (if where != [] || on == [] then " WHERE " + Join(" AND ", where) else "")
                     + " COLLATE NOCASE"
  {
    if where == [] || on == [] then
      if on == [] then
        "SELECT " + Join(", ", select) + " FROM " + Join(" JOIN ", relations)
        + " WHERE " + Join(" AND ", where) + " COLLATE NOCASE"
      else
        "SELECT " + Join(", ", select) + " FROM " + Join(" JOIN ", relations)
        + " ON " + Join(" AND ", on) + " COLLATE NOCASE"
    else
      "SELECT " + Join(", ", select) + " FROM " + Join(" JOIN ", relations)
      + " ON " + Join(" AND ", on) + " WHERE " + Join(" AND ", where) + " COLLATE NOCASE"
  }

  /** The query holds exactly the placeholders of its clauses: the
      keywords and separators it adds hold none. */
  lemma QueryMarks(select: seq<string>, relations: seq<string>, on: seq<string>, where: seq<string>)
    ensures CountChar(ConstructQuery(select, relations, on, where), '?')
            == Marks(select) + Marks(relations) + Marks(on) + Marks(where)
  {
    hide CountChar;
    var a, b := Join(", ", select), Join(" JOIN ", relations);
    var c := if on != [] then " ON " + Join(" AND ", on) else "";
    var d := if where != [] || on == [] then " WHERE " + Join(" AND ", where) else "";
    MarksJoin(", ", select);
    MarksJoin(" JOIN ", relations);
    MarksJoin(" AND ", on);
    MarksJoin(" AND ", where);
    NoMark("SELECT ");
    NoMark(" FROM ");
    NoMark(" ON ");
    NoMark(" WHERE ");
    NoMark(" COLLATE NOCASE");
    CountCharConcat(" ON ", Join(" AND ", on), '?');
    CountCharConcat(" WHERE ", Join(" AND ", where), '?');
    if on == [] {
      NoMark("");
      assert Join(" AND ", on) == "";
    }
    if where == [] {
      assert Join(" AND ", where) == "";
    }
    CountCharConcat("SELECT ", a, '?');
    CountCharConcat("SELECT " + a, " FROM ", '?');
    CountCharConcat("SELECT " + a + " FROM ", b, '?');
    CountCharConcat("SELECT " + a + " FROM " + b, c, '?');
    CountCharConcat("SELECT " + a + " FROM " + b + c, d, '?');
    CountCharConcat("SELECT " + a + " FROM " + b + c + d, " COLLATE NOCASE", '?');
  }

  // ---------------------------------------------------------------------
  // clean_header

  /** `clean_header(s)`: the part after the first `.`, or s itself when
      it has none. */
  method CleanHeader(s: string) returns (r: string)
    ensures '.' !in s ==> r == s
    ensures '.' in s ==> exists i :: 0 <= i < |s| && s[i] == '.' && '.' !in s[..i] && r == s[i + 1..]
  {
    r := s;
    var i := 0;
    while i < |s|
      invariant 0 <= i <= |s|
      invariant '.' !in s[..i]
    {
      if s[i] == '.' {
        r := s[i + 1..];
        return;
      }
      assert s[..i + 1] == s[..i] + [s[i]];
      i := i + 1;
    }
    assert s[..i] == s;
  }
}
