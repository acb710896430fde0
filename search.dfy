/**
 * search_db: build a parameterised query from the plate number and the
 * optional category, then run it. User input only ever enters the parameter
 * list; the SQL text is one of four fixed strings.
 */
module Search {
  import opened Wrappers
  import opened Sql
  import opened Table

  /** The parameter bound to the LIKE clause when no plate is given (main.py:46). */
  const Wildcard: string := "%"

  /** The clauses of a search: the plate clause first, then the code clause when a code is given. */
  function Plan(plateGiven: bool, codeGiven: bool): seq<Clause>
  {
    [if plateGiven then PlateEquals else PlateLike] + (if codeGiven then [CodeEquals] else [])
  }

  /** The parameters of a search, one per clause of its plan. */
  function Bindings(actualNb: string, code: string): seq<string>
  {
    [if actualNb != "" then actualNb else Wildcard] + (if code != "" then [code] else [])
  }

  /** Builds the query text and the parameter list of search_db (main.py:37-51). */
  method BuildQuery(actualNb: string, code: string) returns (query: string, params: seq<string>)
    ensures query == Render(Plan(actualNb != "", code != ""))
    ensures Parse(query) == Some(Plan(actualNb != "", code != ""))
    ensures params == Bindings(actualNb, code)
    ensures Placeholders(query) == |params|
  {
    query := SelectPrefix;
    params := [];
    if actualNb != "" {
      query := query + ClauseText(PlateEquals);
      params := params + [actualNb];
    } else {
      query := query + ClauseText(PlateLike);
      params := params + [Wildcard];
    }
    if code != "" {
      query := query + ClauseText(CodeEquals);
      params := params + [code];
    }
    QueryShape(actualNb != "", code != "");
    PlanFacts(actualNb != "", code != "");
  }

  lemma PlanFacts(p: bool, c: bool)
    ensures Parse(Render(Plan(p, c))) == Some(Plan(p, c))
    ensures Placeholders(Render(Plan(p, c))) == |Plan(p, c)|
  {
    ParseRender(Render(Plan(p, c)), Plan(p, c));
    RenderPlaceholders(Plan(p, c));
  }

  /**
   * The text always starts with the fixed prefix, then the plate clause
   * (exact when a plate is given, LIKE otherwise), then the code clause
   * exactly when a code is given.
   */
  lemma QueryShape(plateGiven: bool, codeGiven: bool)
    ensures Render(Plan(plateGiven, codeGiven))
         == SelectPrefix
          + ClauseText(if plateGiven then PlateEquals else PlateLike)
          + (if codeGiven then ClauseText(CodeEquals) else "")
  {
    var cs := Plan(plateGiven, codeGiven);
    var head := ClauseText(cs[0]);
    if codeGiven {
      assert cs[1..][1..] == [];
      assert Conjuncts(cs[1..]) == ClauseText(CodeEquals) + "";
    } else {
      assert cs[1..] == [];
    }
    assert Conjuncts(cs) == head + Conjuncts(cs[1..]);
  }

  /** The SQL text depends only on whether the plate and the code are empty, never on their contents. */
  lemma QueryIgnoresValues(nb1: string, code1: string, nb2: string, code2: string)
    requires (nb1 == "") == (nb2 == "") && (code1 == "") == (code2 == "")
    ensures Render(Plan(nb1 != "", code1 != "")) == Render(Plan(nb2 != "", code2 != ""))
  {
  }

  /**
   * The parameters are the plate (or "%" when it is empty), followed by the
   * code exactly when it is non-empty; and they pair off with the clauses.
   */
  lemma BindingsShape(actualNb: string, code: string)
    ensures |Bindings(actualNb, code)| == |Plan(actualNb != "", code != "")| == if code != "" then 2 else 1
    ensures Bindings(actualNb, code)[0] == if actualNb != "" then actualNb else "%"
    ensures code != "" ==> Bindings(actualNb, code)[1] == code
  {
  }

  /** The reference reading of a search: what a row must satisfy to be returned. */
  predicate Matches(r: Record, actualNb: string, code: string)
  {
    (if actualNb != "" then r.actualNb == Some(actualNb) else r.actualNb.Some?)
    && (code != "" ==> r.codeDesc == Some(code))
  }

  /** The rows of `t` that match, in table order. */
  function Where(t: seq<Record>, actualNb: string, code: string): (w: seq<Record>)
    ensures |w| <= |t|
    ensures forall x :: x in w <==> x in t && Matches(x, actualNb, code)
    ensures forall x :: multiset(w)[x] == if Matches(x, actualNb, code) then multiset(t)[x] else 0
  {
    if t == [] then []
    else
      assert t == [t[0]] + t[1..];
      assert multiset(t) == multiset{t[0]} + multiset(t[1..]);
      (if Matches(t[0], actualNb, code) then [t[0]] else []) + Where(t[1..], actualNb, code)
  }

  /** The built clauses with the built parameters select exactly the matching rows. */
  lemma PlanSelectsMatches(actualNb: string, code: string, r: Record)
    ensures Selects(Plan(actualNb != "", code != ""), Bindings(actualNb, code), r) <==> Matches(r, actualNb, code)
  {
    if actualNb == "" && r.actualNb.Some? {
      LikeWildcard(r.actualNb.value);
    }
  }

  lemma {:induction false} FilterRowsIsWhere(t: seq<Record>, actualNb: string, code: string)
    ensures FilterRows(t, Plan(actualNb != "", code != ""), Bindings(actualNb, code)) == Where(t, actualNb, code)
  {
    if t != [] {
      PlanSelectsMatches(actualNb, code, t[0]);
      FilterRowsIsWhere(t[1..], actualNb, code);
    }
  }

  /** Running the built query never takes SQLite's error path and returns exactly the matching rows. */
  lemma ExecuteBuiltQuery(t: seq<Record>, actualNb: string, code: string)
    ensures Execute(t, Render(Plan(actualNb != "", code != "")), Bindings(actualNb, code)) == Some(Where(t, actualNb, code))
  {
    var cs := Plan(actualNb != "", code != "");
    RenderPlaceholders(cs);
    ParseRender(Render(cs), cs);
    FilterRowsIsWhere(t, actualNb, code);
  }

  /**
   * The rows search_db returns: those of the executed query, or none when
   * read_sql raises (modelled as the table being unreadable, None).
   */
  function SearchRows(table: Option<seq<Record>>, actualNb: string, code: string): seq<Record>
  {
    match table
    case None => []
    case Some(t) =>
      match Execute(t, Render(Plan(actualNb != "", code != "")), Bindings(actualNb, code))
      case None => []
      case Some(rows) => rows
  }

  /** search_db (main.py:36-58): build the query, run it, and fall back to no rows on failure. */
  method SearchDb(table: Option<seq<Record>>, actualNb: string, code: string) returns (rows: seq<Record>)
    ensures rows == SearchRows(table, actualNb, code)
    ensures table.None? ==> rows == []
    ensures table.Some? ==> rows == Where(table.value, actualNb, code)
  {
    var query, params := BuildQuery(actualNb, code);
    match table
    case None =>
      rows := [];
    case Some(t) =>
      var result := Execute(t, query, params);
      if result.Some? {
        rows := result.value;
      } else {
        rows := [];
      }
      ExecuteBuiltQuery(t, actualNb, code);
  }

  /**
   * A non-empty plate P and a non-empty code C select exactly the rows whose plate
   * is P and whose code is C: the two filters are joined with AND.
   */
  lemma PlateAndCodeConjoined(t: seq<Record>, p: string, c: string, r: Record)
    requires p != "" && c != ""
    ensures r in SearchRows(Some(t), p, c) <==> r in t && r.actualNb == Some(p) && r.codeDesc == Some(c)
  {
    ExecuteBuiltQuery(t, p, c);
  }

  /** With an empty code no code filter applies: the search is the plate search alone. */
  lemma EmptyCodeNoFilter(t: seq<Record>, p: string, r: Record)
    requires p != ""
    ensures r in SearchRows(Some(t), p, "") <==> r in t && r.actualNb == Some(p)
  {
    ExecuteBuiltQuery(t, p, "");
  }

  /** With an empty plate the LIKE "%" clause keeps every row whose plate is not NULL. */
  lemma EmptyPlateWildcard(t: seq<Record>, c: string, r: Record)
    ensures r in SearchRows(Some(t), "", c) <==> r in t && r.actualNb.Some? && (c != "" ==> r.codeDesc == Some(c))
  {
    ExecuteBuiltQuery(t, "", c);
  }
}
