/**
 * main: the page's dispatch. The connection either fails (nothing more
 * happens) or the codes are loaded into the dropdown; a pressed Search with
 * an empty plate warns without searching; otherwise the search runs and its
 * rows are routed by their number.
 */
module Page {
  import opened Wrappers
  import opened Sql
  import opened Table
  import opened Search
  import opened Codes

  /** What the SQLite file answers: the DISTINCT CodeDesc column and the CARMDI rows (None: read_sql raises). */
  datatype Database = Database(codesColumn: Option<seq<Option<string>>>, table: Option<seq<Record>>)

  /** What the page ends up showing. */
  datatype Outcome =
    | NotConnected                // connect_to_db failed; main returned after the title
    | AwaitingSearch              // the form, Search not pressed
    | PlateMissing                // the warning "Please enter a Plate Number to search."
    | NoResults                   // the error "No results found."
    | Detail(row: Record)         // the two-column view of the one matching row
    | Expanded(rows: seq<Record>) // the expander holding the table of every matching row

  /** One run of main: the dropdown options, the SQL texts sent to the database, and the outcome. */
  datatype Run = Run(options: seq<string>, queries: seq<string>, outcome: Outcome)

  /** The dropdown options (main.py:76): the empty option first, the default, then the codes. */
  function Options(codes: seq<string>): seq<string>
  {
    [""] + codes
  }

  /** The rows an outcome puts on screen. */
  function Shown(o: Outcome): seq<Record>
  {
    match o
    case Detail(r) => [r]
    case Expanded(rs) => rs
    case _ => []
  }

  /** Routing of the search result by its row count (main.py:88-114). */
  function Route(rows: seq<Record>): (o: Outcome)
    ensures o == NoResults <==> |rows| == 0
    ensures o.Detail? <==> |rows| == 1
    ensures o.Expanded? <==> |rows| > 1
    ensures o.Detail? ==> o.row == rows[0]
    ensures Shown(o) == rows
  {
    if |rows| == 0 then NoResults
    else if |rows| == 1 then Detail(rows[0])
    else Expanded(rows)
  }

  /**
   * main (main.py:62-117), `selected` and `plate` being what the dropdown and
   * the text field hold and `pressed` whether Search was clicked.
   */
  function MainPage(conn: Option<Database>, pressed: bool, plate: string, selected: string): (run: Run)
    ensures conn.None? <==> run.outcome == NotConnected
    ensures conn.None? ==> run.queries == []
    ensures conn.Some? ==> |run.queries| >= 1 && run.queries[0] == DistinctCodesQuery
    ensures run.outcome == PlateMissing <==> conn.Some? && pressed && plate == ""
    ensures |run.queries| == 2 <==> conn.Some? && pressed && plate != ""
    ensures conn.Some? && !(pressed && plate != "") ==> run.queries == [DistinctCodesQuery]
    ensures |run.queries| == 2 ==> Parse(run.queries[1]) == Some(Plan(true, selected != ""))
    ensures conn.Some? ==> run.options == Options(UniqueCodes(conn.value.codesColumn))
    ensures conn.Some? && !pressed ==> run.outcome == AwaitingSearch
    ensures conn.Some? && pressed && plate != "" ==> run.outcome == Route(SearchRows(conn.value.table, plate, selected))
  {
    match conn
    case None => Run([], [], NotConnected)
    case Some(db) =>
      var options := Options(UniqueCodes(db.codesColumn));
      if !pressed then Run(options, [DistinctCodesQuery], AwaitingSearch)
      else if plate == "" then Run(options, [DistinctCodesQuery], PlateMissing)
      else
        PlanFacts(true, selected != "");
        Run(options, [DistinctCodesQuery, Render(Plan(true, selected != ""))],
            Route(SearchRows(db.table, plate, selected)))
  }

  /**
   * A search with a plate shows exactly the matching rows: no result when none
   * matches, the detail view when one does, the expander when several do.
   */
  lemma SearchShowsMatches(db: Database, t: seq<Record>, plate: string, selected: string)
    requires db.table == Some(t) && plate != ""
    ensures var o := MainPage(Some(db), true, plate, selected).outcome;
      && Shown(o) == Where(t, plate, selected)
      && (o == NoResults <==> forall r :: r in t ==> !Matches(r, plate, selected))
      && (o.Detail? ==> o.row in t && Matches(o.row, plate, selected))
      && (o.Expanded? ==> |o.rows| > 1 && forall r :: r in o.rows <==> r in t && Matches(r, plate, selected))
  {
    ExecuteBuiltQuery(t, plate, selected);
    var w := Where(t, plate, selected);
    if w == [] {
      assert forall r :: r in t ==> !Matches(r, plate, selected);
    } else {
      assert w[0] in w;
    }
  }

  /** When the search query fails the page shows that no result was found. */
  lemma SearchFailureShowsNoResults(db: Database, plate: string, selected: string)
    requires db.table.None? && plate != ""
    ensures MainPage(Some(db), true, plate, selected).outcome == NoResults
  {
  }

  /**
   * The options are the empty default followed by the sorted codes: every
   * other option is a non-NULL value of the fetched column and every such value
   * is an option. A failed code query leaves only the default.
   */
  lemma OptionsFromColumn(db: Database, pressed: bool, plate: string, selected: string)
    ensures var opts := MainPage(Some(db), pressed, plate, selected).options;
      && opts[0] == ""
      && opts[1..] == UniqueCodes(db.codesColumn)
      && Sorted(opts[1..])
      && (db.codesColumn.None? ==> opts == [""])
      && (db.codesColumn.Some? ==>
            forall x :: x in opts[1..] <==> Some(x) in db.codesColumn.value)
  {
    var opts := MainPage(Some(db), pressed, plate, selected).options;
    assert opts[1..] == UniqueCodes(db.codesColumn);
    if db.codesColumn.Some? {
      var column := db.codesColumn.value;
      SortCodesFacts(Present(column));
      forall x ensures x in opts[1..] <==> Some(x) in column {
        assert x in opts[1..] <==> x in multiset(opts[1..]);
        assert Some(x) in column <==> Some(x) in multiset(column);
      }
    }
  }

  /** The default option selects no code filter: the search has only the plate clause and one parameter. */
  lemma DefaultOptionNoCodeFilter(codes: seq<string>, plate: string)
    ensures Options(codes)[0] == ""
    ensures Plan(plate != "", Options(codes)[0] != "") == [if plate != "" then PlateEquals else PlateLike]
    ensures Bindings(plate, Options(codes)[0]) == [if plate != "" then plate else Wildcard]
  {
  }

  /**
   * An example: two rows with plate "123456", one "Private" and one
   * "Taxi". Without a code both show in the expander; with "Taxi" the detail
   * view shows that row alone.
   */
  lemma TwoRowsExample(codes: Option<seq<Option<string>>>)
    ensures var priv := Record(Some("123456"), Some("Private"), []);
      var taxi := Record(Some("123456"), Some("Taxi"), []);
      var db := Database(codes, Some([priv, taxi]));
      && MainPage(Some(db), true, "123456", "").outcome == Expanded([priv, taxi])
      && MainPage(Some(db), true, "123456", "Taxi").outcome == Detail(taxi)
  {
    var priv := Record(Some("123456"), Some("Private"), []);
    var taxi := Record(Some("123456"), Some("Taxi"), []);
    var t := [priv, taxi];
    ExecuteBuiltQuery(t, "123456", "");
    ExecuteBuiltQuery(t, "123456", "Taxi");
    assert t[1..][1..] == [];
    assert Where(t, "123456", "") == t;
    assert Where(t, "123456", "Taxi") == [taxi];
  }

  /**
   * On the same rows an unknown plate finds nothing, and an empty plate warns
   * without sending the search query.
   */
  lemma UnknownAndEmptyPlateExample(codes: Option<seq<Option<string>>>)
    ensures var priv := Record(Some("123456"), Some("Private"), []);
      var taxi := Record(Some("123456"), Some("Taxi"), []);
      var db := Database(codes, Some([priv, taxi]));
      && MainPage(Some(db), true, "000000", "").outcome == NoResults
      && MainPage(Some(db), true, "", "Taxi").outcome == PlateMissing
      && |MainPage(Some(db), true, "", "Taxi").queries| == 1
  {
    var priv := Record(Some("123456"), Some("Private"), []);
    var taxi := Record(Some("123456"), Some("Taxi"), []);
    var t := [priv, taxi];
    ExecuteBuiltQuery(t, "000000", "");
    assert t[1..][1..] == [];
    assert Where(t, "000000", "") == [];
  }
}
