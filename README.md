# Plate961 lookup page, modelled in Dafny

Plate961 is a one-page Streamlit application over a SQLite file (`plates.db`)
holding one table, `CARMDI`, of registered plates. The user picks an optional
category (`CodeDesc`) from a dropdown, types a plate number (`ActualNB`) and
presses Search; the page shows one record in a two-column view, several records
in an expander, or a message.

This project models the three pieces of sequential logic in `main.py`:

- **search_db**'s query builder (`Search.BuildQuery`, `Search.SearchDb`): the
  SQL text grows from a fixed prefix by a plate clause (`= ?` for a given plate,
  `LIKE ?` bound to `"%"` otherwise) and an optional `CodeDesc = ?` clause, while
  the parameter list grows in step. The text is modelled as a list of clauses
  (`Sql.Clause`) rendered to text (`Sql.Render`) and read back (`Sql.Parse`);
  execution by SQLite is modelled in memory (`Table.Execute`): the text is
  parsed as one of the rendered search forms (any other text is not read by the
  model), the parameter count is checked against the placeholder count (SQLite
  raises otherwise), and the rows whose clauses all hold are returned. A NULL
  plate satisfies neither `= ?` nor `LIKE '%'`, as in SQL.
- **get_unique_codes** (`Codes.GetUniqueCodes`): the fetched `DISTINCT CodeDesc`
  column, a sequence of possibly-NULL values, loses its NULLs (`Codes.Present`)
  and is sorted in place on an array (`Codes.SortInPlace`, insertion sort) in
  Python's order on `str` (`Codes.LexLe`); a failed query gives no codes.
- **main**'s dispatch (`Page.MainPage`, `Page.Route`): no connection ends the
  page; otherwise the codes fill the dropdown (`""` first); Search with an empty
  plate warns and runs no search; otherwise the search runs and its rows are
  routed by number: none, exactly one (detail view of row 0) or several (the
  expander with all of them). `Page.Run` records the options, the SQL texts sent
  to the database and the outcome.

The database is an input: `Page.Database` holds what the DISTINCT query returns
and the table, each `None` where `pd.read_sql` raises; a failed connection is a
`None` connection.

## Model

| member | source | states |
|---|---|---|
| Search.BuildQuery | main.py:37-51 | the text is the rendering of a plan that depends only on whether the plate and the code are empty; it parses back to that plan; the parameters are the plate (or "%") then the code when given; placeholders equal the number of parameters |
| Search.QueryShape | main.py:37-51 | the query is the fixed prefix, then `= ?` or `LIKE ?` for the plate, then `CodeDesc = ?` exactly when a code is given, in that order |
| Search.QueryIgnoresValues | main.py:41-51 | two searches whose plates and codes are empty alike send identical SQL text, whatever the values |
| Search.BindingsShape | main.py:38-51 | one parameter per clause: the plate or "%" first, the code second exactly when it is non-empty |
| Sql.ParseRender | main.py:37-51 | a text parses to a clause list exactly when it is that list's rendering (parse and render are inverse) |
| Sql.RenderPlaceholders | main.py:42-50 | a rendered query has exactly one `?` per clause |
| Table.LikeWildcard | main.py:45-46 | the pattern "%" matches every (non-NULL) string |
| Table.Selects | main.py:37-51 | a row is selected exactly when every clause holds with its own parameter (WHERE 1=1 AND ...) |
| Table.FilterRows | main.py:54 | the executed query returns only table rows, and every table row the clauses select, each as many times as the table holds it |
| Table.Execute | main.py:54-58 | the in-memory reading of a search query gives None (the exception path) exactly when the placeholder count differs from the parameter count (SQLite's binding check) or the text is not one of the rendered search forms, which the model does not read and search_db never sends; otherwise it returns the rows the parsed clauses select |
| Search.Where | main.py:41-51 | the reference filter returns exactly the table rows that match both the plate filter and the code filter, each as many times as the table holds it |
| Search.PlanSelectsMatches | main.py:41-51 | the built clauses with the built parameters select a row exactly when it matches the reference filter |
| Search.ExecuteBuiltQuery | main.py:53-55 | running the built query never takes SQLite's error path and returns exactly the reference filter's rows |
| Search.SearchDb | main.py:36-58 | a readable table yields exactly the matching rows; a failing read_sql yields no rows |
| Search.PlateAndCodeConjoined | main.py:41-51 | a plate P and code C select exactly the rows with plate P and code C (AND, not OR) |
| Search.EmptyCodeNoFilter | main.py:49-51 | with an empty code only the plate filter applies |
| Search.EmptyPlateWildcard | main.py:44-46 | with an empty plate every row with a non-NULL plate passes the plate filter |
| Codes.Present | main.py:27 | dropping NULLs keeps each non-NULL value exactly as often as the column holds it |
| Codes.SortInPlace | main.py:28 | the array ends ascending in Python's `str` order and is a permutation of what it held |
| Codes.SortCodesFacts | main.py:28 | the functional sort is ascending and a permutation of its input |
| Codes.SortedUnique | main.py:28 | two ascending lists with the same elements are equal, so the sorted result is determined by the input |
| Codes.GetUniqueCodes | main.py:23-32 | a failed query gives []; otherwise the codes are ascending and hold each non-NULL fetched value as often as the column does |
| Codes.DistinctCodesStrictlyAscending | main.py:24-28 | when the column holds each code at most once (DISTINCT), the codes are strictly ascending with no duplicates |
| Page.Route | main.py:88-114 | 0 rows gives "No results found.", 1 row the detail view of row 0, more the expander; what is shown is exactly the rows |
| Page.MainPage | main.py:62-117 | no connection returns before any query; otherwise the code query runs first and the options are "" then the codes; unpressed, the form awaits a search; the warning shows exactly for a pressed search with an empty plate; the search query is sent exactly for a pressed search with a plate, has the exact-plate clause, and its rows are routed by count |
| Page.SearchShowsMatches | main.py:84-114 | a search with a plate shows exactly the matching rows; no result iff nothing matches; the detail row and the expander rows all match |
| Page.SearchFailureShowsNoResults | main.py:56-58 | a failing search query ends in "No results found." |
| Page.OptionsFromColumn | main.py:75-76 | the options are "" then the sorted codes; each other option is a fetched non-NULL value and each such value is offered; a failed code query leaves only "" |
| Page.DefaultOptionNoCodeFilter | main.py:49 | the default option "" gives a search with no code clause and a single parameter |
| Page.TwoRowsExample | main.py:87-112 | two "123456" rows: no code shows both in the expander, "Taxi" shows the Taxi row alone in the detail view |
| Page.UnknownAndEmptyPlateExample | main.py:84-87 | on the same rows an unknown plate gives "No results found." and an empty plate warns with no search query sent |

## Left out

- Streamlit page chrome and widgets (`set_page_config`, `markdown`, `columns`, `selectbox`, `text_input`, `button`, `expander`, `dataframe`) and the `html_css` styles: presentation by a framework. The dropdown's and text field's values and the button state are parameters of `Page.MainPage`.
- The selected code is any string: the model does not tie it to one of the offered options, because the widget that guarantees this is not modelled.
- `sqlite3.connect` and `conn.close`: I/O. A failed connection is a `None` connection; closing has no observable effect in the model.
- `pd.read_sql`: a foreign library. Its result is modelled in memory by `Table.Execute`; SQLite's row order (no ORDER BY) is taken to be table order, and `DISTINCT` is the database's job, so distinctness of codes is proved only under that assumption.
- Table.Like: SQLite's LIKE ignores ASCII case; the model's matcher is case-sensitive. The only pattern the query uses is "%", which has no letters.
- Error and warning texts (`st.error`, `st.warning`) and the f-string layout of a single record: display formatting. A failed search is shown as `NoResults` without its separate error line.
- Values of `CodeDesc` and `ActualNB` that are not strings, and SQLite's type-affinity conversions: both columns are modelled as text or NULL compared by exact equality, so for example an INTEGER-affinity `ActualNB` column, where `'0123456'` would match a stored `123456`, is not modelled.
- get_unique_codes only drops NULLs (main.py:27), so an empty-string `CodeDesc` is kept and offered beside the default `""`; the model follows the code.
- The wildcard branch of `search_db` is unreachable from `main` (an empty plate never reaches it); it is modelled only as part of `Search.BuildQuery` and `Search.SearchDb`.
