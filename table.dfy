/**
 * The CARMDI table as the search sees it, and an in-memory reading of what
 * SQLite returns for a search query: the query text is parsed back into its
 * clauses, the parameters are bound to the placeholders in order, and the rows
 * whose every clause holds are returned, in table order.
 */
module Table {
  import opened Wrappers
  import opened Sql

  /**
   * One row of CARMDI. The two filter columns may be NULL; the other columns
   * (owner name, phone, birth details, mother's name, address, make, model,
   * production date, chassis and engine numbers) are carried along unread.
   */
  datatype Record = Record(actualNb: Option<string>, codeDesc: Option<string>, details: seq<Option<string>>)

  /** `s LIKE p`: `%` matches any run of characters, `_` any one character, the rest themselves. */
  function Like(s: string, p: string): bool
    decreases |s| + |p|
  {
    if p == [] then s == []
    else if p[0] == '%' then Like(s, p[1..]) || (s != [] && Like(s[1..], p))
    else s != [] && (p[0] == '_' || p[0] == s[0]) && Like(s[1..], p[1..])
  }

  /** The pattern "%" matches every string (but never a NULL column: see Holds). */
  lemma {:induction false} LikeWildcard(s: string)
    ensures Like(s, "%")
    decreases |s|
  {
    assert "%"[1..] == [];
    if s != [] {
      LikeWildcard(s[1..]);
    }
  }

  /** Whether a row satisfies one clause with `arg` bound to its placeholder; a NULL column satisfies none. */
  function Holds(c: Clause, arg: string, r: Record): bool
  {
    match c
    case PlateEquals => r.actualNb == Some(arg)
    case PlateLike => r.actualNb.Some? && Like(r.actualNb.value, arg)
    case CodeEquals => r.codeDesc == Some(arg)
  }

  /** Whether a row satisfies `WHERE 1=1 AND c0 AND c1 ...` with `args[i]` bound to clause `i`. */
  function Selects(cs: seq<Clause>, args: seq<string>, r: Record): (b: bool)
    requires |cs| == |args|
    ensures b <==> forall i :: 0 <= i < |cs| ==> Holds(cs[i], args[i], r)
  {
    if cs == [] then true
    else
      assert forall i :: 0 < i < |cs| ==> cs[1..][i - 1] == cs[i] && args[1..][i - 1] == args[i];
      Holds(cs[0], args[0], r) && Selects(cs[1..], args[1..], r)
  }

  /** The rows of `t` that the clauses select, in table order. */
  function FilterRows(t: seq<Record>, cs: seq<Clause>, args: seq<string>): (out: seq<Record>)
    requires |cs| == |args|
    ensures |out| <= |t|
    ensures forall x :: x in out <==> x in t && Selects(cs, args, x)
    ensures forall x :: multiset(out)[x] == if Selects(cs, args, x) then multiset(t)[x] else 0
  {
    if t == [] then []
    else
      assert t == [t[0]] + t[1..];
      assert multiset(t) == multiset{t[0]} + multiset(t[1..]);
      (if Selects(cs, args, t[0]) then [t[0]] else []) + FilterRows(t[1..], cs, args)
  }

  /**
   * What executing a search `query` with `params` over `t` gives. Only the
   * search forms that Render produces are read; any other text, and a
   * placeholder count that differs from the number of parameters (which
   * SQLite rejects), give None, the exception path. search_db only ever
   * passes a rendered search query with matching parameters (see
   * Search.ExecuteBuiltQuery).
   */
  function Execute(t: seq<Record>, query: string, params: seq<string>): (r: Option<seq<Record>>)
    ensures r.None? <==> Placeholders(query) != |params| || Parse(query).None?
    ensures r.Some? ==>
      |Parse(query).value| == |params| && r.value == FilterRows(t, Parse(query).value, params)
  {
    if Placeholders(query) != |params| then None
    else match Parse(query)
      case None => None
      case Some(cs) =>
        ParseRender(query, cs);
        RenderPlaceholders(cs);
        Some(FilterRows(t, cs, params))
  }
}
