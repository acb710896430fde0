/**
 * The SQL text that the search page sends to SQLite: a fixed SELECT prefix
 * followed by a conjunction of clauses, each with exactly one `?` placeholder.
 * Render turns a list of clauses into text and Parse reads it back.
 */
module Sql {
  import opened Wrappers

  /** One conjunct of the search query's WHERE clause. */
  datatype Clause = PlateEquals | PlateLike | CodeEquals

  /** The query of get_unique_codes (main.py:24). */
  const DistinctCodesQuery: string := "SELECT DISTINCT CodeDesc FROM CARMDI"

  /** The fixed start of every search query (main.py:37). */
  const SelectPrefix: string := "SELECT * FROM CARMDI WHERE 1=1"

  /** The comparison a clause makes, up to its placeholder. */
  function Condition(c: Clause): string
  {
    match c
    case PlateEquals => " AND ActualNB = "
    case PlateLike => " AND ActualNB LIKE "
    case CodeEquals => " AND CodeDesc = "
  }

  /** The text search_db appends for a clause (main.py:42, 45, 50). */
  function ClauseText(c: Clause): string
  {
    Condition(c) + "?"
  }

  function Conjuncts(cs: seq<Clause>): string
  {
    if cs == [] then "" else ClauseText(cs[0]) + Conjuncts(cs[1..])
  }

  /** The SQL text of a search with the given clauses, in order. */
  function Render(cs: seq<Clause>): string
  {
    SelectPrefix + Conjuncts(cs)
  }

  /** The number of `?` placeholders in a SQL text, which SQLite binds one parameter to each. */
  function Placeholders(s: string): nat
  {
    if s == [] then 0 else (if s[0] == '?' then 1 else 0) + Placeholders(s[1..])
  }

  lemma {:induction false} PlaceholdersAppend(a: string, b: string)
    ensures Placeholders(a + b) == Placeholders(a) + Placeholders(b)
  {
    if a == [] {
      assert a + b == b;
    } else {
      assert (a + b)[0] == a[0];
      assert (a + b)[1..] == a[1..] + b;
      PlaceholdersAppend(a[1..], b);
    }
  }

  lemma {:induction false} NoPlaceholders(s: string)
    requires '?' !in s
    ensures Placeholders(s) == 0
  {
    if s != [] {
      NoPlaceholders(s[1..]);
    }
  }

  /** The clause whose text starts `s`, if any. */
  function Lead(s: string): (r: Option<Clause>)
    ensures r.Some? ==> ClauseText(r.value) <= s
  {
    if ClauseText(PlateEquals) <= s then Some(PlateEquals)
    else if ClauseText(PlateLike) <= s then Some(PlateLike)
    else if ClauseText(CodeEquals) <= s then Some(CodeEquals)
    else None
  }

  function ParseConjuncts(s: string): Option<seq<Clause>>
    decreases |s|
  {
    if s == [] then Some([])
    else match Lead(s)
      case None => None
      case Some(c) =>
        match ParseConjuncts(s[|ClauseText(c)|..])
        case None => None
        case Some(rest) => Some([c] + rest)
  }

  /** Reads a search query back into its clauses; None when the text is not of that form. */
  function Parse(q: string): Option<seq<Clause>>
  {
    if SelectPrefix <= q then ParseConjuncts(q[|SelectPrefix|..]) else None
  }

  lemma LeadOfClause(c: Clause, rest: string)
    ensures Lead(ClauseText(c) + rest) == Some(c)
  {
    var s := ClauseText(c) + rest;
    match c
    case PlateEquals =>
    case PlateLike =>
      assert s[14] == 'L';
      assert ClauseText(PlateEquals)[14] == '=';
    case CodeEquals =>
      assert s[5] == 'C';
      assert ClauseText(PlateEquals)[5] == 'A';
      assert ClauseText(PlateLike)[5] == 'A';
  }

  lemma {:induction false} ParseConjunctsRender(cs: seq<Clause>)
    ensures ParseConjuncts(Conjuncts(cs)) == Some(cs)
  {
    if cs != [] {
      var t := ClauseText(cs[0]);
      var rest := Conjuncts(cs[1..]);
      LeadOfClause(cs[0], rest);
      assert (t + rest)[|t|..] == rest;
      ParseConjunctsRender(cs[1..]);
      assert [cs[0]] + cs[1..] == cs;
    }
  }

  lemma LeadSplits(s: string)
    requires Lead(s).Some?
    ensures s == ClauseText(Lead(s).value) + s[|ClauseText(Lead(s).value)|..]
  {
  }

  lemma {:induction false} ParseConjunctsSound(s: string, cs: seq<Clause>)
    requires ParseConjuncts(s) == Some(cs)
    ensures s == Conjuncts(cs)
    decreases |s|
  {
    if s != [] {
      var c := Lead(s).value;
      var tail := s[|ClauseText(c)|..];
      var rest := ParseConjuncts(tail).value;
      ParseConjunctsSound(tail, rest);
      LeadSplits(s);
      assert cs == [c] + rest;
    }
  }

  /** Parse and Render are inverse: a text parses to `cs` exactly when it is the rendering of `cs`. */
  lemma ParseRender(q: string, cs: seq<Clause>)
    ensures Parse(q) == Some(cs) <==> q == Render(cs)
  {
    if q == Render(cs) {
      assert q[|SelectPrefix|..] == Conjuncts(cs);
      ParseConjunctsRender(cs);
    }
    if Parse(q) == Some(cs) {
      ParseConjunctsSound(q[|SelectPrefix|..], cs);
      assert q == SelectPrefix + q[|SelectPrefix|..];
    }
  }

  lemma ConditionHasNoPlaceholder(c: Clause)
    ensures '?' !in Condition(c)
  {
    match c
    case PlateEquals =>
    case PlateLike =>
    case CodeEquals =>
  }

  lemma PrefixHasNoPlaceholder()
    ensures '?' !in SelectPrefix
  {
  }

  lemma ClausePlaceholder(c: Clause)
    ensures Placeholders(ClauseText(c)) == 1
  {
    ConditionHasNoPlaceholder(c);
    NoPlaceholders(Condition(c));
    PlaceholdersAppend(Condition(c), "?");
    assert "?"[1..] == [];
  }

  lemma {:induction false} ConjunctsPlaceholders(cs: seq<Clause>)
    ensures Placeholders(Conjuncts(cs)) == |cs|
  {
    if cs != [] {
      ConjunctsPlaceholders(cs[1..]);
      ClausePlaceholder(cs[0]);
      PlaceholdersAppend(ClauseText(cs[0]), Conjuncts(cs[1..]));
    }
  }

  /** A rendered query carries one placeholder per clause. */
  lemma RenderPlaceholders(cs: seq<Clause>)
    ensures Placeholders(Render(cs)) == |cs|
  {
    ConjunctsPlaceholders(cs);
    PrefixHasNoPlaceholder();
    NoPlaceholders(SelectPrefix);
    PlaceholdersAppend(SelectPrefix, Conjuncts(cs));
  }
}
