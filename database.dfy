/** The pure helpers of the data-access layer: row picking, quote escaping, the WHERE,
    ORDER BY and LIMIT clause builders, multi-column LIKE search and pagination arithmetic.
    The builders produce SQL text and parameter lists; no SQL is evaluated. */
module Database {
  import opened Js

  /** A SQL text with the values bound to its `?` placeholders, in order. */
  datatype Statement = Statement(sql: string, params: seq<Value>)

  // ---------------------------------------------------------------------------
  // Row selection
  // ---------------------------------------------------------------------------

  /** The rows of `rows` that `keep` accepts, in their original order (a WHERE over a table
      read without ORDER BY). */
  function Select<T(!new)>(rows: seq<T>, keep: T -> bool): (r: seq<T>)
    ensures |r| <= |rows|
    ensures forall x :: x in r <==> x in rows && keep(x)
    ensures rows != [] && keep(rows[0]) ==> r != [] && r[0] == rows[0]
  {
    if rows == [] then []
    else if keep(rows[0]) then [rows[0]] + Select(rows[1..], keep)
    else Select(rows[1..], keep)
  }

  /** `getOne`: the first row of a result, or null when the result is empty. */
  function GetOne<T>(rows: seq<T>): (r: Option<T>)
    ensures r.None? <==> rows == []
    ensures r.Some? ==> r.value in rows
  {
    if rows == [] then None else Some(rows[0])
  }

  /** The row `getOne` picks out of a filtered table is the first row that passes the filter. */
  lemma {:induction false} GetOneSelectIsFirstMatch<T(!new)>(rows: seq<T>, keep: T -> bool, k: nat)
    requires k < |rows| && keep(rows[k])
    requires forall j :: 0 <= j < k ==> !keep(rows[j])
    ensures GetOne(Select(rows, keep)) == Some(rows[k])
  {
    if k > 0 {
      GetOneSelectIsFirstMatch(rows[1..], keep, k - 1);
    }
  }

  /** An object filled from rows in order (`obj[key] = value`): each key ends up with the
      value of its last row. */
  function LastByKey<V>(rows: seq<(string, V)>): (m: map<string, V>)
    ensures forall k :: k in m <==> exists i :: 0 <= i < |rows| && rows[i].0 == k
  {
    if rows == [] then map[]
    else
      var init := rows[..|rows| - 1];
      var m := LastByKey(init);
      assert forall i :: 0 <= i < |init| ==> init[i] == rows[i];
      m[rows[|rows| - 1].0 := rows[|rows| - 1].1]
  }

  /** A later row overwrites an earlier one: a key holds the value of the last row that
      names it. */
  lemma {:induction false} LastByKeyIsLast<V>(rows: seq<(string, V)>, i: int)
    requires 0 <= i < |rows|
    requires forall j :: i < j < |rows| ==> rows[j].0 != rows[i].0
    ensures rows[i].0 in LastByKey(rows) && LastByKey(rows)[rows[i].0] == rows[i].1
  {
    if i < |rows| - 1 {
      var init := rows[..|rows| - 1];
      assert init[i] == rows[i];
      LastByKeyIsLast(init, i);
    }
  }

  // ---------------------------------------------------------------------------
  // escape
  // ---------------------------------------------------------------------------

  /** `value.replace(/'/g, "''")`. */
  function DoubleQuotes(s: string): (r: string)
    ensures |r| == |s| + CountChar(s, '\'')
  {
    if s == [] then []
    else (if s[0] == '\'' then "''" else [s[0]]) + DoubleQuotes(s[1..])
  }

  /** `escape`: strings get their single quotes doubled; any other value is returned as is. */
  function Escape(v: Value): (r: Value)
    ensures !v.Str? ==> r == v
    ensures v.Str? ==> r.Str? && Unescape(r.s) == Some(v.s)
  {
    if v.Str? then (DoubleQuotesRoundTrip(v.s); Str(DoubleQuotes(v.s))) else v
  }

  /** Reads the contents of a single-quoted SQL literal back: every `''` stands for one quote,
      and a lone quote (which would end the literal) makes it unreadable. */
  function Unescape(t: string): Option<string> {
    if t == [] then Some([])
    else if t[0] != '\'' then
      match Unescape(t[1..]) { case None => None case Some(u) => Some([t[0]] + u) }
    else if |t| >= 2 && t[1] == '\'' then
      match Unescape(t[2..]) { case None => None case Some(u) => Some("'" + u) }
    else None
  }

  /** The escaped text always reads back to the original: no input can close the literal. */
  lemma {:induction false} DoubleQuotesRoundTrip(s: string)
    ensures Unescape(DoubleQuotes(s)) == Some(s)
  {
    if s != [] {
      DoubleQuotesRoundTrip(s[1..]);
      var t := DoubleQuotes(s);
      if s[0] == '\'' {
        assert t == "''" + DoubleQuotes(s[1..]);
        assert t[2..] == DoubleQuotes(s[1..]);
      } else {
        assert t == [s[0]] + DoubleQuotes(s[1..]);
        assert t[1..] == DoubleQuotes(s[1..]);
      }
      assert [s[0]] + s[1..] == s;
    }
  }

  // ---------------------------------------------------------------------------
  // buildWhereClause
  // ---------------------------------------------------------------------------

  /** A condition value is used when it is neither undefined nor null. */
  predicate Present(v: Value) {
    !v.Undefined? && !v.Null?
  }

  /** The conditions, in key order, whose value is present. */
  function Kept(conds: seq<(string, Value)>): (r: seq<(string, Value)>)
    ensures |r| <= |conds|
    ensures forall e :: e in r <==> e in conds && Present(e.1)
  {
    if conds == [] then []
    else
      var last := conds[|conds| - 1];
      Kept(conds[..|conds| - 1]) + (if Present(last.1) then [last] else [])
  }

  function EqClause(key: string): string {
    key + " = ?"
  }

  function EqClauses(kept: seq<(string, Value)>): (r: seq<string>)
    ensures |r| == |kept| && forall i :: 0 <= i < |r| ==> r[i] == EqClause(kept[i].0)
  {
    if kept == [] then [] else EqClauses(kept[..|kept| - 1]) + [EqClause(kept[|kept| - 1].0)]
  }

  function ValuesOf(kept: seq<(string, Value)>): (r: seq<Value>)
    ensures |r| == |kept| && forall i :: 0 <= i < |r| ==> r[i] == kept[i].1
  {
    if kept == [] then [] else ValuesOf(kept[..|kept| - 1]) + [kept[|kept| - 1].1]
  }

  /** The clause text for the kept conditions. */
  function WhereSql(kept: seq<(string, Value)>): string {
    if kept == [] then "" else "WHERE " + Join(EqClauses(kept), " AND ")
  }

  /** `buildWhereClause`. `conditions` is the object's entries in key order; `None` is a
      missing object. */
  method BuildWhereClause(conditions: Option<seq<(string, Value)>>) returns (sql: string, params: seq<Value>)
    ensures conditions.None? || conditions.value == [] ==> sql == "" && params == []
    ensures conditions.Some? ==> sql == WhereSql(Kept(conditions.value))
    ensures conditions.Some? ==> |params| == |Kept(conditions.value)|
    ensures conditions.Some? ==> forall i :: 0 <= i < |params| ==> params[i] == Kept(conditions.value)[i].1
  {
    if conditions.None? || |conditions.value| == 0 {
      return "", [];
    }
    var conds := conditions.value;
    var clauses: seq<string> := [];
    params := [];
    var i := 0;
    while i < |conds|
      invariant 0 <= i <= |conds|
      invariant clauses == EqClauses(Kept(conds[..i]))
      invariant params == ValuesOf(Kept(conds[..i]))
    {
      assert conds[..i + 1][..i] == conds[..i];
      if Present(conds[i].1) {
        clauses := clauses + [EqClause(conds[i].0)];
        params := params + [conds[i].1];
      }
      i := i + 1;
    }
    assert conds[..i] == conds;
    sql := if |clauses| > 0 then "WHERE " + Join(clauses, " AND ") else "";
  }

  lemma {:induction false} EqClausesCount(kept: seq<(string, Value)>)
    requires forall i :: 0 <= i < |kept| ==> CountChar(kept[i].0, '?') == 0
    ensures SumCounts(EqClauses(kept), '?') == |kept|
  {
    if kept != [] {
      var init := kept[..|kept| - 1];
      EqClausesCount(init);
      SumCountsSnoc(EqClauses(init), EqClause(kept[|kept| - 1].0), '?');
      CountCharConcat(kept[|kept| - 1].0, " = ?", '?');
      assert CountChar(" = ?", '?') == 1;
    }
  }

  lemma {:induction false} SumCountsSnoc(parts: seq<string>, last: string, c: char)
    ensures SumCounts(parts + [last], c) == SumCounts(parts, c) + CountChar(last, c)
  {
    if parts == [] {
      assert parts + [last] == [last];
    } else {
      assert (parts + [last])[1..] == parts[1..] + [last];
      SumCountsSnoc(parts[1..], last, c);
    }
  }

  /** When no column name holds a `?`, the WHERE text has exactly one placeholder per parameter. */
  lemma WherePlaceholdersMatchParams(conds: seq<(string, Value)>)
    requires forall e :: e in conds ==> CountChar(e.0, '?') == 0
    ensures CountChar(WhereSql(Kept(conds)), '?') == |ValuesOf(Kept(conds))|
  {
    var kept := Kept(conds);
    if kept != [] {
      assert forall i :: 0 <= i < |kept| ==> kept[i] in conds;
      EqClausesCount(kept);
      assert CountChar(" AND ", '?') == 0;
      CountCharJoin(EqClauses(kept), " AND ", '?');
      CountCharConcat("WHERE ", Join(EqClauses(kept), " AND "), '?');
      assert CountChar("WHERE ", '?') == 0;
    }
  }

  // ---------------------------------------------------------------------------
  // buildOrderClause
  // ---------------------------------------------------------------------------

  /** A direction survives when its upper-cased form is ASC or DESC. */
  predicate ValidDirection(dir: string) {
    Upper(dir) == "ASC" || Upper(dir) == "DESC"
  }

  /** The `key DIRECTION` terms of the surviving entries, in key order. */
  function OrderTerms(entries: seq<(string, string)>): (r: seq<string>)
    ensures |r| <= |entries|
    ensures r == [] <==> forall e :: e in entries ==> !ValidDirection(e.1)
  {
    if entries == [] then []
    else
      var init, last := entries[..|entries| - 1], entries[|entries| - 1];
      assert forall e :: e in entries ==> e in init || e == last;
      OrderTerms(init) + (if ValidDirection(last.1) then [last.0 + " " + Upper(last.1)] else [])
  }

  /** Every term ends with an upper-case direction. */
  lemma {:induction false} OrderTermsWellFormed(entries: seq<(string, string)>)
    ensures forall t :: t in OrderTerms(entries) ==>
      exists e :: e in entries && ValidDirection(e.1) && t == e.0 + " " + Upper(e.1)
  {
    if entries != [] {
      var init := entries[..|entries| - 1];
      OrderTermsWellFormed(init);
      assert forall e :: e in init ==> e in entries;
    }
  }

  /** `buildOrderClause`. */
  method BuildOrderClause(orderBy: Option<seq<(string, string)>>) returns (sql: string)
    ensures orderBy.None? ==> sql == ""
    ensures orderBy.Some? ==> sql == (if OrderTerms(orderBy.value) == [] then "" else "ORDER BY " + Join(OrderTerms(orderBy.value), ", "))
  {
    if orderBy.None? || |orderBy.value| == 0 {
      return "";
    }
    var entries := orderBy.value;
    var clauses: seq<string> := [];
    var i := 0;
    while i < |entries|
      invariant 0 <= i <= |entries|
      invariant clauses == OrderTerms(entries[..i])
    {
      assert entries[..i + 1][..i] == entries[..i];
      var direction := Upper(entries[i].1);
      if direction == "ASC" || direction == "DESC" {
        clauses := clauses + [entries[i].0 + " " + direction];
      }
      i := i + 1;
    }
    assert entries[..i] == entries;
    sql := if |clauses| > 0 then "ORDER BY " + Join(clauses, ", ") else "";
  }

  // ---------------------------------------------------------------------------
  // buildLimitClause
  // ---------------------------------------------------------------------------

  /** `buildLimitClause(limit, offset)` for integral numbers: a zero limit is falsy. */
  method BuildLimitClause(limit: int, offset: int) returns (sql: string)
    ensures limit == 0 <==> sql == ""
    ensures limit != 0 ==> StartsWith(sql, "LIMIT " + IntToString(limit))
    ensures limit != 0 && offset <= 0 ==> sql == "LIMIT " + IntToString(limit)
    ensures limit != 0 && offset > 0 ==> sql == "LIMIT " + IntToString(limit) + " OFFSET " + IntToString(offset)
  {
    if limit == 0 {
      return "";
    }
    sql := "LIMIT " + IntToString(limit);
    if offset > 0 {
      sql := sql + " OFFSET " + IntToString(offset);
    }
  }

  // ---------------------------------------------------------------------------
  // searchInColumns
  // ---------------------------------------------------------------------------

  function LikeClauses(columns: seq<string>): (r: seq<string>)
    ensures |r| == |columns| && forall i :: 0 <= i < |r| ==> r[i] == columns[i] + " LIKE ?"
  {
    if columns == [] then [] else [columns[0] + " LIKE ?"] + LikeClauses(columns[1..])
  }

  /** The LIKE pattern that finds `term` anywhere in a column. */
  function LikePattern(term: string): string {
    "%" + term + "%"
  }

  /** `searchInColumns`: one `col LIKE ?` per column joined by OR in parentheses, and one
      `%term%` parameter per column; nothing at all for an empty term or no columns. */
  function SearchInColumns(term: string, columns: seq<string>): (r: (string, seq<string>))
    ensures term == "" || columns == [] ==> r == ("", [])
    ensures term != "" && columns != [] ==> r.0 == "(" + Join(LikeClauses(columns), " OR ") + ")"
    ensures |r.1| == (if term == "" then 0 else |columns|)
    ensures forall p :: p in r.1 ==> p == LikePattern(term)
  {
    if term == "" || columns == [] then ("", [])
    else ("(" + Join(LikeClauses(columns), " OR ") + ")", seq(|columns|, _ => LikePattern(term)))
  }

  /** With column names free of `?`, the search text has one placeholder per parameter. */
  lemma SearchPlaceholdersMatchParams(term: string, columns: seq<string>)
    requires forall c :: c in columns ==> CountChar(c, '?') == 0
    ensures CountChar(SearchInColumns(term, columns).0, '?') == |SearchInColumns(term, columns).1|
  {
    if term != "" && columns != [] {
      LikeClausesCount(columns);
      assert CountChar(" OR ", '?') == 0;
      CountCharJoin(LikeClauses(columns), " OR ", '?');
      CountCharConcat("(", Join(LikeClauses(columns), " OR "), '?');
      CountCharConcat("(" + Join(LikeClauses(columns), " OR "), ")", '?');
    }
  }

  lemma {:induction false} LikeClausesCount(columns: seq<string>)
    requires forall c :: c in columns ==> CountChar(c, '?') == 0
    ensures SumCounts(LikeClauses(columns), '?') == |columns|
  {
    if columns != [] {
      LikeClausesCount(columns[1..]);
      CountCharConcat(columns[0], " LIKE ?", '?');
      assert CountChar(" LIKE ?", '?') == 1;
      assert LikeClauses(columns)[1..] == LikeClauses(columns[1..]);
    }
  }

  // ---------------------------------------------------------------------------
  // Pagination
  // ---------------------------------------------------------------------------

  /** `Math.ceil(total / limit)` for a non-negative count: a whole number, or, for a zero
      limit, Infinity (some rows) or NaN (no rows). */
  datatype PageCount = Finite(n: int) | Infinity | NaN

  /** `Math.ceil(total / limit)`. */
  function PageCountOf(total: nat, limit: int): (r: PageCount)
    ensures limit == 0 ==> r == (if total == 0 then NaN else Infinity)
    ensures limit > 0 ==> r.Finite? && r.n >= 0 && r.n * limit >= total && (r.n - 1) * limit < total
    ensures limit < 0 ==> r.Finite? && r.n <= 0
  {
    if limit == 0 then (if total == 0 then NaN else Infinity)
    else if limit > 0 then (CeilDivBounds(total, limit); Finite((total + limit - 1) / limit))
    else Finite(-(total / -limit))
  }

  /** The quotient `(total + limit - 1) / limit` is the least page count whose pages hold `total`. */
  lemma CeilDivBounds(total: nat, limit: int)
    requires limit > 0
    ensures var n := (total + limit - 1) / limit;
      n >= 0 && n * limit >= total && (n - 1) * limit < total
  {
    var n := (total + limit - 1) / limit;
    var r := (total + limit - 1) % limit;
    assert total + limit - 1 == n * limit + r && 0 <= r < limit;
    assert n * limit - limit == (n - 1) * limit;
  }

  /** Where a page starts: `(page - 1) * limit`. */
  function Offset(page: int, limit: int): int {
    (page - 1) * limit
  }

  datatype Pagination = Pagination(page: int, limit: int, total: nat, pages: PageCount, hasNext: bool, hasPrev: bool)

  /** The `pagination` object `paginate` reports. */
  function Paginate(page: int, limit: int, total: nat): (p: Pagination)
    ensures p.page == page && p.limit == limit && p.total == total
    ensures p.pages == PageCountOf(total, limit)
    ensures p.hasPrev <==> page > 1
    ensures p.hasNext <==> Offset(page, limit) + limit < total
  {
    Pagination(page, limit, total, PageCountOf(total, limit), page * limit < total, page > 1)
  }

  /** For a positive limit, there is a next page exactly when the current page is before the
      last one. */
  lemma HasNextIffBeforeLastPage(page: int, limit: int, total: nat)
    requires limit > 0
    ensures Paginate(page, limit, total).hasNext <==> page < PageCountOf(total, limit).n
  {
    var n := PageCountOf(total, limit).n;
    if page * limit < total {
      if page >= n {
        MulMonotone(n, page, limit);
      }
    } else {
      if page < n {
        MulMonotone(page, n - 1, limit);
      }
    }
  }

  lemma MulMonotone(a: int, b: int, k: int)
    requires a <= b && k > 0
    ensures a * k <= b * k
  {
    assert b * k - a * k == (b - a) * k;
  }

  /** The rows a page shows: the slice the `LIMIT ? OFFSET ?` pair selects. */
  function PageRows<T>(rows: seq<T>, page: int, limit: int): (r: seq<T>)
    requires page >= 1 && limit > 0
    ensures |r| <= limit
  {
    var from := Offset(page, limit);
    if from >= |rows| then [] else rows[from..if from + limit <= |rows| then from + limit else |rows|]
  }

  /** A page is empty exactly when it lies beyond the page count. */
  lemma PageEmptyIffBeyondLast<T>(rows: seq<T>, page: int, limit: int)
    requires page >= 1 && limit > 0
    ensures PageRows(rows, page, limit) == [] <==> page > PageCountOf(|rows|, limit).n
  {
    var n := PageCountOf(|rows|, limit).n;
    var from := Offset(page, limit);
    MulMonotone(0, page - 1, limit);
    if page > n {
      MulMonotone(n, page - 1, limit);
    } else {
      MulMonotone(page - 1, n - 1, limit);
    }
  }
}
