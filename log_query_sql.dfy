/**
 * The PostgreSQL branch of `/api/docusign-logs`: the query text is built
 * clause by clause with a running `$n` placeholder index and a parameter
 * list beside it. A parser for exactly the clauses the builder emits reads the
 * text back, so that the placeholders can be checked against the parameters.
 * Running the query is left out.
 */
module LogQuerySql {
  import opened Wrappers
  import Text
  import Decimal
  import SendLog

  const SelectAll := "SELECT * FROM docusign_logs WHERE 1=1"
  const SinceClause := " AND timestamp >= $"
  const UntilClause := " AND timestamp <= $"
  const OrderClause := " ORDER BY timestamp DESC"
  const LimitClause := " LIMIT $"

  /** A bound parameter: a date as the raw query string, or the parsed limit. */
  datatype SqlParam = TextParam(text: string) | IntParam(n: int)

  /** A `WHERE` condition on the timestamp, naming its placeholder number. */
  datatype Condition = Since(placeholder: nat) | Until(placeholder: nat)

  /** The structure of a query the builder can emit. */
  datatype LogSelect = LogSelect(conditions: seq<Condition>, limitPlaceholder: nat)

  /** The value a condition compares against. */
  function Bound(c: Condition, startDate: Option<string>, endDate: Option<string>): Option<string>
  {
    if c.Since? then startDate else endDate
  }

  /** A placeholder number: the maximal run of digits, which must not be empty. */
  function ParsePlaceholder(s: string): (r: Option<(nat, string)>)
    ensures r.Some? ==> |r.value.1| < |s|
  {
    var n := Text.LeadingDigits(s);
    if n == 0 then None else Some((Decimal.DigitsValue(s[..n]), s[n..]))
  }

  /** Reads one timestamp condition at the front of `s`. */
  function ParseCondition(s: string): (r: Option<(Condition, string)>)
    ensures r.Some? ==> |r.value.1| < |s|
  {
    if Text.StartsWith(s, SinceClause) then
      match ParsePlaceholder(s[|SinceClause|..])
      case None => None
      case Some((n, rest)) => Some((Since(n), rest))
    else if Text.StartsWith(s, UntilClause) then
      match ParsePlaceholder(s[|UntilClause|..])
      case None => None
      case Some((n, rest)) => Some((Until(n), rest))
    else None
  }

  /** Reads the closing `ORDER BY ... LIMIT $n`, which must end the text. */
  function ParseLimit(s: string): Option<nat>
  {
    if Text.StartsWith(s, OrderClause + LimitClause) then
      match ParsePlaceholder(s[|OrderClause + LimitClause|..])
      case None => None
      case Some((n, rest)) => if rest == [] then Some(n) else None
    else None
  }

  /** Reads the clauses that follow `WHERE 1=1`. */
  function ParseClauses(s: string): Option<LogSelect>
    decreases |s|
  {
    match ParseCondition(s)
    case Some((c, rest)) =>
      (match ParseClauses(rest)
       case None => None
       case Some(sel) => Some(LogSelect([c] + sel.conditions, sel.limitPlaceholder)))
    case None =>
      (match ParseLimit(s)
       case None => None
       case Some(n) => Some(LogSelect([], n)))
  }

  function ParseLogQuery(query: string): Option<LogSelect>
  {
    if Text.StartsWith(query, SelectAll) then ParseClauses(query[|SelectAll|..]) else None
  }

  lemma PlaceholderOfNumeral(n: nat, rest: string)
    requires rest == [] || rest[0] == ' '
    ensures ParsePlaceholder(Decimal.NatToString(n) + rest) == Some((n, rest))
  {
    var d := Decimal.NatToString(n);
    Text.LeadingDigitsOfConcat(d, rest);
    assert (d + rest)[..|d|] == d;
    assert (d + rest)[|d|..] == rest;
    Decimal.NatToStringRoundTrip(n);
  }

  function Keyword(c: Condition): string
  {
    if c.Since? then SinceClause else UntilClause
  }

  function ConditionText(c: Condition): string
  {
    Keyword(c) + Decimal.NatToString(c.placeholder)
  }

  /** The text of a run of conditions, in order. */
  function ConditionsText(conditions: seq<Condition>): string
  {
    if conditions == [] then "" else ConditionText(conditions[0]) + ConditionsText(conditions[1..])
  }

  lemma {:induction false} ConditionsTextAppend(conditions: seq<Condition>, c: Condition)
    ensures ConditionsText(conditions + [c]) == ConditionsText(conditions) + ConditionText(c)
  {
    if conditions == [] {
      assert ConditionsText([c]) == ConditionText(c) + "";
    } else {
      assert (conditions + [c])[1..] == conditions[1..] + [c];
      ConditionsTextAppend(conditions[1..], c);
    }
  }

  /** A string read after its own prefix. */
  lemma ReadPrefix(p: string, t: string)
    ensures Text.StartsWith(p + t, p)
    ensures (p + t)[|p|..] == t
  {
    assert (p + t)[..|p|] == p;
  }

  /** A string that differs from `p` at a position inside `p` does not start with `p`. */
  lemma DiffersAt(p: string, s: string, i: nat)
    requires i < |p| && i < |s| && s[i] != p[i]
    ensures !Text.StartsWith(s, p)
  {
    if |p| <= |s| {
      assert s[..|p|][i] == s[i];
    }
  }

  lemma ReadSince(n: nat, tail: string)
    requires ParsePlaceholder(tail).Some? && ParsePlaceholder(tail).value.0 == n
    ensures ParseCondition(SinceClause + tail) == Some((Since(n), ParsePlaceholder(tail).value.1))
  {
    ReadPrefix(SinceClause, tail);
  }

  lemma ReadUntil(n: nat, tail: string)
    requires ParsePlaceholder(tail).Some? && ParsePlaceholder(tail).value.0 == n
    ensures ParseCondition(UntilClause + tail) == Some((Until(n), ParsePlaceholder(tail).value.1))
  {
    var s := UntilClause + tail;
    ReadPrefix(UntilClause, tail);
    assert s[15] == UntilClause[15];
    DiffersAt(SinceClause, s, 15);
  }

  lemma ReadCondition(c: Condition, rest: string)
    requires |rest| > 0 && rest[0] == ' '
    ensures ParseCondition(ConditionText(c) + rest) == Some((c, rest))
  {
    var tail := Decimal.NatToString(c.placeholder) + rest;
    Associate(Keyword(c), Decimal.NatToString(c.placeholder), rest);
    PlaceholderOfNumeral(c.placeholder, rest);
    if c.Since? {
      ReadSince(c.placeholder, tail);
    } else {
      ReadUntil(c.placeholder, tail);
    }
  }

  /** The closing clauses: `ORDER BY timestamp DESC LIMIT $n`. */
  function LimitText(n: nat): string
  {
    OrderClause + LimitClause + Decimal.NatToString(n)
  }

  lemma ReadLimit(n: nat)
    ensures |LimitText(n)| > 0 && LimitText(n)[0] == ' '
    ensures ParseCondition(LimitText(n)) == None
    ensures ParseLimit(LimitText(n)) == Some(n)
  {
    var head := OrderClause + LimitClause;
    var s := LimitText(n);
    ReadPrefix(head, Decimal.NatToString(n));
    assert Decimal.NatToString(n) == Decimal.NatToString(n) + [];
    PlaceholderOfNumeral(n, []);
    assert s[1] == head[1] == 'O';
    DiffersAt(SinceClause, s, 1);
    DiffersAt(UntilClause, s, 1);
  }

  lemma ParseSelect(clauses: string)
    ensures ParseLogQuery(SelectAll + clauses) == ParseClauses(clauses)
  {
    var q := SelectAll + clauses;
    assert q[..|SelectAll|] == SelectAll;
    assert q[|SelectAll|..] == clauses;
  }

  /** The conditions the builder emits: a start condition, then an end condition, numbered from 1. */
  function PlannedConditions(startDate: Option<string>, endDate: Option<string>): seq<Condition>
  {
    var since := if SendLog.Given(startDate) then [Since(1)] else [];
    since + (if SendLog.Given(endDate) then [Until(|since| + 1)] else [])
  }

  /** The date parameters the builder pushes, in order. */
  function PlannedDates(startDate: Option<string>, endDate: Option<string>): seq<SqlParam>
  {
    (if SendLog.Given(startDate) then [TextParam(startDate.value)] else []) +
    (if SendLog.Given(endDate) then [TextParam(endDate.value)] else [])
  }

  /** The planned conditions line up with the planned parameters. */
  lemma PlanLinesUp(startDate: Option<string>, endDate: Option<string>, limit: int, params: seq<SqlParam>)
    requires params == PlannedDates(startDate, endDate) + [IntParam(limit)]
    ensures var sel := LogSelect(PlannedConditions(startDate, endDate), |params|);
      && |sel.conditions| + 1 == |params|
      && |sel.conditions| == (if SendLog.Given(startDate) then 1 else 0) + (if SendLog.Given(endDate) then 1 else 0)
      && (SendLog.Given(startDate) ==> sel.conditions[0].Since?)
      && (SendLog.Given(endDate) ==> sel.conditions[|sel.conditions| - 1].Until?)
      && (forall i :: 0 <= i < |sel.conditions| ==> sel.conditions[i].placeholder == i + 1)
      && (forall i :: 0 <= i < |sel.conditions| ==>
            params[i].TextParam? && Bound(sel.conditions[i], startDate, endDate) == Some(params[i].text))
      && sel.limitPlaceholder == |params|
      && params[|params| - 1] == IntParam(limit)
  {
  }

  /**
   * The query text and parameter list of `/api/docusign-logs` (lines 473-491):
   * a timestamp condition for each date given, start before end, then the limit.
   * Read back, the placeholders are $1, $2, ... in order, each naming the
   * parameter at its position, and the LIMIT placeholder is the last one.
   */
  method BuildLogQuery(startDate: Option<string>, endDate: Option<string>, limit: int)
    returns (query: string, params: seq<SqlParam>)
    ensures ParseLogQuery(query).Some?
    ensures var sel := ParseLogQuery(query).value;
      && |sel.conditions| + 1 == |params|
      && |sel.conditions| == (if SendLog.Given(startDate) then 1 else 0) + (if SendLog.Given(endDate) then 1 else 0)
      && (SendLog.Given(startDate) ==> sel.conditions[0].Since?)
      && (SendLog.Given(endDate) ==> sel.conditions[|sel.conditions| - 1].Until?)
      && (forall i :: 0 <= i < |sel.conditions| ==> sel.conditions[i].placeholder == i + 1)
      && (forall i :: 0 <= i < |sel.conditions| ==>
            params[i].TextParam? && Bound(sel.conditions[i], startDate, endDate) == Some(params[i].text))
      && sel.limitPlaceholder == |params|
      && params[|params| - 1] == IntParam(limit)
  {
    query := SelectAll;
    params := [];
    var paramIndex := 1;
    ghost var conditions: seq<Condition> := [];

    if SendLog.Given(startDate) {
      AppendCondition(query, conditions, Since(paramIndex));
      query := query + SinceClause + Decimal.IntToString(paramIndex);
      params := params + [TextParam(startDate.value)];
      conditions := conditions + [Since(paramIndex)];
      paramIndex := paramIndex + 1;
    }
    assert query == SelectAll + ConditionsText(conditions);
    assert conditions == PlannedConditions(startDate, None) && params == PlannedDates(startDate, None);
    assert paramIndex == |conditions| + 1;

    if SendLog.Given(endDate) {
      AppendCondition(query, conditions, Until(paramIndex));
      query := query + UntilClause + Decimal.IntToString(paramIndex);
      params := params + [TextParam(endDate.value)];
      conditions := conditions + [Until(paramIndex)];
      paramIndex := paramIndex + 1;
    }
    assert query == SelectAll + ConditionsText(conditions);
    assert conditions == PlannedConditions(startDate, endDate) && params == PlannedDates(startDate, endDate);
    assert paramIndex == |conditions| + 1;

    query := query + OrderClause;
    query := query + LimitClause + Decimal.IntToString(paramIndex);
    params := params + [IntParam(limit)];

    BuiltQueryParses(query, conditions, paramIndex);
    PlanLinesUp(startDate, endDate, limit, params);
  }

  /** Appending a condition's text to the query appends the condition. */
  lemma AppendCondition(query: string, conditions: seq<Condition>, c: Condition)
    requires query == SelectAll + ConditionsText(conditions)
    ensures query + Keyword(c) + Decimal.IntToString(c.placeholder) == SelectAll + ConditionsText(conditions + [c])
  {
    ConditionsTextAppend(conditions, c);
    Regroup(SelectAll, ConditionsText(conditions), Keyword(c), Decimal.NatToString(c.placeholder));
  }

  lemma Regroup<T>(a: seq<T>, b: seq<T>, c: seq<T>, d: seq<T>)
    ensures a + b + c + d == a + (b + (c + d))
  {
  }

  lemma RegroupTail<T>(a: seq<T>, b: seq<T>, c: seq<T>, d: seq<T>)
    ensures a + b + c + d == a + (b + c + d)
  {
  }

  lemma Associate<T>(a: seq<T>, b: seq<T>, c: seq<T>)
    ensures a + b + c == a + (b + c)
  {
  }

  /** The closing clauses parse as the limit alone. */
  lemma ParseLimitOnly(limitIndex: nat)
    ensures ParseClauses(LimitText(limitIndex)) == Some(LogSelect([], limitIndex))
  {
    ReadLimit(limitIndex);
  }

  /** The whole text: `SELECT ... WHERE 1=1`, the conditions, the limit. */
  lemma BuiltQueryParses(query: string, conditions: seq<Condition>, limitIndex: nat)
    requires query == SelectAll + ConditionsText(conditions) + OrderClause + LimitClause + Decimal.IntToString(limitIndex)
    ensures ParseLogQuery(query) == Some(LogSelect(conditions, limitIndex))
  {
    var tail := LimitText(limitIndex);
    assert Decimal.IntToString(limitIndex) == Decimal.NatToString(limitIndex);
    RegroupTail(SelectAll + ConditionsText(conditions), OrderClause, LimitClause, Decimal.NatToString(limitIndex));
    Associate(SelectAll, ConditionsText(conditions), tail);
    assert query == SelectAll + (ConditionsText(conditions) + tail);
    ReadLimit(limitIndex);
    ParseLimitOnly(limitIndex);
    ParseConditions(conditions, tail, limitIndex);
    ConditionsThenIsText(conditions, tail);
    ParseSelect(ConditionsText(conditions) + tail);
  }

  /** A condition in front of text that starts with a space is read, and the rest is parsed after it. */
  lemma ParseConsCondition(c: Condition, rest: string)
    requires |rest| > 0 && rest[0] == ' '
    ensures ParseClauses(ConditionText(c) + rest)
         == match ParseClauses(rest)
            case None => None
            case Some(sel) => Some(LogSelect([c] + sel.conditions, sel.limitPlaceholder))
  {
    ReadCondition(c, rest);
  }

  /** The conditions' text followed by `tail`, built from the front. */
  function ConditionsThen(conditions: seq<Condition>, tail: string): string
  {
    if conditions == [] then tail else ConditionText(conditions[0]) + ConditionsThen(conditions[1..], tail)
  }

  lemma {:induction false} ConditionsThenIsText(conditions: seq<Condition>, tail: string)
    ensures ConditionsText(conditions) + tail == ConditionsThen(conditions, tail)
  {
    if conditions == [] {
      assert ConditionsText(conditions) + tail == tail;
    } else {
      ConditionsThenIsText(conditions[1..], tail);
      ConditionsTextCons(conditions, tail);
    }
  }

  lemma ConditionsTextCons(conditions: seq<Condition>, tail: string)
    requires conditions != []
    ensures ConditionsText(conditions) + tail == ConditionText(conditions[0]) + (ConditionsText(conditions[1..]) + tail)
  {
    var first := ConditionText(conditions[0]);
    var others := ConditionsText(conditions[1..]);
    assert ConditionsText(conditions) == first + others;
    Associate(first, others, tail);
  }

  /** Every clause the builder emits after `WHERE 1=1` starts with a space. */
  lemma LeadingSpaceThen(conditions: seq<Condition>, tail: string)
    requires |tail| > 0 && tail[0] == ' '
    ensures |ConditionsThen(conditions, tail)| > 0 && ConditionsThen(conditions, tail)[0] == ' '
  {
    if conditions != [] {
      assert ConditionText(conditions[0])[0] == ' ';
    }
  }

  /** Any run of conditions in front of the limit clause parses back to itself. */
  lemma {:induction false} ParseConditions(conditions: seq<Condition>, tail: string, limitIndex: nat)
    requires |tail| > 0 && tail[0] == ' '
    requires ParseClauses(tail) == Some(LogSelect([], limitIndex))
    ensures ParseClauses(ConditionsThen(conditions, tail)) == Some(LogSelect(conditions, limitIndex))
  {
    if conditions != [] {
      var c := conditions[0];
      ParseConditions(conditions[1..], tail, limitIndex);
      LeadingSpaceThen(conditions[1..], tail);
      ParseConsCondition(c, ConditionsThen(conditions[1..], tail));
      assert [c] + conditions[1..] == conditions;
    }
  }
}
