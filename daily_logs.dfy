/** Keyset pagination of a user's daily logs: the filtered query that is sent
    to Postgres (newest date first, one row more than a page) and the page cut
    from the rows that come back, with the base64 cursor for the next page. */
module DailyLogs {
  import opened Basics
  import Encoding

  /** A bound parameter of the query: text or a number. */
  datatype SqlValue = Text(t: string) | Number(n: int)

  /** The comparisons the WHERE clause can hold. */
  datatype Op =
    | UserIdEq   // user_id = $n
    | LogDateGe  // log_date >= $n
    | LogDateLe  // log_date <= $n
    | LogDateLt  // log_date < $n

  /** One condition of the WHERE clause and the number of its placeholder. */
  datatype Condition = Condition(op: Op, param: nat)

  /** The query: conditions joined by AND, the bound values in `$n` order,
      and the placeholder number of the LIMIT. */
  datatype Query = Query(conditions: seq<Condition>, values: seq<SqlValue>, limitParam: nat)

  /** What a condition means: the comparison and the value it compares with. */
  datatype Filter = Filter(op: Op, value: SqlValue)

  datatype ListParams = ListParams(
    userId: string,
    from: Option<string>,
    to: Option<string>,
    limit: int,
    cursor: Option<string>)

  /** A row of `daily_logs` as the driver returns it. */
  datatype DbDailyLog = DbDailyLog(
    id: string,
    userId: string,
    logDate: string,
    timezone: string,
    sleepHours: string,
    socialActivity: string,
    screenTimeHours: string,
    moodRating: Option<int>,
    createdAt: string,
    updatedAt: string)

  datatype Page = Page(items: seq<DbDailyLog>, nextCursor: Option<string>)

  /** JavaScript truthiness of an optional string: present and not "". */
  predicate Given(o: Option<string>)
  {
    o.Some? && o.value != []
  }

  /** The filters a listing asks for, in order: the owner, then `from`, `to`
      and the cursor's date when each is given. */
  function Filters(p: ListParams): (fs: seq<Filter>)
    ensures 1 <= |fs| <= 4
    ensures fs[0] == Filter(UserIdEq, Text(p.userId))
  {
    [Filter(UserIdEq, Text(p.userId))] + FromFilter(p) + ToFilter(p) + CursorFilter(p)
  }

  function FromFilter(p: ListParams): seq<Filter>
  {
    if Given(p.from) then [Filter(LogDateGe, Text(p.from.value))] else []
  }

  function ToFilter(p: ListParams): seq<Filter>
  {
    if Given(p.to) then [Filter(LogDateLe, Text(p.to.value))] else []
  }

  /** The cursor is the base64 of the last date seen; newer dates are excluded. */
  function CursorFilter(p: ListParams): seq<Filter>
  {
    if Given(p.cursor) then [Filter(LogDateLt, Text(Encoding.FromBase64Text(p.cursor.value)))] else []
  }

  /** The query of `listDailyLogs`: the WHERE clause and its values, then the
      LIMIT of one row more than a page, bound as the last value. */
  method BuildQuery(p: ListParams) returns (q: Query)
    ensures |q.conditions| == |Filters(p)|
    ensures |q.values| == |q.conditions| + 1
    ensures forall i :: 0 <= i < |q.conditions| ==>
      && q.conditions[i].param == i + 1
      && q.conditions[i].op == Filters(p)[i].op
      && q.values[q.conditions[i].param - 1] == Filters(p)[i].value
    ensures q.limitParam == |q.values| && q.values[q.limitParam - 1] == Number(p.limit + 1)
  {
    var conditions, values := BuildWhere(p);
    q := WithLimit(conditions, values, Filters(p), Number(p.limit + 1));
  }

  /** The WHERE clause and its values, built by pushing a value and then a
      condition naming `$` + the new length. */
  method BuildWhere(p: ListParams) returns (conditions: seq<Condition>, values: seq<SqlValue>)
    ensures Numbered(conditions, values, Filters(p))
  {
    conditions := [Condition(UserIdEq, 1)];
    values := [Text(p.userId)];
    ghost var fs := [Filter(UserIdEq, Text(p.userId))];
    if Given(p.from) {
      PushKeepsNumbering(conditions, values, fs, LogDateGe, Text(p.from.value));
      values := values + [Text(p.from.value)];
      conditions := conditions + [Condition(LogDateGe, |values|)];
      fs := fs + [Filter(LogDateGe, Text(p.from.value))];
    }
    assert Numbered(conditions, values, fs) && fs == [Filter(UserIdEq, Text(p.userId))] + FromFilter(p);
    if Given(p.to) {
      PushKeepsNumbering(conditions, values, fs, LogDateLe, Text(p.to.value));
      values := values + [Text(p.to.value)];
      conditions := conditions + [Condition(LogDateLe, |values|)];
      fs := fs + [Filter(LogDateLe, Text(p.to.value))];
    }
    assert Numbered(conditions, values, fs) && fs == [Filter(UserIdEq, Text(p.userId))] + FromFilter(p) + ToFilter(p);
    if Given(p.cursor) {
      var decoded := Encoding.FromBase64Text(p.cursor.value);
      PushKeepsNumbering(conditions, values, fs, LogDateLt, Text(decoded));
      values := values + [Text(decoded)];
      conditions := conditions + [Condition(LogDateLt, |values|)];
      fs := fs + [Filter(LogDateLt, Text(decoded))];
    }
    assert Numbered(conditions, values, fs) && fs == Filters(p);
  }

  /** Pushing a value and then a condition numbered by the new length keeps
      every placeholder pointing at its own value. */
  lemma PushKeepsNumbering(conditions: seq<Condition>, values: seq<SqlValue>, fs: seq<Filter>, op: Op, v: SqlValue)
    requires Numbered(conditions, values, fs)
    ensures Numbered(conditions + [Condition(op, |values| + 1)], values + [v], fs + [Filter(op, v)])
  {
  }

  /** The query finished by appending the LIMIT value and numbering the LIMIT
      after it; the placeholders of the conditions are left alone. */
  function WithLimit(conditions: seq<Condition>, values: seq<SqlValue>, ghost fs: seq<Filter>, v: SqlValue): (q: Query)
    requires Numbered(conditions, values, fs)
    ensures |q.conditions| == |fs|
    ensures |q.values| == |q.conditions| + 1
    ensures forall i :: 0 <= i < |q.conditions| ==>
      && q.conditions[i].param == i + 1
      && q.conditions[i].op == fs[i].op
      && q.values[q.conditions[i].param - 1] == fs[i].value
    ensures q.limitParam == |q.values| && q.values[q.limitParam - 1] == v
  {
    Query(conditions, values + [v], |values| + 1)
  }

  /** Condition `i` is the i-th filter and its placeholder is `$(i+1)`, the
      position of its own value. */
  ghost predicate Numbered(conditions: seq<Condition>, values: seq<SqlValue>, fs: seq<Filter>)
  {
    && |conditions| == |fs| == |values|
    && forall i :: 0 <= i < |conditions| ==>
      && conditions[i].param == i + 1
      && conditions[i].op == fs[i].op
      && values[i] == fs[i].value
  }

  /** `rows.slice(0, end)` for a non-negative or negative `end`. */
  function SliceTo(rows: seq<DbDailyLog>, end: int): (r: seq<DbDailyLog>)
    ensures r <= rows
    ensures end >= 0 ==> |r| == (if end < |rows| then end else |rows|)
    ensures end < 0 ==> |r| == (if |rows| + end > 0 then |rows| + end else 0)
  {
    if end >= 0 then rows[..if end < |rows| then end else |rows|]
    else rows[..if |rows| + end > 0 then |rows| + end else 0]
  }

  /** `listDailyLogs`: the query it sends, and the page it makes of the rows
      the database returns for that query. A limit below -1 makes the bound
      LIMIT value negative, which Postgres rejects, so the query fails. With
      more rows than the limit the page holds the first `limit` rows and a
      cursor; a limit of 0 or -1 with such rows leaves nothing to take the
      cursor from, and the source's `items[items.length - 1]!.log_date`
      throws. */
  method ListDailyLogs(p: ListParams, rows: seq<DbDailyLog>) returns (q: Query, r: Result<Page>)
    requires p.limit + 1 >= 0 ==> |rows| <= p.limit + 1
    ensures |q.conditions| == |Filters(p)| && |q.values| == |q.conditions| + 1
    ensures forall i :: 0 <= i < |q.conditions| ==>
      && q.conditions[i].param == i + 1
      && q.conditions[i].op == Filters(p)[i].op
      && q.values[q.conditions[i].param - 1] == Filters(p)[i].value
    ensures q.limitParam == |q.values| && q.values[q.limitParam - 1] == Number(p.limit + 1)
    ensures r.Failure? <==> p.limit + 1 < 0 || (|rows| > p.limit && p.limit <= 0)
    ensures p.limit + 1 < 0 ==> r == Failure(NegativeLimit)
    ensures r.Success? ==>
      && (r.value.nextCursor.Some? <==> |rows| > p.limit)
      && r.value.items == (if |rows| > p.limit then rows[..p.limit] else rows)
      && (r.value.nextCursor.Some? ==>
            var last := r.value.items[|r.value.items| - 1];
            && r.value.nextCursor.value == Encoding.ToBase64Text(last.logDate)
            && Encoding.FromBase64Text(r.value.nextCursor.value) == last.logDate)
  {
    q := BuildQuery(p);
    if p.limit + 1 < 0 {
      return q, Failure(NegativeLimit);
    }
    var hasMore := |rows| > p.limit;
    var items := if hasMore then SliceTo(rows, p.limit) else rows;
    if hasMore && items == [] {
      return q, Failure("Cannot read properties of undefined (reading 'log_date')");
    }
    var nextCursor: Option<string> := None;
    if hasMore {
      var lastDate := items[|items| - 1].logDate;
      nextCursor := Some(Encoding.ToBase64Text(lastDate));
    }
    r := Success(Page(items, nextCursor));
  }

  /** The error Postgres raises for a negative LIMIT value. */
  const NegativeLimit := "LIMIT must not be negative"

  // ---------------------------------------------------------------------------
  // Paging.
  // ---------------------------------------------------------------------------

  /** The cursor of a page asks the next request for strictly older dates than
      the page's last one: the next query's final filter is `log_date < last`,
      after the same owner, `from` and `to` filters. */
  lemma NextPageContinuesBeforeLastDate(p: ListParams, lastDate: string)
    requires lastDate != []
    ensures var next := p.(cursor := Some(Encoding.ToBase64Text(lastDate)));
      var fs := Filters(next);
      && fs[|fs| - 1] == Filter(LogDateLt, Text(lastDate))
      && fs[..|fs| - 1] == Filters(p.(cursor := None))
  {
    Encoding.Base64TextRoundTrip(lastDate);
  }

  /** Absent and empty parameters are the same request. */
  lemma EmptyParametersAddNothing(p: ListParams)
    ensures Filters(p.(from := Some([]))) == Filters(p.(from := None))
    ensures Filters(p.(to := Some([]))) == Filters(p.(to := None))
    ensures Filters(p.(cursor := Some([]))) == Filters(p.(cursor := None))
    ensures |Filters(p)| == 1 + (if Given(p.from) then 1 else 0)
      + (if Given(p.to) then 1 else 0) + (if Given(p.cursor) then 1 else 0)
  {
  }
}
