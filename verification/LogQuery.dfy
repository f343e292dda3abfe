/** The log filter of the monitoring API: clauses with positional arguments, and what they select. */
module LogQuery {
  import opened Access
  import opened Common
  import opened Events
  import opened Text
  import Subscription

  /** `from` and `to` are `None` for the zero time. */
  datatype LogFilters = LogFilters(applications: seq<string>, levels: seq<string>, from: Option<int>, to: Option<int>,
                                   limit: int, offset: int)

  datatype Column = ApplicationName | Level

  /** A condition with one `?` for each value that it needs. */
  datatype Clause = InList(column: Column, count: nat) | TimestampAtLeast | TimestampAtMost

  datatype Arg = TextArg(text: string) | TimeArg(time: int) | NumberArg(number: int)

  datatype Query = Query(clauses: seq<Clause>, args: seq<Arg>)

  // ------------------------------------------------------------ how the database reads a query

  function Holes(c: Clause): nat { if c.InList? then c.count else 1 }

  function TotalHoles(clauses: seq<Clause>): nat {
    if clauses == [] then 0 else TotalHoles(clauses[..|clauses| - 1]) + Holes(clauses[|clauses| - 1])
  }

  function ValueOf(row: LogRow, column: Column): string {
    match column case ApplicationName => row.applicationName case Level => row.level
  }

  /** One clause over its own arguments. */
  predicate Holds(c: Clause, args: seq<Arg>, row: LogRow)
    requires |args| == Holes(c)
  {
    match c
    case InList(column, _) => TextArg(ValueOf(row, column)) in args
    case TimestampAtLeast => args[0].TimeArg? && row.timestamp >= args[0].time
    case TimestampAtMost => args[0].TimeArg? && row.timestamp <= args[0].time
  }

  /** The conjunction; the arguments fill the holes from left to right, and all of them are used. */
  predicate Selects(q: Query, row: LogRow)
    decreases |q.clauses|
  {
    if q.clauses == [] then q.args == []
    else
      var c := q.clauses[|q.clauses| - 1];
      && Holes(c) <= |q.args|
      && var n := |q.args| - Holes(c);
         Holds(c, q.args[n..], row) && Selects(Query(q.clauses[..|q.clauses| - 1], q.args[..n]), row)
  }

  // ------------------------------------------------------------ building the query

  function AllowedFrom(p: Principal, requested: seq<string>): (r: seq<string>)
    ensures forall a :: a in r <==> a in requested && CanAccessApplication(p, a)
  {
    if requested == [] then []
    else
      var last := requested[|requested| - 1];
      AllowedFrom(p, requested[..|requested| - 1]) + (if CanAccessApplication(p, last) then [last] else [])
  }

  /** The applications to ask for; `None` when nothing may be seen, an empty list when everything may. */
  function AllowedApplications(p: Principal, requested: seq<string>): Option<seq<string>> {
    if IsAdmin(p) then Some(requested)
    else if requested == [] then
      if p.applications == [] then None else Some(p.applications)
    else
      var apps := AllowedFrom(p, requested);
      if apps == [] then None else Some(apps)
  }

  method ComputeAllowedApplications(p: Principal, requested: seq<string>) returns (r: Option<seq<string>>)
    ensures r == AllowedApplications(p, requested)
  {
    hide CanAccessApplication;
    if IsAdmin(p) {
      return Some(requested);
    }
    if |requested| == 0 {
      if |p.applications| == 0 {
        return None;
      }
      return Some(p.applications);
    }
    var apps := [];
    for i := 0 to |requested|
      invariant apps == AllowedFrom(p, requested[..i])
    {
      assert requested[..i + 1][..i] == requested[..i];
      if CanAccessApplication(p, requested[i]) {
        apps := apps + [requested[i]];
      }
    }
    assert requested[..|requested|] == requested;
    return if |apps| > 0 then Some(apps) else None;
  }

  function TextArgs(values: seq<string>): (r: seq<Arg>)
    ensures |r| == |values| && forall t :: TextArg(t) in r <==> t in values
  {
    var r := seq(|values|, i requires 0 <= i < |values| => TextArg(values[i]));
    assert forall i | 0 <= i < |values| :: r[i] == TextArg(values[i]);
    r
  }

  /** Add a membership clause unless the list is empty. */
  function AddList(q: Query, column: Column, values: seq<string>): Query {
    if values == [] then q else Query(q.clauses + [InList(column, |values|)], q.args + TextArgs(values))
  }

  /** Add a time clause unless the bound is absent. */
  function AddBound(q: Query, c: Clause, bound: Option<int>): Query {
    if bound.None? then q else Query(q.clauses + [c], q.args + [TimeArg(bound.value)])
  }

  function LogWhere(p: Principal, f: LogFilters): Option<Query> {
    match AllowedApplications(p, f.applications)
    case None => None
    case Some(apps) =>
      Some(AddBound(AddBound(AddList(AddList(Query([], []), ApplicationName, apps), Level, f.levels),
                             TimestampAtLeast, f.from), TimestampAtMost, f.to))
  }

  method BuildLogWhere(p: Principal, f: LogFilters) returns (r: Option<Query>)
    ensures r == LogWhere(p, f)
  {
    hide AllowedApplications;
    var clauses, args := [], [];
    var allowed := ComputeAllowedApplications(p, f.applications);
    if allowed.None? {
      return None;
    }
    var apps := allowed.value;
    if |apps| > 0 {
      clauses := clauses + [InList(ApplicationName, |apps|)];
      args := AppendTexts(args, apps);
    }
    if |f.levels| > 0 {
      clauses := clauses + [InList(Level, |f.levels|)];
      args := AppendTexts(args, f.levels);
    }
    if f.from.Some? {
      clauses, args := clauses + [TimestampAtLeast], args + [TimeArg(f.from.value)];
    }
    if f.to.Some? {
      clauses, args := clauses + [TimestampAtMost], args + [TimeArg(f.to.value)];
    }
    return Some(Query(clauses, args));
  }

  method AppendTexts(args: seq<Arg>, values: seq<string>) returns (r: seq<Arg>)
    ensures r == args + TextArgs(values)
  {
    r := args;
    for i := 0 to |values|
      invariant r == args + TextArgs(values[..i])
    {
      r := r + [TextArg(values[i])];
    }
    assert values[..|values|] == values;
  }

  const MAX_QUERY_LIMIT: int := 500

  function NormalizeLimit(limit: int): (r: int)
    ensures 1 <= r <= MAX_QUERY_LIMIT
    ensures 1 <= limit <= MAX_QUERY_LIMIT ==> r == limit
    ensures limit <= 0 ==> r == 100
    ensures limit > MAX_QUERY_LIMIT ==> r == MAX_QUERY_LIMIT
  {
    if limit <= 0 then 100 else if limit > MAX_QUERY_LIMIT then MAX_QUERY_LIMIT else limit
  }

  function NormalizeOffset(offset: int): (r: nat)
    ensures r == 0 || r == offset
    ensures offset >= 0 ==> r == offset
  {
    if offset <= 0 then 0 else offset
  }

  /** The arguments of the whole statement: those of the filter, then the page. */
  function PageArgs(q: Query, f: LogFilters): seq<Arg> {
    q.args + [NumberArg(NormalizeLimit(f.limit)), NumberArg(NormalizeOffset(f.offset))]
  }

  // ------------------------------------------------------------ what the query means

  lemma SelectsAddList(q: Query, column: Column, values: seq<string>, row: LogRow)
    ensures Selects(AddList(q, column, values), row)
       <==> Selects(q, row) && (values == [] || ValueOf(row, column) in values)
    ensures |q.args| == TotalHoles(q.clauses) ==>
              |AddList(q, column, values).args| == TotalHoles(AddList(q, column, values).clauses)
  {
    if values != [] {
      var q' := AddList(q, column, values);
      assert q'.clauses[..|q'.clauses| - 1] == q.clauses;
      assert q'.args[..|q.args|] == q.args && q'.args[|q.args|..] == TextArgs(values);
    }
  }

  lemma SelectsAddBound(q: Query, c: Clause, bound: Option<int>, row: LogRow)
    requires !c.InList?
    ensures Selects(AddBound(q, c, bound), row)
       <==> && Selects(q, row)
            && (bound.None?
                || if c.TimestampAtLeast? then row.timestamp >= bound.value else row.timestamp <= bound.value)
    ensures |q.args| == TotalHoles(q.clauses) ==>
              |AddBound(q, c, bound).args| == TotalHoles(AddBound(q, c, bound).clauses)
  {
    if bound.Some? {
      var q' := AddBound(q, c, bound);
      assert q'.clauses[..|q'.clauses| - 1] == q.clauses;
      assert q'.args[..|q.args|] == q.args && q'.args[|q.args|..] == [TimeArg(bound.value)];
    }
  }

  predicate InTime(f: LogFilters, timestamp: int) {
    && (f.from.Some? ==> timestamp >= f.from.value)
    && (f.to.Some? ==> timestamp <= f.to.value)
  }

  /** The built query selects exactly the rows of an allowed application, a wanted level and the time
      range, and it has as many arguments as holes. */
  lemma LogWhereMeaning(p: Principal, f: LogFilters, row: LogRow)
    requires LogWhere(p, f).Some?
    ensures var q, apps := LogWhere(p, f).value, AllowedApplications(p, f.applications).value;
            && |q.args| == TotalHoles(q.clauses)
            && (Selects(q, row) <==> && (apps == [] || row.applicationName in apps)
                                     && (f.levels == [] || row.level in f.levels)
                                     && InTime(f, row.timestamp))
  {
    hide Selects, AllowedApplications, AddList, AddBound, TotalHoles;
    EmptyQuery(row);
    var apps := AllowedApplications(p, f.applications).value;
    var q0 := Query([], []);
    SelectsAddList(q0, ApplicationName, apps, row);
    var q1 := AddList(q0, ApplicationName, apps);
    SelectsAddList(q1, Level, f.levels, row);
    var q2 := AddList(q1, Level, f.levels);
    SelectsAddBound(q2, TimestampAtLeast, f.from, row);
    SelectsAddBound(AddBound(q2, TimestampAtLeast, f.from), TimestampAtMost, f.to, row);
  }

  lemma EmptyQuery(row: LogRow)
    ensures Selects(Query([], []), row) && TotalHoles([]) == 0
  {
  }

  /** The limit and the offset fill the two holes after those of the filter. */
  lemma PageArgsFollowTheFilter(p: Principal, f: LogFilters)
    requires LogWhere(p, f).Some?
    ensures var q := LogWhere(p, f).value;
            var n := TotalHoles(q.clauses);
            && |PageArgs(q, f)| == n + 2
            && PageArgs(q, f)[n] == NumberArg(NormalizeLimit(f.limit)) && PageArgs(q,
                  f)[n + 1] == NumberArg(NormalizeOffset(f.offset))
  {
    hide LogWhere, TotalHoles, NormalizeLimit, NormalizeOffset;
    LogWhereMeaning(p, f, LogRow("", "", "", "", "", 0, 0, "", ""));
  }

  /** The row is among those that the API may return. */
  predicate Listed(p: Principal, f: LogFilters, row: LogRow) {
    LogWhere(p, f).Some? && Selects(LogWhere(p, f).value, row)
  }

  /** The subscription that the same names give on the websocket. */
  function SubscriptionOf(applications: seq<string>, levels: seq<string>): Subscription.Subscription {
    Subscription.Subscription(SetOf(applications), SetOf(levels))
  }

  predicate AllTrimmed(names: seq<string>) { forall n | n in names :: Trimmed(n) }

  /** An application list allows what the hub allows, up to the names the principal holds untrimmed. */
  lemma AllowedMeaning(p: Principal, requested: seq<string>, app: string)
    requires Loaded(p) && AllTrimmed(requested)
    ensures var allowed := AllowedApplications(p, requested);
            var visible := allowed.Some? && (allowed.value == [] || app in allowed.value);
            var wanted := (|SetOf(requested)| > 0 ==> Subscription.Has(SetOf(requested), app))
                          && Subscription.CanAccessApplication(ToRealtimePrincipal(p), app);
            if IsAdmin(p) || requested != [] || AllTrimmed(p.applications) then visible == wanted
            else visible == (app in p.applications) && wanted == (app in Names(p.applications))
  {
    hide Trimmed, SetOf, CanAccessApplication, Subscription.CanAccessApplication, AllTrimmed,
          ToRealtimePrincipal, Subscription.Has, Names;
    SameAccess(p, app);
    assert forall n | n in requested :: Trimmed(n) by { TrimmedMembers(requested); }
    SetOfTrimmed(requested);
    if IsAdmin(p) {
      AdminSeesAll(p, app);
    } else if requested == [] {
      if AllTrimmed(p.applications) {
        TrimmedMembers(p.applications);
        NamesOfTrimmed(p.applications, app);
      }
    } else {
      assert app in AllowedFrom(p, requested) <==> app in requested && CanAccessApplication(p, app);
    }
    NoNames(p, app);
  }

  lemma TrimmedMembers(names: seq<string>)
    requires AllTrimmed(names)
    ensures forall n | n in names :: Trimmed(n)
  {
  }

  lemma NoNames(p: Principal, app: string)
    ensures p.applications == [] ==> app !in Names(p.applications)
  {
  }

  lemma NamesOfTrimmed(names: seq<string>, app: string)
    requires forall n | n in names :: Trimmed(n)
    ensures app in Names(names) <==> app in names
  {
    hide Trimmed, TrimSpace;
    SetOfTrimmed(names);
    assert Subscription.Has(SetOf(names), app) <==> app in Names(names);
  }

  lemma AdminSeesAll(p: Principal, app: string)
    requires IsAdmin(p)
    ensures Subscription.CanAccessApplication(ToRealtimePrincipal(p), app)
  {
  }

  /** When the API's filter and the hub agree about every event: the principal is an admin, applications
      were asked for, or the principal holds only trimmed names. */
  predicate NamesAgree(p: Principal, f: LogFilters) {
    IsAdmin(p) || f.applications != [] || AllTrimmed(p.applications)
  }

  function EventOf(m: LogModel): Subscription.StreamEvent { Subscription.LogItem(CreateProcessedLogEvent(m)) }

  predicate Delivered(p: Principal, f: LogFilters, m: LogModel) {
    Subscription.Wants(Subscription.Rbac, ToRealtimePrincipal(p), SubscriptionOf(f.applications, f.levels), EventOf(m))
  }

  /** The row of a log satisfies the filter exactly when the hub delivers the log's event under the same
      principal and names and the log lies in the time range. */
  lemma ListedIffDelivered(p: Principal, f: LogFilters, m: LogModel)
    requires Loaded(p) && AllTrimmed(f.applications) && AllTrimmed(f.levels) && NamesAgree(p, f)
    ensures Listed(p, f, RowOf(m)) <==> Delivered(p, f, m) && InTime(f, m.timestamp)
  {
    hide AllowedApplications, Selects, AllTrimmed, SetOf, InTime, Subscription.CanAccessApplication,
          Subscription.Has, ToRealtimePrincipal;
    AllowedMeaning(p, f.applications, m.applicationName);
    TrimmedMembers(f.levels);
    SetOfTrimmed(f.levels);
    if LogWhere(p, f).Some? {
      LogWhereMeaning(p, f, RowOf(m));
    }
  }

  /** Without a time range the filter and the hub agree about every log if and only if `NamesAgree`; the
      other way round, an untrimmed name the principal holds is listed but never delivered. */
  lemma FilterMeansDeliveryIff(p: Principal, f: LogFilters)
    requires Loaded(p) && AllTrimmed(f.applications) && AllTrimmed(f.levels) && f.from.None? && f.to.None?
    ensures (forall m :: Listed(p, f, RowOf(m)) <==> Delivered(p, f, m)) <==> NamesAgree(p, f)
  {
    hide Listed, Delivered, Trimmed, RowOf;
    if NamesAgree(p, f) {
      forall m ensures Listed(p, f, RowOf(m)) <==> Delivered(p, f, m) {
        ListedIffDelivered(p, f, m);
      }
    } else {
      var name :| name in p.applications && !Trimmed(name);
      UntrimmedNameIsListedOnly(p, f, name);
    }
  }

  lemma UntrimmedNameIsListedOnly(p: Principal, f: LogFilters, name: string)
    requires Loaded(p) && AllTrimmed(f.applications) && AllTrimmed(f.levels) && f.from.None? && f.to.None?
    requires !NamesAgree(p, f) && name in p.applications && !Trimmed(name)
    ensures exists m :: Listed(p, f, RowOf(m)) && !Delivered(p, f, m)
  {
    hide AllowedApplications, Selects, SetOf, Subscription.CanAccessApplication, Subscription.Has,
          ToRealtimePrincipal, Trimmed, AllTrimmed;
    var level := if f.levels == [] then "" else f.levels[0];
    var m := LogModel("", name, level, "", "", "", 0, 0, "", "");
    assert !AllTrimmed(p.applications);
    AllowedMeaning(p, f.applications, name);
    if name in Names(p.applications) {
      NamesAreTrimmed(p.applications, name);
    }
    LogWhereMeaning(p, f, RowOf(m));
    assert Listed(p, f, RowOf(m));
  }

  /** The filters of a request whose query string holds these comma-separated parts and no time range. */
  function FiltersOf(appParts: seq<string>, levelParts: seq<string>): LogFilters {
    LogFilters(ParseCsv(appParts), ParseCsv(levelParts), None, None, 0, 0)
  }

  /** For any query string: the log endpoint lists the rows of exactly those logs that a websocket with the
      same query string receives, if and only if the principal is an admin, the query names an application,
      or all the principal's own names are trimmed. */
  lemma EndpointsAgreeIff(p: Principal, appParts: seq<string>, levelParts: seq<string>)
    requires Loaded(p)
    ensures (forall m :: Listed(p, FiltersOf(appParts, levelParts), RowOf(m))
                    <==> Subscription.Wants(Subscription.Rbac, ToRealtimePrincipal(p), SubscriptionOf(appParts,
                          levelParts), EventOf(m)))
       <==> NamesAgree(p, FiltersOf(appParts, levelParts))
  {
    hide Listed, RowOf, EventOf, Subscription.Wants, NamesAgree, Trimmed;
    ParseCsvNames(appParts);
    ParseCsvNames(levelParts);
    FilterMeansDeliveryIff(p, FiltersOf(appParts, levelParts));
    SetOfCsv(appParts);
    SetOfCsv(levelParts);
    var f := FiltersOf(appParts, levelParts);
    assert SubscriptionOf(appParts, levelParts) == SubscriptionOf(f.applications, f.levels);
    assert forall m :: Delivered(p, f, m)
                  <==> Subscription.Wants(Subscription.Rbac, ToRealtimePrincipal(p), SubscriptionOf(appParts,
                        levelParts), EventOf(m));
  }

  lemma SetOfCsv(parts: seq<string>)
    ensures SetOf(ParseCsv(parts)) == SetOf(parts)
  {
    hide Trimmed, TrimSpace;
    ParseCsvNames(parts);
    SetOfTrimmed(ParseCsv(parts));
    forall n ensures n in Names(ParseCsv(parts)) <==> n in Names(parts) {
      assert Subscription.Has(SetOf(ParseCsv(parts)), n) <==> n in ParseCsv(parts);
    }
  }
}
