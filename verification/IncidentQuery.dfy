/** The incident filter of the monitoring API: clauses with numbered placeholders. */
module IncidentQuery {
  import opened Access
  import opened Common
  import LogQuery
  import Subscription
  import Events
  import Text

  /** An empty status does not restrict. */
  datatype IncidentFilters = IncidentFilters(applications: seq<string>, levels: seq<string>, status: string, limit: int)

  datatype Column = ApplicationName | Level | Status

  /** A membership test against the arguments with these numbers; the status test has one number. */
  datatype Clause = Clause(column: Column, numbers: seq<nat>)

  datatype Query = Query(clauses: seq<Clause>, args: seq<string>)

  datatype Row = Row(applicationName: string, level: string, status: string)

  function ValueOf(row: Row, column: Column): string {
    match column
    case ApplicationName => row.applicationName
    case Level => row.level
    case Status => row.status
  }

  /** How the database reads the query: placeholder `$n` stands for argument `n`, counted from 1. */
  predicate Selects(q: Query, row: Row) {
    forall c | c in q.clauses :: exists n | n in c.numbers :: ArgumentIs(q.args, n, ValueOf(row, c.column))
  }

  predicate ArgumentIs(args: seq<string>, n: nat, value: string) { 1 <= n <= |args| && args[n - 1] == value }

  /** The placeholders of the query, in the order of its text. */
  function Numbers(clauses: seq<Clause>): seq<nat> {
    if clauses == [] then [] else Numbers(clauses[..|clauses| - 1]) + clauses[|clauses| - 1].numbers
  }

  /** `start`, `start + 1`, and so on. */
  function From(start: nat, count: nat): (r: seq<nat>)
    ensures |r| == count && forall i | 0 <= i < count :: r[i] == start + i
  {
    seq(count, i => start + i)
  }

  method PostgresPlaceholders(start: nat, count: nat) returns (values: seq<nat>)
    ensures values == From(start, count)
  {
    var a := new nat[count](_ => 0);
    for i := 0 to count
      invariant forall k | 0 <= k < i :: a[k] == start + k
    {
      a[i] := start + i;
    }
    return a[..];
  }

  /** Add a membership clause over the next free numbers unless the list is empty. */
  function AddList(q: Query, column: Column, values: seq<string>): Query {
    if values == [] then q
    else Query(q.clauses + [Clause(column, From(|q.args| + 1, |values|))], q.args + values)
  }

  function IncidentWhere(p: Principal, f: IncidentFilters): Option<Query> {
    match LogQuery.AllowedApplications(p, f.applications)
    case None => None
    case Some(apps) =>
      Some(AddList(AddList(AddList(Query([], []), ApplicationName, apps), Level, f.levels),
                   Status, if f.status == "" then [] else [f.status]))
  }

  method BuildIncidentWhere(p: Principal, f: IncidentFilters) returns (r: Option<Query>)
    ensures r == IncidentWhere(p, f)
  {
    hide LogQuery.AllowedApplications;
    var clauses, args := [], [];
    var allowed := LogQuery.ComputeAllowedApplications(p, f.applications);
    if allowed.None? {
      return None;
    }
    var apps := allowed.value;
    if |apps| > 0 {
      var numbers := PostgresPlaceholders(|args| + 1, |apps|);
      clauses := clauses + [Clause(ApplicationName, numbers)];
      args := AppendAll(args, apps);
    }
    if |f.levels| > 0 {
      var numbers := PostgresPlaceholders(|args| + 1, |f.levels|);
      clauses := clauses + [Clause(Level, numbers)];
      args := AppendAll(args, f.levels);
    }
    if f.status != "" {
      clauses := clauses + [Clause(Status, [|args| + 1])];
      args := args + [f.status];
      assert [|args|] == From(|args|, 1);
    }
    return Some(Query(clauses, args));
  }

  method AppendAll(args: seq<string>, values: seq<string>) returns (r: seq<string>)
    ensures r == args + values
  {
    r := args;
    for i := 0 to |values|
      invariant r == args + values[..i]
    {
      r := r + [values[i]];
    }
    assert values[..|values|] == values;
  }

  /** `LIMIT $n`: its number, after its value was appended. */
  function LimitNumber(q: Query, limitText: string): nat { |q.args + [limitText]| }

  /** The placeholders of the query are exactly $1 to $n in text order, for its n arguments. */
  ghost predicate InOrder(q: Query) { Numbers(q.clauses) == From(1, |q.args|) }

  lemma AddListInOrder(q: Query, column: Column, values: seq<string>)
    requires InOrder(q)
    ensures InOrder(AddList(q, column, values))
  {
    if values != [] {
      var q' := AddList(q, column, values);
      assert q'.clauses[..|q'.clauses| - 1] == q.clauses;
      assert From(1, |q.args|) + From(|q.args| + 1, |values|) == From(1, |q'.args|);
    }
  }

  /** The placeholders are $1 to $n in text order, each argument once, and the limit takes the next number. */
  lemma PlaceholdersInOrder(p: Principal, f: IncidentFilters, limitText: string)
    requires IncidentWhere(p, f).Some?
    ensures var q := IncidentWhere(p, f).value;
            && Numbers(q.clauses) == From(1, |q.args|)
            && Numbers(q.clauses) + [LimitNumber(q, limitText)] == From(1, |q.args| + 1)
  {
    hide InOrder, AddList, LogQuery.AllowedApplications;
    var q0 := Query([], []);
    EmptyInOrder();
    var apps := LogQuery.AllowedApplications(p, f.applications).value;
    AddListInOrder(q0, ApplicationName, apps);
    var q1 := AddList(q0, ApplicationName, apps);
    AddListInOrder(q1, Level, f.levels);
    var q2 := AddList(q1, Level, f.levels);
    AddListInOrder(q2, Status, if f.status == "" then [] else [f.status]);
    OrderMeans(IncidentWhere(p, f).value);
  }

  lemma EmptyInOrder()
    ensures InOrder(Query([], []))
  {
  }

  lemma OrderMeans(q: Query)
    requires InOrder(q)
    ensures Numbers(q.clauses) == From(1, |q.args|)
  {
  }

  ghost predicate InRange(q: Query) {
    forall c, n | c in q.clauses && n in c.numbers :: 1 <= n <= |q.args|
  }

  lemma SelectsAddList(q: Query, column: Column, values: seq<string>, row: Row)
    requires InRange(q)
    ensures InRange(AddList(q, column, values))
    ensures Selects(AddList(q, column, values), row)
       <==> Selects(q, row) && (values == [] || ValueOf(row, column) in values)
  {
    if values != [] {
      var q', last := AddList(q, column, values), Clause(column, From(|q.args| + 1, |values|));
      assert last in q'.clauses && forall c | c in q.clauses :: c in q'.clauses;
      forall c | c in q'.clauses ensures c in q.clauses || c == last {
      }
      ListHolds(q.args, values, ValueOf(row, column));
    }
  }

  /** A clause over the numbers of `values` finds exactly their members. */
  lemma ListHolds(args: seq<string>, values: seq<string>, value: string)
    ensures (exists n | n in From(|args| + 1, |values|) :: ArgumentIs(args + values, n, value)) <==> value in values
  {
    if value in values {
      var i :| 0 <= i < |values| && values[i] == value;
      assert From(|args| + 1, |values|)[i] == |args| + 1 + i;
      assert ArgumentIs(args + values, |args| + 1 + i, value);
    }
  }

  /** The incident filter selects the incidents of an allowed application with a wanted level and status. */
  lemma IncidentWhereMeaning(p: Principal, f: IncidentFilters, row: Row)
    requires IncidentWhere(p, f).Some?
    ensures var apps := LogQuery.AllowedApplications(p, f.applications).value;
            var wanted := && (apps == [] || row.applicationName in apps)
                          && (f.levels == [] || row.level in f.levels)
                          && (f.status == "" || row.status == f.status);
            Selects(IncidentWhere(p, f).value, row) == wanted
  {
    hide Selects, AddList, InRange, LogQuery.AllowedApplications;
    EmptySelects(row);
    var q0 := Query([], []);
    var apps := LogQuery.AllowedApplications(p, f.applications).value;
    SelectsAddList(q0, ApplicationName, apps, row);
    var q1 := AddList(q0, ApplicationName, apps);
    SelectsAddList(q1, Level, f.levels, row);
    var q2 := AddList(q1, Level, f.levels);
    SelectsAddList(q2, Status, if f.status == "" then [] else [f.status], row);
  }

  lemma EmptySelects(row: Row)
    ensures InRange(Query([], [])) && Selects(Query([], []), row)
  {
  }

  /** An incident is listed exactly when the hub would deliver an alert with its application and level under
      the same principal and names, and its status is the wanted one. */
  lemma ListedIffAlertDelivered(p: Principal, f: IncidentFilters, row: Row, alert: Events.AlertEvent)
    requires Loaded(p) && LogQuery.AllTrimmed(f.applications) && LogQuery.AllTrimmed(f.levels)
    requires IsAdmin(p) || f.applications != [] || LogQuery.AllTrimmed(p.applications)
    requires alert.applicationName == row.applicationName && alert.level == row.level
    ensures IncidentWhere(p, f).Some? && Selects(IncidentWhere(p, f).value, row)
       <==> Subscription.Wants(Subscription.Rbac, ToRealtimePrincipal(p), LogQuery.SubscriptionOf(f.applications, f.levels),
                               Subscription.AlertItem(alert))
            && (f.status == "" || row.status == f.status)
  {
    hide LogQuery.AllowedApplications, Selects, LogQuery.AllTrimmed, SetOf, Subscription.CanAccessApplication,
          Subscription.Has, ToRealtimePrincipal;
    LogQuery.AllowedMeaning(p, f.applications, row.applicationName);
    LogQuery.TrimmedMembers(f.levels);
    SetOfTrimmed(f.levels);
    if IncidentWhere(p, f).Some? {
      IncidentWhereMeaning(p, f, row);
    }
  }

  /** The incident is among those that the API may return. */
  predicate Listed(p: Principal, f: IncidentFilters, row: Row) {
    IncidentWhere(p, f).Some? && Selects(IncidentWhere(p, f).value, row)
  }

  /** An alert with the application and the level of the row. */
  function AlertLike(row: Row): Events.AlertEvent {
    Events.AlertEvent("", row.applicationName, row.level, "", "", "", "", 0)
  }

  /** The hub would deliver an alert like the incident, and the incident has the wanted status. */
  predicate Wanted(p: Principal, f: IncidentFilters, row: Row) {
    && Subscription.Wants(Subscription.Rbac, ToRealtimePrincipal(p), LogQuery.SubscriptionOf(f.applications, f.levels),
                          Subscription.AlertItem(AlertLike(row)))
    && (f.status == "" || row.status == f.status)
  }

  /** The incident filter and the hub agree about every incident if and only if the principal is an admin,
      applications were asked for, or the principal holds only trimmed names. */
  lemma IncidentFilterMeansDeliveryIff(p: Principal, f: IncidentFilters)
    requires Loaded(p) && LogQuery.AllTrimmed(f.applications) && LogQuery.AllTrimmed(f.levels)
    ensures (forall row :: Listed(p, f, row) <==> Wanted(p, f, row))
       <==> IsAdmin(p) || f.applications != [] || LogQuery.AllTrimmed(p.applications)
  {
    hide Listed, Wanted, Text.Trimmed;
    if IsAdmin(p) || f.applications != [] || LogQuery.AllTrimmed(p.applications) {
      forall row ensures Listed(p, f, row) <==> Wanted(p, f, row) {
        ListedIffWanted(p, f, row);
      }
    } else {
      var name :| name in p.applications && !Text.Trimmed(name);
      UntrimmedIncidentIsListedOnly(p, f, name);
    }
  }

  lemma ListedIffWanted(p: Principal, f: IncidentFilters, row: Row)
    requires Loaded(p) && LogQuery.AllTrimmed(f.applications) && LogQuery.AllTrimmed(f.levels)
    requires IsAdmin(p) || f.applications != [] || LogQuery.AllTrimmed(p.applications)
    ensures Listed(p, f, row) <==> Wanted(p, f, row)
  {
    hide IncidentWhere, Selects, Subscription.Wants, ToRealtimePrincipal, LogQuery.SubscriptionOf, LogQuery.AllTrimmed;
    ListedIffAlertDelivered(p, f, row, AlertLike(row));
  }

  lemma UntrimmedIncidentIsListedOnly(p: Principal, f: IncidentFilters, name: string)
    requires Loaded(p) && LogQuery.AllTrimmed(f.applications) && LogQuery.AllTrimmed(f.levels)
    requires !IsAdmin(p) && f.applications == [] && name in p.applications && !Text.Trimmed(name)
    ensures exists row :: Listed(p, f, row) && !Wanted(p, f, row)
  {
    hide LogQuery.AllowedApplications, Selects, SetOf, Subscription.CanAccessApplication, Subscription.Has,
      ToRealtimePrincipal, Text.Trimmed, LogQuery.AllTrimmed;
    var row := Row(name, if f.levels == [] then "" else f.levels[0], f.status);
    LogQuery.AllowedMeaning(p, f.applications, name);
    if LogQuery.AllTrimmed(p.applications) {
      LogQuery.TrimmedMembers(p.applications);
    }
    if name in Names(p.applications) {
      NamesAreTrimmed(p.applications, name);
    }
    IncidentWhereMeaning(p, f, row);
    assert Listed(p, f, row) && !Wanted(p, f, row);
  }
}
