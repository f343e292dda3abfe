/** Principals of the monitoring API and their realtime counterparts. */
module Access {
  import opened Common
  import opened Text
  import Subscription

  /** A principal; `appSet` is the cached set, absent in a principal that was not loaded from the store. */
  datatype Principal = Principal(userId: string, username: string, role: string, applications: seq<string>,
                                 appSet: Option<map<string, bool>>)

  const ROLE_ADMIN := "admin"

  predicate IsAdmin(p: Principal) { p.role == ROLE_ADMIN }

  /** The trimmed non-empty values. */
  function Names(values: seq<string>): set<string> {
    set v | v in values && TrimSpace(v) != "" :: TrimSpace(v)
  }

  function SetOf(values: seq<string>): map<string, bool> { map n | n in Names(values) :: true }

  method ToSet(values: seq<string>) returns (m: map<string, bool>)
    ensures m == SetOf(values)
  {
    hide TrimSpace;
    m := map[];
    for i := 0 to |values|
      invariant m == SetOf(values[..i])
    {
      NamesOfNext(values[..i], values[i]);
      assert values[..i + 1] == values[..i] + [values[i]];
      var value := TrimSpace(values[i]);
      if value != "" {
        m := m[value := true];
      }
    }
    assert values[..|values|] == values;
  }

  lemma NamesOfNext(values: seq<string>, v: string)
    ensures Names(values + [v]) == Names(values) + (if TrimSpace(v) == "" then {} else {TrimSpace(v)})
  {
    hide TrimSpace;
    var all := values + [v];
    assert forall x | x in all :: x in values || x == v;
    assert v in all && forall x | x in values :: x in all;
  }

  predicate CanAccessApplication(p: Principal, app: string) {
    IsAdmin(p) || Subscription.Has(if p.appSet.None? then SetOf(p.applications) else p.appSet.value, app)
  }

  function ToRealtimePrincipal(p: Principal): Subscription.Principal {
    Subscription.Principal(p.userId, p.username, p.role, SetOf(p.applications))
  }

  /** The cache, where there is one, belongs to the applications. */
  predicate Loaded(p: Principal) { p.appSet.Some? ==> p.appSet.value == SetOf(p.applications) }

  /** A loaded principal may read an application over HTTP exactly when the hub lets it see that application. */
  lemma SameAccess(p: Principal, app: string)
    requires Loaded(p)
    ensures CanAccessApplication(p, app) <==> Subscription.CanAccessApplication(ToRealtimePrincipal(p), app)
    ensures !IsAdmin(p) ==> (CanAccessApplication(p, app) <==> app in Names(p.applications))
  {
    hide TrimSpace;
  }

  /** `Load` caches the set of the applications read from the database. */
  method Load(userId: string, username: string, role: string, applications: seq<string>) returns (p: Principal)
    ensures p.userId == userId && p.username == username && p.role == role && p.applications == applications
    ensures Loaded(p) && p.appSet.Some?
  {
    var apps := ToSet(applications);
    return Principal(userId, username, role, applications, Some(apps));
  }

  /** What `parseCSV` keeps of one part. */
  function Kept(part: string): seq<string> { if TrimSpace(part) == "" then [] else [TrimSpace(part)] }

  /** `parseCSV`, after the split: the trimmed non-empty parts, in order. */
  function ParseCsv(parts: seq<string>): seq<string> {
    if parts == [] then [] else ParseCsv(parts[..|parts| - 1]) + Kept(parts[|parts| - 1])
  }

  /** The parsed names are the trimmed non-empty parts, and all of them are trimmed. */
  lemma {:induction false} ParseCsvNames(parts: seq<string>)
    ensures forall n :: n in ParseCsv(parts) <==> n in Names(parts)
    ensures forall n | n in ParseCsv(parts) :: Trimmed(n)
  {
    hide TrimSpace, Trimmed, Names;
    if parts == [] {
      NoNamesOfNothing();
    } else {
      var front, last := parts[..|parts| - 1], parts[|parts| - 1];
      ParseCsvNames(front);
      NamesOfNext(front, last);
      assert parts == front + [last];
      TrimSpaceTrims(last);
    }
  }

  lemma NoNamesOfNothing()
    ensures Names([]) == {}
  {
  }

  /** The parts are treated one by one, so their order and their repeats are kept. */
  lemma {:induction false} ParseCsvPartByPart(a: seq<string>, b: seq<string>)
    ensures ParseCsv(a + b) == ParseCsv(a) + ParseCsv(b)
  {
    hide Kept;
    if b == [] {
      assert a + b == a;
    } else {
      assert (a + b)[..|a + b| - 1] == a + b[..|b| - 1];
      ParseCsvPartByPart(a, b[..|b| - 1]);
    }
  }

  method SplitNames(parts: seq<string>) returns (result: seq<string>)
    ensures result == ParseCsv(parts)
  {
    hide TrimSpace;
    result := [];
    for i := 0 to |parts|
      invariant result == ParseCsv(parts[..i])
    {
      assert parts[..i + 1][..i] == parts[..i];
      var part := TrimSpace(parts[i]);
      if part != "" {
        result := result + [part];
      }
    }
    assert parts[..|parts|] == parts;
  }

  /** A set of names is empty exactly when the list is, and trimmed names are their own set. */
  lemma SetOfTrimmed(names: seq<string>)
    requires forall n | n in names :: Trimmed(n)
    ensures |SetOf(names)| > 0 <==> names != []
    ensures forall n :: Subscription.Has(SetOf(names), n) <==> n in names
  {
    hide Trimmed, TrimSpace;
    forall n | n in names ensures TrimSpace(n) == n && n != "" {
      TrimmedIsFixed(n);
    }
    forall n ensures n in Names(names) <==> n in names {
    }
    if names != [] {
      assert names[0] in SetOf(names);
    } else {
      assert SetOf(names) == map[];
    }
  }

  lemma TrimmedIsFixed(n: string)
    requires Trimmed(n)
    ensures TrimSpace(n) == n && n != ""
  {
    TrimSpaceTrims(n);
  }

  lemma NamesAreTrimmed(values: seq<string>, n: string)
    requires n in Names(values)
    ensures Trimmed(n)
  {
    var v :| v in values && TrimSpace(v) == n;
    TrimSpaceTrims(v);
  }
}
