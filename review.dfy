/** The application list (src/app/review/page.tsx): a fixed list of
    applications, narrowed by a free-text search and a status filter, and
    counted per status. The search term and the filter are read, never
    changed, by the list itself. */
module ApplicationList {
  import opened JsStrings

  datatype Status = Pending | Approved | Rejected
  datatype Priority = High | Medium | Low

  /** The `Application` record. */
  datatype Application = Application(
    id: string, name: string, nik: string, applicationDate: string,
    status: Status, monthlyIncome: int, familyMembers: int, priority: Priority)

  /** The string a status is compared as. */
  function StatusName(s: Status): (r: string)
    ensures r != "all"
  {
    match s
    case Pending => "pending"
    case Approved => "approved"
    case Rejected => "rejected"
  }

  /** Distinct statuses have distinct names, so comparing names is comparing
      statuses. */
  lemma StatusNameInjective(s: Status, t: Status)
    ensures StatusName(s) == StatusName(t) <==> s == t
  {
  }

  /** `matchesSearch`: name and id are compared lower-cased, the NIK as
      typed. */
  predicate MatchesSearch(app: Application, term: string) {
    Contains(ToLower(app.name), ToLower(term)) ||
    Contains(app.nik, term) ||
    Contains(ToLower(app.id), ToLower(term))
  }

  /** `matchesStatus`. */
  predicate MatchesStatus(app: Application, statusFilter: string) {
    statusFilter == "all" || StatusName(app.status) == statusFilter
  }

  predicate Matches(app: Application, term: string, statusFilter: string) {
    MatchesSearch(app, term) && MatchesStatus(app, statusFilter)
  }

  /** `filteredApplications`. */
  function Filtered(apps: seq<Application>, term: string, statusFilter: string): (r: seq<Application>)
    ensures |r| <= |apps|
    ensures forall i :: 0 <= i < |r| ==> r[i] in apps && Matches(r[i], term, statusFilter)
  {
    if apps == [] then []
    else (if Matches(apps[0], term, statusFilter) then [apps[0]] else []) + Filtered(apps[1..], term, statusFilter)
  }

  /** `a` is `b` with some elements left out, the rest in their order. */
  predicate IsSubsequence<T(==)>(a: seq<T>, b: seq<T>)
    decreases |b|
  {
    if a == [] then true
    else if b == [] then false
    else if a[0] == b[0] then IsSubsequence(a[1..], b[1..])
    else IsSubsequence(a, b[1..])
  }

  /** Dropping the first element keeps a subsequence a subsequence. */
  lemma {:induction false} SubsequenceTail<T>(a: seq<T>, b: seq<T>)
    requires a != [] && IsSubsequence(a, b)
    ensures IsSubsequence(a[1..], b)
    decreases |b|
  {
    if a[0] != b[0] {
      SubsequenceTail(a, b[1..]);
    }
    // Now a[1..] is a subsequence of b[1..].
    if a[1..] != [] && a[1] == b[0] {
      assert a[1..][1..] == a[2..];
      SubsequenceTail(a[1..], b[1..]);
    }
  }

  /** An element in front of the larger sequence can be skipped. */
  lemma SubsequenceSkip<T>(a: seq<T>, b: seq<T>, x: T)
    requires IsSubsequence(a, b)
    ensures IsSubsequence(a, [x] + b)
  {
    assert ([x] + b)[1..] == b;
    if a != [] && a[0] == x {
      SubsequenceTail(a, b);
    }
  }

  /** The filter keeps applications in their original order. */
  lemma {:induction false} FilteredIsSubsequence(apps: seq<Application>, term: string, statusFilter: string)
    ensures IsSubsequence(Filtered(apps, term, statusFilter), apps)
  {
    if apps != [] {
      var rest := Filtered(apps[1..], term, statusFilter);
      FilteredIsSubsequence(apps[1..], term, statusFilter);
      assert [apps[0]] + apps[1..] == apps;
      if Matches(apps[0], term, statusFilter) {
        assert ([apps[0]] + rest)[1..] == rest;
      } else {
        assert Filtered(apps, term, statusFilter) == [] + rest == rest;
        SubsequenceSkip(rest, apps[1..], apps[0]);
      }
    }
  }

  /** An application is kept exactly when it matches. */
  lemma {:induction false} FilteredMembers(apps: seq<Application>, term: string, statusFilter: string, app: Application)
    ensures app in Filtered(apps, term, statusFilter) <==> app in apps && Matches(app, term, statusFilter)
  {
    if apps != [] {
      FilteredMembers(apps[1..], term, statusFilter, app);
      assert apps == [apps[0]] + apps[1..];
    }
  }

  /** The empty term with status "all" shows every application. */
  lemma {:induction false} EmptySearchShowsAll(apps: seq<Application>)
    ensures Filtered(apps, "", "all") == apps
  {
    if apps != [] {
      ContainsEmpty(ToLower(apps[0].name));
      EmptySearchShowsAll(apps[1..]);
      assert [apps[0]] + apps[1..] == apps;
    }
  }

  /** With a status other than "all", every result has that status. */
  lemma FilteredHaveStatus(apps: seq<Application>, term: string, s: Status)
    ensures forall i :: 0 <= i < |Filtered(apps, term, StatusName(s))| ==>
      Filtered(apps, term, StatusName(s))[i].status == s
  {
  }

  /** The results for one status are among the results for "all", in the
      same order. */
  lemma {:induction false} StatusWithinAll(apps: seq<Application>, term: string, statusFilter: string)
    ensures IsSubsequence(Filtered(apps, term, statusFilter), Filtered(apps, term, "all"))
  {
    if apps != [] {
      var restS := Filtered(apps[1..], term, statusFilter);
      var restA := Filtered(apps[1..], term, "all");
      StatusWithinAll(apps[1..], term, statusFilter);
      if Matches(apps[0], term, statusFilter) {
        assert Filtered(apps, term, "all") == [apps[0]] + restA;
        assert ([apps[0]] + restS)[1..] == restS;
        assert ([apps[0]] + restA)[1..] == restA;
      } else if MatchesSearch(apps[0], term) {
        assert Filtered(apps, term, "all") == [apps[0]] + restA;
        assert Filtered(apps, term, statusFilter) == [] + restS == restS;
        SubsequenceSkip(restS, restA, apps[0]);
      } else {
        assert Filtered(apps, term, "all") == [] + restA == restA;
        assert Filtered(apps, term, statusFilter) == [] + restS == restS;
      }
    }
  }

  /** `applications.filter(app => app.status === s).length`. */
  function CountStatus(apps: seq<Application>, s: Status): (n: nat)
    ensures n <= |apps|
  {
    if apps == [] then 0 else (if apps[0].status == s then 1 else 0) + CountStatus(apps[1..], s)
  }

  /** Every application has one of the three statuses, so the three counts
      add up to the number of applications. */
  lemma {:induction false} CountsSumToTotal(apps: seq<Application>)
    ensures CountStatus(apps, Pending) + CountStatus(apps, Approved) + CountStatus(apps, Rejected) == |apps|
  {
    if apps != [] {
      CountsSumToTotal(apps[1..]);
    }
  }

  /** A count is the length of the list filtered by that status with an
      empty search. */
  lemma {:induction false} CountIsEmptySearch(apps: seq<Application>, s: Status)
    ensures CountStatus(apps, s) == |Filtered(apps, "", StatusName(s))|
  {
    if apps != [] {
      ContainsEmpty(ToLower(apps[0].name));
      StatusNameInjective(apps[0].status, s);
      CountIsEmptySearch(apps[1..], s);
    }
  }

  /** `mockApplications`. */
  const MockApplications: seq<Application> := [
    Application("APP-2024-001", "Siti Nurhaliza", "3201234567890123", "2024-01-15", Pending, 2500000, 4, High),
    Application("APP-2024-002", "Ahmad Sudrajat", "3201234567890124", "2024-01-14", Pending, 1800000, 3, High),
    Application("APP-2024-003", "Rani Kusuma", "3201234567890125", "2024-01-13", Approved, 1200000, 2, Medium),
    Application("APP-2024-004", "Budi Santoso", "3201234567890126", "2024-01-12", Rejected, 4500000, 5, Low),
    Application("APP-2024-005", "Dewi Sartika", "3201234567890127", "2024-01-11", Pending, 1950000, 4, Medium)
  ]

  /** The counters on the page read 3 pending, 1 approved and 1 rejected. */
  lemma MockCounts()
    ensures CountStatus(MockApplications, Pending) == 3
    ensures CountStatus(MockApplications, Approved) == 1
    ensures CountStatus(MockApplications, Rejected) == 1
  {
    var m := MockApplications;
    assert m[1..][1..][1..][1..][1..] == [];
  }
}
