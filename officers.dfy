/** The company-officer listing: `extract_company_officers`. */
module Officers {
  import opened Wrappers

  /** A JSON value as the provider's info dictionary holds it. */
  datatype Value = Null | Bool(b: bool) | Int(i: int) | Num(x: real) | Str(s: string)

  /** Python truthiness. */
  predicate Truthy(v: Value) {
    match v
    case Null => false
    case Bool(b) => b
    case Int(i) => i != 0
    case Num(x) => x != 0.0
    case Str(s) => s != ""
  }

  /** One entry of `companyOfficers`: a dictionary. */
  type Officer = map<string, Value>

  /** `officer.get(key)` */
  function Get(officer: Officer, key: string): Value {
    if key in officer then officer[key] else Null
  }

  datatype OfficerSummary = OfficerSummary(name: Value, title: Value, firm: Value)

  /** An officer is listed when its name or its title is truthy. */
  predicate Listed(officer: Officer) {
    Truthy(Get(officer, "name")) || Truthy(Get(officer, "title"))
  }

  function Summary(officer: Officer): OfficerSummary {
    OfficerSummary(Get(officer, "name"), Get(officer, "title"), Get(officer, "firm"))
  }

  /** The listing of a sequence of officers: the summaries of the listed ones, in order. */
  function KeptOfficers(officers: seq<Officer>): (r: seq<OfficerSummary>)
    ensures |r| <= |officers|
  {
    if officers == [] then []
    else (if Listed(officers[0]) then [Summary(officers[0])] else []) + KeptOfficers(officers[1..])
  }

  /** Every entry of the listing has a truthy name or title and is the summary of a listed officer. */
  lemma {:induction false} KeptOfficersSound(officers: seq<Officer>)
    ensures forall k :: 0 <= k < |KeptOfficers(officers)| ==>
              Truthy(KeptOfficers(officers)[k].name) || Truthy(KeptOfficers(officers)[k].title)
    ensures forall k :: 0 <= k < |KeptOfficers(officers)| ==>
              exists i :: 0 <= i < |officers| && Listed(officers[i]) && KeptOfficers(officers)[k] == Summary(officers[i])
  {
    if officers != [] {
      var head := if Listed(officers[0]) then [Summary(officers[0])] else [];
      var tail := KeptOfficers(officers[1..]);
      KeptOfficersSound(officers[1..]);
      var r := head + tail;
      assert r == KeptOfficers(officers);
      forall k | 0 <= k < |r|
        ensures exists i :: 0 <= i < |officers| && Listed(officers[i]) && r[k] == Summary(officers[i])
      {
        if k >= |head| {
          var j := k - |head|;
          assert r[k] == tail[j];
          var rest := officers[1..];
          var i :| 0 <= i < |rest| && Listed(rest[i]) && tail[j] == Summary(rest[i]);
          assert officers[i + 1] == rest[i];
        } else {
          assert r[k] == Summary(officers[0]);
        }
      }
      forall k | 0 <= k < |r|
        ensures Truthy(r[k].name) || Truthy(r[k].title)
      {
        if k >= |head| {
          assert r[k] == tail[k - |head|];
        }
      }
    } else {
      assert KeptOfficers(officers) == [];
    }
  }

  /** Every listed officer's summary appears in the listing. */
  lemma {:induction false} KeptOfficersComplete(officers: seq<Officer>)
    ensures forall i :: 0 <= i < |officers| && Listed(officers[i]) ==> Summary(officers[i]) in KeptOfficers(officers)
  {
    if officers != [] {
      var head := if Listed(officers[0]) then [Summary(officers[0])] else [];
      var tail := KeptOfficers(officers[1..]);
      KeptOfficersComplete(officers[1..]);
      assert head + tail == KeptOfficers(officers);
      forall i | 0 <= i < |officers| && Listed(officers[i])
        ensures Summary(officers[i]) in head + tail
      {
        if i > 0 {
          assert officers[1..][i - 1] == officers[i];
          assert Summary(officers[i]) in tail;
        }
      }
    }
  }

  /** The listing of a concatenation is the concatenation of the listings: the input order is kept. */
  lemma {:induction false} KeptOfficersAppend(a: seq<Officer>, b: seq<Officer>)
    ensures KeptOfficers(a + b) == KeptOfficers(a) + KeptOfficers(b)
    decreases |a|
  {
    if a == [] {
      assert a + b == b;
    } else {
      var head := if Listed(a[0]) then [Summary(a[0])] else [];
      assert (a + b)[0] == a[0];
      assert (a + b)[1..] == a[1..] + b;
      KeptOfficersAppend(a[1..], b);
      assert KeptOfficers(a + b) == head + (KeptOfficers(a[1..]) + KeptOfficers(b));
      assert KeptOfficers(a) == head + KeptOfficers(a[1..]);
    }
  }

  /** When every officer is listed, the listing is their summaries one for one. */
  lemma {:induction false} KeptOfficersAllListed(officers: seq<Officer>)
    requires forall i :: 0 <= i < |officers| ==> Listed(officers[i])
    ensures KeptOfficers(officers) == seq(|officers|, i requires 0 <= i < |officers| => Summary(officers[i]))
  {
    if officers != [] {
      KeptOfficersAllListed(officers[1..]);
    }
  }

  /**
   * `extract_company_officers`: an absent, None or empty `companyOfficers`
   * gives the empty listing; otherwise the loop appends the summary of every
   * listed officer, in order.
   */
  method ExtractCompanyOfficers(companyOfficers: Option<seq<Officer>>) returns (formatted: seq<OfficerSummary>)
    ensures companyOfficers.None? ==> formatted == []
    ensures companyOfficers.Some? ==> formatted == KeptOfficers(companyOfficers.value)
  {
    var officers := if companyOfficers.Some? then companyOfficers.value else [];
    formatted := [];
    for i := 0 to |officers|
      invariant formatted == KeptOfficers(officers[..i])
    {
      var officer := officers[i];
      var name := Get(officer, "name");
      var title := Get(officer, "title");
      if Truthy(name) || Truthy(title) {
        formatted := formatted + [OfficerSummary(name, title, Get(officer, "firm"))];
      }
      KeptOfficersAppend(officers[..i], [officer]);
      assert officers[..i + 1] == officers[..i] + [officer];
    }
    assert officers[..|officers|] == officers;
  }
}
