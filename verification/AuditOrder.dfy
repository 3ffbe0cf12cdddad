/**
 The order of the records never matters to the audit verdict. That of the vulnerabilities matters exactly when
 some order is accepted although a vulnerability fails the severity test, which only the first of a key takes.
 */
module AuditOrder {
  import opened Wrappers
  import opened PyText
  import opened ExceptionList
  import opened AuditGate
  import opened AuditVerdict

  lemma {:induction false} MemberCount<T>(s: seq<T>, x: T)
    ensures multiset(s)[x] > 0 <==> x in s
  {}

  lemma SameMembers<T>(a: seq<T>, b: seq<T>)
    requires multiset(a) == multiset(b)
    ensures forall x :: x in a <==> x in b
  {
    forall x ensures x in a <==> x in b {
      MemberCount(a, x);
      MemberCount(b, x);
    }
  }

  /** A value that occurs twice in one list occurs twice in every permutation of it. */
  lemma {:induction false} TwiceThenTwice<T>(s: seq<T>, x: T)
    ensures multiset(s)[x] >= 2 <==> exists i, j :: 0 <= i < j < |s| && s[i] == x && s[j] == x
  {
    if s != [] {
      var n := |s| - 1;
      TwiceThenTwice(s[..n], x);
      MemberCount(s[..n], x);
      assert s == s[..n] + [s[n]];
      assert multiset(s)[x] == multiset(s[..n])[x] + multiset([s[n]])[x];
      if multiset(s)[x] >= 2 && multiset(s[..n])[x] < 2 {
        assert s[n] == x && x in s[..n];
        var i :| 0 <= i < n && s[..n][i] == x;
        assert s[i] == x && s[n] == x;
      }
      if multiset(s[..n])[x] >= 2 {
        var i, j :| 0 <= i < j < n && s[..n][i] == x && s[..n][j] == x;
        assert s[i] == x && s[j] == x;
      }
      if i, j :| 0 <= i < j < |s| && s[i] == x && s[j] == x {
        assert s[..n][i] == x;
        assert j < n ==> s[..n][j] == x;
      }
    }
  }

  lemma RecordsOnce(loc: Locale, excs: seq<Record>, r: Record)
    requires RecordsFine(loc, excs)
    ensures multiset(excs)[r] < 2
  {
    TwiceThenTwice(excs, r);
  }

  lemma RecordsFinePermuted(loc: Locale, excs: seq<Record>, excs': seq<Record>)
    requires multiset(excs) == multiset(excs') && RecordsFine(loc, excs)
    ensures RecordsFine(loc, excs')
  {
    SameMembers(excs, excs');
    forall i, j | 0 <= i < j < |excs'| ensures KeyOf(loc, excs'[i]) != KeyOf(loc, excs'[j]) {
      var r, r' := excs'[i], excs'[j];
      RecordsOnce(loc, excs, r);
      TwiceThenTwice(excs', r);
      assert r != r' && r in excs && r' in excs;
      var k :| 0 <= k < |excs| && excs[k] == r;
      var l :| 0 <= l < |excs| && excs[l] == r';
    }
  }

  lemma AcceptsPermutedRecords(loc: Locale, today: int, excs: seq<Record>, excs': seq<Record>, vulns: seq<Vuln>)
    requires multiset(excs) == multiset(excs') && Accepts(loc, today, excs, vulns)
    ensures Accepts(loc, today, excs', vulns)
  {
    SameMembers(excs, excs');
    RecordsFinePermuted(loc, excs, excs');
    forall v | v in vulns && High(loc, v) ensures exists r :: r in excs' && Covers(loc, today, r, v) {
      var r :| r in excs && Covers(loc, today, r, v);
      assert r in excs';
    }
    assert AllCovered(loc, today, excs', vulns);
  }

  /** The verdict does not depend on the order of the exception records. */
  lemma RecordOrderDoesNotMatter(loc: Locale, today: int, excs: seq<Record>, excs': seq<Record>, vulns: seq<Vuln>)
    requires multiset(excs) == multiset(excs')
    ensures Accepts(loc, today, excs, vulns) <==> Accepts(loc, today, excs', vulns)
  {
    if Accepts(loc, today, excs, vulns) {
      AcceptsPermutedRecords(loc, today, excs, excs', vulns);
    }
    if Accepts(loc, today, excs', vulns) {
      AcceptsPermutedRecords(loc, today, excs', excs, vulns);
    }
  }

  /** As Accepts, with the severity test on every high vulnerability, repeated or not. */
  ghost predicate AcceptsEach(loc: Locale, today: int, excs: seq<Record>, vulns: seq<Vuln>) {
    && RecordsFine(loc, excs)
    && AllCovered(loc, today, excs, vulns)
    && forall r, v | r in excs && v in vulns && High(loc, v) && KeyOf(loc, r) == VulnKey(loc, v)
         :: SeverityFits(loc, r, v)
  }

  lemma AcceptsEachAccepts(loc: Locale, today: int, excs: seq<Record>, vulns: seq<Vuln>)
    requires AcceptsEach(loc, today, excs, vulns)
    ensures Accepts(loc, today, excs, vulns)
  {}

  lemma AcceptsEachPermuted(loc: Locale, today: int, excs: seq<Record>, vulns: seq<Vuln>, vulns': seq<Vuln>)
    requires multiset(vulns) == multiset(vulns') && AcceptsEach(loc, today, excs, vulns)
    ensures AcceptsEach(loc, today, excs, vulns')
  {
    SameMembers(vulns, vulns');
  }

  /** vulns with its j-th element moved to the front. */
  function ToFront(vulns: seq<Vuln>, j: nat): seq<Vuln>
    requires j < |vulns|
  {
    [vulns[j]] + vulns[..j] + vulns[j + 1..]
  }

  lemma ToFrontPermutes(vulns: seq<Vuln>, j: nat)
    requires j < |vulns|
    ensures multiset(ToFront(vulns, j)) == multiset(vulns)
  {
    assert vulns == vulns[..j] + ([vulns[j]] + vulns[j + 1..]);
  }

  /** Every order of the vulnerabilities is accepted exactly when each of them takes the severity test and passes. */
  lemma EveryOrderAccepted(loc: Locale, today: int, excs: seq<Record>, vulns: seq<Vuln>)
    ensures (forall vs: seq<Vuln> :: multiset(vs) == multiset(vulns) ==> Accepts(loc, today, excs, vs))
            <==> AcceptsEach(loc, today, excs, vulns)
  {
    if AcceptsEach(loc, today, excs, vulns) {
      forall vs: seq<Vuln> | multiset(vs) == multiset(vulns) ensures Accepts(loc, today, excs, vs) {
        AcceptsEachPermuted(loc, today, excs, vulns, vs);
        AcceptsEachAccepts(loc, today, excs, vs);
      }
    }
    if forall vs: seq<Vuln> :: multiset(vs) == multiset(vulns) ==> Accepts(loc, today, excs, vs) {
      assert Accepts(loc, today, excs, vulns);
      forall r, v | r in excs && v in vulns && High(loc, v) && KeyOf(loc, r) == VulnKey(loc, v)
        ensures SeverityFits(loc, r, v)
      {
        var j :| 0 <= j < |vulns| && vulns[j] == v;
        var vs := ToFront(vulns, j);
        ToFrontPermutes(vulns, j);
        assert Accepts(loc, today, excs, vs);
        assert vs[0] == v && FirstOfKey(loc, vs, 0);
      }
    }
  }

  lemma {:induction false} FirstWithKey(loc: Locale, vulns: seq<Vuln>, j: nat) returns (f: nat)
    requires j < |vulns| && High(loc, vulns[j])
    ensures f <= j && High(loc, vulns[f]) && FirstOfKey(loc, vulns, f)
    ensures VulnKey(loc, vulns[f]) == VulnKey(loc, vulns[j])
    decreases j
  {
    if FirstOfKey(loc, vulns, j) {
      f := j;
    } else {
      var i :| 0 <= i < j && High(loc, vulns[i]) && VulnKey(loc, vulns[i]) == VulnKey(loc, vulns[j]);
      f := FirstWithKey(loc, vulns, i);
    }
  }

  /** The severity of v suits every record of its key. */
  ghost predicate Fits(loc: Locale, excs: seq<Record>, v: Vuln) {
    forall r :: r in excs && KeyOf(loc, r) == VulnKey(loc, v) ==> SeverityFits(loc, r, v)
  }

  /** Some high vulnerability with the key of v fits. */
  ghost predicate FitsSomewhere(loc: Locale, excs: seq<Record>, vulns: seq<Vuln>, v: Vuln) {
    exists v' :: v' in vulns && High(loc, v') && VulnKey(loc, v') == VulnKey(loc, v) && Fits(loc, excs, v')
  }

  /** As Accepts, with one fitting high vulnerability for the key of each, wherever it stands. */
  ghost predicate AcceptsSome(loc: Locale, today: int, excs: seq<Record>, vulns: seq<Vuln>) {
    && RecordsFine(loc, excs)
    && AllCovered(loc, today, excs, vulns)
    && forall v :: v in vulns && High(loc, v) ==> FitsSomewhere(loc, excs, vulns, v)
  }

  /** The elements that are chosen, or those that are not, in order. */
  function Sift<T(==,!new)>(s: seq<T>, chosen: set<T>, wanted: bool): (r: seq<T>)
    ensures forall x :: x in r <==> x in s && (x in chosen <==> wanted)
  {
    if s == [] then []
    else (if s[0] in chosen <==> wanted then [s[0]] else []) + Sift(s[1..], chosen, wanted)
  }

  /** The chosen ones first. */
  function ChosenFirst<T(==,!new)>(s: seq<T>, chosen: set<T>): (r: seq<T>)
    ensures forall x :: x in r <==> x in s
  {
    Sift(s, chosen, true) + Sift(s, chosen, false)
  }

  lemma {:induction false} ChosenFirstPermutes<T(!new)>(s: seq<T>, chosen: set<T>)
    ensures multiset(ChosenFirst(s, chosen)) == multiset(s)
  {
    if s != [] {
      ChosenFirstPermutes(s[1..], chosen);
      assert s == [s[0]] + s[1..];
    }
  }

  lemma BeforeChosen<T(!new)>(s: seq<T>, chosen: set<T>, x: T, j: nat)
    requires x in s && x in chosen && j < |ChosenFirst(s, chosen)|
    requires forall i :: 0 <= i < j ==> ChosenFirst(s, chosen)[i] != x
    ensures ChosenFirst(s, chosen)[j] in chosen
  {
    var good := Sift(s, chosen, true);
    assert x in good;
    var i :| 0 <= i < |good| && good[i] == x;
    assert ChosenFirst(s, chosen)[i] == x && j <= i;
    assert good[j] in good;
  }

  /** With the fitting ones first, a vulnerability that fails the test is not the first of its key. */
  lemma FirstFits(loc: Locale, excs: seq<Record>, vulns: seq<Vuln>, fitting: set<Vuln>, j: nat)
    requires fitting == set v | v in vulns && Fits(loc, excs, v)
    requires j < |ChosenFirst(vulns, fitting)| && FirstOfKey(loc, ChosenFirst(vulns, fitting), j)
    requires FitsSomewhere(loc, excs, vulns, ChosenFirst(vulns, fitting)[j])
    ensures Fits(loc, excs, ChosenFirst(vulns, fitting)[j])
  {
    var vs := ChosenFirst(vulns, fitting);
    var v' :| v' in vulns && High(loc, v') && VulnKey(loc, v') == VulnKey(loc, vs[j]) && Fits(loc, excs, v');
    BeforeChosen(vulns, fitting, v', j);
  }

  lemma FittingAccepted(loc: Locale, today: int, excs: seq<Record>, vs: seq<Vuln>)
    requires RecordsFine(loc, excs) && AllCovered(loc, today, excs, vs)
    requires forall j :: 0 <= j < |vs| && High(loc, vs[j]) && FirstOfKey(loc, vs, j) ==> Fits(loc, excs, vs[j])
    ensures Accepts(loc, today, excs, vs)
  {}

  lemma CoveredMembers(loc: Locale, today: int, excs: seq<Record>, vulns: seq<Vuln>, vs: seq<Vuln>)
    requires AllCovered(loc, today, excs, vulns) && forall v :: v in vs ==> v in vulns
    ensures AllCovered(loc, today, excs, vs)
  {}

  lemma FitsFirstAccepted(loc: Locale, today: int, excs: seq<Record>, vulns: seq<Vuln>, fitting: set<Vuln>)
    requires AcceptsSome(loc, today, excs, vulns) && fitting == set v | v in vulns && Fits(loc, excs, v)
    ensures Accepts(loc, today, excs, ChosenFirst(vulns, fitting))
  {
    var vs := ChosenFirst(vulns, fitting);
    CoveredMembers(loc, today, excs, vulns, vs);
    forall j | 0 <= j < |vs| && High(loc, vs[j]) && FirstOfKey(loc, vs, j) ensures Fits(loc, excs, vs[j]) {
      assert vs[j] in vs;
      FirstFits(loc, excs, vulns, fitting, j);
    }
    FittingAccepted(loc, today, excs, vs);
  }

  lemma AcceptedFits(loc: Locale, today: int, excs: seq<Record>, vulns: seq<Vuln>, vs: seq<Vuln>)
    requires multiset(vs) == multiset(vulns) && Accepts(loc, today, excs, vs)
    ensures AcceptsSome(loc, today, excs, vulns)
  {
    SameMembers(vs, vulns);
    forall v | v in vulns && High(loc, v) ensures FitsSomewhere(loc, excs, vulns, v) {
      var j :| 0 <= j < |vs| && vs[j] == v;
      var f := FirstWithKey(loc, vs, j);
      assert vs[f] in vulns && Fits(loc, excs, vs[f]);
    }
  }

  /** Some order of the vulnerabilities is accepted exactly when each key of a high one has one that fits. */
  lemma SomeOrderAccepted(loc: Locale, today: int, excs: seq<Record>, vulns: seq<Vuln>)
    ensures (exists vs: seq<Vuln> :: multiset(vs) == multiset(vulns) && Accepts(loc, today, excs, vs))
            <==> AcceptsSome(loc, today, excs, vulns)
  {
    if AcceptsSome(loc, today, excs, vulns) {
      var fitting := set v | v in vulns && Fits(loc, excs, v);
      ChosenFirstPermutes(vulns, fitting);
      FitsFirstAccepted(loc, today, excs, vulns, fitting);
    }
    if vs: seq<Vuln> :| multiset(vs) == multiset(vulns) && Accepts(loc, today, excs, vs) {
      AcceptedFits(loc, today, excs, vulns, vs);
    }
  }

  /** The order of the vulnerabilities does not change the verdict exactly when all orders pass, or none does. */
  lemma VulnOrderMattersIff(loc: Locale, today: int, excs: seq<Record>, vulns: seq<Vuln>)
    ensures (forall vs: seq<Vuln> :: multiset(vs) == multiset(vulns)
               ==> (Accepts(loc, today, excs, vs) <==> Accepts(loc, today, excs, vulns)))
            <==> AcceptsEach(loc, today, excs, vulns) || !AcceptsSome(loc, today, excs, vulns)
  {
    EveryOrderAccepted(loc, today, excs, vulns);
    SomeOrderAccepted(loc, today, excs, vulns);
  }

  /** Vulnerabilities of the same key have the same severity. */
  ghost predicate SeveritiesAgree(loc: Locale, vulns: seq<Vuln>) {
    forall v, v' :: v in vulns && v' in vulns && High(loc, v) && High(loc, v') && VulnKey(loc, v) == VulnKey(loc, v')
                    ==> NormalizeSeverity(loc, v.severity) == NormalizeSeverity(loc, v'.severity)
  }

  lemma AllFitting(loc: Locale, today: int, excs: seq<Record>, vulns: seq<Vuln>)
    requires RecordsFine(loc, excs) && AllCovered(loc, today, excs, vulns)
    requires forall v :: v in vulns && High(loc, v) ==> Fits(loc, excs, v)
    ensures AcceptsEach(loc, today, excs, vulns)
  {}

  lemma SameSeverityFits(loc: Locale, excs: seq<Record>, v: Vuln, v': Vuln)
    requires VulnKey(loc, v') == VulnKey(loc, v) && Fits(loc, excs, v')
    requires NormalizeSeverity(loc, v.severity) == NormalizeSeverity(loc, v'.severity)
    ensures Fits(loc, excs, v)
  {}

  lemma AgreeingFits(loc: Locale, excs: seq<Record>, vulns: seq<Vuln>, v: Vuln)
    requires SeveritiesAgree(loc, vulns) && v in vulns && High(loc, v) && FitsSomewhere(loc, excs, vulns, v)
    ensures Fits(loc, excs, v)
  {
    var v' :| v' in vulns && High(loc, v') && VulnKey(loc, v') == VulnKey(loc, v) && Fits(loc, excs, v');
    SameSeverityFits(loc, excs, v, v');
  }

  /** Where severities agree, the verdict does not depend on the order of the vulnerabilities. */
  lemma VulnOrderDoesNotMatter(loc: Locale, today: int, excs: seq<Record>, vulns: seq<Vuln>, vulns': seq<Vuln>)
    requires multiset(vulns) == multiset(vulns') && SeveritiesAgree(loc, vulns)
    ensures Accepts(loc, today, excs, vulns) <==> Accepts(loc, today, excs, vulns')
  {
    if AcceptsSome(loc, today, excs, vulns) {
      forall v | v in vulns && High(loc, v) ensures Fits(loc, excs, v) {
        AgreeingFits(loc, excs, vulns, v);
      }
      AllFitting(loc, today, excs, vulns);
    }
    VulnOrderMattersIff(loc, today, excs, vulns);
  }

  const SAMPLE_LOCALE := Locale((s: string) => s, (s: string) => Some(0))

  const SAMPLE_RECORD: Record :=
    map["package" := "p", "advisory" := "a", "severity" := "high", "mitigation" := "m", "expires_on" := "d"]

  function SampleVuln(severity: string): Vuln {
    Vuln(Text("p"), Some(severity), Text("a"))
  }

  lemma SampleKeys(severity: string)
    ensures RecordsFine(SAMPLE_LOCALE, [SAMPLE_RECORD])
    ensures KeyOf(SAMPLE_LOCALE, SAMPLE_RECORD) == VulnKey(SAMPLE_LOCALE, SampleVuln(severity)) == ("p", "a")
    ensures Covers(SAMPLE_LOCALE, 0, SAMPLE_RECORD, SampleVuln(severity))
  {
    StripTrimmed("p");
    StripTrimmed("a");
  }

  lemma SampleSeverities()
    ensures High(SAMPLE_LOCALE, SampleVuln("high")) && High(SAMPLE_LOCALE, SampleVuln("critical"))
    ensures SeverityFits(SAMPLE_LOCALE, SAMPLE_RECORD, SampleVuln("high"))
    ensures !SeverityFits(SAMPLE_LOCALE, SAMPLE_RECORD, SampleVuln("critical"))
  {
    StripTrimmed("high");
    StripTrimmed("critical");
  }

  /** Of two findings that one record excuses, of which it fits only one, that one has to come first. */
  lemma FitDecides(loc: Locale, today: int, r: Record, v: Vuln, v': Vuln)
    requires RecordsFine(loc, [r]) && Covers(loc, today, r, v) && Covers(loc, today, r, v')
    requires High(loc, v) && High(loc, v') && KeyOf(loc, r).1 != ""
    requires SeverityFits(loc, r, v) && !SeverityFits(loc, r, v')
    ensures Accepts(loc, today, [r], [v, v']) && !Accepts(loc, today, [r], [v', v])
  {
    var good, bad := [v, v'], [v', v];
    assert r in [r];
    assert !FirstOfKey(loc, good, 1) by {
      assert good[0] == v;
    }
    assert FirstOfKey(loc, bad, 0) && bad[0] == v';
  }

  /** With severities that disagree it does: the same two findings pass in one order and fail in the other. */
  lemma VulnOrderCanMatter()
    ensures Accepts(SAMPLE_LOCALE, 0, [SAMPLE_RECORD], [SampleVuln("high"), SampleVuln("critical")])
    ensures !Accepts(SAMPLE_LOCALE, 0, [SAMPLE_RECORD], [SampleVuln("critical"), SampleVuln("high")])
  {
    SampleKeys("high");
    SampleKeys("critical");
    SampleSeverities();
    FitDecides(SAMPLE_LOCALE, 0, SAMPLE_RECORD, SampleVuln("high"), SampleVuln("critical"));
  }
}
