/**
 The meaning of exit code 0, stated on the records and vulnerabilities themselves, and on which days it holds.
 */
module AuditVerdict {
  import opened Wrappers
  import opened PyText
  import opened ExceptionList
  import opened AuditGate

  predicate WellFormed(loc: Locale, r: Record) {
    && (forall f :: f in REQUIRED_FIELDS ==> f in r && r[f] != "")
    && DateOf(loc, r).Some? && KeyOf(loc, r).0 != "" && KeyOf(loc, r).1 != ""
  }

  /** The record excuses the vulnerability on that day: same key, not yet expired. */
  predicate Covers(loc: Locale, today: int, r: Record, v: Vuln) {
    KeyOf(loc, r) == VulnKey(loc, v) && DateOf(loc, r).Some? && today <= DateOf(loc, r).value
  }

  predicate SeverityFits(loc: Locale, r: Record, v: Vuln) {
    SeverityOf(loc, r) == "" || SeverityOf(loc, r) == NormalizeSeverity(loc, v.severity)
  }

  predicate RecordsFine(loc: Locale, excs: seq<Record>) {
    && (forall r :: r in excs ==> WellFormed(loc, r))
    && (forall i, j :: 0 <= i < j < |excs| ==> KeyOf(loc, excs[i]) != KeyOf(loc, excs[j]))
  }

  /** Each high vulnerability is identified and excused by some record. */
  predicate AllCovered(loc: Locale, today: int, excs: seq<Record>, vulns: seq<Vuln>) {
    forall v :: v in vulns && High(loc, v) ==>
                  VulnKey(loc, v).1 != "" && exists r :: r in excs && Covers(loc, today, r, v)
  }

  /** No earlier high vulnerability has the key of vulns[j]. */
  predicate FirstOfKey(loc: Locale, vulns: seq<Vuln>, j: nat)
    requires j < |vulns|
  {
    forall i :: 0 <= i < j && High(loc, vulns[i]) ==> VulnKey(loc, vulns[i]) != VulnKey(loc, vulns[j])
  }

  /** What exit code 0 means. */
  ghost predicate Accepts(loc: Locale, today: int, excs: seq<Record>, vulns: seq<Vuln>) {
    && RecordsFine(loc, excs)
    && AllCovered(loc, today, excs, vulns)
    && forall r, j | r in excs && 0 <= j < |vulns| && High(loc, vulns[j]) && FirstOfKey(loc, vulns, j)
                     && KeyOf(loc, r) == VulnKey(loc, vulns[j])
         :: SeverityFits(loc, r, vulns[j])
  }

  /**
   However the file and the audit pad their texts with white space, a record and a vulnerability meet exactly when
   they name the same package, letter for letter, and the same advisory up to lower().
   */
  lemma KeysIgnorePadding(loc: Locale, r: Record, v: Vuln, name: string, name': string,
                          advisory: string, advisory': string, pads: seq<string>)
    requires |pads| == 8 && forall k :: 0 <= k < 8 ==> AllSpace(pads[k])
    requires Trimmed(name) && Trimmed(name') && Trimmed(advisory) && Trimmed(advisory')
    requires Field(r, "package") == pads[0] + name + pads[1]
    requires Field(r, "advisory") == pads[2] + advisory + pads[3]
    requires v.name == Text(pads[4] + name' + pads[5]) && v.advisory == Text(pads[6] + advisory' + pads[7])
    ensures KeyOf(loc, r) == VulnKey(loc, v) <==> name == name' && loc.lower(advisory) == loc.lower(advisory')
  {
    StripUnique(pads[0], name, pads[1]);
    StripUnique(pads[2], advisory, pads[3]);
    StripUnique(pads[4], name', pads[5]);
    StripUnique(pads[6], advisory', pads[7]);
  }

  /** A number is compared by its text; a missing advisory or name is the empty text. */
  lemma ScalarKeys(loc: Locale, v: Vuln, repr: string, nonzero: bool)
    ensures v.advisory == Number(repr, nonzero) ==> VulnKey(loc, v) == VulnKey(loc, v.(advisory := Text(repr)))
    ensures v.name == Number(repr, nonzero) ==> VulnKey(loc, v) == VulnKey(loc, v.(name := Text(repr)))
    ensures v.advisory == Null ==> VulnKey(loc, v).1 == ""
    ensures v.name == Null ==> VulnKey(loc, v).0 == ""
  {}

  // ----- The same in words, down to the texts of the file and of the audit -----

  /** A name counts unless it is missing, empty or the number zero; one of white space only counts. */
  lemma NamesThatCount(name: Scalar)
    ensures Truthy(name) <==> match name
                              case Null => false
                              case Text(s) => |s| > 0
                              case Number(_, nonzero) => nonzero
  {}

  /** A vulnerability demands an exception exactly when it is named and its severity reads high or critical. */
  lemma DemandsIff(loc: Locale, v: Vuln, pre: string, s: string, post: string)
    requires AllSpace(pre) && AllSpace(post) && Trimmed(s) && v.severity == Some(pre + s + post)
    ensures High(loc, v) <==> Truthy(v.name) && (loc.lower(s) == "high" || loc.lower(s) == "critical")
  {
    StripUnique(pre, s, post);
  }

  /** A missing severity demands none. */
  lemma NoSeverityDemandsNone(loc: Locale, v: Vuln)
    requires v.severity.None? && loc.lower("") == ""
    ensures !High(loc, v)
  {}

  /** vulns without the j-th. */
  function Drop(vulns: seq<Vuln>, j: nat): seq<Vuln>
    requires j < |vulns|
  {
    vulns[..j] + vulns[j + 1..]
  }

  lemma DropFirsts(loc: Locale, vulns: seq<Vuln>, j: nat, k: nat)
    requires j < |vulns| && !High(loc, vulns[j]) && k < |Drop(vulns, j)|
    ensures var k' := if k < j then k else k + 1;
            && Drop(vulns, j)[k] == vulns[k']
            && (FirstOfKey(loc, Drop(vulns, j), k) <==> FirstOfKey(loc, vulns, k'))
  {
    var less, k' := Drop(vulns, j), if k < j then k else k + 1;
    assert forall i :: 0 <= i < |less| ==> less[i] == vulns[if i < j then i else i + 1];
    if FirstOfKey(loc, less, k) {
      forall i | 0 <= i < k' && High(loc, vulns[i]) ensures VulnKey(loc, vulns[i]) != VulnKey(loc, vulns[k']) {
        assert i != j && less[if i < j then i else i - 1] == vulns[i];
      }
    }
    if FirstOfKey(loc, vulns, k') {
      forall i | 0 <= i < k && High(loc, less[i]) ensures VulnKey(loc, less[i]) != VulnKey(loc, less[k]) {
        assert less[i] == vulns[if i < j then i else i + 1];
      }
    }
  }

  lemma DropCovered(loc: Locale, today: int, excs: seq<Record>, vulns: seq<Vuln>, j: nat)
    requires j < |vulns| && !High(loc, vulns[j])
    ensures AllCovered(loc, today, excs, Drop(vulns, j)) <==> AllCovered(loc, today, excs, vulns)
  {
    var less := Drop(vulns, j);
    assert vulns == vulns[..j] + [vulns[j]] + vulns[j + 1..];
    assert forall v :: v in vulns <==> v in less || v == vulns[j];
  }

  /** The severity test at one place of the list. */
  ghost predicate FitsAt(loc: Locale, excs: seq<Record>, vulns: seq<Vuln>, j: nat)
    requires j < |vulns|
  {
    High(loc, vulns[j]) && FirstOfKey(loc, vulns, j) ==>
      forall r :: r in excs && KeyOf(loc, r) == VulnKey(loc, vulns[j]) ==> SeverityFits(loc, r, vulns[j])
  }

  ghost predicate AllFit(loc: Locale, excs: seq<Record>, vulns: seq<Vuln>) {
    forall j :: 0 <= j < |vulns| ==> FitsAt(loc, excs, vulns, j)
  }

  lemma AcceptsByPlaces(loc: Locale, today: int, excs: seq<Record>, vulns: seq<Vuln>)
    ensures Accepts(loc, today, excs, vulns)
            <==> RecordsFine(loc, excs) && AllCovered(loc, today, excs, vulns) && AllFit(loc, excs, vulns)
  {
    if AllFit(loc, excs, vulns) {
      forall r, j | r in excs && 0 <= j < |vulns| && High(loc, vulns[j]) && FirstOfKey(loc, vulns, j)
                    && KeyOf(loc, r) == VulnKey(loc, vulns[j])
        ensures SeverityFits(loc, r, vulns[j])
      {
        assert FitsAt(loc, excs, vulns, j);
      }
    }
  }

  lemma FitsAtMoved(loc: Locale, excs: seq<Record>, vulns: seq<Vuln>, j: nat, k: nat)
    requires j < |vulns| && !High(loc, vulns[j]) && k < |Drop(vulns, j)|
    ensures FitsAt(loc, excs, Drop(vulns, j), k) <==> FitsAt(loc, excs, vulns, if k < j then k else k + 1)
  {
    DropFirsts(loc, vulns, j, k);
  }

  lemma DropFits(loc: Locale, excs: seq<Record>, vulns: seq<Vuln>, j: nat)
    requires j < |vulns| && !High(loc, vulns[j])
    ensures AllFit(loc, excs, Drop(vulns, j)) <==> AllFit(loc, excs, vulns)
  {
    if AllFit(loc, excs, vulns) {
      forall k | 0 <= k < |Drop(vulns, j)| ensures FitsAt(loc, excs, Drop(vulns, j), k) {
        FitsAtMoved(loc, excs, vulns, j, k);
      }
    }
    if AllFit(loc, excs, Drop(vulns, j)) {
      forall k | 0 <= k < |vulns| ensures FitsAt(loc, excs, vulns, k) {
        if k != j {
          FitsAtMoved(loc, excs, vulns, j, if k < j then k else k - 1);
        }
      }
    }
  }

  /** A vulnerability that demands no exception makes no difference to the verdict. */
  lemma UndemandingDropped(loc: Locale, today: int, excs: seq<Record>, vulns: seq<Vuln>, j: nat)
    requires j < |vulns| && !High(loc, vulns[j])
    ensures Accepts(loc, today, excs, Drop(vulns, j)) <==> Accepts(loc, today, excs, vulns)
  {
    AcceptsByPlaces(loc, today, excs, vulns);
    AcceptsByPlaces(loc, today, excs, Drop(vulns, j));
    DropCovered(loc, today, excs, vulns, j);
    DropFits(loc, excs, vulns, j);
  }

  predicate Given(r: Record, field: string) {
    field in r && r[field] != ""
  }

  /**
   A record is well formed exactly when its five fields are given, the date can be read, and package and advisory
   are not just white space (the advisory also after lower()).
   */
  lemma WellFormedIff(loc: Locale, r: Record)
    ensures WellFormed(loc, r) <==>
              && Given(r, "package") && Given(r, "advisory") && Given(r, "severity") && Given(r, "mitigation")
              && Given(r, "expires_on") && loc.parseDate(r["expires_on"]).Some?
              && !AllSpace(r["package"]) && loc.lower(Strip(r["advisory"])) != ""
  {
    var fields := ["package", "advisory", "severity", "mitigation", "expires_on"];
    assert forall f :: f in REQUIRED_FIELDS ==> f in fields;
    if "package" in r {
      StripEmpty(r["package"]);
    }
  }

  /** A record covers a vulnerability of its key up to and including its own date. */
  lemma CoversIff(loc: Locale, today: int, r: Record, v: Vuln)
    requires WellFormed(loc, r)
    ensures Covers(loc, today, r, v) <==>
              KeyOf(loc, r) == VulnKey(loc, v) && today <= loc.parseDate(r["expires_on"]).value
  {
    WellFormedIff(loc, r);
  }

  /** Severities, padded or not, fit when they read alike; one that reads empty fits all. */
  lemma SeverityFitsIff(loc: Locale, r: Record, v: Vuln, s: string, s': string, pads: seq<string>)
    requires |pads| == 4 && forall k :: 0 <= k < 4 ==> AllSpace(pads[k])
    requires Trimmed(s) && Trimmed(s') && "severity" in r
    requires r["severity"] == pads[0] + s + pads[1] && v.severity == Some(pads[2] + s' + pads[3])
    ensures SeverityFits(loc, r, v) <==> loc.lower(s) == "" || loc.lower(s) == loc.lower(s')
  {
    StripUnique(pads[0], s, pads[1]);
    StripUnique(pads[2], s', pads[3]);
  }

  /** Which complaint a record draws: missing fields by name, else a bad date, else a blank package or advisory. */
  lemma RejectedIff(loc: Locale, r: Record)
    ensures Check(loc, r).Rejected? <==> !WellFormed(loc, r)
    ensures (exists f :: f in REQUIRED_FIELDS && !Given(r, f)) ==>
              Check(loc, r) == Rejected(MissingFields(set f | f in REQUIRED_FIELDS && !Given(r, f)))
    ensures (forall f :: f in REQUIRED_FIELDS ==> Given(r, f)) && loc.parseDate(r["expires_on"]).None? ==>
              Check(loc, r) == Rejected(InvalidDate)
    ensures (forall f :: f in REQUIRED_FIELDS ==> Given(r, f)) && loc.parseDate(r["expires_on"]).Some?
            && (AllSpace(r["package"]) || loc.lower(Strip(r["advisory"])) == "") ==>
              Check(loc, r) == Rejected(BlankKey)
  {
    CheckMeans(loc, r);
    assert Missing(r) == set f | f in REQUIRED_FIELDS && !Given(r, f);
    if f :| f in REQUIRED_FIELDS && !Given(r, f) {
      assert f in Missing(r);
    }
    if "package" in r {
      StripEmpty(r["package"]);
    }
  }

  // ----- The loops compute it -----

  /** Accepts, on what records and vulnerabilities come to. */
  ghost predicate Passing(today: int, cs: seq<Checked>, ss: seq<Sighting>) {
    && (forall i :: 0 <= i < |cs| ==> cs[i].Usable?)
    && (forall i, j :: 0 <= i < j < |cs| ==> cs[i].key != cs[j].key)
    && (forall j :: 0 <= j < |ss| ==>
          && !ss[j].Unidentified?
          && (ss[j].Wanted? ==> exists i :: 0 <= i < |cs| && cs[i].key == ss[j].key && today <= cs[i].expiresOn))
    && (forall i, j :: 0 <= i < |cs| && 0 <= j < |ss| && FirstSighting(ss, j) && cs[i].key == ss[j].key
                       ==> cs[i].severity in {"", ss[j].severity})
  }

  /** Every wanted sighting has a first one with its key. */
  lemma {:induction false} FirstExists(ss: seq<Sighting>, j: nat) returns (f: nat)
    requires j < |ss| && ss[j].Wanted?
    ensures f <= j && FirstSighting(ss, f) && ss[f].key == ss[j].key
    decreases j
  {
    if FirstSighting(ss, j) {
      f := j;
    } else {
      var i :| 0 <= i < j && ss[i].Wanted? && ss[i].key == ss[j].key;
      f := FirstExists(ss, i);
    }
  }

  lemma IndexedRecord(cs: seq<Checked>, index: map<Key, IndexEntry>, i: nat)
    requires Indexes(cs, |cs|, index) && RecordsOk(cs, |cs|) && i < |cs|
    ensures cs[i].Usable? && cs[i].key in index && index[cs[i].key] == IndexEntry(cs[i].severity, cs[i].expiresOn)
  {
    assert FirstRecord(cs, i);
    var k := cs[i].key;
    var j :| 0 <= j < |cs| && FirstRecord(cs, j) && cs[j].key == k
             && index[k] == IndexEntry(cs[j].severity, cs[j].expiresOn);
    assert i == j;
  }

  lemma CleanIsPassing(today: int, cs: seq<Checked>, ss: seq<Sighting>, index: map<Key, IndexEntry>)
    requires Indexes(cs, |cs|, index)
    ensures Clean(today, index, cs, ss) <==> Passing(today, cs, ss)
  {
    if Clean(today, index, cs, ss) {
      forall i, j | 0 <= i < j < |cs| ensures cs[i].Usable? && cs[j].Usable? && cs[i].key != cs[j].key {
        assert FirstRecord(cs, i) && FirstRecord(cs, j);
      }
      forall i | 0 <= i < |cs| ensures cs[i].Usable? {
        assert FirstRecord(cs, i);
      }
      forall j | 0 <= j < |ss| && ss[j].Wanted?
        ensures exists i :: 0 <= i < |cs| && cs[i].key == ss[j].key && today <= cs[i].expiresOn
      {
        var f := FirstExists(ss, j);
        assert Passes(today, index, ss[f]);
      }
      forall i, j | 0 <= i < |cs| && 0 <= j < |ss| && FirstSighting(ss, j) && cs[i].key == ss[j].key
        ensures cs[i].severity in {"", ss[j].severity}
      {
        IndexedRecord(cs, index, i);
      }
    }
    if Passing(today, cs, ss) {
      assert RecordsOk(cs, |cs|);
      forall j | 0 <= j < |ss| && FirstSighting(ss, j) ensures Passes(today, index, ss[j]) {
        var i :| 0 <= i < |cs| && cs[i].key == ss[j].key && today <= cs[i].expiresOn;
        IndexedRecord(cs, index, i);
      }
    }
  }

  lemma CheckMeans(loc: Locale, r: Record)
    ensures Check(loc, r).Usable? <==> WellFormed(loc, r)
    ensures WellFormed(loc, r) ==> Check(loc, r) == Usable(KeyOf(loc, r), SeverityOf(loc, r), DateOf(loc, r).value)
  {
    if WellFormed(loc, r) {
      assert Missing(r) == {};
    } else if Missing(r) == {} {
      forall f | f in REQUIRED_FIELDS ensures f in r && r[f] != "" {
        assert f !in Missing(r);
      }
    }
  }

  lemma SightMeans(loc: Locale, v: Vuln)
    ensures Sight(loc, v).Ignored? <==> !High(loc, v)
    ensures Sight(loc, v).Unidentified? <==> High(loc, v) && VulnKey(loc, v).1 == ""
    ensures Sight(loc, v).Wanted? ==> Sight(loc, v) == Wanted(VulnKey(loc, v), NormalizeSeverity(loc, v.severity))
  {}

  /** cs and ss are what excs and vulns come to. */
  ghost predicate Digested(loc: Locale, excs: seq<Record>, vulns: seq<Vuln>, cs: seq<Checked>, ss: seq<Sighting>) {
    && |cs| == |excs| && |ss| == |vulns|
    && (forall i :: 0 <= i < |excs| ==>
          && (cs[i].Usable? <==> WellFormed(loc, excs[i]))
          && (cs[i].Usable? ==>
                && cs[i].key == KeyOf(loc, excs[i])
                && cs[i].severity == SeverityOf(loc, excs[i])
                && cs[i].expiresOn == DateOf(loc, excs[i]).value))
    && (forall j :: 0 <= j < |vulns| ==>
          && (ss[j].Ignored? <==> !High(loc, vulns[j]))
          && (ss[j].Unidentified? <==> High(loc, vulns[j]) && VulnKey(loc, vulns[j]).1 == "")
          && (ss[j].Wanted? ==>
                && ss[j].key == VulnKey(loc, vulns[j])
                && ss[j].severity == NormalizeSeverity(loc, vulns[j].severity)))
  }

  lemma DigestHolds(loc: Locale, excs: seq<Record>, vulns: seq<Vuln>)
    ensures Digested(loc, excs, vulns, CheckAll(loc, excs), SightAll(loc, vulns))
  {
    forall i | 0 <= i < |excs| { CheckMeans(loc, excs[i]); }
    forall j | 0 <= j < |vulns| { SightMeans(loc, vulns[j]); }
  }

  lemma FirstsAgree(loc: Locale, excs: seq<Record>, vulns: seq<Vuln>, cs: seq<Checked>, ss: seq<Sighting>, j: nat)
    requires Digested(loc, excs, vulns, cs, ss) && j < |ss| && ss[j].Wanted?
    ensures FirstSighting(ss, j) <==> FirstOfKey(loc, vulns, j)
  {}

  lemma PassingCovers(loc: Locale, today: int, excs: seq<Record>, vulns: seq<Vuln>,
                      cs: seq<Checked>, ss: seq<Sighting>)
    requires Digested(loc, excs, vulns, cs, ss) && Passing(today, cs, ss)
    ensures RecordsFine(loc, excs) && AllCovered(loc, today, excs, vulns)
  {
    forall v | v in vulns && High(loc, v)
      ensures VulnKey(loc, v).1 != "" && exists r :: r in excs && Covers(loc, today, r, v)
    {
      var j :| 0 <= j < |vulns| && vulns[j] == v;
      var i :| 0 <= i < |cs| && cs[i].key == ss[j].key && today <= cs[i].expiresOn;
      assert excs[i] in excs && Covers(loc, today, excs[i], v);
    }
  }

  lemma PassingAccepts(loc: Locale, today: int, excs: seq<Record>, vulns: seq<Vuln>,
                       cs: seq<Checked>, ss: seq<Sighting>)
    requires Digested(loc, excs, vulns, cs, ss) && Passing(today, cs, ss)
    ensures Accepts(loc, today, excs, vulns)
  {
    PassingCovers(loc, today, excs, vulns, cs, ss);
    forall r, j | r in excs && 0 <= j < |vulns| && High(loc, vulns[j]) && FirstOfKey(loc, vulns, j)
                  && KeyOf(loc, r) == VulnKey(loc, vulns[j])
      ensures SeverityFits(loc, r, vulns[j])
    {
      var i :| 0 <= i < |excs| && excs[i] == r;
      FirstsAgree(loc, excs, vulns, cs, ss, j);
    }
  }

  lemma CoveredFinds(loc: Locale, today: int, excs: seq<Record>, vulns: seq<Vuln>,
                     cs: seq<Checked>, ss: seq<Sighting>, j: nat)
    requires Digested(loc, excs, vulns, cs, ss) && RecordsFine(loc, excs) && AllCovered(loc, today, excs, vulns)
    requires j < |ss|
    ensures !ss[j].Unidentified?
    ensures ss[j].Wanted? ==>
              exists i :: 0 <= i < |cs| && cs[i].Usable? && cs[i].key == ss[j].key && today <= cs[i].expiresOn
  {}

  lemma AcceptsPasses(loc: Locale, today: int, excs: seq<Record>, vulns: seq<Vuln>,
                      cs: seq<Checked>, ss: seq<Sighting>)
    requires Digested(loc, excs, vulns, cs, ss) && Accepts(loc, today, excs, vulns)
    ensures Passing(today, cs, ss)
  {
    forall i | 0 <= i < |cs| ensures cs[i].Usable? {
      assert excs[i] in excs;
    }
    forall j | 0 <= j < |ss| {
      CoveredFinds(loc, today, excs, vulns, cs, ss, j);
    }
    forall i, j | 0 <= i < |cs| && 0 <= j < |ss| && FirstSighting(ss, j) && cs[i].key == ss[j].key
      ensures cs[i].severity in {"", ss[j].severity}
    {
      FirstsAgree(loc, excs, vulns, cs, ss, j);
      assert excs[i] in excs && SeverityFits(loc, excs[i], vulns[j]);
    }
  }

  /** The two loops of main give exit code 0 exactly when Accepts holds. */
  method CheckAudit(loc: Locale, today: int, excs: seq<Record>, vulns: seq<Vuln>) returns (code: int)
    ensures code in {0, 1}
    ensures code == 0 <==> Accepts(loc, today, excs, vulns)
  {
    var cs, ss := CheckAll(loc, excs), SightAll(loc, vulns);
    var exit, errors, index := Gate(today, cs, ss);
    code := exit;
    CleanIsPassing(today, cs, ss, index);
    DigestHolds(loc, excs, vulns);
    if code == 0 {
      PassingAccepts(loc, today, excs, vulns, cs, ss);
    } else if Accepts(loc, today, excs, vulns) {
      AcceptsPasses(loc, today, excs, vulns, cs, ss);
    }
  }

  /** main on the lines of the exception file: a dash line without a colon raises, else the verdict. */
  method RunAudit(loc: Locale, today: int, lines: seq<string>, vulns: seq<Vuln>) returns (res: Result<int, ParseError>)
    ensures res.Success? <==> DashesSplit(Kinds(lines))
    ensures res.Success? ==> res.value in {0, 1}
    ensures res.Success? ==> (res.value == 0 <==> Accepts(loc, today, RecordList(Kinds(lines)), vulns))
  {
    var excs := ParseExceptions(lines);
    if excs.Failure? {
      return Failure(excs.error);
    }
    var code := CheckAudit(loc, today, excs.value, vulns);
    return Success(code);
  }

  // ----- Time -----

  /**
   Once the verdict is 0 on some day, it is 0 on exactly the days up to the earliest expiry among the
   records that excuse a vulnerability: on every earlier day, and still on the day of expiry itself.
   */
  lemma AcceptedUntilExpiry(loc: Locale, day: int, today: int, excs: seq<Record>, vulns: seq<Vuln>)
    requires Accepts(loc, day, excs, vulns)
    ensures Accepts(loc, today, excs, vulns) <==>
            forall r, v :: r in excs && v in vulns && High(loc, v) && KeyOf(loc, r) == VulnKey(loc, v)
                           ==> today <= DateOf(loc, r).value
  {}

  lemma AcceptedEarlier(loc: Locale, day: int, today: int, excs: seq<Record>, vulns: seq<Vuln>)
    requires Accepts(loc, day, excs, vulns) && today <= day
    ensures Accepts(loc, today, excs, vulns)
  {}
}
