/**
 The verdict of the audit tool (main in tools/check_pnpm_audit_exceptions.py): exceptions are indexed by
 normalised (package, advisory), vulnerabilities are de-duplicated by the same key and looked up.
 The loops work on what one record or one vulnerability comes to (Check, Sight).
 */
module AuditGate {
  import opened Wrappers
  import opened PyText
  import opened ExceptionList

  /** A scalar of the audit JSON: null, a string, or a number with its str() form. */
  datatype Scalar = Null | Text(s: string) | Number(repr: string, nonzero: bool)

  /** What iter_vulns yields, without the title, which only feeds messages. */
  datatype Vuln = Vuln(name: Scalar, severity: Option<string>, advisory: Scalar)

  type Key = (string, string)

  /** The library calls the verdict depends on: str.lower and date.fromisoformat (dates as day numbers). */
  datatype Locale = Locale(lower: string -> string, parseDate: string -> Option<int>)

  const HIGH_SEVERITIES: set<string> := {"high", "critical"}
  const REQUIRED_FIELDS: set<string> := {"package", "advisory", "severity", "mitigation", "expires_on"}

  // ----- Normalisation -----

  predicate Truthy(x: Scalar) {
    match x
    case Null => false
    case Text(s) => s != ""
    case Number(_, nonzero) => nonzero
  }

  function Str(x: Scalar): string
    requires !x.Null?
  {
    if x.Text? then x.s else x.repr
  }

  function NormalizeSeverity(loc: Locale, severity: Option<string>): string {
    loc.lower(Strip(severity.GetOr("")))
  }

  function NormalizePackage(name: Scalar): string {
    if name.Null? then "" else Strip(Str(name))
  }

  function NormalizeAdvisory(loc: Locale, advisory: Scalar): string {
    if advisory.Null? then "" else loc.lower(Strip(Str(advisory)))
  }

  /** exc.get(field), with the missing field as the (equally falsy) empty string. */
  function Field(r: Record, field: string): string {
    if field in r then r[field] else ""
  }

  function KeyOf(loc: Locale, r: Record): Key {
    (NormalizePackage(Text(Field(r, "package"))), NormalizeAdvisory(loc, Text(Field(r, "advisory"))))
  }

  function DateOf(loc: Locale, r: Record): Option<int> {
    loc.parseDate(Field(r, "expires_on"))
  }

  function SeverityOf(loc: Locale, r: Record): string {
    NormalizeSeverity(loc, Some(Field(r, "severity")))
  }

  function Missing(r: Record): set<string> {
    set f | f in REQUIRED_FIELDS && Field(r, f) == ""
  }

  function VulnKey(loc: Locale, v: Vuln): Key {
    (NormalizePackage(v.name), NormalizeAdvisory(loc, v.advisory))
  }

  predicate High(loc: Locale, v: Vuln) {
    NormalizeSeverity(loc, v.severity) in HIGH_SEVERITIES && Truthy(v.name)
  }

  // ----- One record, one vulnerability -----

  datatype Reason = MissingFields(fields: set<string>) | InvalidDate | BlankKey

  /** What the first loop finds in one record, before it looks for duplicates. */
  datatype Checked = Rejected(why: Reason) | Usable(key: Key, severity: string, expiresOn: int)

  function Check(loc: Locale, r: Record): Checked {
    if Missing(r) != {} then Rejected(MissingFields(Missing(r)))
    else if DateOf(loc, r).None? then Rejected(InvalidDate)
    else if KeyOf(loc, r).0 == "" || KeyOf(loc, r).1 == "" then Rejected(BlankKey)
    else Usable(KeyOf(loc, r), SeverityOf(loc, r), DateOf(loc, r).value)
  }

  function CheckAll(loc: Locale, excs: seq<Record>): (cs: seq<Checked>)
    ensures |cs| == |excs| && forall i :: 0 <= i < |cs| ==> cs[i] == Check(loc, excs[i])
  {
    if excs == [] then [] else [Check(loc, excs[0])] + CheckAll(loc, excs[1..])
  }

  /** What the second loop finds in one vulnerability, before it looks for repetitions. */
  datatype Sighting = Ignored | Unidentified | Wanted(key: Key, severity: string)

  function Sight(loc: Locale, v: Vuln): Sighting {
    if !High(loc, v) then Ignored
    else if VulnKey(loc, v).1 == "" then Unidentified
    else Wanted(VulnKey(loc, v), NormalizeSeverity(loc, v.severity))
  }

  function SightAll(loc: Locale, vulns: seq<Vuln>): (ss: seq<Sighting>)
    ensures |ss| == |vulns| && forall i :: 0 <= i < |ss| ==> ss[i] == Sight(loc, vulns[i])
  {
    if vulns == [] then [] else [Sight(loc, vulns[0])] + SightAll(loc, vulns[1..])
  }

  // ----- The first loop: indexing the exceptions -----

  datatype IndexEntry = IndexEntry(severity: string, expiresOn: int)

  datatype Finding =
    | BadRecord(why: Reason)
    | Duplicate(key: Key)
    | NoAdvisoryId
    | SeverityMismatch(key: Key, expected: string, got: string)
    | MissingHeader
    | MissingException(key: Key)
    | ExpiredHeader
    | Expired(key: Key, expiresOn: int)

  /** cs[i] is usable and no usable record before it has its key. */
  ghost predicate FirstRecord(cs: seq<Checked>, i: nat)
    requires i < |cs|
  {
    cs[i].Usable? && forall j :: 0 <= j < i && cs[j].Usable? ==> cs[j].key != cs[i].key
  }

  /** Among the first n records all are usable and no two have the same key. */
  ghost predicate RecordsOk(cs: seq<Checked>, n: nat)
    requires n <= |cs|
  {
    forall i :: 0 <= i < n ==> FirstRecord(cs, i)
  }

  /** The index holds the first usable record of each key among the first n, and nothing else. */
  ghost predicate Indexes(cs: seq<Checked>, n: nat, index: map<Key, IndexEntry>)
    requires n <= |cs|
  {
    && (forall i :: 0 <= i < n && cs[i].Usable? ==> cs[i].key in index)
    && (forall k :: k in index ==> exists i :: 0 <= i < n && FirstRecord(cs, i) && cs[i].key == k
                                               && index[k] == IndexEntry(cs[i].severity, cs[i].expiresOn))
  }

  lemma IndexExtend(cs: seq<Checked>, n: nat, index: map<Key, IndexEntry>)
    requires n < |cs| && Indexes(cs, n, index)
    ensures FirstRecord(cs, n) <==> cs[n].Usable? && cs[n].key !in index
    ensures FirstRecord(cs, n)
            ==> Indexes(cs, n + 1, index[cs[n].key := IndexEntry(cs[n].severity, cs[n].expiresOn)])
    ensures !FirstRecord(cs, n) ==> Indexes(cs, n + 1, index)
  {}

  /** What is said of a record that does not become the first with its key. */
  ghost function Verdict(cs: seq<Checked>, i: nat): Finding
    requires i < |cs|
  {
    if cs[i].Rejected? then BadRecord(cs[i].why) else Duplicate(cs[i].key)
  }

  /** What is said of the first n records, in order. */
  ghost function IndexErrors(cs: seq<Checked>, n: nat): seq<Finding>
    requires n <= |cs|
  {
    if n == 0 then []
    else IndexErrors(cs, n - 1) + if FirstRecord(cs, n - 1) then [] else [Verdict(cs, n - 1)]
  }

  lemma {:induction false} NoIndexError(cs: seq<Checked>, n: nat)
    requires n <= |cs|
    ensures IndexErrors(cs, n) == [] <==> RecordsOk(cs, n)
  {
    if n > 0 {
      NoIndexError(cs, n - 1);
      assert RecordsOk(cs, n) <==> RecordsOk(cs, n - 1) && FirstRecord(cs, n - 1);
    }
  }

  /** The index after n records: the first of each key goes in. */
  ghost function IndexMap(cs: seq<Checked>, n: nat): map<Key, IndexEntry>
    requires n <= |cs|
  {
    if n == 0 then map[]
    else if FirstRecord(cs, n - 1)
    then IndexMap(cs, n - 1)[cs[n - 1].key := IndexEntry(cs[n - 1].severity, cs[n - 1].expiresOn)]
    else IndexMap(cs, n - 1)
  }

  lemma {:induction false} IndexMapExact(cs: seq<Checked>, n: nat)
    requires n <= |cs|
    ensures Indexes(cs, n, IndexMap(cs, n))
  {
    if n > 0 {
      IndexMapExact(cs, n - 1);
      IndexExtend(cs, n - 1, IndexMap(cs, n - 1));
    }
  }

  lemma KnownKey(cs: seq<Checked>, n: nat)
    requires n < |cs|
    ensures FirstRecord(cs, n) <==> cs[n].Usable? && cs[n].key !in IndexMap(cs, n)
  {
    IndexMapExact(cs, n);
    IndexExtend(cs, n, IndexMap(cs, n));
  }

  /** Every record becomes one entry or one error. */
  lemma {:induction false} IndexCounts(cs: seq<Checked>, n: nat)
    requires n <= |cs|
    ensures |IndexMap(cs, n)| + |IndexErrors(cs, n)| == n
  {
    if n > 0 {
      IndexCounts(cs, n - 1);
      KnownKey(cs, n - 1);
    }
  }

  /** The first loop of main: the records are indexed by key, or complained about. */
  method BuildIndex(cs: seq<Checked>) returns (index: map<Key, IndexEntry>, errors: seq<Finding>)
    ensures Indexes(cs, |cs|, index)
    ensures |index| + |errors| == |cs|
    ensures errors == [] <==> RecordsOk(cs, |cs|)
    ensures errors == IndexErrors(cs, |cs|)
  {
    index, errors := map[], [];
    for n := 0 to |cs|
      invariant index == IndexMap(cs, n) && errors == IndexErrors(cs, n)
    {
      KnownKey(cs, n);
      match cs[n]
      case Rejected(why) =>
        errors := errors + [BadRecord(why)];
      case Usable(key, severity, expiresOn) =>
        if key in index {
          errors := errors + [Duplicate(key)];
        } else {
          index := index[key := IndexEntry(severity, expiresOn)];
        }
    }
    IndexMapExact(cs, |cs|);
    IndexCounts(cs, |cs|);
    NoIndexError(cs, |cs|);
  }

  /** A record is complained about exactly when it cannot be used, or has the key of an earlier usable one. */
  lemma {:induction false} IndexErrorsExact(cs: seq<Checked>, n: nat, e: Finding)
    requires n <= |cs|
    ensures e in IndexErrors(cs, n) <==> exists i :: 0 <= i < n && Complaint(cs, i, e)
  {
    if n > 0 {
      IndexErrorsExact(cs, n - 1, e);
      assert (exists i :: 0 <= i < n && Complaint(cs, i, e))
             <==> (exists i :: 0 <= i < n - 1 && Complaint(cs, i, e)) || Complaint(cs, n - 1, e);
    }
  }

  ghost predicate Complaint(cs: seq<Checked>, i: nat, e: Finding)
    requires i < |cs|
  {
    || (cs[i].Rejected? && e == BadRecord(cs[i].why))
    || (cs[i].Usable? && e == Duplicate(cs[i].key)
        && exists j :: 0 <= j < i && cs[j].Usable? && cs[j].key == cs[i].key)
  }

  // ----- The second loop: matching the vulnerabilities -----

  /** ss[j] is wanted and no wanted sighting before it has its key. */
  ghost predicate FirstSighting(ss: seq<Sighting>, j: nat)
    requires j < |ss|
  {
    ss[j].Wanted? && forall i :: 0 <= i < j && ss[i].Wanted? ==> ss[i].key != ss[j].key
  }

  /** The complaints about each sighting, in order: only the first of its key is looked up. */
  ghost function MatchErrors(index: map<Key, IndexEntry>, ss: seq<Sighting>, n: nat): seq<Finding>
    requires n <= |ss|
  {
    if n == 0 then []
    else
      var before := MatchErrors(index, ss, n - 1);
      var s := ss[n - 1];
      if s.Unidentified? then before + [NoAdvisoryId]
      else if FirstSighting(ss, n - 1) && s.key in index && index[s.key].severity !in {"", s.severity}
      then before + [SeverityMismatch(s.key, s.severity, index[s.key].severity)]
      else before
  }

  ghost function MissingKeys(index: map<Key, IndexEntry>, ss: seq<Sighting>, n: nat): seq<Key>
    requires n <= |ss|
  {
    if n == 0 then []
    else MissingKeys(index, ss, n - 1)
         + if FirstSighting(ss, n - 1) && ss[n - 1].key !in index then [ss[n - 1].key] else []
  }

  ghost function ExpiredKeys(today: int, index: map<Key, IndexEntry>, ss: seq<Sighting>, n: nat): seq<(Key, int)>
    requires n <= |ss|
  {
    if n == 0 then []
    else ExpiredKeys(today, index, ss, n - 1)
         + if FirstSighting(ss, n - 1) && ss[n - 1].key in index && index[ss[n - 1].key].expiresOn < today
           then [(ss[n - 1].key, index[ss[n - 1].key].expiresOn)] else []
  }

  method MatchVulns(today: int, index: map<Key, IndexEntry>, ss: seq<Sighting>)
    returns (errors: seq<Finding>, missing: seq<Key>, expired: seq<(Key, int)>)
    ensures errors == MatchErrors(index, ss, |ss|)
    ensures missing == MissingKeys(index, ss, |ss|)
    ensures expired == ExpiredKeys(today, index, ss, |ss|)
  {
    errors, missing, expired := [], [], [];
    var seen: set<Key> := {};
    for n := 0 to |ss|
      invariant forall k :: k in seen <==> exists i :: 0 <= i < n && ss[i].Wanted? && ss[i].key == k
      invariant errors == MatchErrors(index, ss, n)
      invariant missing == MissingKeys(index, ss, n)
      invariant expired == ExpiredKeys(today, index, ss, n)
    {
      match ss[n]
      case Ignored =>
      case Unidentified =>
        errors := errors + [NoAdvisoryId];
      case Wanted(key, severity) =>
        if key !in seen {
          assert FirstSighting(ss, n);
          seen := seen + {key};
          if key !in index {
            missing := missing + [key];
          } else {
            var exc := index[key];
            if exc.severity != "" && exc.severity != severity {
              errors := errors + [SeverityMismatch(key, severity, exc.severity)];
            }
            if exc.expiresOn < today {
              expired := expired + [(key, exc.expiresOn)];
            }
          }
        }
    }
  }

  /** A complaint of MatchErrors, in words: it expected the vulnerability's severity and got the record's. */
  ghost predicate Mismatch(index: map<Key, IndexEntry>, ss: seq<Sighting>, j: nat, e: Finding)
    requires j < |ss|
  {
    || (ss[j].Unidentified? && e == NoAdvisoryId)
    || (FirstSighting(ss, j) && e.SeverityMismatch? && e.key == ss[j].key && e.key in index
        && e.expected == ss[j].severity && e.got == index[e.key].severity
        && e.got != "" && e.got != e.expected)
  }

  lemma {:induction false} MatchErrorsExact(index: map<Key, IndexEntry>, ss: seq<Sighting>, n: nat, e: Finding)
    requires n <= |ss|
    ensures e in MatchErrors(index, ss, n) <==> exists j :: 0 <= j < n && Mismatch(index, ss, j, e)
  {
    if n > 0 {
      MatchErrorsExact(index, ss, n - 1, e);
      assert (exists j :: 0 <= j < n && Mismatch(index, ss, j, e))
             <==> (exists j :: 0 <= j < n - 1 && Mismatch(index, ss, j, e)) || Mismatch(index, ss, n - 1, e);
    }
  }

  /** The first sighting of a key that the index lacks. */
  ghost predicate Lacks(index: map<Key, IndexEntry>, ss: seq<Sighting>, j: nat, k: Key)
    requires j < |ss|
  {
    FirstSighting(ss, j) && ss[j].key == k && k !in index
  }

  lemma {:induction false} MissingKeysExact(index: map<Key, IndexEntry>, ss: seq<Sighting>, n: nat, k: Key)
    requires n <= |ss|
    ensures k in MissingKeys(index, ss, n) <==> exists j :: 0 <= j < n && Lacks(index, ss, j, k)
  {
    if n > 0 {
      MissingKeysExact(index, ss, n - 1, k);
      assert (exists j :: 0 <= j < n && Lacks(index, ss, j, k))
             <==> (exists j :: 0 <= j < n - 1 && Lacks(index, ss, j, k)) || Lacks(index, ss, n - 1, k);
    }
  }

  /** No key is reported missing twice. */
  lemma {:induction false} MissingKeysOnce(index: map<Key, IndexEntry>, ss: seq<Sighting>, n: nat)
    requires n <= |ss|
    ensures var keys := MissingKeys(index, ss, n); forall a, b :: 0 <= a < b < |keys| ==> keys[a] != keys[b]
  {
    if n > 0 {
      MissingKeysOnce(index, ss, n - 1);
      if FirstSighting(ss, n - 1) {
        var k := ss[n - 1].key;
        MissingKeysExact(index, ss, n - 1, k);
        assert forall j :: 0 <= j < n - 1 ==> !Lacks(index, ss, j, k);
        assert k !in MissingKeys(index, ss, n - 1);
      }
    }
  }

  /** The first sighting of a key whose record has a day before today. */
  ghost predicate Outdated(today: int, index: map<Key, IndexEntry>, ss: seq<Sighting>, j: nat, k: Key, day: int)
    requires j < |ss|
  {
    FirstSighting(ss, j) && ss[j].key == k && k in index && day == index[k].expiresOn && day < today
  }

  lemma {:induction false} ExpiredKeysExact(today: int, index: map<Key, IndexEntry>, ss: seq<Sighting>, n: nat,
                                            k: Key, day: int)
    requires n <= |ss|
    ensures (k, day) in ExpiredKeys(today, index, ss, n)
            <==> exists j :: 0 <= j < n && Outdated(today, index, ss, j, k, day)
  {
    if n > 0 {
      ExpiredKeysExact(today, index, ss, n - 1, k, day);
      assert (exists j :: 0 <= j < n && Outdated(today, index, ss, j, k, day))
             <==> (exists j :: 0 <= j < n - 1 && Outdated(today, index, ss, j, k, day))
                  || Outdated(today, index, ss, n - 1, k, day);
    }
  }

  /** The vulnerability whose sighting is s passes against the index. */
  ghost predicate Passes(today: int, index: map<Key, IndexEntry>, s: Sighting)
    requires s.Wanted?
  {
    s.key in index && index[s.key].severity in {"", s.severity} && index[s.key].expiresOn >= today
  }

  lemma {:induction false} NoMatchError(index: map<Key, IndexEntry>, ss: seq<Sighting>, n: nat)
    requires n <= |ss|
    ensures MatchErrors(index, ss, n) == []
            <==> forall j :: 0 <= j < n ==>
                   && !ss[j].Unidentified?
                   && (FirstSighting(ss, j) && ss[j].key in index ==> index[ss[j].key].severity in {"", ss[j].severity})
  {
    if n > 0 {
      NoMatchError(index, ss, n - 1);
    }
  }

  lemma {:induction false} NoMissingKey(index: map<Key, IndexEntry>, ss: seq<Sighting>, n: nat)
    requires n <= |ss|
    ensures MissingKeys(index, ss, n) == []
            <==> forall j :: 0 <= j < n && FirstSighting(ss, j) ==> ss[j].key in index
  {
    if n > 0 {
      NoMissingKey(index, ss, n - 1);
    }
  }

  lemma {:induction false} NoExpiredKey(today: int, index: map<Key, IndexEntry>, ss: seq<Sighting>, n: nat)
    requires n <= |ss|
    ensures ExpiredKeys(today, index, ss, n) == []
            <==> forall j :: 0 <= j < n && FirstSighting(ss, j) && ss[j].key in index ==>
                   index[ss[j].key].expiresOn >= today
  {
    if n > 0 {
      NoExpiredKey(today, index, ss, n - 1);
    }
  }

  /** All complaints are empty exactly when nothing is unidentified and each first sighting passes. */
  lemma NoComplaint(today: int, index: map<Key, IndexEntry>, ss: seq<Sighting>)
    ensures MatchErrors(index, ss, |ss|) == [] && MissingKeys(index, ss, |ss|) == []
            && ExpiredKeys(today, index, ss, |ss|) == []
            <==> forall j :: 0 <= j < |ss| ==>
                   !ss[j].Unidentified? && (FirstSighting(ss, j) ==> Passes(today, index, ss[j]))
  {
    NoMatchError(index, ss, |ss|);
    NoMissingKey(index, ss, |ss|);
    NoExpiredKey(today, index, ss, |ss|);
  }

  function Labels(missing: seq<Key>): (findings: seq<Finding>)
    ensures |findings| == |missing|
    ensures forall i :: 0 <= i < |missing| ==> findings[i] == MissingException(missing[i])
  {
    seq(|missing|, i requires 0 <= i < |missing| => MissingException(missing[i]))
  }

  function ExpiredLabels(expired: seq<(Key, int)>): (findings: seq<Finding>)
    ensures |findings| == |expired|
    ensures forall i :: 0 <= i < |expired| ==> findings[i] == Expired(expired[i].0, expired[i].1)
  {
    seq(|expired|, i requires 0 <= i < |expired| => Expired(expired[i].0, expired[i].1))
  }

  /** A heading, when there is something under it. */
  function Headed(heading: Finding, findings: seq<Finding>): seq<Finding> {
    if findings == [] then [] else [heading] + findings
  }

  /** `if findings:` with its heading, and the loop over the findings. */
  method Append(errors: seq<Finding>, heading: Finding, findings: seq<Finding>) returns (all: seq<Finding>)
    ensures all == errors + Headed(heading, findings)
    ensures all == [] <==> errors == [] && findings == []
  {
    all := errors;
    if findings != [] {
      all := all + [heading];
      all := all + findings;
    }
  }

  ghost predicate Clean(today: int, index: map<Key, IndexEntry>, cs: seq<Checked>, ss: seq<Sighting>) {
    RecordsOk(cs, |cs|)
    && forall j :: 0 <= j < |ss| ==>
         !ss[j].Unidentified? && (FirstSighting(ss, j) ==> Passes(today, index, ss[j]))
  }

  /** main, after the files are read: exit code 0 exactly when no finding is reported. */
  method Gate(today: int, cs: seq<Checked>, ss: seq<Sighting>)
    returns (code: int, errors: seq<Finding>, ghost index: map<Key, IndexEntry>)
    ensures code == if errors == [] then 0 else 1
    ensures Indexes(cs, |cs|, index)
    ensures code == 0 <==> Clean(today, index, cs, ss)
    ensures errors == IndexErrors(cs, |cs|) + MatchErrors(index, ss, |ss|)
                      + Headed(MissingHeader, Labels(MissingKeys(index, ss, |ss|)))
                      + Headed(ExpiredHeader, ExpiredLabels(ExpiredKeys(today, index, ss, |ss|)))
  {
    var exceptionIndex, rejections := BuildIndex(cs);
    index := exceptionIndex;
    var mismatches, missing, expired := MatchVulns(today, exceptionIndex, ss);
    NoComplaint(today, exceptionIndex, ss);
    errors := rejections + mismatches;
    errors := Append(errors, MissingHeader, Labels(missing));
    errors := Append(errors, ExpiredHeader, ExpiredLabels(expired));
    code := if errors != [] then 1 else 0;
  }
}
