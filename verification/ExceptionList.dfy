/**
 The line-oriented parser of the exception list (tools/check_pnpm_audit_exceptions.py).
 ParseExceptions is the loop of parse_exceptions with its carried `current` record; RecordList
 says what it computes, one record for each dash line, without any carried state.
 */
module ExceptionList {
  import opened Wrappers
  import opened PyText

  type Pair = (string, string)

  /** An exception record: Python's dict of strings. */
  type Record = map<string, string>

  datatype ParseError = CannotUnpack

  /** key: value; None where unpacking line.split(":", 1) raises. */
  function SplitKv(line: string): Option<Pair> {
    var i := IndexOf(line, ':');
    if i == |line| then None
    else Some((Strip(line[..i]), Unquote(Strip(line[i + 1..]))))
  }

  /** What one line contributes. */
  datatype Line = Skip | Dash(pair: Option<Pair>) | Entry(pair: Option<Pair>)

  /** The tests parse_exceptions makes on a line, in its order. */
  function Classify(raw: string): Line {
    var line := Strip(raw);
    if line == "" || StartsWith(line, "#") then Skip
    else if StartsWith(line, "version:") || StartsWith(line, "exceptions:") then Skip
    else if StartsWith(line, "- ") then Dash(SplitKv(Strip(line[2..])))
    else if ':' in line then Entry(SplitKv(line))
    else Skip
  }

  /** Python's `":" in line` guards the unpacking of an entry line, so it never raises. */
  lemma EntrySplits(raw: string)
    ensures Classify(raw).Entry? ==> Classify(raw).pair.Some?
  {
    IndexOfAbsent(Strip(raw), ':');
  }

  /**
   After the dash of a stripped line that starts with "- " there is text, so the test `if line`
   that follows never fails and no record is opened empty. The unpacking raises when it has no colon.
   */
  lemma DashHasText(raw: string)
    requires Classify(raw).Dash?
    ensures Strip(Strip(raw)[2..]) != ""
    ensures Classify(raw).pair.None? <==> ':' !in Strip(Strip(raw)[2..])
  {
    var line := Strip(raw);
    var _, _ := StripSplits(raw);
    assert line[1] == ' ';
    assert line[2..][|line| - 3] == line[|line| - 1];
    StripEmpty(line[2..]);
    IndexOfAbsent(Strip(line[2..]), ':');
  }

  function Kinds(lines: seq<string>): (ks: seq<Line>)
    ensures |ks| == |lines|
    ensures forall i :: 0 <= i < |ks| ==> ks[i] == Classify(lines[i])
    ensures forall i :: 0 <= i < |ks| && ks[i].Entry? ==> ks[i].pair.Some?
  {
    if lines == [] then []
    else
      EntrySplits(lines[0]);
      [Classify(lines[0])] + Kinds(lines[1..])
  }

  /** The assignments record[key] = value of several pairs, in order. */
  function PutAll(r: Record, pairs: seq<Pair>): Record
    decreases pairs
  {
    if pairs == [] then r else PutAll(r[pairs[0].0 := pairs[0].1], pairs[1..])
  }

  /** The pairs of the entry lines before the next dash line. */
  function Entries(ks: seq<Line>): seq<Pair> {
    if ks == [] then []
    else match ks[0]
      case Skip => Entries(ks[1..])
      case Entry(pair) => if pair.Some? then [pair.value] + Entries(ks[1..]) else Entries(ks[1..])
      case Dash(_) => []
  }

  /** The pairs of the block that a dash line opens: its own, then those of the entries that follow. */
  function Block(own: Pair, following: seq<Line>): seq<Pair> {
    [own] + Entries(following)
  }

  /** Every dash line carries a key: value. */
  predicate DashesSplit(ks: seq<Line>) {
    forall i :: 0 <= i < |ks| && ks[i].Dash? ==> ks[i].pair.Some?
  }

  /** One record for each dash line. */
  function RecordList(ks: seq<Line>): seq<Record> {
    if ks == [] then []
    else match ks[0]
      case Dash(Some(own)) => [PutAll(map[], Block(own, ks[1..]))] + RecordList(ks[1..])
      case _ => RecordList(ks[1..])
  }

  /** The records still to come when `current` is open and `ks` are left. */
  ghost function Pending(current: Option<Record>, ks: seq<Line>): seq<Record> {
    match current
    case None => RecordList(ks)
    case Some(r) => [PutAll(r, Entries(ks))] + RecordList(ks)
  }

  lemma PendingEntry(r: Record, ks: seq<Line>)
    requires ks != [] && ks[0].Entry? && ks[0].pair.Some?
    ensures Pending(Some(r), ks) == Pending(Some(r[ks[0].pair.value.0 := ks[0].pair.value.1]), ks[1..])
  {}

  lemma PendingDash(done: seq<Record>, current: Option<Record>, ks: seq<Line>)
    requires ks != [] && ks[0].Dash? && ks[0].pair.Some?
    ensures done + Pending(current, ks)
            == (if current.Some? then done + [current.value] else done)
               + Pending(Some(map[ks[0].pair.value.0 := ks[0].pair.value.1]), ks[1..])
  {}

  /** parse_exceptions on the lines of the file. */
  method ParseExceptions(lines: seq<string>) returns (res: Result<seq<Record>, ParseError>)
    ensures res.Success? <==> DashesSplit(Kinds(lines))
    ensures res.Success? ==> res.value == RecordList(Kinds(lines))
  {
    var ks := Kinds(lines);
    var exceptions: seq<Record> := [];
    var current: Option<Record> := None;
    assert ks[0..] == ks;
    for i := 0 to |ks|
      invariant forall j :: 0 <= j < i && ks[j].Dash? ==> ks[j].pair.Some?
      invariant current.Some? ==> |current.value| > 0
      invariant exceptions + Pending(current, ks[i..]) == RecordList(ks)
    {
      assert ks[i..][0] == ks[i] && ks[i..][1..] == ks[i + 1..];
      match ks[i] {
        case Skip =>
        case Dash(None) =>
          return Failure(CannotUnpack);
        case Dash(Some((key, value))) =>
          PendingDash(exceptions, current, ks[i..]);
          if current.Some? && |current.value| > 0 {
            exceptions := exceptions + [current.value];
          }
          current := Some(map[key := value]);
        case Entry(pair) =>
          if current.Some? {
            PendingEntry(current.value, ks[i..]);
            current := Some(current.value[pair.value.0 := pair.value.1]);
          }
      }
    }
    assert ks[|ks|..] == [];
    if current.Some? && |current.value| > 0 {
      exceptions := exceptions + [current.value];
    }
    return Success(exceptions);
  }
}
