/**
 What the exception-list parser promises: one record for each dash line, the last value of a block
 wins, blank lines, comments and indentation do not matter, and a printed list is read back exactly.
 */
module ExceptionListProofs {
  import opened Wrappers
  import opened PyText
  import opened ExceptionList

  // ----- One record for each dash line -----

  /** The number of dash lines. */
  function Dashes(ks: seq<Line>): nat {
    if ks == [] then 0 else (if ks[0].Dash? then 1 else 0) + Dashes(ks[1..])
  }

  /** The n-th record is the block of the n-th dash line, and there are no other records. */
  lemma {:induction false} RecordOfDash(ks: seq<Line>, i: nat)
    requires DashesSplit(ks) && i < |ks| && ks[i].Dash?
    ensures |RecordList(ks)| == Dashes(ks) && Dashes(ks[..i]) < Dashes(ks)
    ensures RecordList(ks)[Dashes(ks[..i])] == PutAll(map[], Block(ks[i].pair.value, ks[i + 1..]))
  {
    RecordCount(ks);
    if i == 0 {
    } else {
      var tail := ks[1..];
      assert tail[i - 1] == ks[i] && tail[i..] == ks[i + 1..];
      assert ks[..i][1..] == tail[..i - 1];
      RecordOfDash(tail, i - 1);
    }
  }

  lemma {:induction false} RecordCount(ks: seq<Line>)
    requires DashesSplit(ks)
    ensures |RecordList(ks)| == Dashes(ks)
  {
    if ks != [] {
      assert DashesSplit(ks[1..]);
      RecordCount(ks[1..]);
    }
  }

  /** The index of the last pair with key k, or -1. */
  function LastWith(pairs: seq<Pair>, k: string): (i: int)
    ensures -1 <= i < |pairs|
    ensures i >= 0 ==> pairs[i].0 == k
    ensures forall j :: i < j < |pairs| ==> pairs[j].0 != k
  {
    if pairs == [] then -1
    else if pairs[|pairs| - 1].0 == k then |pairs| - 1
    else LastWith(pairs[..|pairs| - 1], k)
  }

  /** Each key of a record holds the last value its block gives for it. */
  lemma {:induction false} LastValueWins(r: Record, pairs: seq<Pair>, k: string)
    ensures k in PutAll(r, pairs) <==> k in r || LastWith(pairs, k) >= 0
    ensures LastWith(pairs, k) >= 0 ==> PutAll(r, pairs)[k] == pairs[LastWith(pairs, k)].1
    ensures LastWith(pairs, k) < 0 && k in r ==> PutAll(r, pairs)[k] == r[k]
    decreases pairs
  {
    if pairs != [] {
      var r' := r[pairs[0].0 := pairs[0].1];
      LastValueWins(r', pairs[1..], k);
      assert forall j :: 1 <= j < |pairs| ==> pairs[j] == pairs[1..][j - 1];
    }
  }

  // ----- Blank lines, comments and indentation -----

  /** The stripped lines that are neither blank nor comment nor header nor free text. */
  function Significant(lines: seq<string>): seq<string> {
    if lines == [] then []
    else (if Classify(lines[0]).Skip? then [] else [Strip(lines[0])]) + Significant(lines[1..])
  }

  lemma ClassifyStripped(raw: string)
    ensures Classify(Strip(raw)) == Classify(raw)
  {
    var _, _ := StripSplits(raw);
    StripTrimmed(Strip(raw));
  }

  /** Kinds without the skipped lines. */
  function Kept(ks: seq<Line>): seq<Line> {
    if ks == [] then []
    else if ks[0].Skip? then Kept(ks[1..])
    else [ks[0]] + Kept(ks[1..])
  }

  lemma {:induction false} KeptParsesAlike(ks: seq<Line>)
    ensures Entries(Kept(ks)) == Entries(ks)
    ensures RecordList(Kept(ks)) == RecordList(ks)
    ensures DashesSplit(Kept(ks)) <==> DashesSplit(ks)
  {
    if ks != [] {
      KeptParsesAlike(ks[1..]);
      assert ks == [ks[0]] + ks[1..];
      assert DashesSplit(ks) <==> (ks[0].Dash? ==> ks[0].pair.Some?) && DashesSplit(ks[1..]);
      if !ks[0].Skip? {
        var kept := Kept(ks);
        assert kept[1..] == Kept(ks[1..]);
        assert kept == [kept[0]] + kept[1..];
        assert DashesSplit(kept) <==> (ks[0].Dash? ==> ks[0].pair.Some?) && DashesSplit(kept[1..]);
      }
    }
  }

  lemma {:induction false} SignificantKinds(lines: seq<string>)
    ensures Kinds(Significant(lines)) == Kept(Kinds(lines))
  {
    if lines != [] {
      SignificantKinds(lines[1..]);
      ClassifyStripped(lines[0]);
      assert Kinds(lines)[1..] == Kinds(lines[1..]);
      if !Classify(lines[0]).Skip? {
        assert Significant(lines)[1..] == Significant(lines[1..]);
      } else {
        assert Significant(lines) == Significant(lines[1..]);
      }
    }
  }

  /** Files that differ only in blank lines, comments, headers and outer white space read the same. */
  lemma NoiseDoesNotMatter(lines: seq<string>, lines': seq<string>)
    requires Significant(lines) == Significant(lines')
    ensures DashesSplit(Kinds(lines)) <==> DashesSplit(Kinds(lines'))
    ensures RecordList(Kinds(lines)) == RecordList(Kinds(lines'))
  {
    SignificantKinds(lines);
    SignificantKinds(lines');
    KeptParsesAlike(Kinds(lines));
    KeptParsesAlike(Kinds(lines'));
  }

  // ----- What a line is read as -----

  /** split_kv splits at the first colon only, so colons in the value are kept. */
  lemma SplitAtFirstColon(k: string, v: string)
    requires ':' !in k
    ensures SplitKv(k + ":" + v) == Some((Strip(k), Unquote(Strip(v))))
  {
    IndexOfFirst(k, ':', v);
    var line := k + [':'] + v;
    assert line == k + ":" + v;
    assert line[..|k|] == k && line[|k| + 1..] == v;
  }

  /** A text without the white space at its end. */
  lemma TailOf(b: string) returns (tail: string, post: string)
    ensures b == tail + post && AllSpace(post) && Strip(tail) == Strip(b)
    ensures tail != "" ==> !IsSpace(tail[|tail| - 1])
  {
    var p, q := StripSplits(b);
    if Strip(b) == "" {
      tail, post := "", b;
      assert b == p + q;
    } else {
      tail, post := p + Strip(b), q;
      StripPads(p, Strip(b), "");
      assert p + Strip(b) + "" == tail;
      StripTrimmed(Strip(b));
    }
  }

  lemma ColonCore(head: string, tail: string)
    requires head != "" ==> !IsSpace(head[0])
    requires tail != "" ==> !IsSpace(tail[|tail| - 1])
    ensures Trimmed(head + ":" + tail)
  {
    var core := head + ":" + tail;
    assert core[0] == if head == "" then ':' else head[0];
    assert core[|core| - 1] == if tail == "" then ':' else tail[|tail| - 1];
  }

  /** Stripping a line with a colon takes white space off the start of its key and off the end of its value. */
  lemma StripColon(a: string, b: string) returns (tail: string)
    ensures Strip(a + ":" + b) == LStrip(a) + ":" + tail && Strip(tail) == Strip(b)
  {
    var pre := LStripSplits(a);
    var post;
    tail, post := TailOf(b);
    ColonCore(LStrip(a), tail);
    assert a + ":" + b == pre + (LStrip(a) + ":" + tail) + post;
    StripUnique(pre, LStrip(a) + ":" + tail, post);
  }

  lemma HeaderPrefix(head: string, tail: string, word: string)
    requires ':' !in head && ':' !in word
    ensures StartsWith(head + ":" + tail, word + ":") <==> head == word
  {
    var s, w := head + ":" + tail, word + ":";
    if StartsWith(s, w) {
      var rest := s[|w|..];
      assert s == head + [':'] + tail && s == word + [':'] + rest;
      IndexOfFirst(head, ':', tail);
      IndexOfFirst(word, ':', rest);
      assert head == s[..|head|] && word == s[..|word|];
    }
    if head == word {
      assert s[..|w|] == w;
    }
  }

  /** The line is a comment or one of the two headers, as far as its text before the first colon tells. */
  predicate CommentOrHeader(head: string) {
    (head != "" && head[0] == '#') || head == "version" || head == "exceptions"
  }

  lemma HeadPrefixes(head: string, tail: string)
    requires ':' !in head
    ensures var line := head + ":" + tail;
            && (StartsWith(line, "#") || StartsWith(line, "version:") || StartsWith(line, "exceptions:")
                <==> CommentOrHeader(head))
            && (StartsWith(line, "- ") <==> StartsWith(head, "- "))
  {
    var line := head + ":" + tail;
    HeaderPrefix(head, tail, "version");
    HeaderPrefix(head, tail, "exceptions");
    assert "version" + ":" == "version:" && "exceptions" + ":" == "exceptions:";
    assert line[|head|] == ':' && forall i :: 0 <= i < |head| ==> line[i] == head[i];
  }

  lemma DashSplit(head: string, tail: string)
    requires ':' !in head && StartsWith(head, "- ")
    ensures SplitKv(Strip((head + ":" + tail)[2..])) == Some((Strip(head[2..]), Unquote(Strip(tail))))
  {
    var key := head[2..];
    assert (head + ":" + tail)[2..] == key + ":" + tail;
    var tail' := StripColon(key, tail);
    var pre := LStripSplits(key);
    assert forall c :: c in LStrip(key) ==> c in key;
    SplitAtFirstColon(LStrip(key), tail');
    StripLStrip(key);
  }

  /**
   Every line with a colon: comments and headers apart, it is read as the pair of its text before the first colon
   and its text after it, whatever that holds, quoted or not.
   */
  lemma ColonLine(raw: string, a: string, b: string)
    requires raw == a + ":" + b && ':' !in a
    ensures var head, value := LStrip(a), Unquote(Strip(b));
            Classify(raw) == if CommentOrHeader(head) then Skip
                             else if StartsWith(head, "- ") then Dash(Some((Strip(head[2..]), value)))
                             else Entry(Some((Strip(a), value)))
  {
    var head := LStrip(a);
    var tail := StripColon(a, b);
    var pre := LStripSplits(a);
    assert forall c :: c in head ==> c in a;
    HeadPrefixes(head, tail);
    SplitAtFirstColon(head, tail);
    StripLStrip(a);
    assert (head + ":" + tail)[|head|] == ':';
    if StartsWith(head, "- ") {
      DashSplit(head, tail);
    }
  }

  /** Every line without one: a dash cannot be unpacked, anything else is skipped. */
  lemma NoColonLine(raw: string)
    requires ':' !in raw
    ensures Classify(raw) == if StartsWith(Strip(raw), "- ") then Dash(None) else Skip
  {
    var line := Strip(raw);
    StripSubset(raw);
    if StartsWith(line, "- ") {
      StripSubset(line[2..]);
      assert line[0] == '-' && line[1] == ' ' && line == line[..2] + line[2..];
      assert ':' !in Strip(line[2..]);
      IndexOfAbsent(Strip(line[2..]), ':');
    }
  }

  // ----- Print, then parse -----

  /** A key that split_kv gives back: its text up to the first colon, stripped. */
  predicate PlainKey(k: string) {
    k != "" && Trimmed(k) && ':' !in k
  }

  /** A key that may start a line of its own, without being taken for a comment, header or dash. */
  predicate LineKey(k: string) {
    PlainKey(k) && k[0] != '#' && k != "version" && k != "exceptions" && !StartsWith(k, "- ")
  }

  lemma PaddedKey(pad: string, k: string)
    requires AllSpace(pad) && PlainKey(k)
    ensures LStrip(pad + k) == k && Strip(pad + k) == k && ':' !in pad + k
  {
    LStripDrops(pad, k);
    StripTrimmed(k);
    assert forall c :: c in pad ==> IsSpace(c);
  }

  /**
   A key and any text on a line of their own, with any white space around both, are read as the pair of them exactly
   when the key is a LineKey: the text may be quoted or not.
   */
  lemma EntryLineExact(pad: string, k: string, text: string)
    requires AllSpace(pad) && PlainKey(k)
    ensures Classify((pad + k) + ":" + text) == Entry(Some((k, Unquote(Strip(text))))) <==> LineKey(k)
  {
    PaddedKey(pad, k);
    ColonLine((pad + k) + ":" + text, pad + k, text);
  }

  lemma DashHead(pad: string, key: string)
    requires AllSpace(pad) && ':' !in key
    ensures var head := "- " + key;
            && StartsWith(head, "- ") && head[2..] == key && !CommentOrHeader(head)
            && LStrip(pad + head) == head && ':' !in pad + head
  {
    var head := "- " + key;
    assert head[0] == '-' && head[1] == ' ';
    LStripDrops(pad, head);
    assert forall c :: c in pad ==> IsSpace(c);
  }

  lemma DashText(pad: string, key: string, text: string)
    requires AllSpace(pad) && ':' !in key
    ensures Classify((pad + ("- " + key)) + ":" + text) == Dash(Some((Strip(key), Unquote(Strip(text)))))
  {
    DashHead(pad, key);
    ColonLine((pad + ("- " + key)) + ":" + text, pad + ("- " + key), text);
  }

  /** After a dash every plain key will do. */
  lemma DashLine(pad: string, gap: string, k: string, text: string)
    requires AllSpace(pad) && AllSpace(gap) && PlainKey(k)
    ensures Classify((pad + ("- " + (gap + k))) + ":" + text) == Dash(Some((k, Unquote(Strip(text)))))
  {
    PaddedKey(gap, k);
    DashText(pad, gap + k, text);
  }

  /** A value written with double quotes, with single quotes or without any. */
  datatype Style = Double | Single | Bare

  datatype Item = Item(key: string, value: string, style: Style)

  function Written(item: Item): string {
    match item.style
    case Double => "\"" + item.value + "\""
    case Single => "'" + item.value + "'"
    case Bare => item.value
  }

  /** Without quotes a value must not have outer white space, nor look quoted. */
  predicate Writable(item: Item) {
    item.style.Bare? ==> Trimmed(item.value) && Unquote(item.value) == item.value
  }

  /** What follows the colon of a printed item. */
  function AfterColon(item: Item, end: string): string {
    " " + Written(item) + end
  }

  lemma ValueSurvives(item: Item, end: string)
    requires Writable(item) && AllSpace(end)
    ensures Unquote(Strip(AfterColon(item, end))) == item.value
  {
    UnquoteQuoted(item.value);
    assert Trimmed(Written(item));
    StripUnique(" ", Written(item), end);
  }

  /** A printed pair is split back into itself, whatever its value holds: colons, quotes, spaces. */
  lemma PairSurvives(item: Item, end: string)
    requires PlainKey(item.key) && Writable(item) && AllSpace(end)
    ensures SplitKv(item.key + ":" + AfterColon(item, end)) == Some((item.key, item.value))
  {
    SplitAtFirstColon(item.key, AfterColon(item, end));
    StripTrimmed(item.key);
    ValueSurvives(item, end);
  }

  // Lines are printed with any indentation and any line end, which reading by lines leaves on them.

  function PrintEntries(pad: string, end: string, items: seq<Item>): seq<string> {
    if items == [] then []
    else [(pad + items[0].key) + ":" + AfterColon(items[0], end)] + PrintEntries(pad, end, items[1..])
  }

  predicate Printable(items: seq<Item>) {
    && items != [] && PlainKey(items[0].key) && (forall i :: 0 <= i < |items| ==> Writable(items[i]))
    && forall i :: 1 <= i < |items| ==> LineKey(items[i].key)
  }

  function PrintRecord(dash: string, pad: string, end: string, items: seq<Item>): seq<string>
    requires Printable(items)
  {
    [(dash + ("- " + items[0].key)) + ":" + AfterColon(items[0], end)] + PrintEntries(pad, end, items[1..])
  }

  /** The dashes are indented by `dash`, the other pairs by `pad`. */
  function Print(dash: string, pad: string, end: string, records: seq<seq<Item>>): seq<string>
    requires forall i :: 0 <= i < |records| ==> Printable(records[i])
  {
    if records == [] then [] else PrintRecord(dash, pad, end, records[0]) + Print(dash, pad, end, records[1..])
  }

  /** The pairs that are printed. */
  function Pairs(items: seq<Item>): (pairs: seq<Pair>)
    ensures |pairs| == |items| && forall i :: 0 <= i < |items| ==> pairs[i] == (items[i].key, items[i].value)
  {
    seq(|items|, i requires 0 <= i < |items| => (items[i].key, items[i].value))
  }

  lemma LineEnds()
    ensures AllSpace("") && AllSpace("\n") && AllSpace("\r\n") && AllSpace("\t")
  {}

  /** The kinds of the lines of one printed record. */
  function EntryKinds(pairs: seq<Pair>): seq<Line> {
    if pairs == [] then [] else [Entry(Some(pairs[0]))] + EntryKinds(pairs[1..])
  }

  lemma PrintedEntry(pad: string, end: string, item: Item)
    requires AllSpace(pad) && AllSpace(end) && LineKey(item.key) && Writable(item)
    ensures Classify((pad + item.key) + ":" + AfterColon(item, end)) == Entry(Some((item.key, item.value)))
  {
    EntryLineExact(pad, item.key, AfterColon(item, end));
    ValueSurvives(item, end);
  }

  lemma PrintedDash(dash: string, end: string, item: Item)
    requires AllSpace(dash) && AllSpace(end) && PlainKey(item.key) && Writable(item)
    ensures Classify((dash + ("- " + item.key)) + ":" + AfterColon(item, end)) == Dash(Some((item.key, item.value)))
  {
    DashText(dash, item.key, AfterColon(item, end));
    StripTrimmed(item.key);
    ValueSurvives(item, end);
  }

  lemma {:induction false} PrintedEntryKinds(pad: string, end: string, items: seq<Item>)
    requires AllSpace(pad) && AllSpace(end)
    requires forall i :: 0 <= i < |items| ==> LineKey(items[i].key) && Writable(items[i])
    ensures Kinds(PrintEntries(pad, end, items)) == EntryKinds(Pairs(items))
  {
    if items != [] {
      PrintedEntry(pad, end, items[0]);
      PrintedEntryKinds(pad, end, items[1..]);
      assert PrintEntries(pad, end, items)[1..] == PrintEntries(pad, end, items[1..]);
      assert Pairs(items)[1..] == Pairs(items[1..]);
    }
  }

  lemma {:induction false} EntriesOfPrinted(pairs: seq<Pair>, rest: seq<Line>)
    requires rest == [] || rest[0].Dash?
    ensures Entries(EntryKinds(pairs) + rest) == pairs
    ensures RecordList(EntryKinds(pairs) + rest) == RecordList(rest)
    ensures DashesSplit(EntryKinds(pairs) + rest) <==> DashesSplit(rest)
  {
    var ks := EntryKinds(pairs) + rest;
    if pairs == [] {
      assert ks == rest;
    } else {
      EntriesOfPrinted(pairs[1..], rest);
      assert ks[1..] == EntryKinds(pairs[1..]) + rest;
      assert ks == [ks[0]] + ks[1..];
      assert DashesSplit(ks) <==> DashesSplit(ks[1..]);
    }
  }

  lemma KindsOfBlock(head: string, entries: seq<string>, others: seq<string>)
    ensures Kinds([head] + entries + others) == [Classify(head)] + (Kinds(entries) + Kinds(others))
  {}

  lemma RecordKinds(dash: string, pad: string, end: string, items: seq<Item>, others: seq<string>)
    requires AllSpace(dash) && AllSpace(pad) && AllSpace(end) && Printable(items)
    ensures Kinds(PrintRecord(dash, pad, end, items) + others)
            == [Dash(Some(Pairs(items)[0]))] + (EntryKinds(Pairs(items)[1..]) + Kinds(others))
  {
    KindsOfBlock(PrintRecord(dash, pad, end, items)[0], PrintEntries(pad, end, items[1..]), others);
    PrintedDash(dash, end, items[0]);
    PrintedEntryKinds(pad, end, items[1..]);
    assert Pairs(items)[1..] == Pairs(items[1..]);
  }

  /** A block between its dash line and the next one is read as the record of its pairs. */
  lemma BlockRead(pairs: seq<Pair>, rest: seq<Line>)
    requires pairs != [] && (rest == [] || rest[0].Dash?)
    ensures var ks := [Dash(Some(pairs[0]))] + (EntryKinds(pairs[1..]) + rest);
            && RecordList(ks) == [PutAll(map[], pairs)] + RecordList(rest)
            && (DashesSplit(ks) <==> DashesSplit(rest))
  {
    EntriesOfPrinted(pairs[1..], rest);
    var tail := EntryKinds(pairs[1..]) + rest;
    var ks := [Dash(Some(pairs[0]))] + tail;
    assert ks[1..] == tail;
    assert pairs == [pairs[0]] + pairs[1..];
    assert DashesSplit(ks) <==> DashesSplit(tail);
  }

  /** The records that the lists of items stand for. */
  function Records(lists: seq<seq<Item>>): seq<Record> {
    if lists == [] then [] else [PutAll(map[], Pairs(lists[0]))] + Records(lists[1..])
  }

  /** Every printable exception list, in any mix of quotes, indentation and line ends, is read back exactly. */
  lemma {:induction false} PrintParse(dash: string, pad: string, end: string, lists: seq<seq<Item>>)
    requires AllSpace(dash) && AllSpace(pad) && AllSpace(end)
    requires forall i :: 0 <= i < |lists| ==> Printable(lists[i])
    ensures DashesSplit(Kinds(Print(dash, pad, end, lists)))
    ensures RecordList(Kinds(Print(dash, pad, end, lists))) == Records(lists)
    ensures lists != [] ==>
              Kinds(Print(dash, pad, end, lists)) != [] && Kinds(Print(dash, pad, end, lists))[0].Dash?
  {
    if lists != [] {
      var others := Print(dash, pad, end, lists[1..]);
      PrintParse(dash, pad, end, lists[1..]);
      RecordKinds(dash, pad, end, lists[0], others);
      BlockRead(Pairs(lists[0]), Kinds(others));
    }
  }
}
