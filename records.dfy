/**
  Event records and the parse loop of debug.py:26-45: every uploaded line is decoded,
  searched for the record pattern, and turned into a record carrying the line's index;
  lines that do not decode or do not match are skipped. Then the thread filter of
  debug.py:51.
*/
module Records {
  import opened Basics
  import opened Utf8
  import opened LinePattern

  /**
    One parsed measurement (debug.py:36-43). The entity id the pattern captures is not
    stored by the source, so the record has no field for it.
  */
  datatype EventRecord = EventRecord(
    idx: nat, thread: string, sequence: nat, session: nat, event: string, duration: nat)

  predicate AllDigits(ds: string) {
    forall n :: 0 <= n < |ds| ==> IsDigit(ds[n])
  }

  /** Python's `int()` on a string of ASCII digits. */
  function DigitsValue(ds: string): nat
    requires AllDigits(ds)
  {
    if |ds| == 0 then 0 else DigitsValue(Init(ds)) * 10 + (Last(ds) as int - '0' as int)
  }

  /** Python's `str()` on a natural number: the reference `DigitsValue` is proved against. */
  function NatToDigits(n: nat): (ds: string)
    ensures |ds| > 0 && AllDigits(ds)
  {
    var c := (n % 10 + '0' as int) as char;
    if n < 10 then [c] else NatToDigits(n / 10) + [c]
  }

  lemma {:induction false} DigitsValueOfNat(n: nat)
    ensures DigitsValue(NatToDigits(n)) == n
  {
    var c := (n % 10 + '0' as int) as char;
    if n >= 10 {
      var ds := NatToDigits(n);
      assert Init(ds) == NatToDigits(n / 10);
      DigitsValueOfNat(n / 10);
    }
  }

  /** `t` splits as `digits ':' digits '-' hexdigits` at positions `c` and `d`. */
  predicate ThreadIdSplit(t: string, c: nat, d: nat) {
    && c < d < |t| && t[c] == ':' && t[d] == '-'
    && IsToken(t[..c], Digit) && IsToken(t[c + 1..d], Digit) && IsToken(t[d + 1..], UpperHex)
  }

  /** The shape of the thread group `\d+:\d+-[A-F0-9]+`. */
  predicate IsThreadId(t: string) {
    exists c: nat, d: nat | c < d < |t| :: ThreadIdSplit(t, c, d)
  }

  lemma ThreadIdOfFits(s: string, m: Spans)
    requires HeadFits(s, m)
    ensures IsThreadId(s[m.start + 1..m.threadEnd])
  {
    var t := s[m.start + 1..m.threadEnd];
    var c, d := m.colon - (m.start + 1), m.dash - (m.start + 1);
    RunToken(s, m.start + 1, m.colon, Digit);
    RunToken(s, m.colon + 1, m.dash, Digit);
    RunToken(s, m.dash + 1, m.threadEnd, UpperHex);
    assert t[..c] == s[m.start + 1..m.colon];
    assert t[c + 1..d] == s[m.colon + 1..m.dash];
    assert t[d + 1..] == s[m.dash + 1..m.threadEnd];
    assert ThreadIdSplit(t, c, d);
  }

  /** The record built from the groups of the match at positions `m` (debug.py:33-34). */
  function RecordOf(idx: nat, s: string, m: Spans): (r: EventRecord)
    requires Fits(s, m)
    ensures r.idx == idx && IsThreadId(r.thread) && IsToken(r.event, Word)
  {
    ThreadIdOfFits(s, m);
    RunToken(s, m.open + 1, m.seqEnd, Digit);
    RunToken(s, m.seqEnd + 1, m.sessionEnd, Digit);
    RunToken(s, m.eventStart, m.eventEnd, Word);
    RunToken(s, m.durationStart, m.durationEnd, Digit);
    EventRecord(idx, s[m.start + 1..m.threadEnd],
                DigitsValue(s[m.open + 1..m.seqEnd]), DigitsValue(s[m.seqEnd + 1..m.sessionEnd]),
                s[m.eventStart..m.eventEnd], DigitsValue(s[m.durationStart..m.durationEnd]))
  }

  /**
    The body of the parse loop for line `idx` (debug.py:27-34): `None` where the decode
    raises or the pattern finds nothing, otherwise the record of the first match.
  */
  function ParseLine(idx: nat, line: seq<byte>): (r: Option<EventRecord>)
    ensures r.Some? ==> r.value.idx == idx && IsThreadId(r.value.thread) && IsToken(r.value.event, Word)
  {
    match Decode(line)
    case None => None
    case Some(s) =>
      match Search(s)
      case None => None
      case Some(m) =>
        SearchFits(s);
        Some(RecordOf(idx, s, m))
  }

  /** A line yields a record exactly when it decodes and the pattern matches somewhere in it. */
  lemma ParseLineIffMatch(idx: nat, line: seq<byte>)
    ensures ParseLine(idx, line).Some? <==> Decode(line).Some? && exists m :: Fits(Decode(line).value, m)
  {
    if Decode(line).Some? {
      SearchIsFirstMatch(Decode(line).value);
    }
  }

  /** The record comes from the match that `re.search` reports: the first in backtracking priority. */
  lemma ParseLineFirstMatch(idx: nat, line: seq<byte>)
    requires ParseLine(idx, line).Some?
    ensures Decode(line).Some?
    ensures var s := Decode(line).value;
      exists m :: && Fits(s, m) && ParseLine(idx, line).value == RecordOf(idx, s, m)
                  && forall m' :: Fits(s, m') ==> m' == m || Before(m, m')
  {
    var s := Decode(line).value;
    SearchIsFirstMatch(s);
    var m := Search(s).value;
    assert Fits(s, m) && ParseLine(idx, line).value == RecordOf(idx, s, m);
  }

  /** `s` contains the letters `ms` side by side. */
  predicate HasMs(s: string) {
    exists i :: 0 <= i < |s| - 1 && s[i] == 'm' && s[i + 1] == 's'
  }

  /** Only a line with `ms` in it yields a record: a line missing the unit is skipped. */
  lemma RecordLineHasMs(idx: nat, line: seq<byte>)
    requires ParseLine(idx, line).Some?
    ensures Decode(line).Some? && HasMs(Decode(line).value)
  {
    var s := Decode(line).value;
    SearchFits(s);
    MsOfTail(s, Search(s).value);
  }

  lemma MsOfTail(s: string, m: Spans)
    requires TailFits(s, m)
    ensures HasMs(s)
  {
    assert s[m.msAt] == 'm' && s[m.msAt + 1] == 's';
  }

  /** `event_data` after the loop over `lines` (debug.py:26-43). */
  function ParsedRecords(lines: seq<seq<byte>>): seq<EventRecord>
  {
    if |lines| == 0 then []
    else
      match ParseLine(|lines| - 1, Last(lines))
      case None => ParsedRecords(Init(lines))
      case Some(r) => ParsedRecords(Init(lines)) + [r]
  }

  /** `thread_ids` after the loop: the threads of the parsed records (debug.py:35). */
  function ThreadsOf(es: seq<EventRecord>): set<string> {
    set r | r in es :: r.thread
  }

  /** One more line adds its record, if it has one, to the records of the lines before it. */
  lemma ParsedRecordsStep(lines: seq<seq<byte>>, idx: nat)
    requires idx < |lines|
    ensures ParsedRecords(lines[..idx + 1]) ==
      match ParseLine(idx, lines[idx])
      case None => ParsedRecords(lines[..idx])
      case Some(r) => ParsedRecords(lines[..idx]) + [r]
  {
    assert Init(lines[..idx + 1]) == lines[..idx];
  }

  lemma ThreadsOfAppend(es: seq<EventRecord>, r: EventRecord)
    ensures ThreadsOf(es + [r]) == ThreadsOf(es) + {r.thread}
  {
  }

  /**
    The parse loop (debug.py:26-45): one pass over the lines, appending each parsed record
    and collecting its thread.
  */
  method ParseLog(lines: seq<seq<byte>>) returns (eventData: seq<EventRecord>, threadIds: set<string>)
    ensures eventData == ParsedRecords(lines)
    ensures threadIds == ThreadsOf(eventData)
  {
    eventData := [];
    threadIds := {};
    for idx := 0 to |lines|
      invariant eventData == ParsedRecords(lines[..idx])
      invariant threadIds == ThreadsOf(eventData)
    {
      ParsedRecordsStep(lines, idx);
      var rec := ParseLine(idx, lines[idx]);
      if rec.Some? {
        ThreadsOfAppend(eventData, rec.value);
        threadIds := threadIds + {rec.value.thread};
        eventData := eventData + [rec.value];
      }
    }
    assert lines[..|lines|] == lines;
  }

  /** Every record carries the index of a line that parses to exactly that record. */
  lemma {:induction false} ParsedRecordsSound(lines: seq<seq<byte>>)
    ensures forall r :: r in ParsedRecords(lines) ==>
      r.idx < |lines| && ParseLine(r.idx, lines[r.idx]) == Some(r)
  {
    if |lines| > 0 {
      ParsedRecordsSound(Init(lines));
    }
  }

  /** Every line that parses contributes its record: nothing is lost. */
  lemma {:induction false} ParsedRecordsComplete(lines: seq<seq<byte>>, i: nat)
    requires i < |lines| && ParseLine(i, lines[i]).Some?
    ensures ParseLine(i, lines[i]).value in ParsedRecords(lines)
  {
    if i < |lines| - 1 {
      assert Init(lines)[i] == lines[i];
      ParsedRecordsComplete(Init(lines), i);
    }
  }

  /** Records are listed in input order: their line indices strictly increase. */
  lemma {:induction false} ParsedRecordsIncreasing(lines: seq<seq<byte>>)
    ensures forall i, j :: 0 <= i < j < |ParsedRecords(lines)| ==>
      ParsedRecords(lines)[i].idx < ParsedRecords(lines)[j].idx
  {
    if |lines| > 0 {
      ParsedRecordsIncreasing(Init(lines));
      ParsedRecordsSound(Init(lines));
      var prev := ParsedRecords(Init(lines));
      assert forall i :: 0 <= i < |prev| ==> prev[i] in prev;
    }
  }

  /** `filtered`: the records of one thread, in their original order (debug.py:51). */
  function FilterThread(es: seq<EventRecord>, thread: string): seq<EventRecord>
  {
    if |es| == 0 then []
    else if Last(es).thread == thread then FilterThread(Init(es), thread) + [Last(es)]
    else FilterThread(Init(es), thread)
  }

  /** The filter keeps the order of the records it keeps. */
  lemma {:induction false} FilterThreadSubsequence(es: seq<EventRecord>, thread: string)
    ensures IsSubsequence(FilterThread(es, thread), es)
  {
    if |es| > 0 {
      FilterThreadSubsequence(Init(es), thread);
      assert es == Init(es) + [Last(es)];
      SubsequenceExtend(FilterThread(Init(es), thread), Init(es), Last(es));
    }
  }

  /** The filter keeps exactly the records of the selected thread. */
  lemma {:induction false} FilterThreadMembers(es: seq<EventRecord>, thread: string, r: EventRecord)
    ensures r in FilterThread(es, thread) <==> r in es && r.thread == thread
  {
    if |es| > 0 {
      FilterThreadMembers(Init(es), thread, r);
      assert es == Init(es) + [Last(es)];
    }
  }

  /** A thread that occurs among the records keeps at least one of them. */
  lemma FilterThreadNonEmpty(es: seq<EventRecord>, thread: string)
    requires thread in ThreadsOf(es)
    ensures |FilterThread(es, thread)| > 0
  {
    var e :| e in es && e.thread == thread;
    FilterThreadMembers(es, thread, e);
  }
}
