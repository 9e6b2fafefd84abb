/**
  The record pattern of debug.py:19,

    \[(\d+:\d+-[A-F0-9]+)\].*?\((\d+)-(\d+)\s+\[(\d+)\]\)\s+(\w+)\(.*?\):\s+(\d+)\s+ms

  searched (unanchored) in a decoded line (debug.py:31).

  `Fits` states when a set of positions in the line spells one match of the pattern.
  Every repeated class in the pattern is followed by a character outside that class, so a
  backtracking matcher has only three real choices: where the match starts, and how far
  each lazy `.*?` reaches (the `(` that opens the numbers and the `)` that closes the
  event's argument list). Python's `re.search` returns the match whose
  (start, open, close) is lexicographically smallest; `Search` is proved to return exactly
  that match.
*/
module LinePattern {
  import opened Basics

  /** The character classes of the pattern: `\d`, `[A-F0-9]`, `\w`, `\s`. */
  datatype CharClass = Digit | UpperHex | Word | Space

  /** `\s` of a `str` pattern: the characters for which Python's `str.isspace()` holds. */
  predicate IsSpace(c: char) {
    var n := c as int;
    || (9 <= n <= 13) || (0x1C <= n <= 0x20) || n == 0x85 || n == 0xA0 || n == 0x1680
    || (0x2000 <= n <= 0x200A) || n == 0x2028 || n == 0x2029 || n == 0x202F
    || n == 0x205F || n == 0x3000
  }

  predicate IsDigit(c: char) {
    '0' <= c <= '9'
  }

  predicate InClass(c: char, k: CharClass) {
    match k
    case Digit => IsDigit(c)
    case UpperHex => IsDigit(c) || 'A' <= c <= 'F'
    case Word => IsDigit(c) || 'a' <= c <= 'z' || 'A' <= c <= 'Z' || c == '_'
    case Space => IsSpace(c)
  }

  /** Every character of `s[i..j]` is in class `k`. */
  predicate AllIn(s: string, i: nat, j: nat, k: CharClass)
    requires j <= |s|
    decreases j - i
  {
    i >= j || (InClass(s[i], k) && AllIn(s, i + 1, j, k))
  }

  /** A non-empty string made only of characters of class `k`. */
  predicate IsToken(t: string, k: CharClass) {
    |t| > 0 && forall n :: 0 <= n < |t| ==> InClass(t[n], k)
  }

  lemma {:induction false} AllInMeans(s: string, i: nat, j: nat, k: CharClass)
    requires j <= |s| && AllIn(s, i, j, k)
    ensures forall n :: i <= n < j ==> InClass(s[n], k)
    decreases j - i
  {
    if i < j {
      AllInMeans(s, i + 1, j, k);
    }
  }

  /** What a run consumes is a token of its class. */
  lemma RunToken(s: string, i: int, j: int, k: CharClass)
    requires Run(s, i, j, k)
    ensures IsToken(s[i..j], k)
  {
    AllInMeans(s, i, j, k);
  }

  lemma {:induction false} AllInOfToken(s: string, i: nat, j: nat, k: CharClass)
    requires i <= j <= |s| && forall n :: i <= n < j ==> InClass(s[n], k)
    ensures AllIn(s, i, j, k)
    decreases j - i
  {
    if i < j {
      AllInOfToken(s, i + 1, j, k);
    }
  }

  /** `s[i..j]` is a non-empty run of class `k`: what `k+` consumes. */
  predicate Run(s: string, i: int, j: int, k: CharClass) {
    0 <= i < j <= |s| && AllIn(s, i, j, k)
  }

  /** `s[i..j]` holds no line feed: what `.*?` can consume (`.` excludes only `\n`). */
  predicate Dots(s: string, i: int, j: int) {
    0 <= i <= j <= |s| && forall n :: i <= n < j ==> s[n] != '\n'
  }

  predicate CharAt(s: string, i: int, c: char) {
    0 <= i < |s| && s[i] == c
  }

  /** The positions of one match: where each group and each literal sits in the line. */
  datatype Spans = Spans(
    start: nat, colon: nat, dash: nat, threadEnd: nat,
    open: nat, seqEnd: nat, sessionEnd: nat, entityOpen: nat, entityEnd: nat,
    eventStart: nat, eventEnd: nat,
    close: nat, durationStart: nat, durationEnd: nat, msAt: nat)

  /** `\[(\d+:\d+-[A-F0-9]+)\]` */
  predicate HeadFits(s: string, m: Spans) {
    && CharAt(s, m.start, '[')
    && Run(s, m.start + 1, m.colon, Digit) && CharAt(s, m.colon, ':')
    && Run(s, m.colon + 1, m.dash, Digit) && CharAt(s, m.dash, '-')
    && Run(s, m.dash + 1, m.threadEnd, UpperHex) && CharAt(s, m.threadEnd, ']')
  }

  /** `\((\d+)-(\d+)\s+\[(\d+)\]\)` */
  predicate NumbersFits(s: string, m: Spans) {
    && CharAt(s, m.open, '(')
    && Run(s, m.open + 1, m.seqEnd, Digit) && CharAt(s, m.seqEnd, '-')
    && Run(s, m.seqEnd + 1, m.sessionEnd, Digit)
    && Run(s, m.sessionEnd, m.entityOpen, Space) && CharAt(s, m.entityOpen, '[')
    && Run(s, m.entityOpen + 1, m.entityEnd, Digit)
    && CharAt(s, m.entityEnd, ']') && CharAt(s, m.entityEnd + 1, ')')
  }

  /** `\s+(\w+)\(` after the numbers */
  predicate EventFits(s: string, m: Spans) {
    && Run(s, m.entityEnd + 2, m.eventStart, Space)
    && Run(s, m.eventStart, m.eventEnd, Word) && CharAt(s, m.eventEnd, '(')
  }

  predicate MiddleFits(s: string, m: Spans) {
    NumbersFits(s, m) && EventFits(s, m)
  }

  /** `\):\s+(\d+)\s+ms` */
  predicate TailFits(s: string, m: Spans) {
    && CharAt(s, m.close, ')') && CharAt(s, m.close + 1, ':')
    && Run(s, m.close + 2, m.durationStart, Space)
    && Run(s, m.durationStart, m.durationEnd, Digit)
    && Run(s, m.durationEnd, m.msAt, Space)
    && CharAt(s, m.msAt, 'm') && CharAt(s, m.msAt + 1, 's')
  }

  /** The positions `m` spell a match of the whole pattern in `s`. */
  predicate Fits(s: string, m: Spans) {
    && HeadFits(s, m)
    && Dots(s, m.threadEnd + 1, m.open)
    && MiddleFits(s, m)
    && Dots(s, m.eventEnd + 1, m.close)
    && TailFits(s, m)
  }

  /** The backtracking priority of `re.search`: leftmost start, then the shortest lazy `.*?`s. */
  predicate Before(m1: Spans, m2: Spans) {
    || m1.start < m2.start
    || (m1.start == m2.start && m1.open < m2.open)
    || (m1.start == m2.start && m1.open == m2.open && m1.close < m2.close)
  }

  /** The end of the longest run of class `k` that starts at `i`. */
  function RunEnd(s: string, i: nat, k: CharClass): (j: nat)
    ensures i <= j
    ensures i <= |s| ==> j <= |s|
    decreases |s| - i
  {
    if i < |s| && InClass(s[i], k) then RunEnd(s, i + 1, k) else i
  }

  /** A run followed by a character outside its class is the longest run: greedy `+` has one choice. */
  lemma {:induction false} RunIsLongest(s: string, i: nat, j: nat, k: CharClass)
    requires Run(s, i, j, k) && j < |s| && !InClass(s[j], k)
    ensures j == RunEnd(s, i, k)
    decreases j - i
  {
    if i + 1 < j {
      RunIsLongest(s, i + 1, j, k);
    }
  }

  /** `RunEnd` stops at a run: what it skips is in the class and what it stops at is not. */
  lemma {:induction false} RunEndIsRun(s: string, i: nat, k: CharClass)
    requires i < RunEnd(s, i, k)
    ensures Run(s, i, RunEnd(s, i, k), k)
    ensures RunEnd(s, i, k) < |s| ==> !InClass(s[RunEnd(s, i, k)], k)
    decreases |s| - i
  {
    if i + 1 < RunEnd(s, i, k) {
      RunEndIsRun(s, i + 1, k);
    }
  }

  /** The head of the pattern at `a`, as (colon, dash, threadEnd). */
  function HeadAt(s: string, a: nat): Option<(nat, nat, nat)>
  {
    if !CharAt(s, a, '[') then None
    else
      var colon := RunEnd(s, a + 1, Digit);
      if colon == a + 1 || !CharAt(s, colon, ':') then None
      else
        var dash := RunEnd(s, colon + 1, Digit);
        if dash == colon + 1 || !CharAt(s, dash, '-') then None
        else
          var te := RunEnd(s, dash + 1, UpperHex);
          if te == dash + 1 || !CharAt(s, te, ']') then None
          else Some((colon, dash, te))
  }

  /** The numbers after the `(` at `p`, as (seqEnd, sessionEnd, entityOpen, entityEnd). */
  function NumbersAt(s: string, p: nat): Option<(nat, nat, nat, nat)>
  {
    if !CharAt(s, p, '(') then None
    else
      var seqEnd := RunEnd(s, p + 1, Digit);
      if seqEnd == p + 1 || !CharAt(s, seqEnd, '-') then None
      else
        var sessionEnd := RunEnd(s, seqEnd + 1, Digit);
        if sessionEnd == seqEnd + 1 then None
        else
          var entityOpen := RunEnd(s, sessionEnd, Space);
          if entityOpen == sessionEnd || !CharAt(s, entityOpen, '[') then None
          else
            var entityEnd := RunEnd(s, entityOpen + 1, Digit);
            if entityEnd == entityOpen + 1 || !CharAt(s, entityEnd, ']') || !CharAt(s, entityEnd + 1, ')') then None
            else Some((seqEnd, sessionEnd, entityOpen, entityEnd))
  }

  /** The event name that starts after the blanks at `i`, as (eventStart, eventEnd). */
  function EventAt(s: string, i: nat): Option<(nat, nat)>
  {
    var eventStart := RunEnd(s, i, Space);
    if eventStart == i then None
    else
      var eventEnd := RunEnd(s, eventStart, Word);
      if eventEnd == eventStart || !CharAt(s, eventEnd, '(') then None
      else Some((eventStart, eventEnd))
  }

  /** The middle of the pattern at `p`, as (seqEnd, sessionEnd, entityOpen, entityEnd, eventStart, eventEnd). */
  function MiddleAt(s: string, p: nat): Option<(nat, nat, nat, nat, nat, nat)>
  {
    match NumbersAt(s, p)
    case None => None
    case Some((seqEnd, sessionEnd, entityOpen, entityEnd)) =>
      match EventAt(s, entityEnd + 2)
      case None => None
      case Some((eventStart, eventEnd)) => Some((seqEnd, sessionEnd, entityOpen, entityEnd, eventStart, eventEnd))
  }

  /** The tail of the pattern at `y`, as (durationStart, durationEnd, msAt). */
  function TailAt(s: string, y: nat): Option<(nat, nat, nat)>
  {
    if !CharAt(s, y, ')') || !CharAt(s, y + 1, ':') then None
    else
      var durationStart := RunEnd(s, y + 2, Space);
      if durationStart == y + 2 then None
      else
        var durationEnd := RunEnd(s, durationStart, Digit);
        if durationEnd == durationStart then None
        else
          var msAt := RunEnd(s, durationEnd, Space);
          if msAt == durationEnd || !CharAt(s, msAt, 'm') || !CharAt(s, msAt + 1, 's') then None
          else Some((durationStart, durationEnd, msAt))
  }

  /** A head that fits sits at the positions `HeadAt` computes... */
  lemma HeadAtOfFits(s: string, m: Spans)
    requires HeadFits(s, m)
    ensures HeadAt(s, m.start) == Some((m.colon, m.dash, m.threadEnd))
  {
    RunIsLongest(s, m.start + 1, m.colon, Digit);
    RunIsLongest(s, m.colon + 1, m.dash, Digit);
    RunIsLongest(s, m.dash + 1, m.threadEnd, UpperHex);
  }

  /** ...and the positions `HeadAt` computes fit. */
  lemma HeadFitsOfAt(s: string, m: Spans)
    requires HeadAt(s, m.start) == Some((m.colon, m.dash, m.threadEnd))
    ensures HeadFits(s, m)
  {
    RunEndIsRun(s, m.start + 1, Digit);
    RunEndIsRun(s, m.colon + 1, Digit);
    RunEndIsRun(s, m.dash + 1, UpperHex);
  }

  lemma NumbersAtOfFits(s: string, m: Spans)
    requires NumbersFits(s, m)
    ensures NumbersAt(s, m.open) == Some((m.seqEnd, m.sessionEnd, m.entityOpen, m.entityEnd))
  {
    RunIsLongest(s, m.open + 1, m.seqEnd, Digit);
    RunIsLongest(s, m.seqEnd + 1, m.sessionEnd, Digit);
    RunIsLongest(s, m.sessionEnd, m.entityOpen, Space);
    RunIsLongest(s, m.entityOpen + 1, m.entityEnd, Digit);
  }

  lemma EventAtOfFits(s: string, m: Spans)
    requires EventFits(s, m)
    ensures EventAt(s, m.entityEnd + 2) == Some((m.eventStart, m.eventEnd))
  {
    RunIsLongest(s, m.entityEnd + 2, m.eventStart, Space);
    RunIsLongest(s, m.eventStart, m.eventEnd, Word);
  }

  /** A middle that fits sits at the positions `MiddleAt` computes... */
  lemma MiddleAtOfFits(s: string, m: Spans)
    requires MiddleFits(s, m)
    ensures MiddleAt(s, m.open) == Some((m.seqEnd, m.sessionEnd, m.entityOpen, m.entityEnd, m.eventStart, m.eventEnd))
  {
    NumbersAtOfFits(s, m);
    EventAtOfFits(s, m);
  }

  lemma NumbersFitsOfAt(s: string, m: Spans)
    requires NumbersAt(s, m.open) == Some((m.seqEnd, m.sessionEnd, m.entityOpen, m.entityEnd))
    ensures NumbersFits(s, m)
  {
    RunEndIsRun(s, m.open + 1, Digit);
    RunEndIsRun(s, m.seqEnd + 1, Digit);
    RunEndIsRun(s, m.sessionEnd, Space);
    RunEndIsRun(s, m.entityOpen + 1, Digit);
  }

  lemma EventFitsOfAt(s: string, m: Spans)
    requires EventAt(s, m.entityEnd + 2) == Some((m.eventStart, m.eventEnd))
    ensures EventFits(s, m)
  {
    RunEndIsRun(s, m.entityEnd + 2, Space);
    RunEndIsRun(s, m.eventStart, Word);
  }

  /** ...and the positions `MiddleAt` computes fit. */
  lemma MiddleFitsOfAt(s: string, m: Spans)
    requires MiddleAt(s, m.open) == Some((m.seqEnd, m.sessionEnd, m.entityOpen, m.entityEnd, m.eventStart, m.eventEnd))
    ensures MiddleFits(s, m)
  {
    NumbersFitsOfAt(s, m);
    EventFitsOfAt(s, m);
  }

  /** A tail that fits sits at the positions `TailAt` computes... */
  lemma TailAtOfFits(s: string, m: Spans)
    requires TailFits(s, m)
    ensures TailAt(s, m.close) == Some((m.durationStart, m.durationEnd, m.msAt))
  {
    RunIsLongest(s, m.close + 2, m.durationStart, Space);
    RunIsLongest(s, m.durationStart, m.durationEnd, Digit);
    RunIsLongest(s, m.durationEnd, m.msAt, Space);
  }

  /** ...and the positions `TailAt` computes fit. */
  lemma TailFitsOfAt(s: string, m: Spans)
    requires TailAt(s, m.close) == Some((m.durationStart, m.durationEnd, m.msAt))
    ensures TailFits(s, m)
  {
    RunEndIsRun(s, m.close + 2, Space);
    RunEndIsRun(s, m.durationStart, Digit);
    RunEndIsRun(s, m.durationEnd, Space);
  }

  /**
    The first position in `[lo, hi)` at which `ok` holds. A lazy `.*?` tries the shortest
    extent first, and `re.search` tries the leftmost start first: both pick positions this way.
  */
  function FirstIn(lo: nat, hi: nat, ok: nat -> bool): (r: Option<nat>)
    ensures r.Some? ==> lo <= r.value < hi && ok(r.value)
    ensures r.Some? ==> forall i :: lo <= i < r.value ==> !ok(i)
    ensures r.None? ==> forall i :: lo <= i < hi ==> !ok(i)
    decreases hi - lo
  {
    if lo >= hi then None
    else if ok(lo) then Some(lo)
    else FirstIn(lo + 1, hi, ok)
  }

  /** The first line feed at or after `i` (or the end of the line): how far `.*?` can reach. */
  function LineEnd(s: string, i: nat): (j: nat)
    ensures i <= j
    ensures i <= |s| ==> j <= |s|
    ensures j < |s| ==> s[j] == '\n'
    decreases |s| - i
  {
    if i < |s| && s[i] != '\n' then LineEnd(s, i + 1) else i
  }

  /** `.*?` starting at `i` can stop exactly at the positions up to `LineEnd(s, i)`. */
  lemma {:induction false} DotsIffWithinLine(s: string, i: nat, j: nat)
    requires i <= |s|
    ensures Dots(s, i, j) <==> i <= j <= LineEnd(s, i)
    decreases |s| - i
  {
    if i < |s| && s[i] != '\n' {
      DotsIffWithinLine(s, i + 1, j);
      if i < j && Dots(s, i, j) {
        assert Dots(s, i + 1, j);
      }
    }
  }

  /** The tail can follow at `y`. */
  function CloseOk(s: string): nat -> bool {
    (y: nat) => TailAt(s, y).Some?
  }

  /** The second lazy `.*?`, after the `(` at `e`: the first `)` on the same line at which the tail matches. */
  function CloseAfter(s: string, e: nat): Option<nat> {
    FirstIn(e + 1, LineEnd(s, e + 1), CloseOk(s))
  }

  /** The rest of the pattern can follow a `(` at `p`. */
  predicate OpenViable(s: string, p: nat) {
    MiddleAt(s, p).Some? && CloseAfter(s, MiddleAt(s, p).value.5).Some?
  }

  function OpenOk(s: string): nat -> bool {
    (p: nat) => OpenViable(s, p)
  }

  /** The first lazy `.*?`, after the `]` at `te`: the first `(` on the same line from which the rest matches. */
  function OpenAfter(s: string, te: nat): Option<nat> {
    FirstIn(te + 1, LineEnd(s, te + 1), OpenOk(s))
  }

  /** A match can start at `a`. */
  predicate StartViable(s: string, a: nat) {
    HeadAt(s, a).Some? && OpenAfter(s, HeadAt(s, a).value.2).Some?
  }

  function StartOk(s: string): nat -> bool {
    (a: nat) => StartViable(s, a)
  }

  /** The positions of the match that starts at the viable `a`, each lazy part as short as it can be. */
  function MatchFrom(s: string, a: nat): Spans
    requires StartViable(s, a)
  {
    var (colon, dash, te) := HeadAt(s, a).value;
    var p := OpenAfter(s, te).value;
    var (seqEnd, sessionEnd, entityOpen, entityEnd, eventStart, eventEnd) := MiddleAt(s, p).value;
    var y := CloseAfter(s, eventEnd).value;
    var (durationStart, durationEnd, msAt) := TailAt(s, y).value;
    Spans(a, colon, dash, te, p, seqEnd, sessionEnd, entityOpen, entityEnd,
          eventStart, eventEnd, y, durationStart, durationEnd, msAt)
  }

  /** `pattern.search(line)`: the positions of the first match, or `None`. */
  function Search(s: string): Option<Spans>
  {
    match FirstIn(0, |s|, StartOk(s))
    case None => None
    case Some(a) => assert StartOk(s)(a); Some(MatchFrom(s, a))
  }

  /** Positions that fit are determined by where the match starts and where its two lazy parts end. */
  lemma FitsDeterminedByChoices(s: string, m1: Spans, m2: Spans)
    requires Fits(s, m1) && Fits(s, m2)
    requires m1.start == m2.start && m1.open == m2.open && m1.close == m2.close
    ensures m1 == m2
  {
    HeadAtOfFits(s, m1);
    HeadAtOfFits(s, m2);
    MiddleAtOfFits(s, m1);
    MiddleAtOfFits(s, m2);
    TailAtOfFits(s, m1);
    TailAtOfFits(s, m2);
  }

  /** A position in `[lo, hi)` where `ok` holds bounds the first one. */
  lemma FirstInNoLater(lo: nat, hi: nat, ok: nat -> bool, x: nat)
    requires lo <= x < hi && ok(x)
    ensures FirstIn(lo, hi, ok).Some? && FirstIn(lo, hi, ok).value <= x
  {
  }

  /** The `)` of a match is a viable close, so the close search succeeds no later than it. */
  lemma CloseOfFits(s: string, m: Spans)
    requires TailFits(s, m) && Dots(s, m.eventEnd + 1, m.close)
    ensures CloseAfter(s, m.eventEnd).Some? && CloseAfter(s, m.eventEnd).value <= m.close
  {
    TailAtOfFits(s, m);
    DotsIffWithinLine(s, m.eventEnd + 1, m.close);
    FirstInNoLater(m.eventEnd + 1, LineEnd(s, m.eventEnd + 1), CloseOk(s), m.close);
  }

  /** The rest of a match can follow its `(`. */
  lemma OpenViableOfFits(s: string, m: Spans)
    requires MiddleFits(s, m) && Dots(s, m.eventEnd + 1, m.close) && TailFits(s, m)
    ensures OpenViable(s, m.open)
  {
    MiddleAtOfFits(s, m);
    CloseOfFits(s, m);
  }

  /** The `(` of a match is viable, so the open search succeeds no later than it. */
  lemma OpenOfFits(s: string, m: Spans)
    requires MiddleFits(s, m) && Dots(s, m.eventEnd + 1, m.close) && TailFits(s, m)
    requires Dots(s, m.threadEnd + 1, m.open)
    ensures OpenAfter(s, m.threadEnd).Some? && OpenAfter(s, m.threadEnd).value <= m.open
  {
    OpenViableOfFits(s, m);
    OpenNoLater(s, m.threadEnd, m.open);
  }

  lemma OpenNoLater(s: string, te: nat, p: nat)
    requires OpenViable(s, p) && CharAt(s, p, '(') && Dots(s, te + 1, p)
    ensures OpenAfter(s, te).Some? && OpenAfter(s, te).value <= p
  {
    DotsIffWithinLine(s, te + 1, p);
    FirstInNoLater(te + 1, LineEnd(s, te + 1), OpenOk(s), p);
  }

  /** The start of a match is viable, so the start search succeeds no later than it. */
  lemma StartOfFits(s: string, m: Spans)
    requires Fits(s, m)
    ensures FirstIn(0, |s|, StartOk(s)).Some? && FirstIn(0, |s|, StartOk(s)).value <= m.start
  {
    HeadAtOfFits(s, m);
    OpenOfFits(s, m);
    FirstInNoLater(0, |s|, StartOk(s), m.start);
  }

  /** The three parts sit at `m`, each lazy gap within the line. */
  predicate PartsAt(s: string, m: Spans) {
    && HeadAt(s, m.start) == Some((m.colon, m.dash, m.threadEnd))
    && m.threadEnd + 1 <= m.open < LineEnd(s, m.threadEnd + 1)
    && MiddleAt(s, m.open) == Some((m.seqEnd, m.sessionEnd, m.entityOpen, m.entityEnd, m.eventStart, m.eventEnd))
    && m.eventEnd + 1 <= m.close < LineEnd(s, m.eventEnd + 1)
    && TailAt(s, m.close) == Some((m.durationStart, m.durationEnd, m.msAt))
  }

  /** Positions assembled from the three parts and two line-bounded gaps fit the pattern. */
  lemma FitsOfParts(s: string, m: Spans)
    requires PartsAt(s, m)
    ensures Fits(s, m)
  {
    HeadFitsOfAt(s, m);
    MiddleFitsOfAt(s, m);
    TailFitsOfAt(s, m);
    GapsWithinLine(s, m);
  }

  lemma GapsWithinLine(s: string, m: Spans)
    requires m.threadEnd + 1 <= m.open < LineEnd(s, m.threadEnd + 1)
    requires m.eventEnd + 1 <= m.close < LineEnd(s, m.eventEnd + 1)
    requires m.eventEnd + 1 <= |s|
    ensures Dots(s, m.threadEnd + 1, m.open) && Dots(s, m.eventEnd + 1, m.close)
  {
    DotsIffWithinLine(s, m.threadEnd + 1, m.open);
    DotsIffWithinLine(s, m.eventEnd + 1, m.close);
  }

  lemma MatchFromHead(s: string, a: nat)
    requires StartViable(s, a)
    ensures var r := MatchFrom(s, a);
      && HeadAt(s, r.start) == Some((r.colon, r.dash, r.threadEnd))
      && r.threadEnd + 1 <= r.open < LineEnd(s, r.threadEnd + 1)
      && OpenViable(s, r.open)
  {
    var r := MatchFrom(s, a);
    assert OpenOk(s)(r.open);
  }

  lemma MatchFromMiddle(s: string, a: nat)
    requires StartViable(s, a)
    ensures var r := MatchFrom(s, a);
      && MiddleAt(s, r.open) == Some((r.seqEnd, r.sessionEnd, r.entityOpen, r.entityEnd, r.eventStart, r.eventEnd))
      && r.eventEnd + 1 <= r.close < LineEnd(s, r.eventEnd + 1)
      && TailAt(s, r.close) == Some((r.durationStart, r.durationEnd, r.msAt))
  {
    var r := MatchFrom(s, a);
    MatchFromHead(s, a);
    assert CloseOk(s)(r.close);
  }

  lemma MatchFromParts(s: string, a: nat)
    requires StartViable(s, a)
    ensures PartsAt(s, MatchFrom(s, a))
  {
    MatchFromHead(s, a);
    MatchFromMiddle(s, a);
  }

  /** The positions of the match from a viable start fit the pattern. */
  lemma MatchFromFits(s: string, a: nat)
    requires StartViable(s, a)
    ensures Fits(s, MatchFrom(s, a))
  {
    MatchFromParts(s, a);
    FitsOfParts(s, MatchFrom(s, a));
  }

  /** The positions `Search` returns fit the pattern. */
  lemma SearchFits(s: string)
    requires Search(s).Some?
    ensures Fits(s, Search(s).value)
  {
    var a := FirstIn(0, |s|, StartOk(s)).value;
    assert StartOk(s)(a);
    MatchFromFits(s, a);
  }

  /** Among the matches that start at `a`, none comes before the one `MatchFrom` builds. */
  lemma MatchFromFirst(s: string, a: nat, m: Spans)
    requires StartViable(s, a) && Fits(s, m) && m.start == a
    ensures m == MatchFrom(s, a) || Before(MatchFrom(s, a), m)
  {
    var r := MatchFrom(s, a);
    HeadAtOfFits(s, m);
    OpenOfFits(s, m);
    if m.open == r.open {
      MiddleAtOfFits(s, m);
      CloseOfFits(s, m);
      if m.close == r.close {
        MatchFromFits(s, a);
        FitsDeterminedByChoices(s, m, r);
      }
    }
  }

  /** No match comes before the one `Search` returns. */
  lemma SearchFirst(s: string, m: Spans)
    requires Search(s).Some? && Fits(s, m)
    ensures m == Search(s).value || Before(Search(s).value, m)
  {
    var a := FirstIn(0, |s|, StartOk(s)).value;
    assert StartOk(s)(a);
    StartOfFits(s, m);
    if m.start == a {
      MatchFromFirst(s, a, m);
    }
  }

  /**
    Two matches from the same start, no later one before the other, coincide when the line
    has no `(` before the later one's `(` and no `)` before its `)` that a lazy part could stop at.
  */
  lemma SameMatchWithoutEarlierStops(s: string, q: Spans, m: Spans)
    requires Fits(s, q) && Fits(s, m) && q.start == m.start && (q == m || Before(q, m))
    requires forall p :: m.threadEnd < p < m.open ==> s[p] != '('
    requires forall p :: m.eventEnd < p < m.close ==> s[p] != ')'
    ensures q == m
  {
    HeadAtOfFits(s, q);
    HeadAtOfFits(s, m);
    assert q.open == m.open;
    MiddleAtOfFits(s, q);
    MiddleAtOfFits(s, m);
    assert q.close == m.close;
    FitsDeterminedByChoices(s, q, m);
  }

  /**
    A match that starts the line, with no `(` before its `(` and no `)` before its `)`
    that a lazy part could stop at, is the one `Search` returns.
  */
  lemma SearchFindsEarliestStops(s: string, m: Spans)
    requires Fits(s, m) && m.start == 0
    requires forall p :: m.threadEnd < p < m.open ==> s[p] != '('
    requires forall p :: m.eventEnd < p < m.close ==> s[p] != ')'
    ensures Search(s) == Some(m)
  {
    if Search(s).None? {
      SearchNone(s, m);
    }
    SearchFirst(s, m);
    SearchFits(s);
    SameMatchWithoutEarlierStops(s, Search(s).value, m);
  }

  /** When `Search` returns nothing, nothing in the line fits the pattern. */
  lemma SearchNone(s: string, m: Spans)
    requires Search(s).None?
    ensures !Fits(s, m)
  {
    if Fits(s, m) {
      StartOfFits(s, m);
    }
  }

  /**
    `re.search` semantics: `Search` finds a match exactly when one exists, and the one it
    finds comes first in backtracking priority among all matches.
  */
  lemma SearchIsFirstMatch(s: string)
    ensures Search(s).Some? ==> Fits(s, Search(s).value)
    ensures Search(s).Some? ==> forall m :: Fits(s, m) ==> m == Search(s).value || Before(Search(s).value, m)
    ensures Search(s).None? ==> forall m :: !Fits(s, m)
  {
    if Search(s).Some? {
      SearchFits(s);
      forall m | Fits(s, m) ensures m == Search(s).value || Before(Search(s).value, m) {
        SearchFirst(s, m);
      }
    } else {
      forall m ensures !Fits(s, m) {
        SearchNone(s, m);
      }
    }
  }
}
