/**
  The inverse of the line parser: a record written out in the log's own line format
  parses back to the very same record, whatever text sits in the two free parts of the
  line (the part the first `.*?` skips and the event's argument list), as long as that
  text stays on one line and does not itself open the numbers or close the arguments.
*/
module LineFormat {
  import opened Basics
  import opened Utf8
  import opened LinePattern
  import opened Records

  /** The concatenation of `ps`. */
  function Concat(ps: seq<string>): string
  {
    if |ps| == 0 then [] else ps[0] + Concat(ps[1..])
  }

  /** Where piece `k` starts in `Concat(ps)`. */
  function Offset(ps: seq<string>, k: nat): nat
    requires k <= |ps|
  {
    if k == 0 then 0 else |ps[0]| + Offset(ps[1..], k - 1)
  }

  lemma {:induction false} OffsetStep(ps: seq<string>, k: nat)
    requires k < |ps|
    ensures Offset(ps, k + 1) == Offset(ps, k) + |ps[k]|
  {
    if k > 0 {
      OffsetStep(ps[1..], k - 1);
    }
  }

  lemma {:induction false} ConcatLength(ps: seq<string>)
    ensures |Concat(ps)| == Offset(ps, |ps|)
  {
    if |ps| > 0 {
      ConcatLength(ps[1..]);
    }
  }

  /** Character `n` of piece `k` sits at `Offset(ps, k) + n`. */
  lemma {:induction false} PieceAt(ps: seq<string>, k: nat, n: nat)
    requires k < |ps| && n < |ps[k]|
    ensures Offset(ps, k) + n < |Concat(ps)|
    ensures Concat(ps)[Offset(ps, k) + n] == ps[k][n]
  {
    ConcatLength(ps);
    OffsetStep(ps, k);
    if k > 0 {
      PieceAt(ps[1..], k - 1, n);
    }
  }

  lemma PieceSlice(ps: seq<string>, k: nat)
    requires k < |ps|
    ensures Offset(ps, k) + |ps[k]| == Offset(ps, k + 1) <= |Concat(ps)|
    ensures Concat(ps)[Offset(ps, k)..Offset(ps, k + 1)] == ps[k]
  {
    OffsetStep(ps, k);
    ConcatLength(ps);
    OffsetStep(ps, k);
    var s := Concat(ps);
    var o := Offset(ps, k);
    assert Offset(ps, k + 1) <= Offset(ps, |ps|) by {
      OffsetMonotone(ps, k + 1, |ps|);
    }
    forall n | 0 <= n < |ps[k]| ensures s[o..o + |ps[k]|][n] == ps[k][n] {
      PieceAt(ps, k, n);
    }
  }

  lemma {:induction false} OffsetMonotone(ps: seq<string>, k: nat, l: nat)
    requires k <= l <= |ps|
    ensures Offset(ps, k) <= Offset(ps, l)
    decreases l - k
  {
    if k < l {
      OffsetStep(ps, k);
      OffsetMonotone(ps, k + 1, l);
    }
  }

  /** A stretch of piece `k` whose characters are all of class `cls` is a run in the line. */
  lemma RunInPiece(ps: seq<string>, k: nat, i: nat, j: nat, cls: CharClass)
    requires k < |ps| && i < j <= |ps[k]|
    requires forall n :: i <= n < j ==> InClass(ps[k][n], cls)
    ensures Run(Concat(ps), Offset(ps, k) + i, Offset(ps, k) + j, cls)
  {
    var s := Concat(ps);
    var o := Offset(ps, k);
    PieceAt(ps, k, j - 1);
    forall n | o + i <= n < o + j ensures InClass(s[n], cls) {
      PieceAt(ps, k, n - o);
    }
    AllInOfToken(s, o + i, o + j, cls);
  }

  /** A one-character piece of class `cls` is a run in the line. */
  lemma RunOfChar(ps: seq<string>, k: nat, cls: CharClass)
    requires k < |ps| && |ps[k]| == 1 && InClass(ps[k][0], cls)
    ensures Run(Concat(ps), Offset(ps, k), Offset(ps, k) + 1, cls)
  {
    RunInPiece(ps, k, 0, 1, cls);
  }

  lemma CharOfPiece(ps: seq<string>, k: nat, c: char)
    requires k < |ps| && ps[k] == [c]
    ensures CharAt(Concat(ps), Offset(ps, k), c)
  {
    PieceAt(ps, k, 0);
  }

  /** A piece without a line feed is something `.*?` can skip. */
  lemma DotsOfPiece(ps: seq<string>, k: nat)
    requires k < |ps| && '\n' !in ps[k]
    ensures Dots(Concat(ps), Offset(ps, k), Offset(ps, k + 1))
  {
    var s := Concat(ps);
    var o := Offset(ps, k);
    OffsetStep(ps, k);
    PieceSlice(ps, k);
    forall n | o <= n < o + |ps[k]| ensures s[n] != '\n' {
      PieceAt(ps, k, n - o);
    }
  }

  /**
    The pieces of a log line for record `r`:
    `[thread]gap(sequence-session [entity]) event(args): duration ms`.
  */
  function LinePieces(r: EventRecord, gap: string, entity: nat, args: string): seq<string>
  {
    ["[", r.thread, "]", gap, "(", NatToDigits(r.sequence), "-", NatToDigits(r.session),
     " ", "[", NatToDigits(entity), "]", ")", " ", r.event, "(", args, ")", ":", " ",
     NatToDigits(r.duration), " ", "m", "s"]
  }

  function FormatLine(r: EventRecord, gap: string, entity: nat, args: string): string
  {
    Concat(LinePieces(r, gap, entity, args))
  }

  /** The free parts of a line: on one line, and not cutting the lazy `.*?`s short. */
  predicate FreeTextOk(gap: string, args: string) {
    '\n' !in gap && '(' !in gap && '\n' !in args && ')' !in args
  }

  /** The positions of the pieces of a formatted line, as the pattern's spans. */
  function SpansOf(ps: seq<string>, c: nat, d: nat): Spans
    requires |ps| == 24
  {
    Spans(0, Offset(ps, 1) + c, Offset(ps, 1) + d, Offset(ps, 2),
          Offset(ps, 4), Offset(ps, 6), Offset(ps, 8), Offset(ps, 9), Offset(ps, 11),
          Offset(ps, 14), Offset(ps, 15),
          Offset(ps, 17), Offset(ps, 20), Offset(ps, 21), Offset(ps, 22))
  }

  lemma DigitsRun(ps: seq<string>, k: nat)
    requires k < |ps| && |ps[k]| > 0 && AllDigits(ps[k])
    ensures Run(Concat(ps), Offset(ps, k), Offset(ps, k + 1), Digit)
  {
    OffsetStep(ps, k);
    RunInPiece(ps, k, 0, |ps[k]|, Digit);
  }

  /** The thread id piece spells `\d+:\d+-[A-F0-9]+` at its offset. */
  lemma ThreadIdOfPiece(ps: seq<string>, c: nat, d: nat)
    requires |ps| == 24 && ThreadIdSplit(ps[1], c, d)
    ensures var s, o := Concat(ps), Offset(ps, 1);
      && Run(s, o, o + c, Digit) && CharAt(s, o + c, ':')
      && Run(s, o + c + 1, o + d, Digit) && CharAt(s, o + d, '-')
      && Run(s, o + d + 1, o + |ps[1]|, UpperHex)
  {
    var t := ps[1];
    PieceAt(ps, 1, c);
    PieceAt(ps, 1, d);
    assert forall n :: 0 <= n < c ==> t[..c][n] == t[n];
    RunInPiece(ps, 1, 0, c, Digit);
    assert forall n :: c + 1 <= n < d ==> t[c + 1..d][n - (c + 1)] == t[n];
    RunInPiece(ps, 1, c + 1, d, Digit);
    assert forall n :: d + 1 <= n < |t| ==> t[d + 1..][n - (d + 1)] == t[n];
    RunInPiece(ps, 1, d + 1, |t|, UpperHex);
  }

  lemma HeadOfPieces(ps: seq<string>, c: nat, d: nat)
    requires |ps| == 24 && ps[0] == "[" && ThreadIdSplit(ps[1], c, d) && ps[2] == "]"
    ensures HeadFits(Concat(ps), SpansOf(ps, c, d))
  {
    OffsetStep(ps, 0);
    OffsetStep(ps, 1);
    CharOfPiece(ps, 0, '[');
    CharOfPiece(ps, 2, ']');
    ThreadIdOfPiece(ps, c, d);
  }

  /** `\((\d+)-(\d+)`: the sequence and session numbers. */
  lemma SequenceOfPieces(ps: seq<string>)
    requires |ps| == 24 && ps[4] == "(" && ps[6] == "-"
    requires |ps[5]| > 0 && AllDigits(ps[5]) && |ps[7]| > 0 && AllDigits(ps[7])
    ensures var s := Concat(ps);
      && CharAt(s, Offset(ps, 4), '(')
      && Run(s, Offset(ps, 4) + 1, Offset(ps, 6), Digit) && CharAt(s, Offset(ps, 6), '-')
      && Run(s, Offset(ps, 6) + 1, Offset(ps, 8), Digit)
  {
    OffsetStep(ps, 4);
    OffsetStep(ps, 6);
    CharOfPiece(ps, 4, '(');
    DigitsRun(ps, 5);
    CharOfPiece(ps, 6, '-');
    DigitsRun(ps, 7);
  }

  /** `\s+\[(\d+)\]\)`: the entity number. */
  lemma EntityOfPieces(ps: seq<string>)
    requires |ps| == 24 && ps[8] == " " && ps[9] == "[" && ps[11] == "]" && ps[12] == ")"
    requires |ps[10]| > 0 && AllDigits(ps[10])
    ensures var s := Concat(ps);
      && Run(s, Offset(ps, 8), Offset(ps, 9), Space) && CharAt(s, Offset(ps, 9), '[')
      && Run(s, Offset(ps, 9) + 1, Offset(ps, 11), Digit)
      && CharAt(s, Offset(ps, 11), ']') && CharAt(s, Offset(ps, 11) + 1, ')')
  {
    OffsetStep(ps, 8);
    OffsetStep(ps, 9);
    OffsetStep(ps, 11);
    RunOfChar(ps, 8, Space);
    CharOfPiece(ps, 9, '[');
    DigitsRun(ps, 10);
    CharOfPiece(ps, 11, ']');
    CharOfPiece(ps, 12, ')');
  }

  lemma NumbersOfPieces(ps: seq<string>, c: nat, d: nat)
    requires |ps| == 24 && ps[4] == "(" && ps[6] == "-" && ps[8] == " " && ps[9] == "["
    requires ps[11] == "]" && ps[12] == ")"
    requires |ps[5]| > 0 && AllDigits(ps[5]) && |ps[7]| > 0 && AllDigits(ps[7])
    requires |ps[10]| > 0 && AllDigits(ps[10])
    ensures NumbersFits(Concat(ps), SpansOf(ps, c, d))
  {
    SequenceOfPieces(ps);
    EntityOfPieces(ps);
  }

  lemma EventOfPieces(ps: seq<string>, c: nat, d: nat)
    requires |ps| == 24 && ps[11] == "]" && ps[12] == ")" && ps[13] == " "
    requires IsToken(ps[14], Word) && ps[15] == "("
    ensures EventFits(Concat(ps), SpansOf(ps, c, d))
  {
    OffsetStep(ps, 11);
    OffsetStep(ps, 12);
    OffsetStep(ps, 13);
    OffsetStep(ps, 14);
    RunOfChar(ps, 13, Space);
    RunInPiece(ps, 14, 0, |ps[14]|, Word);
    CharOfPiece(ps, 15, '(');
  }

  /** `\):\s+`: the arguments' close and the colon. */
  lemma CloseOfPieces(ps: seq<string>)
    requires |ps| == 24 && ps[17] == ")" && ps[18] == ":" && ps[19] == " "
    ensures var s := Concat(ps);
      && CharAt(s, Offset(ps, 17), ')') && CharAt(s, Offset(ps, 17) + 1, ':')
      && Run(s, Offset(ps, 17) + 2, Offset(ps, 20), Space)
  {
    OffsetStep(ps, 17);
    OffsetStep(ps, 18);
    OffsetStep(ps, 19);
    CharOfPiece(ps, 17, ')');
    CharOfPiece(ps, 18, ':');
    RunOfChar(ps, 19, Space);
  }

  /** `(\d+)\s+ms`: the duration and its unit. */
  lemma DurationOfPieces(ps: seq<string>)
    requires |ps| == 24 && |ps[20]| > 0 && AllDigits(ps[20])
    requires ps[21] == " " && ps[22] == "m" && ps[23] == "s"
    ensures var s := Concat(ps);
      && Run(s, Offset(ps, 20), Offset(ps, 21), Digit)
      && Run(s, Offset(ps, 21), Offset(ps, 22), Space)
      && CharAt(s, Offset(ps, 22), 'm') && CharAt(s, Offset(ps, 22) + 1, 's')
  {
    OffsetStep(ps, 21);
    OffsetStep(ps, 22);
    DigitsRun(ps, 20);
    RunOfChar(ps, 21, Space);
    CharOfPiece(ps, 22, 'm');
    CharOfPiece(ps, 23, 's');
  }

  lemma TailOfPieces(ps: seq<string>, c: nat, d: nat)
    requires |ps| == 24 && ps[17] == ")" && ps[18] == ":" && ps[19] == " "
    requires |ps[20]| > 0 && AllDigits(ps[20])
    requires ps[21] == " " && ps[22] == "m" && ps[23] == "s"
    ensures TailFits(Concat(ps), SpansOf(ps, c, d))
  {
    CloseOfPieces(ps);
    DurationOfPieces(ps);
  }

  /** The pieces' positions spell a match of the pattern. */
  lemma FormatFits(r: EventRecord, gap: string, entity: nat, args: string, c: nat, d: nat)
    requires ThreadIdSplit(r.thread, c, d) && IsToken(r.event, Word) && '\n' !in gap && '\n' !in args
    ensures Fits(FormatLine(r, gap, entity, args), SpansOf(LinePieces(r, gap, entity, args), c, d))
  {
    var ps := LinePieces(r, gap, entity, args);
    PiecesShape(r, gap, entity, args);
    HeadOfPieces(ps, c, d);
    NumbersOfPieces(ps, c, d);
    EventOfPieces(ps, c, d);
    TailOfPieces(ps, c, d);
    GapsOfPieces(ps, c, d);
  }

  lemma PiecesShape(r: EventRecord, gap: string, entity: nat, args: string)
    ensures var ps := LinePieces(r, gap, entity, args);
      && |ps| == 24 && ps[0] == "[" && ps[1] == r.thread && ps[2] == "]" && ps[3] == gap
      && ps[4] == "(" && ps[5] == NatToDigits(r.sequence) && ps[6] == "-"
      && ps[7] == NatToDigits(r.session) && ps[8] == " " && ps[9] == "["
      && ps[10] == NatToDigits(entity) && ps[11] == "]"
      && ps[12] == ")" && ps[13] == " "
      && ps[14] == r.event && ps[15] == "(" && ps[16] == args && ps[17] == ")" && ps[18] == ":"
      && ps[19] == " " && ps[20] == NatToDigits(r.duration) && ps[21] == " " && ps[22] == "m"
      && ps[23] == "s"
  {
    var ps := LinePieces(r, gap, entity, args);
    var front := ["[", r.thread, "]", gap, "(", NatToDigits(r.sequence), "-", NatToDigits(r.session),
                  " ", "[", NatToDigits(entity), "]"];
    var back := [")", " ", r.event, "(", args, ")", ":", " ", NatToDigits(r.duration), " ", "m", "s"];
    assert ps == front + back;
  }

  lemma GapsOfPieces(ps: seq<string>, c: nat, d: nat)
    requires |ps| == 24 && ps[2] == "]" && ps[15] == "(" && '\n' !in ps[3] && '\n' !in ps[16]
    ensures Dots(Concat(ps), SpansOf(ps, c, d).threadEnd + 1, SpansOf(ps, c, d).open)
    ensures Dots(Concat(ps), SpansOf(ps, c, d).eventEnd + 1, SpansOf(ps, c, d).close)
  {
    OffsetStep(ps, 2);
    OffsetStep(ps, 3);
    OffsetStep(ps, 15);
    OffsetStep(ps, 16);
    DotsOfPiece(ps, 3);
    DotsOfPiece(ps, 16);
  }

  /** `re.search` finds exactly the match the pieces spell: the free text offers no earlier one. */
  lemma SearchOfPieces(ps: seq<string>, c: nat, d: nat)
    requires |ps| == 24 && Fits(Concat(ps), SpansOf(ps, c, d))
    requires ps[2] == "]" && '(' !in ps[3] && ps[15] == "(" && ')' !in ps[16]
    ensures Search(Concat(ps)) == Some(SpansOf(ps, c, d))
  {
    NoStopInPiece(ps, 3, '(');
    NoStopInPiece(ps, 16, ')');
    OffsetStep(ps, 2);
    OffsetStep(ps, 15);
    SearchFindsEarliestStops(Concat(ps), SpansOf(ps, c, d));
  }

  lemma NoStopInPiece(ps: seq<string>, k: nat, c: char)
    requires k < |ps| && c !in ps[k]
    ensures Offset(ps, k + 1) <= |Concat(ps)|
    ensures forall p :: Offset(ps, k) <= p < Offset(ps, k + 1) ==> Concat(ps)[p] != c
  {
    PieceSlice(ps, k);
    forall p | Offset(ps, k) <= p < Offset(ps, k + 1) ensures Concat(ps)[p] != c {
      PieceAt(ps, k, p - Offset(ps, k));
    }
  }

  /** The thread id and the two numbers sit where the spans put them. */
  lemma HeadSlicesOfPieces(ps: seq<string>)
    requires |ps| == 24 && ps[0] == "[" && ps[4] == "(" && ps[6] == "-"
    ensures var s := Concat(ps);
      && Offset(ps, 1) == 1
      && Offset(ps, 2) <= |s| && s[1..Offset(ps, 2)] == ps[1]
      && Offset(ps, 4) + 1 <= Offset(ps, 6) <= |s| && s[Offset(ps, 4) + 1..Offset(ps, 6)] == ps[5]
      && Offset(ps, 6) + 1 <= Offset(ps, 8) <= |s| && s[Offset(ps, 6) + 1..Offset(ps, 8)] == ps[7]
  {
    OffsetStep(ps, 0);
    OffsetStep(ps, 4);
    OffsetStep(ps, 6);
    PieceSlice(ps, 1);
    PieceSlice(ps, 5);
    PieceSlice(ps, 7);
  }

  /** The spans of a formatted line cut out the pieces that hold the record's values. */
  lemma SlicesOfPieces(ps: seq<string>, c: nat, d: nat)
    requires |ps| == 24 && ps[0] == "[" && ps[4] == "(" && ps[6] == "-"
    ensures var s, m := Concat(ps), SpansOf(ps, c, d);
      && m.start + 1 <= m.threadEnd <= |s| && s[m.start + 1..m.threadEnd] == ps[1]
      && m.open + 1 <= m.seqEnd <= |s| && s[m.open + 1..m.seqEnd] == ps[5]
      && m.seqEnd + 1 <= m.sessionEnd <= |s| && s[m.seqEnd + 1..m.sessionEnd] == ps[7]
      && m.eventStart <= m.eventEnd <= |s| && s[m.eventStart..m.eventEnd] == ps[14]
      && m.durationStart <= m.durationEnd <= |s| && s[m.durationStart..m.durationEnd] == ps[20]
  {
    HeadSlicesOfPieces(ps);
    PieceSlice(ps, 14);
    PieceSlice(ps, 20);
  }

  /** The record read from a formatted line's spans holds the pieces' values. */
  lemma RecordOfPieces(idx: nat, ps: seq<string>, c: nat, d: nat)
    requires |ps| == 24 && Fits(Concat(ps), SpansOf(ps, c, d))
    requires ps[0] == "[" && ps[4] == "(" && ps[6] == "-"
    requires AllDigits(ps[5]) && AllDigits(ps[7]) && AllDigits(ps[20])
    ensures RecordOf(idx, Concat(ps), SpansOf(ps, c, d))
         == EventRecord(idx, ps[1], DigitsValue(ps[5]), DigitsValue(ps[7]), ps[14], DigitsValue(ps[20]))
  {
    SlicesOfPieces(ps, c, d);
  }

  /**
    Parsing inverts formatting: the UTF-8 bytes of a formatted line parse back to the
    record, for any index, thread id, event name, numbers and free text.
  */
  lemma ParseFormatLine(r: EventRecord, gap: string, entity: nat, args: string)
    requires IsThreadId(r.thread) && IsToken(r.event, Word) && FreeTextOk(gap, args)
    ensures ParseLine(r.idx, Encode(FormatLine(r, gap, entity, args))) == Some(r)
  {
    var ps := LinePieces(r, gap, entity, args);
    var c: nat, d: nat :| c < d < |r.thread| && ThreadIdSplit(r.thread, c, d);
    PiecesShape(r, gap, entity, args);
    FormatFits(r, gap, entity, args, c, d);
    ParsePieces(r.idx, ps, c, d);
    DigitsValueOfNat(r.sequence);
    DigitsValueOfNat(r.session);
    DigitsValueOfNat(r.duration);
  }

  /** A line whose pieces fit the pattern, with no earlier stop in its free text, parses to its pieces' values. */
  lemma ParsePieces(idx: nat, ps: seq<string>, c: nat, d: nat)
    requires |ps| == 24 && Fits(Concat(ps), SpansOf(ps, c, d))
    requires ps[0] == "[" && ps[2] == "]" && '(' !in ps[3] && ps[4] == "(" && ps[6] == "-"
    requires ps[15] == "(" && ')' !in ps[16]
    requires AllDigits(ps[5]) && AllDigits(ps[7]) && AllDigits(ps[20])
    ensures ParseLine(idx, Encode(Concat(ps)))
         == Some(EventRecord(idx, ps[1], DigitsValue(ps[5]), DigitsValue(ps[7]), ps[14], DigitsValue(ps[20])))
  {
    DecodeEncode(Concat(ps));
    SearchOfPieces(ps, c, d);
    RecordOfPieces(idx, ps, c, d);
  }

  /** The sample thread id `12:34-ABCD12` splits at its colon and its dash. */
  lemma SampleThreadId(t: string)
    requires t == "12:34-ABCD12"
    ensures ThreadIdSplit(t, 2, 5)
  {
    assert t[..2] == "12" && t[3..5] == "34" && t[6..] == "ABCD12";
  }

  lemma SampleEvent(e: string)
    requires e == "readEvent"
    ensures IsToken(e, Word)
  {
  }

  /**
    The sample line `[12:34-ABCD12].....(100-7 [3]) readEvent(...): 250 ms`, written as
    the format of its parts, parses to its thread, numbers, event and duration.
  */
  lemma SampleLine(r: EventRecord)
    requires r == EventRecord(0, "12:34-ABCD12", 100, 7, "readEvent", 250)
    ensures ParseLine(0, Encode(FormatLine(r, ".....", 3, "..."))) == Some(r)
  {
    SampleThreadId(r.thread);
    SampleEvent(r.event);
    ParseFormatLine(r, ".....", 3, "...");
  }
}
