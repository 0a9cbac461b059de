/*
 * The cases of tal_test.go, stated about the model. The number reader is
 * still a parameter: each case names the readings it relies on.
 */
module TalExamples {
  import opened TalSpec
  import opened TalProperties

  /** ASCII text as the bytes Go's []byte conversion produces. */
  function Ascii(t: string): (b: Bytes)
    requires forall i :: 0 <= i < |t| ==> t[i] as int < 128
    ensures |b| == |t| && forall i :: 0 <= i < |t| ==> b[i] as int == t[i] as int
  {
    seq(|t|, i requires 0 <= i < |t| => t[i] as int as Byte)
  }

  /** Printable ASCII text holds no sentinel byte. */
  lemma PrintableText(t: string)
    requires forall i :: 0 <= i < |t| ==> 32 <= t[i] as int < 127
    ensures NoSentinel(Ascii(t))
  {
    var b := Ascii(t);
    forall j | 0 <= j < |b|
      ensures !IsSentinel(b[j])
    {
      assert b[j] as int == t[j] as int;
    }
  }

  /** TestParseAnnotationSimple. */
  lemma AnnotationSimple()
    ensures AnnotationOf(Ascii("abcd") + [TokenAnnotation, TokenEnd]) == Done(Ascii("abcd"), 6)
  {
    PrintableText("abcd");
    assert Ascii("abcd") + [TokenAnnotation, TokenEnd] == Ascii("abcd") + [TokenAnnotation] + Zeros(1) + [];
    AnnotationOfEncoded(Ascii("abcd"), 1, []);
  }

  /** TestParseAnnotation, first row: two annotations read one after the other. */
  lemma AnnotationSequence()
    ensures var s := Ascii("abc") + [TokenAnnotation] + Ascii("cdb") + [TokenAnnotation, TokenEnd];
      AnnotationOf(s) == Done(Ascii("abc"), 4) && AnnotationOf(s[4..]) == Done(Ascii("cdb"), 5)
  {
    var s := Ascii("abc") + [TokenAnnotation] + Ascii("cdb") + [TokenAnnotation, TokenEnd];
    PrintableText("abc");
    PrintableText("cdb");
    var tail := Ascii("cdb") + [TokenAnnotation, TokenEnd];
    assert s == Ascii("abc") + [TokenAnnotation] + tail;
    UnpaddedThenPadded(Ascii("abc"), Ascii("cdb"), s);
  }

  /** Text `a` without padding, then text `b` with one padding byte. */
  lemma UnpaddedThenPadded(a: Bytes, b: Bytes, s: Bytes)
    requires NoSentinel(a) && NoSentinel(b)
    requires s == a + [TokenAnnotation] + (b + [TokenAnnotation, TokenEnd])
    ensures AnnotationOf(s) == Done(a, |a| + 1)
    ensures AnnotationOf(s[|a| + 1..]) == Done(b, |b| + 2)
  {
    var tail := b + [TokenAnnotation, TokenEnd];
    assert s == a + [TokenAnnotation] + Zeros(0) + tail;
    assert NoLeadingEnd(tail) by {
      if |b| > 0 {
        assert tail[0] == b[0];
      }
    }
    AnnotationOfEncoded(a, 0, tail);
    assert s[|a| + 1..] == tail == b + [TokenAnnotation] + Zeros(1) + [];
    AnnotationOfEncoded(b, 1, []);
  }

  /** TestParseAnnotation, second row: an empty annotation after a non-empty one. */
  lemma EmptyAnnotation()
    ensures var s := Ascii("abc") + [TokenAnnotation, TokenAnnotation, TokenEnd];
      AnnotationOf(s) == Done(Ascii("abc"), 4) && AnnotationOf(s[4..]) == Done([], 2)
  {
    var s := Ascii("abc") + [TokenAnnotation, TokenAnnotation, TokenEnd];
    PrintableText("abc");
    assert s == Ascii("abc") + [TokenAnnotation] + ([] + [TokenAnnotation, TokenEnd]);
    UnpaddedThenPadded(Ascii("abc"), [], s);
  }

  /** TestTimeStampNoSign: no sign, so nothing is consumed. */
  lemma StampNoSign(num: NumberParser)
    ensures StampOf(Ascii("120") + [TokenOnset] + Ascii("1") + [TokenAnnotation] + Ascii("test") + [TokenAnnotation, TokenEnd], num)
            == Failed(InvalidChar, 0)
  {
  }

  /** TestTimeIncompleted: the buffer ends before the stamp's ANNOTATION byte. */
  lemma StampIncomplete(num: NumberParser)
    requires num(Ascii("+8")).Some?
    ensures StampOf(Ascii("+"), num) == Failed(IncompleteAnn, 1)
    ensures StampOf(Ascii("+8") + [TokenOnset], num) == Failed(IncompleteAnn, 3)
    ensures StampOf(Ascii("+8") + [TokenOnset] + Ascii("1"), num) == Failed(IncompleteAnn, 4)
  {
    PrintableText("+");
    FirstSentinelIsFirst(Ascii("+"), 1);
    PrintableText("+8");
    var s := Ascii("+8") + [TokenOnset];
    FirstSentinelAfterText(Ascii("+8"), [TokenOnset]);
    assert s[..2] == Ascii("+8") && s[3..] == [];
    var t := Ascii("+8") + [TokenOnset] + Ascii("1");
    FirstSentinelAfterText(Ascii("+8"), [TokenOnset] + Ascii("1"));
    assert t == Ascii("+8") + ([TokenOnset] + Ascii("1"));
    assert t[..2] == Ascii("+8") && t[3..] == Ascii("1");
    PrintableText("1");
    FirstSentinelIsFirst(Ascii("1"), 1);
  }

  /** TestTimeInvalid: a leading '.' instead of a sign, then END where the stamp's ANNOTATION byte belongs. */
  lemma StampInvalid(num: NumberParser)
    ensures StampOf(Ascii(".12") + [TokenAnnotation] + Ascii("123") + [TokenAnnotation, TokenEnd], num)
            == Failed(InvalidChar, 0)
    ensures StampOf(Ascii("-1") + [TokenEnd], num) == Failed(InvalidChar, 2)
  {
    PrintableText("-1");
    FirstSentinelAfterText(Ascii("-1"), [TokenEnd]);
  }

  /** TestTimeStampBadNumber: the onset, then the duration, is not a number. */
  lemma StampBadNumber(num: NumberParser)
    requires num(Ascii("-ab")) == None
    requires num(Ascii("-1")).Some? && num(Ascii("ab")) == None
    ensures StampOf(Ascii("-ab") + [TokenAnnotation] + Ascii("123") + [TokenAnnotation, TokenEnd], num)
            == Failed(NumberFormat(Ascii("-ab")), 3)
    ensures StampOf(Ascii("-1") + [TokenOnset] + Ascii("ab") + [TokenAnnotation, TokenEnd], num)
            == Failed(NumberFormat(Ascii("ab")), 5)
  {
    PrintableText("-ab");
    var s := Ascii("-ab") + [TokenAnnotation] + Ascii("123") + [TokenAnnotation, TokenEnd];
    assert s == Ascii("-ab") + ([TokenAnnotation] + Ascii("123") + [TokenAnnotation, TokenEnd]);
    FirstSentinelAfterText(Ascii("-ab"), [TokenAnnotation] + Ascii("123") + [TokenAnnotation, TokenEnd]);
    assert s[..3] == Ascii("-ab");
    PrintableText("-1");
    PrintableText("ab");
    var t := Ascii("-1") + [TokenOnset] + Ascii("ab") + [TokenAnnotation, TokenEnd];
    var after := Ascii("ab") + [TokenAnnotation, TokenEnd];
    assert t == Ascii("-1") + ([TokenOnset] + after);
    FirstSentinelAfterText(Ascii("-1"), [TokenOnset] + after);
    assert t[..2] == Ascii("-1") && t[3..] == after;
    FirstSentinelAfterText(Ascii("ab"), [TokenAnnotation, TokenEnd]);
    assert t[3..5] == Ascii("ab");
  }

  /** One second as a Go time.Duration, in nanoseconds. */
  const Second: Duration := 1_000_000_000

  /** The number readings TestParse relies on, in time.Duration units. */
  predicate ReadsTestNumbers(num: NumberParser) {
    num(Ascii("+120")) == Some(120 * Second) &&
    num(Ascii("1")) == Some(Second) &&
    num(Ascii("+120.3")) == Some(120_300_000_000) &&
    num(Ascii("0.5")) == Some(500_000_000)
  }

  /** The blocks the inputs of TestParse are made of. */
  function BlockWithDuration(): Block {
    Block(Ascii("+120"), Some(Ascii("1")), [Ascii("test")], 1)
  }

  function BlockWithoutDuration(annotations: seq<Bytes>): Block {
    Block(Ascii("+120"), None, annotations, 1)
  }

  function BlockOfTwo(padding: nat): Block {
    Block(Ascii("+120.3"), Some(Ascii("0.5")), [Ascii("test"), Ascii("test2")], padding)
  }

  lemma TestBlocksWellFormed(num: NumberParser)
    requires ReadsTestNumbers(num)
    ensures WellFormed(BlockWithDuration(), num)
    ensures WellFormed(BlockWithoutDuration([Ascii("test")]), num)
    ensures WellFormed(BlockWithoutDuration([Ascii("test"), Ascii("test2")]), num)
    ensures WellFormed(BlockOfTwo(1), num) && WellFormed(BlockOfTwo(2), num)
  {
    PrintableText("+120");
    PrintableText("1");
    PrintableText("+120.3");
    PrintableText("0.5");
    PrintableText("test");
    PrintableText("test2");
  }

  lemma EncodeOne(b: Block)
    ensures Encode([b]) == BlockBytes(b)
  {
    assert [b][1..] == [];
  }

  lemma EncodeTwo(b: Block, c: Block)
    ensures Encode([b, c]) == BlockBytes(b) + BlockBytes(c)
  {
    assert [b, c][1..] == [c];
    EncodeOne(c);
  }

  lemma AnnotationBytesOne(a: Bytes)
    ensures AnnotationBytes([a]) == a + [TokenAnnotation]
  {
    AnnotationBytesCons(a, []);
    assert [a] == [a] + [];
  }

  lemma AnnotationBytesTwo(a: Bytes, b: Bytes)
    ensures AnnotationBytes([a, b]) == a + [TokenAnnotation] + b + [TokenAnnotation]
  {
    AnnotationBytesCons(a, [b]);
    AnnotationBytesOne(b);
    assert [a, b] == [a] + [b];
  }

  lemma TalsOne(stamp: TimeStamp, a: Bytes)
    ensures Tals(stamp, [a]) == [Tal(stamp, a)]
  {
    TalsCons(stamp, a, []);
    assert [a] == [a] + [];
  }

  lemma TalsTwo(stamp: TimeStamp, a: Bytes, b: Bytes)
    ensures Tals(stamp, [a, b]) == [Tal(stamp, a), Tal(stamp, b)]
  {
    TalsCons(stamp, a, [b]);
    TalsOne(stamp, b);
    assert [a, b] == [a] + [b];
  }

  lemma RecordsOne(b: Block, num: NumberParser)
    requires WellFormed(b, num)
    ensures Records([b], num) == Tals(StampValue(b.onset, b.duration, num), b.annotations)
  {
    assert [b][1..] == [];
  }

  /** TestParse, first row: one annotation under a stamp with a duration. */
  lemma ParseWithDuration(num: NumberParser)
    requires ReadsTestNumbers(num)
    ensures ParseSpec(Ascii("+120") + [TokenOnset] + Ascii("1") + [TokenAnnotation] + Ascii("test") + [TokenAnnotation, TokenEnd], num)
            == ParseResult([Tal(TimeStamp(120 * Second, Second), Ascii("test"))], None)
  {
    WithDurationLayout(num);
    ParseRoundTrip([BlockWithDuration()], num);
  }

  lemma WithDurationLayout(num: NumberParser)
    requires ReadsTestNumbers(num)
    ensures AllWellFormed([BlockWithDuration()], num)
    ensures Encode([BlockWithDuration()]) ==
      Ascii("+120") + [TokenOnset] + Ascii("1") + [TokenAnnotation] + Ascii("test") + [TokenAnnotation, TokenEnd]
    ensures Records([BlockWithDuration()], num) == [Tal(TimeStamp(120 * Second, Second), Ascii("test"))]
  {
    TestBlocksWellFormed(num);
    EncodeOne(BlockWithDuration());
    AnnotationBytesOne(Ascii("test"));
    assert Zeros(1) == [TokenEnd];
    RecordsOne(BlockWithDuration(), num);
    TalsOne(TimeStamp(120 * Second, Second), Ascii("test"));
  }

  /** TestParse, second row: a stamp without duration reads as duration 0. */
  lemma ParseWithoutDuration(num: NumberParser)
    requires ReadsTestNumbers(num)
    ensures ParseSpec(Ascii("+120") + [TokenAnnotation] + Ascii("test") + [TokenAnnotation, TokenEnd], num)
            == ParseResult([Tal(TimeStamp(120 * Second, 0), Ascii("test"))], None)
  {
    WithoutDurationLayout(num);
    ParseRoundTrip([BlockWithoutDuration([Ascii("test")])], num);
  }

  lemma WithoutDurationLayout(num: NumberParser)
    requires ReadsTestNumbers(num)
    ensures AllWellFormed([BlockWithoutDuration([Ascii("test")])], num)
    ensures BlockBytes(BlockWithoutDuration([Ascii("test")])) ==
      Ascii("+120") + [TokenAnnotation] + Ascii("test") + [TokenAnnotation, TokenEnd]
    ensures Encode([BlockWithoutDuration([Ascii("test")])]) ==
      Ascii("+120") + [TokenAnnotation] + Ascii("test") + [TokenAnnotation, TokenEnd]
    ensures Records([BlockWithoutDuration([Ascii("test")])], num) == [Tal(TimeStamp(120 * Second, 0), Ascii("test"))]
  {
    var b := BlockWithoutDuration([Ascii("test")]);
    TestBlocksWellFormed(num);
    EncodeOne(b);
    AnnotationBytesOne(Ascii("test"));
    assert Zeros(1) == [TokenEnd];
    RecordsOne(b, num);
    TalsOne(TimeStamp(120 * Second, 0), Ascii("test"));
  }

  /** TestParse, third row: two annotations share one stamp. */
  lemma ParseSharedStamp(num: NumberParser)
    requires ReadsTestNumbers(num)
    ensures ParseSpec(Ascii("+120") + [TokenAnnotation] + Ascii("test") + [TokenAnnotation] +
                      Ascii("test2") + [TokenAnnotation, TokenEnd], num)
            == ParseResult([Tal(TimeStamp(120 * Second, 0), Ascii("test")),
                            Tal(TimeStamp(120 * Second, 0), Ascii("test2"))], None)
  {
    SharedStampLayout(num);
    ParseRoundTrip([BlockWithoutDuration([Ascii("test"), Ascii("test2")])], num);
  }

  lemma SharedStampLayout(num: NumberParser)
    requires ReadsTestNumbers(num)
    ensures AllWellFormed([BlockWithoutDuration([Ascii("test"), Ascii("test2")])], num)
    ensures Encode([BlockWithoutDuration([Ascii("test"), Ascii("test2")])]) ==
      Ascii("+120") + [TokenAnnotation] + Ascii("test") + [TokenAnnotation] + Ascii("test2") + [TokenAnnotation, TokenEnd]
    ensures Records([BlockWithoutDuration([Ascii("test"), Ascii("test2")])], num) ==
      [Tal(TimeStamp(120 * Second, 0), Ascii("test")), Tal(TimeStamp(120 * Second, 0), Ascii("test2"))]
  {
    var b := BlockWithoutDuration([Ascii("test"), Ascii("test2")]);
    TestBlocksWellFormed(num);
    EncodeOne(b);
    AnnotationBytesTwo(Ascii("test"), Ascii("test2"));
    assert Zeros(1) == [TokenEnd];
    RecordsOne(b, num);
    TalsTwo(TimeStamp(120 * Second, 0), Ascii("test"), Ascii("test2"));
  }

  /** TestParse, fourth row: a duration, two annotations and two padding bytes. */
  lemma ParseDoublePadding(num: NumberParser)
    requires ReadsTestNumbers(num)
    ensures ParseSpec(Ascii("+120.3") + [TokenOnset] + Ascii("0.5") + [TokenAnnotation] +
                      Ascii("test") + [TokenAnnotation] + Ascii("test2") + [TokenAnnotation, TokenEnd, TokenEnd], num)
            == ParseResult([Tal(TimeStamp(120_300_000_000, 500_000_000), Ascii("test")),
                            Tal(TimeStamp(120_300_000_000, 500_000_000), Ascii("test2"))], None)
  {
    DoublePaddingLayout(num);
    ParseRoundTrip([BlockOfTwo(2)], num);
  }

  lemma DoublePaddingLayout(num: NumberParser)
    requires ReadsTestNumbers(num)
    ensures AllWellFormed([BlockOfTwo(2)], num)
    ensures Encode([BlockOfTwo(2)]) ==
      Ascii("+120.3") + [TokenOnset] + Ascii("0.5") + [TokenAnnotation] +
      Ascii("test") + [TokenAnnotation] + Ascii("test2") + [TokenAnnotation, TokenEnd, TokenEnd]
    ensures Records([BlockOfTwo(2)], num) ==
      [Tal(TimeStamp(120_300_000_000, 500_000_000), Ascii("test")),
       Tal(TimeStamp(120_300_000_000, 500_000_000), Ascii("test2"))]
  {
    OfTwoLayout(2, num);
    assert Zeros(2) == [TokenEnd, TokenEnd];
  }

  lemma OfTwoLayout(padding: nat, num: NumberParser)
    requires ReadsTestNumbers(num) && 0 < padding <= 2
    ensures AllWellFormed([BlockOfTwo(padding)], num)
    ensures BlockBytes(BlockOfTwo(padding)) ==
      Ascii("+120.3") + [TokenOnset] + Ascii("0.5") + [TokenAnnotation] +
      Ascii("test") + [TokenAnnotation] + Ascii("test2") + [TokenAnnotation] + Zeros(padding)
    ensures Encode([BlockOfTwo(padding)]) == BlockBytes(BlockOfTwo(padding))
    ensures Records([BlockOfTwo(padding)], num) ==
      [Tal(TimeStamp(120_300_000_000, 500_000_000), Ascii("test")),
       Tal(TimeStamp(120_300_000_000, 500_000_000), Ascii("test2"))]
  {
    var b := BlockOfTwo(padding);
    TestBlocksWellFormed(num);
    EncodeOne(b);
    OfTwoBytes(b, Ascii("+120.3"), Ascii("0.5"), Ascii("test"), Ascii("test2"));
    RecordsOne(b, num);
    TalsTwo(TimeStamp(120_300_000_000, 500_000_000), Ascii("test"), Ascii("test2"));
  }

  /** The bytes of a block with a duration and two annotations. */
  lemma OfTwoBytes(b: Block, onset: Bytes, duration: Bytes, first: Bytes, second: Bytes)
    requires b.onset == onset && b.duration == Some(duration) && b.annotations == [first, second]
    ensures BlockBytes(b) ==
      onset + [TokenOnset] + duration + [TokenAnnotation] +
      first + [TokenAnnotation] + second + [TokenAnnotation] + Zeros(b.padding)
  {
    AnnotationBytesTwo(first, second);
  }

  /** TestParse, fifth row: two blocks back to back keep buffer order. */
  lemma ParseTwoBlocks(num: NumberParser)
    requires ReadsTestNumbers(num)
    ensures ParseSpec((Ascii("+120") + [TokenAnnotation] + Ascii("test") + [TokenAnnotation, TokenEnd]) +
                      (Ascii("+120.3") + [TokenOnset] + Ascii("0.5") + [TokenAnnotation] +
                       Ascii("test") + [TokenAnnotation] + Ascii("test2") + [TokenAnnotation, TokenEnd]), num)
            == ParseResult([Tal(TimeStamp(120 * Second, 0), Ascii("test")),
                            Tal(TimeStamp(120_300_000_000, 500_000_000), Ascii("test")),
                            Tal(TimeStamp(120_300_000_000, 500_000_000), Ascii("test2"))], None)
  {
    TwoBlocksLayout(num);
    ParseRoundTrip([BlockWithoutDuration([Ascii("test")]), BlockOfTwo(1)], num);
  }

  lemma TwoBlocksLayout(num: NumberParser)
    requires ReadsTestNumbers(num)
    ensures AllWellFormed([BlockWithoutDuration([Ascii("test")]), BlockOfTwo(1)], num)
    ensures Encode([BlockWithoutDuration([Ascii("test")]), BlockOfTwo(1)]) ==
      (Ascii("+120") + [TokenAnnotation] + Ascii("test") + [TokenAnnotation, TokenEnd]) +
      (Ascii("+120.3") + [TokenOnset] + Ascii("0.5") + [TokenAnnotation] +
       Ascii("test") + [TokenAnnotation] + Ascii("test2") + [TokenAnnotation, TokenEnd])
    ensures Records([BlockWithoutDuration([Ascii("test")]), BlockOfTwo(1)], num) ==
      [Tal(TimeStamp(120 * Second, 0), Ascii("test")),
       Tal(TimeStamp(120_300_000_000, 500_000_000), Ascii("test")),
       Tal(TimeStamp(120_300_000_000, 500_000_000), Ascii("test2"))]
  {
    var first, second := BlockWithoutDuration([Ascii("test")]), BlockOfTwo(1);
    WithoutDurationLayout(num);
    OfTwoLayout(1, num);
    assert Zeros(1) == [TokenEnd];
    EncodeTwo(first, second);
    RecordsTwo(first, second, num);
  }

  lemma RecordsTwo(b: Block, c: Block, num: NumberParser)
    requires WellFormed(b, num) && WellFormed(c, num)
    ensures AllWellFormed([b, c], num) && AllWellFormed([b], num) && AllWellFormed([c], num)
    ensures Records([b, c], num) == Records([b], num) + Records([c], num)
  {
    assert [b, c][1..] == [c];
    assert [b][1..] == [] && [c][1..] == [];
  }
}
