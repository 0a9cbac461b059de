/*
 * Functional specification of the TAL (Time-stamped Annotation List) parser
 * of tal.go: the byte sentinels, the records it builds, and one function per
 * routine (nextToken, parseStamp, parseAnnotation, Parse) that the imperative
 * methods of module TalParser are proved equal to.
 */
module TalSpec {

  /** A Go byte. */
  newtype Byte = x: int | 0 <= x < 256
  type Bytes = seq<Byte>

  /** Nanoseconds, as Go's time.Duration (its 64-bit range is not modelled). */
  type Duration = int

  const OnsetPlus: Byte := 0x2B   // '+'
  const OnsetMinus: Byte := 0x2D  // '-'

  const TokenOnset: Byte := 0x15
  const TokenAnnotation: Byte := 0x14
  const TokenEnd: Byte := 0x00

  datatype Option<T> = None | Some(value: T)

  /** The three ways a parse can fail; NumberFormat carries the rejected text. */
  datatype Error = InvalidChar | IncompleteAnn | NumberFormat(text: Bytes)

  datatype TimeStamp = TimeStamp(onset: Duration, duration: Duration)

  /** One annotation together with the stamp it was listed under. */
  datatype Tal = Tal(stamp: TimeStamp, annotation: Bytes)

  /**
   * What a sub-parser returns: its value and the number of bytes it consumed,
   * or an error and the cursor position at which it stopped.
   */
  datatype Step<T> = Done(value: T, count: nat) | Failed(error: Error, count: nat)

  /** What Parse returns: the records built so far and the error, if any. */
  datatype ParseResult = ParseResult(records: seq<Tal>, err: Option<Error>)

  /**
   * The decimal-number reader (strconv.ParseFloat followed by the scaling to
   * a time.Duration). It is a library routine, so it is left abstract: every
   * function below takes it as a parameter and relies on no property of it.
   */
  type NumberParser = Bytes -> Option<Duration>

  predicate IsSentinel(b: Byte) {
    b == TokenEnd || b == TokenAnnotation || b == TokenOnset
  }

  /** Text that holds none of the three sentinel bytes. */
  predicate NoSentinel(t: Bytes) {
    forall j :: 0 <= j < |t| ==> !IsSentinel(t[j])
  }

  /** Records `records` placed in front of the outcome `p`. */
  function Prefixed(records: seq<Tal>, p: ParseResult): ParseResult {
    ParseResult(records + p.records, p.err)
  }

  /** Position of the first sentinel byte of `s`, or |s| when there is none. */
  function FirstSentinel(s: Bytes): (k: nat)
    ensures k <= |s|
  {
    if |s| == 0 || IsSentinel(s[0]) then 0 else 1 + FirstSentinel(s[1..])
  }

  /** `k` is where a scan for the first sentinel of `s` stops. */
  predicate IsFirstSentinel(s: Bytes, k: nat) {
    k <= |s| &&
    (forall j :: 0 <= j < k ==> !IsSentinel(s[j])) &&
    (k < |s| ==> IsSentinel(s[k]))
  }

  /** FirstSentinel finds the first sentinel, and that position is unique. */
  lemma {:induction false} FirstSentinelIsFirst(s: Bytes, k: nat)
    ensures IsFirstSentinel(s, FirstSentinel(s))
    ensures IsFirstSentinel(s, k) <==> k == FirstSentinel(s)
    decreases |s|
  {
    if |s| > 0 && !IsSentinel(s[0]) {
      FirstSentinelIsFirst(s[1..], if k > 0 then k - 1 else 0);
      assert forall j :: 1 <= j < |s| ==> s[j] == s[1..][j - 1];
      if IsFirstSentinel(s, k) {
        assert k > 0;
        assert IsFirstSentinel(s[1..], k - 1);
      }
    }
  }

  /** The bytes before the first sentinel, as a slice, hold no sentinel. */
  lemma FirstSentinelPrefix(s: Bytes)
    ensures NoSentinel(s[..FirstSentinel(s)])
    ensures FirstSentinel(s) < |s| ==> IsSentinel(s[FirstSentinel(s)])
  {
    FirstSentinelIsFirst(s, 0);
  }

  /** Length of the run of END (padding) bytes at the start of `s`. */
  function PaddingLength(s: Bytes): (p: nat)
    ensures p <= |s|
  {
    if |s| == 0 || s[0] != TokenEnd then 0 else 1 + PaddingLength(s[1..])
  }

  /** PaddingLength covers END bytes only, and all of them. */
  lemma {:induction false} PaddingIsMaximal(s: Bytes)
    ensures forall j :: 0 <= j < PaddingLength(s) ==> s[j] == TokenEnd
    ensures PaddingLength(s) == |s| || s[PaddingLength(s)] != TokenEnd
    decreases |s|
  {
    if |s| > 0 && s[0] == TokenEnd {
      PaddingIsMaximal(s[1..]);
      assert forall j :: 1 <= j < |s| ==> s[j] == s[1..][j - 1];
    }
  }

  /**
   * parseStamp: a sign, the onset number, optionally ONSET and a duration
   * number, then ANNOTATION. On success the count is the position just past
   * the terminating ANNOTATION byte.
   */
  function StampOf(s: Bytes, num: NumberParser): (r: Step<TimeStamp>)
    requires |s| > 0
    ensures r.count <= |s|
    ensures r.Done? ==> 2 <= r.count && s[r.count - 1] == TokenAnnotation
  {
    if s[0] != OnsetPlus && s[0] != OnsetMinus then Failed(InvalidChar, 0)
    else
      var k := FirstSentinel(s);
      if k == |s| then Failed(IncompleteAnn, k)
      else if s[k] == TokenEnd then Failed(InvalidChar, k)
      else match num(s[..k])
        case None => Failed(NumberFormat(s[..k]), k)
        case Some(onset) =>
          if s[k] == TokenAnnotation then Done(TimeStamp(onset, 0), k + 1)
          else DurationOf(s, k + 1, onset, num)
  }

  /**
   * The second half of parseStamp, after an ONSET byte: the duration number
   * from `start` up to the next sentinel, which has to be ANNOTATION.
   */
  function DurationOf(s: Bytes, start: nat, onset: Duration, num: NumberParser): (r: Step<TimeStamp>)
    requires start <= |s|
    ensures start <= r.count <= |s|
    ensures r.Done? ==> start < r.count && s[r.count - 1] == TokenAnnotation
  {
    var e := start + FirstSentinel(s[start..]);
    if e == |s| then Failed(IncompleteAnn, e)
    else if s[e] != TokenAnnotation then Failed(InvalidChar, e)
    else match num(s[start..e])
      case None => Failed(NumberFormat(s[start..e]), e)
      case Some(duration) => Done(TimeStamp(onset, duration), e + 1)
  }

  /** What the duration half's outcomes say about its input. */
  lemma DurationOfCases(s: Bytes, start: nat, onset: Duration, num: NumberParser)
    requires start <= |s|
    ensures var r := DurationOf(s, start, onset, num);
      var e := start + FirstSentinel(s[start..]);
      (r.Failed? ==> r.count == e) &&
      (r.Failed? && r.error == IncompleteAnn ==>
        forall j :: start <= j < |s| ==> !IsSentinel(s[j])) &&
      (r.Failed? && r.error == InvalidChar ==>
        e < |s| && (s[e] == TokenEnd || s[e] == TokenOnset)) &&
      (r.Failed? && r.error.NumberFormat? ==>
        r.error.text == s[start..e] && num(r.error.text) == None && NoSentinel(r.error.text)) &&
      (r.Done? ==>
        r.count - 1 == e && NoSentinel(s[start..r.count - 1]) &&
        r.value.onset == onset && num(s[start..r.count - 1]) == Some(r.value.duration))
  {
    var t := s[start..];
    var e := start + FirstSentinel(t);
    FirstSentinelIsFirst(t, 0);
    assert forall j :: start <= j < |s| ==> s[j] == t[j - start];
    assert s[start..e] == t[..e - start];
  }

  /** A duration the second half accepts: its text ends just before the terminating ANNOTATION byte. */
  lemma DurationDone(s: Bytes, start: nat, onset: Duration, num: NumberParser)
    requires start <= |s| && DurationOf(s, start, onset, num).Done?
    ensures var r := DurationOf(s, start, onset, num);
      start < r.count && s[r.count - 1] == TokenAnnotation && NoSentinel(s[start..r.count - 1]) &&
      r.value.onset == onset && num(s[start..r.count - 1]) == Some(r.value.duration)
  {
    DurationOfCases(s, start, onset, num);
  }

  /** The ways parseStamp fails, and what each says about its input. */
  lemma StampOfFailures(s: Bytes, num: NumberParser)
    requires |s| > 0
    ensures var r := StampOf(s, num);
      // a missing sign is the only failure that consumes nothing
      (r == Failed(InvalidChar, 0) <==> s[0] != OnsetPlus && s[0] != OnsetMinus) &&
      // the buffer ended before the terminating ANNOTATION byte
      (r.Failed? && r.error == IncompleteAnn ==>
        r.count == |s| &&
        forall j :: 0 <= j < |s| ==> s[j] != TokenAnnotation && s[j] != TokenEnd) &&
      // a sentinel in the wrong place: END after the onset, or ONSET / END after the duration
      (r.Failed? && r.error == InvalidChar && r.count > 0 ==>
        r.count < |s| && (s[r.count] == TokenEnd || s[r.count] == TokenOnset)) &&
      (r.Failed? && r.error.NumberFormat? ==>
        num(r.error.text) == None && NoSentinel(r.error.text))
  {
    var k := FirstSentinel(s);
    FirstSentinelIsFirst(s, k);
    if (s[0] != OnsetPlus && s[0] != OnsetMinus) || k == |s| || s[k] == TokenEnd {
    } else {
      assert NoSentinel(s[..k]);
      if num(s[..k]).Some? && s[k] == TokenOnset {
        DurationOfCases(s, k + 1, num(s[..k]).value, num);
      }
    }
  }

  /**
   * A stamp parseStamp accepts: its onset text is everything before the first
   * sentinel; without ONSET the duration is 0, with it the rest is read by
   * the duration half (whose outcomes DurationOfCases describes).
   */
  lemma StampOfDone(s: Bytes, num: NumberParser)
    requires |s| > 0 && StampOf(s, num).Done?
    ensures s[0] == OnsetPlus || s[0] == OnsetMinus
    ensures 0 < FirstSentinel(s) < StampOf(s, num).count
    ensures s[FirstSentinel(s)] == TokenAnnotation || s[FirstSentinel(s)] == TokenOnset
    ensures NoSentinel(s[..FirstSentinel(s)])
    ensures num(s[..FirstSentinel(s)]) == Some(StampOf(s, num).value.onset)
    ensures s[FirstSentinel(s)] == TokenAnnotation ==>
      StampOf(s, num) == Done(TimeStamp(StampOf(s, num).value.onset, 0), FirstSentinel(s) + 1)
    ensures s[FirstSentinel(s)] == TokenOnset ==>
      StampOf(s, num) == DurationOf(s, FirstSentinel(s) + 1, StampOf(s, num).value.onset, num)
  {
    var k := FirstSentinel(s);
    var r := StampOf(s, num);
    assert k < |s| && s[k] != TokenEnd && num(s[..k]).Some?;
    assert k > 0 by {
      assert !IsSentinel(s[0]);
    }
    FirstSentinelPrefix(s);
    var onset := num(s[..k]).value;
    if s[k] == TokenAnnotation {
      assert r == Done(TimeStamp(onset, 0), k + 1);
    } else {
      var d := DurationOf(s, k + 1, onset, num);
      assert r == d;
      assert k + 1 < d.count && d.value.onset == onset;
    }
  }

  /**
   * parseAnnotation: the text up to the next ANNOTATION byte, then that byte,
   * then every END (padding) byte that follows it.
   */
  function AnnotationOf(s: Bytes): (r: Step<Bytes>)
    ensures r.count <= |s|
    ensures r.Done? ==> |r.value| < r.count
  {
    var k := FirstSentinel(s);
    if k == |s| then Failed(IncompleteAnn, k)
    else if s[k] == TokenEnd || s[k] == TokenOnset then Failed(InvalidChar, k)
    else Done(s[..k], k + 1 + PaddingLength(s[k + 1..]))
  }

  /** What parseAnnotation's outcomes say about its input. */
  lemma AnnotationOfCases(s: Bytes)
    ensures var r := AnnotationOf(s);
      r.Done? ==>
        var k := |r.value|;
        k < |s| && r.value == s[..k] && NoSentinel(r.value) && s[k] == TokenAnnotation &&
        (forall j :: k < j < r.count ==> s[j] == TokenEnd) &&
        (r.count == |s| || s[r.count] != TokenEnd) &&
        // padding was swallowed exactly when END follows the ANNOTATION byte
        (r.count > k + 1 <==> k + 1 < |s| && s[k + 1] == TokenEnd)
    ensures var r := AnnotationOf(s);
      r.Failed? ==>
        r.count == FirstSentinel(s) &&
        (r.error == IncompleteAnn <==> NoSentinel(s)) &&
        (r.error == InvalidChar <==> r.count < |s| && (s[r.count] == TokenEnd || s[r.count] == TokenOnset)) &&
        !r.error.NumberFormat?
  {
    var k := FirstSentinel(s);
    FirstSentinelIsFirst(s, k);
    if k < |s| {
      PaddingIsMaximal(s[k + 1..]);
      assert forall j :: k + 1 <= j < |s| ==> s[j] == s[k + 1..][j - (k + 1)];
    }
  }

  /**
   * Parse, in the state where a stamp is expected: its outer loop. An empty
   * remainder ends the parse successfully.
   */
  function ParseSpec(s: Bytes, num: NumberParser): (r: ParseResult)
    ensures |s| == 0 ==> r == ParseResult([], None)
    decreases |s|, 1
  {
    if |s| == 0 then ParseResult([], None)
    else match StampOf(s, num)
      case Failed(e, _) => ParseResult([], Some(e))
      case Done(stamp, n) => AnnotationsFrom(s[n..], stamp, num)
  }

  /**
   * Parse, in the state where an annotation under `stamp` is expected: its
   * inner loop. Padding after an annotation sends it back to expecting a
   * stamp; no padding means another annotation follows.
   */
  function AnnotationsFrom(s: Bytes, stamp: TimeStamp, num: NumberParser): (r: ParseResult)
    ensures |s| == 0 ==> r == ParseResult([], Some(IncompleteAnn))
    decreases |s|, 0
  {
    match AnnotationOf(s)
    case Failed(e, _) => ParseResult([], Some(e))
    case Done(ann, j) =>
      var next := if j > |ann| + 1 then ParseSpec(s[j..], num) else AnnotationsFrom(s[j..], stamp, num);
      Prefixed([Tal(stamp, ann)], next)
  }

  /**
   * A parse that succeeds consumed a buffer closed by padding (or an empty
   * one), and returned at least one record for a non-empty buffer.
   */
  lemma {:induction false} ParseSpecShape(s: Bytes, num: NumberParser)
    decreases |s|, 1
    ensures ParseSpec(s, num).err.None? ==> |s| == 0 || s[|s| - 1] == TokenEnd
    ensures ParseSpec(s, num).err.None? ==> (|ParseSpec(s, num).records| == 0 <==> |s| == 0)
  {
    if |s| > 0 {
      match StampOf(s, num)
      case Failed(_, _) =>
      case Done(stamp, n) =>
        AnnotationsFromShape(s[n..], stamp, num);
        if n < |s| {
          assert s[n..][|s[n..]| - 1] == s[|s| - 1];
        }
    }
  }

  /** The same for the inner loop; its first record carries the stamp it was given. */
  lemma {:induction false} AnnotationsFromShape(s: Bytes, stamp: TimeStamp, num: NumberParser)
    decreases |s|, 0
    ensures AnnotationsFrom(s, stamp, num).err.None? ==> |s| > 0 && s[|s| - 1] == TokenEnd
    ensures AnnotationsFrom(s, stamp, num).err.None? ==>
      |AnnotationsFrom(s, stamp, num).records| > 0 && AnnotationsFrom(s, stamp, num).records[0].stamp == stamp
  {
    match AnnotationOf(s)
    case Failed(_, _) =>
    case Done(ann, j) =>
      assert j > |ann| + 1 ==> s[j - 1] == TokenEnd by {
        AnnotationOfCases(s);
      }
      if j > |ann| + 1 {
        ParseSpecShape(s[j..], num);
      } else {
        AnnotationsFromShape(s[j..], stamp, num);
      }
      if j < |s| {
        assert s[j..][|s[j..]| - 1] == s[|s| - 1];
      }
  }

  /** Every record a parse returns, complete or not, has a sentinel-free annotation text. */
  lemma {:induction false} ParseSpecClean(s: Bytes, num: NumberParser)
    decreases |s|, 1
    ensures forall i :: 0 <= i < |ParseSpec(s, num).records| ==> NoSentinel(ParseSpec(s, num).records[i].annotation)
  {
    if |s| > 0 {
      match StampOf(s, num)
      case Failed(_, _) =>
      case Done(stamp, n) =>
        AnnotationsFromClean(s[n..], stamp, num);
    }
  }

  lemma {:induction false} AnnotationsFromClean(s: Bytes, stamp: TimeStamp, num: NumberParser)
    decreases |s|, 0
    ensures forall i :: 0 <= i < |AnnotationsFrom(s, stamp, num).records| ==>
      NoSentinel(AnnotationsFrom(s, stamp, num).records[i].annotation)
  {
    match AnnotationOf(s)
    case Failed(_, _) =>
    case Done(ann, j) =>
      assert NoSentinel(ann) by {
        AnnotationOfCases(s);
      }
      var next := if j > |ann| + 1 then ParseSpec(s[j..], num) else AnnotationsFrom(s[j..], stamp, num);
      if j > |ann| + 1 {
        ParseSpecClean(s[j..], num);
      } else {
        AnnotationsFromClean(s[j..], stamp, num);
      }
      var records := AnnotationsFrom(s, stamp, num).records;
      assert records == [Tal(stamp, ann)] + next.records;
      forall i | 0 <= i < |records|
        ensures NoSentinel(records[i].annotation)
      {
        if i > 0 {
          assert records[i] == next.records[i - 1];
        }
      }
  }

  lemma PrefixedConcat(first: seq<Tal>, second: seq<Tal>, p: ParseResult)
    ensures Prefixed(first, Prefixed(second, p)) == Prefixed(first + second, p)
  {
    assert first + (second + p.records) == (first + second) + p.records;
  }

  /** One turn of the outer loop: a stamp was read at offset `i`. */
  lemma StampStep(sample: Bytes, i: nat, num: NumberParser, n: nat, stamp: TimeStamp)
    requires i < |sample| && StampOf(sample[i..], num) == Done(stamp, n)
    ensures i + n <= |sample|
    ensures ParseSpec(sample[i..], num) == AnnotationsFrom(sample[i + n..], stamp, num)
  {
    assert sample[i..][n..] == sample[i + n..];
  }

  /** One turn of the inner loop: an annotation was read at offset `i`. */
  lemma AnnotationStep(sample: Bytes, i: nat, stamp: TimeStamp, num: NumberParser, ann: Bytes, j: nat)
    requires i <= |sample| && AnnotationOf(sample[i..]) == Done(ann, j)
    ensures i + j <= |sample|
    ensures AnnotationsFrom(sample[i..], stamp, num) ==
      Prefixed([Tal(stamp, ann)],
        if j > |ann| + 1 then ParseSpec(sample[i + j..], num) else AnnotationsFrom(sample[i + j..], stamp, num))
  {
    assert sample[i..][j..] == sample[i + j..];
  }
}
