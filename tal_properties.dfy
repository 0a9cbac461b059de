/*
 * What a well-formed TAL buffer looks like, written as an encoder of blocks
 * (one stamp, the annotations listed under it, the padding that closes it),
 * and how the parser of TalSpec relates to it: well-formed blocks parse back
 * to their records, a parse that succeeds was given well-formed blocks, and
 * the records of complete blocks survive whatever follows them.
 */
module TalProperties {
  import opened TalSpec

  /**
   * One TAL block: the onset text (sign included), the optional duration
   * text, the annotation texts that share the stamp, and the number of END
   * bytes that close it.
   */
  datatype Block = Block(onset: Bytes, duration: Option<Bytes>, annotations: seq<Bytes>, padding: nat)

  /** A stamp parseStamp accepts: signed onset, sentinel-free fields the number reader accepts. */
  predicate WellFormedStamp(onset: Bytes, duration: Option<Bytes>, num: NumberParser) {
    |onset| > 0 && (onset[0] == OnsetPlus || onset[0] == OnsetMinus) &&
    NoSentinel(onset) && num(onset).Some? &&
    (duration.Some? ==> NoSentinel(duration.value) && num(duration.value).Some?)
  }

  predicate WellFormed(b: Block, num: NumberParser) {
    WellFormedStamp(b.onset, b.duration, num) &&
    |b.annotations| > 0 &&
    (forall k :: 0 <= k < |b.annotations| ==> NoSentinel(b.annotations[k])) &&
    b.padding > 0
  }

  predicate AllWellFormed(blocks: seq<Block>, num: NumberParser) {
    forall k :: 0 <= k < |blocks| ==> WellFormed(blocks[k], num)
  }

  /** Bytes that do not begin with padding. */
  predicate NoLeadingEnd(s: Bytes) {
    |s| == 0 || s[0] != TokenEnd
  }

  function StampBytes(onset: Bytes, duration: Option<Bytes>): Bytes {
    onset + (match duration case None => [] case Some(d) => [TokenOnset] + d) + [TokenAnnotation]
  }

  /** Each annotation followed by its ANNOTATION terminator. */
  function AnnotationBytes(anns: seq<Bytes>): Bytes {
    if |anns| == 0 then [] else anns[0] + [TokenAnnotation] + AnnotationBytes(anns[1..])
  }

  function Zeros(n: nat): Bytes {
    seq(n, _ => TokenEnd)
  }

  function BlockBytes(b: Block): Bytes {
    StampBytes(b.onset, b.duration) + AnnotationBytes(b.annotations) + Zeros(b.padding)
  }

  function Encode(blocks: seq<Block>): Bytes {
    if |blocks| == 0 then [] else BlockBytes(blocks[0]) + Encode(blocks[1..])
  }

  function StampValue(onset: Bytes, duration: Option<Bytes>, num: NumberParser): TimeStamp
    requires num(onset).Some? && (duration.Some? ==> num(duration.value).Some?)
  {
    TimeStamp(num(onset).value, match duration case None => 0 case Some(d) => num(d).value)
  }

  /** The records of one block: every annotation paired with the block's stamp. */
  function Tals(stamp: TimeStamp, anns: seq<Bytes>): seq<Tal> {
    if |anns| == 0 then [] else [Tal(stamp, anns[0])] + Tals(stamp, anns[1..])
  }

  function Records(blocks: seq<Block>, num: NumberParser): seq<Tal>
    requires AllWellFormed(blocks, num)
  {
    if |blocks| == 0 then []
    else
      var b := blocks[0];
      Tals(StampValue(b.onset, b.duration, num), b.annotations) + Records(blocks[1..], num)
  }

  // ---------------------------------------------------------------------------
  // The scanners on encoded text

  /** The scan stops at the first sentinel after sentinel-free text. */
  lemma FirstSentinelAfterText(t: Bytes, rest: Bytes)
    requires NoSentinel(t) && |rest| > 0 && IsSentinel(rest[0])
    ensures FirstSentinel(t + rest) == |t|
  {
    assert (t + rest)[|t|] == rest[0];
    assert IsFirstSentinel(t + rest, |t|);
    FirstSentinelIsFirst(t + rest, |t|);
  }

  /** The padding loop takes exactly the END bytes and stops at the next byte. */
  lemma {:induction false} PaddingOfZeros(p: nat, rest: Bytes)
    requires NoLeadingEnd(rest)
    ensures PaddingLength(Zeros(p) + rest) == p
  {
    if p > 0 {
      assert (Zeros(p) + rest)[1..] == Zeros(p - 1) + rest;
      PaddingOfZeros(p - 1, rest);
    } else {
      assert Zeros(p) + rest == rest;
    }
  }

  /** parseStamp reads back an encoded stamp and consumes exactly its bytes. */
  lemma StampOfEncoded(onset: Bytes, duration: Option<Bytes>, rest: Bytes, num: NumberParser)
    requires WellFormedStamp(onset, duration, num)
    ensures StampOf(StampBytes(onset, duration) + rest, num) ==
            Done(StampValue(onset, duration, num), |StampBytes(onset, duration)|)
  {
    match duration
    case None =>
      assert StampBytes(onset, duration) + rest == onset + [TokenAnnotation] + rest;
      OnsetOnlyEncoded(onset, rest, num);
    case Some(d) =>
      assert StampBytes(onset, duration) + rest == onset + ([TokenOnset] + d) + [TokenAnnotation] + rest;
      OnsetDurationEncoded(onset, d, rest, num);
  }

  lemma OnsetOnlyEncoded(onset: Bytes, rest: Bytes, num: NumberParser)
    requires WellFormedStamp(onset, None, num)
    ensures StampOf(onset + [TokenAnnotation] + rest, num) == Done(TimeStamp(num(onset).value, 0), |onset| + 1)
  {
    var s := onset + [TokenAnnotation] + rest;
    assert s[0] == onset[0];
    assert FirstSentinel(s) == |onset| by {
      assert s == onset + ([TokenAnnotation] + rest);
      FirstSentinelAfterText(onset, [TokenAnnotation] + rest);
    }
    assert s[..|onset|] == onset;
  }

  lemma OnsetDurationEncoded(onset: Bytes, d: Bytes, rest: Bytes, num: NumberParser)
    requires WellFormedStamp(onset, Some(d), num)
    ensures StampOf(onset + ([TokenOnset] + d) + [TokenAnnotation] + rest, num) ==
            Done(TimeStamp(num(onset).value, num(d).value), |onset| + |d| + 2)
  {
    var s := onset + ([TokenOnset] + d) + [TokenAnnotation] + rest;
    var k := |onset|;
    var after := d + ([TokenAnnotation] + rest);
    assert FirstSentinel(s) == k && s[k + 1..] == after by {
      assert s == onset + ([TokenOnset] + after);
      FirstSentinelAfterText(onset, [TokenOnset] + after);
    }
    assert FirstSentinel(after) == |d| by {
      FirstSentinelAfterText(d, [TokenAnnotation] + rest);
    }
    assert s[0] == onset[0] && s[k] == TokenOnset && s[..k] == onset;
    assert s[k + 1 + |d|] == TokenAnnotation && s[k + 1..k + 1 + |d|] == d;
    StampOfSentinels(s, k, k + |d| + 2, num);
  }

  /** parseStamp on a signed buffer with ONSET at `k` and the next sentinel, ANNOTATION, at `n - 1`. */
  lemma StampOfSentinels(s: Bytes, k: nat, n: nat, num: NumberParser)
    requires k + 1 < n <= |s| && (s[0] == OnsetPlus || s[0] == OnsetMinus)
    requires FirstSentinel(s) == k && s[k] == TokenOnset && num(s[..k]).Some?
    requires FirstSentinel(s[k + 1..]) == n - 1 - (k + 1) && s[n - 1] == TokenAnnotation
    requires num(s[k + 1..n - 1]).Some?
    ensures StampOf(s, num) == Done(TimeStamp(num(s[..k]).value, num(s[k + 1..n - 1]).value), n)
  {
    assert StampOf(s, num) == DurationOf(s, k + 1, num(s[..k]).value, num) by {
      assert k < |s| && s[k] != TokenEnd && s[k] != TokenAnnotation;
    }
    DurationOfSentinel(s, k + 1, n, num(s[..k]).value, num);
  }

  /** The duration half on a buffer whose next sentinel, ANNOTATION, is at `n - 1`. */
  lemma DurationOfSentinel(s: Bytes, start: nat, n: nat, onset: Duration, num: NumberParser)
    requires start < n <= |s|
    requires FirstSentinel(s[start..]) == n - 1 - start && s[n - 1] == TokenAnnotation
    requires num(s[start..n - 1]).Some?
    ensures DurationOf(s, start, onset, num) == Done(TimeStamp(onset, num(s[start..n - 1]).value), n)
  {
  }

  /** parseAnnotation reads back one annotation with its terminator and padding. */
  lemma AnnotationOfEncoded(a: Bytes, p: nat, rest: Bytes)
    requires NoSentinel(a) && NoLeadingEnd(rest)
    ensures AnnotationOf(a + [TokenAnnotation] + Zeros(p) + rest) == Done(a, |a| + 1 + p)
  {
    var s := a + [TokenAnnotation] + Zeros(p) + rest;
    assert s == a + ([TokenAnnotation] + (Zeros(p) + rest));
    FirstSentinelAfterText(a, [TokenAnnotation] + (Zeros(p) + rest));
    assert s[|a| + 1..] == Zeros(p) + rest;
    PaddingOfZeros(p, rest);
    assert s[..|a|] == a;
  }

  /** Encoded annotations never start with padding. */
  lemma AnnotationBytesNoLeadingEnd(anns: seq<Bytes>, tail: Bytes)
    requires |anns| > 0 && NoSentinel(anns[0])
    ensures NoLeadingEnd(AnnotationBytes(anns) + tail)
  {
    if |anns[0]| == 0 {
      assert (AnnotationBytes(anns) + tail)[0] == TokenAnnotation;
    } else {
      assert (AnnotationBytes(anns) + tail)[0] == anns[0][0];
    }
  }

  /** Encoded blocks never start with padding either: they start with a sign. */
  lemma EncodeNoLeadingEnd(blocks: seq<Block>, rest: Bytes, num: NumberParser)
    requires AllWellFormed(blocks, num) && NoLeadingEnd(rest)
    ensures NoLeadingEnd(Encode(blocks) + rest)
  {
    if |blocks| > 0 {
      assert (Encode(blocks) + rest)[0] == blocks[0].onset[0];
    }
  }

  // ---------------------------------------------------------------------------
  // Parse on encoded blocks

  /**
   * The annotations of a block, closed by padding, yield one record each,
   * all under the block's stamp, and hand over to the stamp that follows.
   */
  lemma {:induction false} AnnotationsFromEncoded(anns: seq<Bytes>, p: nat, rest: Bytes, stamp: TimeStamp, num: NumberParser)
    requires |anns| > 0 && (forall k :: 0 <= k < |anns| ==> NoSentinel(anns[k]))
    requires p > 0 && NoLeadingEnd(rest)
    ensures AnnotationsFrom(AnnotationBytes(anns) + Zeros(p) + rest, stamp, num) ==
            Prefixed(Tals(stamp, anns), ParseSpec(rest, num))
  {
    if |anns| == 1 {
      var _ := AnnotationBlockSplit(anns, p, rest);
      TalsCons(stamp, anns[0], []);
      assert anns == [anns[0]] + [];
      AnnotationParses(anns[0], p, rest, stamp, num);
    } else {
      AnnotationsFromEncoded(anns[1..], p, rest, stamp, num);
      AnnotationsFromCons(anns, p, rest, stamp, num);
    }
  }

  /** The inductive step of AnnotationsFromEncoded: one more annotation in front. */
  lemma AnnotationsFromCons(anns: seq<Bytes>, p: nat, rest: Bytes, stamp: TimeStamp, num: NumberParser)
    requires |anns| > 1 && (forall k :: 0 <= k < |anns| ==> NoSentinel(anns[k]))
    requires NoLeadingEnd(rest)
    requires AnnotationsFrom(AnnotationBytes(anns[1..]) + Zeros(p) + rest, stamp, num) ==
             Prefixed(Tals(stamp, anns[1..]), ParseSpec(rest, num))
    ensures AnnotationsFrom(AnnotationBytes(anns) + Zeros(p) + rest, stamp, num) ==
            Prefixed(Tals(stamp, anns), ParseSpec(rest, num))
  {
    var a := anns[0];
    assert anns == [a] + anns[1..];
    TalsCons(stamp, a, anns[1..]);
    var tail := AnnotationBlockSplit(anns, p, rest);
    AnnotationParses(a, 0, tail, stamp, num);
    PrefixedConcat([Tal(stamp, a)], Tals(stamp, anns[1..]), ParseSpec(rest, num));
  }

  /**
   * The first annotation of an encoded block, and what follows it: the
   * padding and the rest for the last annotation, the next annotation
   * (which never starts with END) otherwise.
   */
  lemma AnnotationBlockSplit(anns: seq<Bytes>, p: nat, rest: Bytes) returns (tail: Bytes)
    requires |anns| > 0 && (forall k :: 0 <= k < |anns| ==> NoSentinel(anns[k]))
    requires NoLeadingEnd(rest)
    ensures |anns| == 1 ==> AnnotationBytes(anns) + Zeros(p) + rest == anns[0] + [TokenAnnotation] + Zeros(p) + rest
    ensures |anns| > 1 ==>
      tail == AnnotationBytes(anns[1..]) + Zeros(p) + rest && NoLeadingEnd(tail) &&
      AnnotationBytes(anns) + Zeros(p) + rest == anns[0] + [TokenAnnotation] + Zeros(0) + tail
  {
    var a := anns[0];
    assert anns == [a] + anns[1..];
    AnnotationBytesCons(a, anns[1..]);
    tail := AnnotationBytes(anns[1..]) + Zeros(p) + rest;
    if |anns| > 1 {
      AnnotationBytesNoLeadingEnd(anns[1..], Zeros(p) + rest);
      assert tail == AnnotationBytes(anns[1..]) + (Zeros(p) + rest);
      assert Zeros(0) == [];
    }
  }

  /** One encoded annotation: padding after it sends the parse back to reading a stamp. */
  lemma AnnotationParses(a: Bytes, p: nat, tail: Bytes, stamp: TimeStamp, num: NumberParser)
    requires NoSentinel(a) && NoLeadingEnd(tail)
    ensures AnnotationsFrom(a + [TokenAnnotation] + Zeros(p) + tail, stamp, num) ==
            Prefixed([Tal(stamp, a)], if p > 0 then ParseSpec(tail, num) else AnnotationsFrom(tail, stamp, num))
  {
    var s := a + [TokenAnnotation] + Zeros(p) + tail;
    AnnotationOfEncoded(a, p, tail);
    assert s[0..] == s && s[|a| + 1 + p..] == tail;
    AnnotationStep(s, 0, stamp, num, a, |a| + 1 + p);
  }

  /**
   * Without closing padding the last annotation is read as if another one
   * followed, and the parse stops with IncompleteAnn at the end of the
   * buffer, after emitting every annotation of the block.
   */
  lemma {:induction false} AnnotationsFromUnpadded(anns: seq<Bytes>, stamp: TimeStamp, num: NumberParser)
    requires |anns| > 0 && (forall k :: 0 <= k < |anns| ==> NoSentinel(anns[k]))
    ensures AnnotationsFrom(AnnotationBytes(anns), stamp, num) ==
            ParseResult(Tals(stamp, anns), Some(IncompleteAnn))
  {
    var a := anns[0];
    var s := AnnotationBytes(anns);
    var tail := AnnotationBytes(anns[1..]);
    assert s[0..] == s;
    assert s == a + [TokenAnnotation] + Zeros(0) + tail;
    assert NoLeadingEnd(tail) by {
      if |anns| > 1 {
        AnnotationBytesNoLeadingEnd(anns[1..], []);
        assert tail + [] == tail;
      }
    }
    AnnotationOfEncoded(a, 0, tail);
    AnnotationStep(s, 0, stamp, num, a, |a| + 1);
    assert s[|a| + 1..] == tail;
    if |anns| == 1 {
      assert AnnotationOf([]) == Failed(IncompleteAnn, 0);
    } else {
      AnnotationsFromUnpadded(anns[1..], stamp, num);
    }
  }

  /**
   * Back-to-back well-formed blocks parse to their records in buffer order;
   * whatever follows them is parsed on its own, and its records or its
   * error come after theirs.
   */
  lemma {:induction false} ParseConcat(blocks: seq<Block>, rest: Bytes, num: NumberParser)
    requires AllWellFormed(blocks, num) && NoLeadingEnd(rest)
    ensures ParseSpec(Encode(blocks) + rest, num) == Prefixed(Records(blocks, num), ParseSpec(rest, num))
  {
    if |blocks| == 0 {
      assert Encode(blocks) + rest == rest;
    } else {
      var b := blocks[0];
      var after := Encode(blocks[1..]) + rest;
      assert Encode(blocks) + rest == BlockBytes(b) + after;
      assert AllWellFormed(blocks[1..], num);
      EncodeNoLeadingEnd(blocks[1..], rest, num);
      BlockParses(b, after, num);
      ParseConcat(blocks[1..], rest, num);
      PrefixedConcat(Tals(StampValue(b.onset, b.duration, num), b.annotations), Records(blocks[1..], num), ParseSpec(rest, num));
    }
  }

  /** One well-formed block parses to its records, then hands over to what follows it. */
  lemma BlockParses(b: Block, after: Bytes, num: NumberParser)
    requires WellFormed(b, num) && NoLeadingEnd(after)
    ensures ParseSpec(BlockBytes(b) + after, num) ==
            Prefixed(Tals(StampValue(b.onset, b.duration, num), b.annotations), ParseSpec(after, num))
  {
    var stampText := StampBytes(b.onset, b.duration);
    var annText := AnnotationBytes(b.annotations) + Zeros(b.padding) + after;
    var stamp := StampValue(b.onset, b.duration, num);
    var s := BlockBytes(b) + after;
    assert s == stampText + annText;
    assert s[0..] == s && s[|stampText|..] == annText;
    StampOfEncoded(b.onset, b.duration, annText, num);
    StampStep(s, 0, num, |stampText|, stamp);
    AnnotationsFromEncoded(b.annotations, b.padding, after, stamp, num);
  }

  /** Well-formed blocks parse back to exactly their records, without error. */
  lemma ParseRoundTrip(blocks: seq<Block>, num: NumberParser)
    requires AllWellFormed(blocks, num)
    ensures ParseSpec(Encode(blocks), num) == ParseResult(Records(blocks, num), None)
  {
    ParseConcat(blocks, [], num);
    assert Encode(blocks) + [] == Encode(blocks);
    assert Records(blocks, num) + [] == Records(blocks, num);
  }

  /**
   * A final block without padding: every record is still returned, together
   * with IncompleteAnn, because the parser looks for one more annotation.
   */
  lemma UnpaddedTail(blocks: seq<Block>, last: Block, num: NumberParser)
    requires AllWellFormed(blocks, num) && WellFormed(last, num)
    ensures ParseSpec(Encode(blocks) + StampBytes(last.onset, last.duration) + AnnotationBytes(last.annotations), num) ==
            ParseResult(Records(blocks, num) + Tals(StampValue(last.onset, last.duration, num), last.annotations),
                        Some(IncompleteAnn))
  {
    var stampText := StampBytes(last.onset, last.duration);
    var annText := AnnotationBytes(last.annotations);
    var tail := stampText + annText;
    var stamp := StampValue(last.onset, last.duration, num);
    assert tail[0] == last.onset[0];
    assert tail[0..] == tail;
    assert tail[|stampText|..] == annText;
    assert Encode(blocks) + stampText + annText == Encode(blocks) + tail;
    ParseConcat(blocks, tail, num);
    StampOfEncoded(last.onset, last.duration, annText, num);
    StampStep(tail, 0, num, |stampText|, stamp);
    AnnotationsFromUnpadded(last.annotations, stamp, num);
  }

  // ---------------------------------------------------------------------------
  // A successful parse was given well-formed blocks

  /** A stamp parseStamp accepts is an encoded well-formed stamp. */
  lemma StampDecoded(s: Bytes, num: NumberParser) returns (onset: Bytes, duration: Option<Bytes>)
    requires |s| > 0 && StampOf(s, num).Done?
    ensures StampLayout(s, StampOf(s, num).count, StampOf(s, num).value, onset, duration, num)
  {
    var r := StampOf(s, num);
    var k := FirstSentinel(s);
    StampOfDone(s, num);
    onset := s[..k];
    if s[k] == TokenAnnotation {
      duration := None;
      OnsetOnlyLayout(s, k, r.value, num);
    } else {
      DurationDone(s, k + 1, r.value.onset, num);
      duration := Some(s[k + 1..r.count - 1]);
      OnsetDurationLayout(s, k, r.count, r.value, num);
    }
  }

  /**
   * `s` starts with the `n` bytes of a well-formed encoded stamp whose value
   * is `v`.
   */
  predicate StampLayout(s: Bytes, n: nat, v: TimeStamp, onset: Bytes, duration: Option<Bytes>, num: NumberParser) {
    WellFormedStamp(onset, duration, num) &&
    n == |StampBytes(onset, duration)| && n <= |s| &&
    s == StampBytes(onset, duration) + s[n..] &&
    v == StampValue(onset, duration, num)
  }

  /** A signed onset closed by ANNOTATION at `k`. */
  lemma OnsetOnlyLayout(s: Bytes, k: nat, v: TimeStamp, num: NumberParser)
    requires 0 < k < |s| && (s[0] == OnsetPlus || s[0] == OnsetMinus) && s[k] == TokenAnnotation
    requires NoSentinel(s[..k]) && num(s[..k]) == Some(v.onset) && v.duration == 0
    ensures StampLayout(s, k + 1, v, s[..k], None, num)
  {
    assert s[..k][0] == s[0];
    OnsetOnlyBytes(s, k);
  }

  /** A signed onset, ONSET at `k`, a duration, and ANNOTATION at `n - 1`. */
  lemma OnsetDurationLayout(s: Bytes, k: nat, n: nat, v: TimeStamp, num: NumberParser)
    requires 0 < k && k + 1 < n <= |s| && (s[0] == OnsetPlus || s[0] == OnsetMinus)
    requires s[k] == TokenOnset && s[n - 1] == TokenAnnotation
    requires NoSentinel(s[..k]) && num(s[..k]) == Some(v.onset)
    requires NoSentinel(s[k + 1..n - 1]) && num(s[k + 1..n - 1]) == Some(v.duration)
    ensures StampLayout(s, n, v, s[..k], Some(s[k + 1..n - 1]), num)
  {
    assert s[..k][0] == s[0];
    OnsetDurationBytes(s, k, n);
  }

  /** A buffer whose first sentinel is ANNOTATION, as an encoded stamp without duration. */
  lemma OnsetOnlyBytes(s: Bytes, k: nat)
    requires k < |s| && s[k] == TokenAnnotation
    ensures s == StampBytes(s[..k], None) + s[k + 1..]
  {
    assert s == s[..k] + [TokenAnnotation] + s[k + 1..];
  }

  /** A buffer with ONSET at `k` and ANNOTATION at `n - 1`, as an encoded stamp with duration. */
  lemma OnsetDurationBytes(s: Bytes, k: nat, n: nat)
    requires k + 1 < n <= |s| && s[k] == TokenOnset && s[n - 1] == TokenAnnotation
    ensures s == StampBytes(s[..k], Some(s[k + 1..n - 1])) + s[n..]
  {
    assert s == s[..k] + ([TokenOnset] + s[k + 1..n - 1]) + [TokenAnnotation] + s[n..];
  }

  /** An annotation parseAnnotation accepts, laid out as the encoder writes it. */
  lemma AnnotationDone(s: Bytes)
    requires AnnotationOf(s).Done?
    ensures var r := AnnotationOf(s);
      NoSentinel(r.value) && NoLeadingEnd(s[r.count..]) &&
      s == r.value + [TokenAnnotation] + Zeros(r.count - |r.value| - 1) + s[r.count..]
  {
    var r := AnnotationOf(s);
    var a, j := r.value, r.count;
    AnnotationOfCases(s);
    assert s[|a| + 1..j] == Zeros(j - |a| - 1);
    assert s == s[..|a|] + [s[|a|]] + s[|a| + 1..j] + s[j..];
  }

  /** Putting one more sentinel-free annotation in front of encoded ones. */
  lemma ConsAnnotation(a: Bytes, more: seq<Bytes>, tail: Bytes)
    requires NoSentinel(a) && forall k :: 0 <= k < |more| ==> NoSentinel(more[k])
    ensures forall k :: 0 <= k < |[a] + more| ==> NoSentinel(([a] + more)[k])
    ensures a + [TokenAnnotation] + (AnnotationBytes(more) + tail) == AnnotationBytes([a] + more) + tail
  {
    AnnotationBytesCons(a, more);
  }

  lemma AnnotationBytesCons(a: Bytes, more: seq<Bytes>)
    ensures AnnotationBytes([a] + more) == a + [TokenAnnotation] + AnnotationBytes(more)
  {
    assert ([a] + more)[1..] == more;
  }

  lemma TalsCons(stamp: TimeStamp, a: Bytes, more: seq<Bytes>)
    ensures Tals(stamp, [a] + more) == [Tal(stamp, a)] + Tals(stamp, more)
  {
    assert ([a] + more)[1..] == more;
  }

  /**
   * `s` is the encoding of sentinel-free annotations closed by `p` END bytes,
   * followed by a shorter remainder that does not start with padding.
   */
  predicate AnnotationLayout(s: Bytes, anns: seq<Bytes>, p: nat, rest: Bytes) {
    |anns| > 0 && (forall k :: 0 <= k < |anns| ==> NoSentinel(anns[k])) &&
    p > 0 && NoLeadingEnd(rest) && |rest| < |s| &&
    s == AnnotationBytes(anns) + Zeros(p) + rest
  }

  /** The last annotation of a block: the one parseAnnotation found padding after. */
  lemma LastAnnotationLayout(s: Bytes) returns (anns: seq<Bytes>, p: nat, rest: Bytes)
    requires AnnotationOf(s).Done? && AnnotationOf(s).count > |AnnotationOf(s).value| + 1
    ensures AnnotationLayout(s, anns, p, rest)
  {
    var a, j := AnnotationOf(s).value, AnnotationOf(s).count;
    AnnotationDone(s);
    anns, p, rest := [a], j - |a| - 1, s[j..];
    AnnotationBytesCons(a, []);
    assert a + [TokenAnnotation] + [] == a + [TokenAnnotation];
  }

  /** An annotation without padding after it, in front of the rest of its block. */
  lemma ConsAnnotationLayout(s: Bytes, more: seq<Bytes>, p: nat, rest: Bytes) returns (anns: seq<Bytes>)
    requires AnnotationOf(s).Done? && AnnotationOf(s).count == |AnnotationOf(s).value| + 1
    requires AnnotationLayout(s[AnnotationOf(s).count..], more, p, rest)
    ensures AnnotationLayout(s, anns, p, rest)
  {
    var a, j := AnnotationOf(s).value, AnnotationOf(s).count;
    AnnotationDone(s);
    anns := [a] + more;
    ConsAnnotation(a, more, Zeros(p) + rest);
    assert s == a + [TokenAnnotation] + s[j..] by {
      assert Zeros(0) == [];
    }
    assert s[j..] == AnnotationBytes(more) + (Zeros(p) + rest);
  }

  /**
   * The annotations AnnotationsFrom accepts are encoded sentinel-free texts
   * closed by padding, followed by a remainder that parses on its own.
   */
  lemma {:induction false} AnnotationsDecoded(s: Bytes, stamp: TimeStamp, num: NumberParser)
    returns (anns: seq<Bytes>, p: nat, rest: Bytes)
    requires AnnotationsFrom(s, stamp, num).err.None?
    ensures AnnotationLayout(s, anns, p, rest)
    ensures AnnotationsFrom(s, stamp, num) == Prefixed(Tals(stamp, anns), ParseSpec(rest, num))
    decreases |s|
  {
    var r := AnnotationOf(s);
    assert r.Done?;
    var j := r.count;
    if j > |r.value| + 1 {
      anns, p, rest := LastAnnotationLayout(s);
    } else {
      assert AnnotationsFrom(s[j..], stamp, num).err.None? by {
        assert s[0..] == s;
        AnnotationStep(s, 0, stamp, num, r.value, j);
      }
      var more;
      more, p, rest := AnnotationsDecoded(s[j..], stamp, num);
      anns := ConsAnnotationLayout(s, more, p, rest);
    }
    AnnotationsFromEncoded(anns, p, rest, stamp, num);
  }

  /**
   * The converse of ParseRoundTrip: a parse that succeeds was given the
   * encoding of well-formed blocks, and returned exactly their records.
   */
  lemma {:induction false} ParseDecoded(s: Bytes, num: NumberParser) returns (blocks: seq<Block>)
    requires ParseSpec(s, num).err.None?
    ensures AllWellFormed(blocks, num)
    ensures Encode(blocks) == s
    ensures Records(blocks, num) == ParseSpec(s, num).records
    decreases |s|
  {
    if |s| == 0 {
      blocks := [];
    } else {
      var r := StampOf(s, num);
      assert r.Done?;
      var n := r.count;
      var onset, duration := StampDecoded(s, num);
      assert AnnotationsFrom(s[n..], r.value, num).err.None? by {
        assert s[0..] == s;
        StampStep(s, 0, num, n, r.value);
      }
      var anns, p, rest := AnnotationsDecoded(s[n..], r.value, num);
      var more := ParseDecoded(rest, num);
      blocks := [Block(onset, duration, anns, p)] + more;
      BlockCons(s, Block(onset, duration, anns, p), more, num);
    }
    ParseRoundTrip(blocks, num);
  }

  /** A decoded block in front of the blocks decoded from the rest of the buffer. */
  lemma BlockCons(s: Bytes, b: Block, more: seq<Block>, num: NumberParser)
    requires WellFormedStamp(b.onset, b.duration, num)
    requires |StampBytes(b.onset, b.duration)| <= |s|
    requires s == StampBytes(b.onset, b.duration) + s[|StampBytes(b.onset, b.duration)|..]
    requires AnnotationLayout(s[|StampBytes(b.onset, b.duration)|..], b.annotations, b.padding, Encode(more))
    requires AllWellFormed(more, num)
    ensures AllWellFormed([b] + more, num)
    ensures Encode([b] + more) == s
  {
    assert ([b] + more)[1..] == more;
    assert forall k :: 1 <= k < |[b] + more| ==> ([b] + more)[k] == more[k - 1];
  }
}
