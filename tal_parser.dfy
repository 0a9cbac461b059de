/*
 * The parser of tal.go as it is written: cursor loops over an immutable byte
 * buffer. Each method is proved equal to its specification in TalSpec; the
 * scanner also states its result outright.
 */
module TalParser {
  import opened TalSpec

  /**
   * nextToken: the position of the first END, ANNOTATION or ONSET byte, and
   * whether the scan ran off the end of the input instead.
   */
  method NextToken(input: Bytes) returns (pos: nat, end: bool)
    ensures pos <= |input|
    ensures forall j :: 0 <= j < pos ==> !IsSentinel(input[j])
    ensures end <==> pos == |input|
    ensures !end ==> IsSentinel(input[pos])
    ensures pos == FirstSentinel(input)
  {
    var l := |input|;
    pos := 0;
    while pos < l && input[pos] != TokenEnd && input[pos] != TokenAnnotation && input[pos] != TokenOnset
      invariant pos <= l
      invariant forall j :: 0 <= j < pos ==> !IsSentinel(input[j])
    {
      pos := pos + 1;
    }
    end := pos == l;
    FirstSentinelIsFirst(input, pos);
  }

  /** parseStamp; the empty slice (a panic in Go) is excluded by the caller's guard. */
  method ParseStamp(sample: Bytes, num: NumberParser) returns (r: Step<TimeStamp>)
    requires |sample| > 0
    ensures r == StampOf(sample, num)
  {
    if sample[0] != OnsetPlus && sample[0] != OnsetMinus {
      return Failed(InvalidChar, 0);
    }
    var i, end := NextToken(sample);
    if end {
      return Failed(IncompleteAnn, i);
    }
    var token := sample[i];
    if token == TokenEnd {
      return Failed(InvalidChar, i);
    }
    var onset := num(sample[..i]);
    if onset.None? {
      return Failed(NumberFormat(sample[..i]), i);
    }
    assert token == TokenAnnotation ==> StampOf(sample, num) == Done(TimeStamp(onset.value, 0), i + 1);
    // default value in case there is no duration
    var duration := 0;
    if token == TokenOnset {
      i := i + 1;
      var s := i;
      ghost var rest := DurationOf(sample, s, onset.value, num);
      assert StampOf(sample, num) == rest;
      var j;
      j, end := NextToken(sample[s..]);
      i := s + j;
      if end {
        assert rest == Failed(IncompleteAnn, i);
        return Failed(IncompleteAnn, i);
      }
      if sample[i] != TokenAnnotation {
        assert rest == Failed(InvalidChar, i);
        return Failed(InvalidChar, i);
      }
      var d := num(sample[s..i]);
      if d.None? {
        assert rest == Failed(NumberFormat(sample[s..i]), i);
        return Failed(NumberFormat(sample[s..i]), i);
      }
      assert rest == Done(TimeStamp(onset.value, d.value), i + 1);
      duration := d.value;
    }
    return Done(TimeStamp(onset.value, duration), i + 1);
  }

  /** parseAnnotation: the text before ANNOTATION, then the padding loop. */
  method ParseAnnotation(sample: Bytes) returns (r: Step<Bytes>)
    ensures r == AnnotationOf(sample)
  {
    var l := |sample|;
    var pos, end := NextToken(sample);
    if end {
      return Failed(IncompleteAnn, pos);
    }
    var token := sample[pos];
    var ann := sample[..pos];
    if token == TokenEnd || token == TokenOnset {
      return Failed(InvalidChar, pos);
    }
    pos := pos + 1;
    ghost var start := pos;
    while pos < l && sample[pos] == TokenEnd
      invariant start <= pos <= l
      invariant PaddingLength(sample[start..]) == (pos - start) + PaddingLength(sample[pos..])
    {
      assert sample[pos..][1..] == sample[pos + 1..];
      pos := pos + 1;
    }
    return Done(ann, pos);
  }

  /**
   * Parse: the outer loop reads a stamp, the inner loop reads the annotations
   * listed under it until one is followed by padding. On an error the records
   * gathered so far are returned with it.
   */
  method Parse(sample: Bytes, num: NumberParser) returns (result: seq<Tal>, err: Option<Error>)
    ensures ParseResult(result, err) == ParseSpec(sample, num)
    ensures |sample| == 0 ==> result == [] && err == None
  {
    ghost var total := ParseSpec(sample, num);
    result := [];
    var i, l := 0, |sample|;
    assert sample[i..] == sample;
    while i < l
      invariant i <= l
      invariant total == Prefixed(result, ParseSpec(sample[i..], num))
      decreases l - i
    {
      var stamp := ParseStamp(sample[i..], num);
      if stamp.Failed? {
        return result, Some(stamp.error);
      }
      StampStep(sample, i, num, stamp.count, stamp.value);
      ghost var before := i;
      i := i + stamp.count;
      assert sample[i..] == sample[before + stamp.count..];
      while true
        invariant i <= l
        invariant total == Prefixed(result, AnnotationsFrom(sample[i..], stamp.value, num))
        decreases l - i
      {
        var ann := ParseAnnotation(sample[i..]);
        if ann.Failed? {
          return result, Some(ann.error);
        }
        var j := ann.count;
        AnnotationStep(sample, i, stamp.value, num, ann.value, j);
        PrefixedConcat(result, [Tal(stamp.value, ann.value)],
          if j > |ann.value| + 1 then ParseSpec(sample[i + j..], num) else AnnotationsFrom(sample[i + j..], stamp.value, num));
        before := i;
        i := i + j;
        assert sample[i..] == sample[before + j..];
        result := result + [Tal(stamp.value, ann.value)];
        // padding was consumed: a stamp comes next
        if j > |ann.value| + 1 {
          break;
        }
      }
    }
    assert sample[i..] == [];
    return result, None;
  }
}
