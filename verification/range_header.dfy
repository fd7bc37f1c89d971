/**
 * The `Range` request header of the media stream route: the single-range
 * subset of the `bytes` unit of section 2.1 of RFC 7233, read the way the
 * server reads it.
 */
module RangeHeader {
  import opened Wrappers
  import opened Models
  import opened Text

  /** An inclusive span `[start, end]` of byte offsets. */
  datatype ByteRange = ByteRange(start: U64, end: U64)

  const RangeUnitPrefix: string := "bytes="

  predicate StartsWith(s: string, prefix: string) {
    |prefix| <= |s| && s[..|prefix|] == prefix
  }

  /**
   * The span a `Range` header value selects from a file of `fileSize` bytes,
   * or None when the value is refused. The value must start with "bytes=";
   * the text before the first '-' is the first byte position and the text
   * after it the last byte position, each read by `std::stoull` (so a
   * conversion failure refuses the value, and text after the number, such as
   * a second range, is ignored). An empty first position selects a suffix of
   * the file; a last position past the end is clamped to the final byte.
   * `fileSize - 1` is computed modulo 2^64, as in the server.
   */
  function ParseRangeHeader(header: string, fileSize: U64): (r: Option<ByteRange>)
    ensures r.Some? && fileSize > 0 ==> r.value.start <= r.value.end <= fileSize - 1
    ensures r.Some? ==> StartsWith(header, RangeUnitPrefix)
  {
    if !StartsWith(header, RangeUnitPrefix) then None
    else
      var value := header[|RangeUnitPrefix|..];
      match Find(value, '-')
      case None => None
      case Some(dash) =>
        if dash == 0 then SuffixSpan(value[dash + 1..], fileSize)
        else BoundedSpan(value[..dash], value[dash + 1..], fileSize)
  }

  /** "-<n>": the last `n` bytes; an empty or zero `n` is refused. */
  function SuffixSpan(endPart: string, fileSize: U64): (r: Option<ByteRange>)
    ensures r.Some? && fileSize > 0 ==> r.value.start <= r.value.end <= fileSize - 1
  {
    if endPart == [] then None
    else match Stoull(endPart)
      case Failure(_) => None
      case Success(suffixLength) =>
        if suffixLength == 0 then None
        else
          var start := if suffixLength >= fileSize then 0 else fileSize - suffixLength;
          Some(ByteRange(start, WrapU64(fileSize - 1)))
  }

  /** "<s>-" or "<s>-<e>": from `s` to `e`, the end clamped to the final byte. */
  function BoundedSpan(startPart: string, endPart: string, fileSize: U64): (r: Option<ByteRange>)
    ensures r.Some? ==> r.value.start <= r.value.end < fileSize
  {
    match Stoull(startPart)
    case Failure(_) => None
    case Success(start) =>
      if start >= fileSize then None
      else match ClampedEnd(endPart, fileSize)
        case None => None
        case Some(end) => if start > end then None else Some(ByteRange(start, end))
  }

  /** The last byte position: the final byte when omitted or past the end. */
  function ClampedEnd(endPart: string, fileSize: U64): (r: Option<U64>)
    requires fileSize > 0
    ensures r.Some? ==> r.value < fileSize
  {
    if endPart == [] then Some(fileSize - 1)
    else match Stoull(endPart)
      case Failure(_) => None
      case Success(last) => Some(if last >= fileSize then fileSize - 1 else last)
  }

  /** In a number written by `to_string` and followed by '-', the first '-' is right after the number. */
  lemma {:induction false} FindDashAfterNumber(d: string, tail: string)
    requires AllDigits(d)
    ensures Find(d + "-" + tail, '-') == Some(|d|)
  {
    var v := d + "-" + tail;
    assert v[|d|] == '-';
  }

  /** A value "<digits>-<tail>" is read as a first position and a last-position text. */
  lemma {:induction false} SplitAtDash(d: string, tail: string, fileSize: U64)
    requires |d| > 0 && AllDigits(d)
    ensures ParseRangeHeader(RangeUnitPrefix + d + "-" + tail, fileSize) == BoundedSpan(d, tail, fileSize)
  {
    var header := RangeUnitPrefix + d + "-" + tail;
    var value := header[|RangeUnitPrefix|..];
    assert header[..|RangeUnitPrefix|] == RangeUnitPrefix;
    assert value == d + "-" + tail;
    FindDashAfterNumber(d, tail);
    assert value[..|d|] == d;
    assert value[|d| + 1..] == tail;
  }

  /** The span of "<s>-<e>" once both positions have been converted. */
  lemma {:induction false} BoundedSpanOfPositions(startPart: string, endPart: string, first: nat, last: nat, fileSize: U64)
    requires Stoull(startPart) == if first < UINT64_LIMIT then Success(first) else Failure(OutOfRange)
    requires endPart != []
    requires Stoull(endPart) == if last < UINT64_LIMIT then Success(last) else Failure(OutOfRange)
    ensures BoundedSpan(startPart, endPart, fileSize)
         == if first >= fileSize || last >= UINT64_LIMIT then None
            else
              var end := if last >= fileSize then fileSize - 1 else last;
              if first > end then None else Some(ByteRange(first, end))
  {
  }

  /**
   * "bytes=<s>-<e>" selects `[s, min(e, fileSize - 1)]` when `s` lies in the
   * file and does not exceed the clamped end, and nothing otherwise; a
   * position of 2^64 or more is out of range and refuses the value. Text
   * after the last position that does not continue its digits (a second
   * range, for one) changes nothing.
   */
  lemma {:induction false} FirstLastRange(first: nat, last: nat, rest: string, fileSize: U64)
    requires rest == [] || !IsDigit(rest[0])
    ensures ParseRangeHeader(RangeUnitPrefix + NatToString(first) + "-" + (NatToString(last) + rest), fileSize)
         == if first >= fileSize || last >= UINT64_LIMIT then None
            else
              var end := if last >= fileSize then fileSize - 1 else last;
              if first > end then None else Some(ByteRange(first, end))
  {
    var d := NatToString(first);
    var tail := NatToString(last) + rest;
    SplitAtDash(d, tail, fileSize);
    StoullReadsNatToString(first, []);
    assert d + [] == d;
    StoullReadsNatToString(last, rest);
    BoundedSpanOfPositions(d, tail, first, last, fileSize);
  }

  /** "bytes=<s>-" selects from `s` to the final byte when `s` lies in the file. */
  lemma {:induction false} OpenEndedRange(first: nat, fileSize: U64)
    ensures ParseRangeHeader(RangeUnitPrefix + NatToString(first) + "-" + [], fileSize)
         == if first >= fileSize then None else Some(ByteRange(first, fileSize - 1))
  {
    var d := NatToString(first);
    SplitAtDash(d, [], fileSize);
    StoullReadsNatToString(first, []);
    assert d + [] == d;
    OpenEndedSpan(d, first, fileSize);
  }

  /** The span of "<s>-" once the first position has been converted. */
  lemma {:induction false} OpenEndedSpan(startPart: string, first: nat, fileSize: U64)
    requires Stoull(startPart) == if first < UINT64_LIMIT then Success(first) else Failure(OutOfRange)
    ensures BoundedSpan(startPart, [], fileSize) == if first >= fileSize then None else Some(ByteRange(first, fileSize - 1))
  {
  }

  /**
   * "bytes=-<n>" selects the last `n` bytes (the whole file when `n` is at
   * least its size) and refuses `n` = 0. For an empty file the end wraps to
   * 2^64 - 1; the stream route never asks about an empty file.
   */
  lemma {:induction false} SuffixRange(n: nat, rest: string, fileSize: U64)
    requires rest == [] || !IsDigit(rest[0])
    ensures ParseRangeHeader(RangeUnitPrefix + "-" + NatToString(n) + rest, fileSize)
         == if n == 0 || n >= UINT64_LIMIT then None
            else Some(ByteRange(if n >= fileSize then 0 else fileSize - n, WrapU64(fileSize - 1)))
  {
    var tail := NatToString(n) + rest;
    assert RangeUnitPrefix + "-" + NatToString(n) + rest == RangeUnitPrefix + "-" + tail;
    DashFirst(tail, fileSize);
    StoullReadsNatToString(n, rest);
    SuffixSpanOfLength(tail, n, fileSize);
  }

  /** A value "-<tail>" is read as a suffix length. */
  lemma {:induction false} DashFirst(tail: string, fileSize: U64)
    ensures ParseRangeHeader(RangeUnitPrefix + "-" + tail, fileSize) == SuffixSpan(tail, fileSize)
  {
    var header := RangeUnitPrefix + "-" + tail;
    var value := header[|RangeUnitPrefix|..];
    assert header[..|RangeUnitPrefix|] == RangeUnitPrefix;
    assert value == [] + "-" + tail;
    FindDashAfterNumber([], tail);
    assert value[1..] == tail;
  }

  /** The span of "-<n>" once the suffix length has been converted. */
  lemma {:induction false} SuffixSpanOfLength(endPart: string, n: nat, fileSize: U64)
    requires endPart != []
    requires Stoull(endPart) == if n < UINT64_LIMIT then Success(n) else Failure(OutOfRange)
    ensures SuffixSpan(endPart, fileSize)
         == if n == 0 || n >= UINT64_LIMIT then None
            else Some(ByteRange(if n >= fileSize then 0 else fileSize - n, WrapU64(fileSize - 1)))
  {
  }

  /**
   * Values the server refuses outright: a unit other than "bytes", no '-'
   * after the unit, the bare "bytes=-", and a first position with no digit.
   */
  lemma {:induction false} RefusedHeaders(header: string, fileSize: U64)
    ensures !StartsWith(header, RangeUnitPrefix) ==> ParseRangeHeader(header, fileSize).None?
    ensures (forall i :: |RangeUnitPrefix| <= i < |header| ==> header[i] != '-') ==>
              ParseRangeHeader(header, fileSize).None?
    ensures ParseRangeHeader("bytes=-", fileSize).None?
  {
    if StartsWith(header, RangeUnitPrefix) && forall i :: |RangeUnitPrefix| <= i < |header| ==> header[i] != '-' {
      var value := header[|RangeUnitPrefix|..];
      forall i | 0 <= i < |value| ensures value[i] != '-' {
        assert value[i] == header[i + |RangeUnitPrefix|];
      }
    }
    var bare: string := "bytes=-";
    assert bare[|RangeUnitPrefix|..] == "-";
    assert Find("-", '-') == Some(0);
  }

  /** A first position without any digit is a conversion failure, so the value is refused. */
  lemma {:induction false} NonNumericFirstRefused(first: string, tail: string, fileSize: U64)
    requires first != []
    requires forall i :: 0 <= i < |first| ==> first[i] != '-' && !IsDigit(first[i])
    ensures ParseRangeHeader(RangeUnitPrefix + first + "-" + tail, fileSize).None?
  {
    var header := RangeUnitPrefix + first + "-" + tail;
    var value := header[|RangeUnitPrefix|..];
    assert value == first + "-" + tail;
    assert value[|first|] == '-';
    assert value[..|first|] == first;
    NoDigitNoConversion(first);
  }

  /**
   * Writing a selected span back as "bytes=<start>-<end>" selects the same
   * span again: the `Content-Range` the route sends describes a range the
   * server would accept.
   */
  lemma {:induction false} ParsedRangeReparses(header: string, fileSize: U64)
    requires fileSize > 0
    requires ParseRangeHeader(header, fileSize).Some?
    ensures var r := ParseRangeHeader(header, fileSize).value;
            ParseRangeHeader(RangeUnitPrefix + NatToString(r.start) + "-" + NatToString(r.end), fileSize)
              == Some(r)
  {
    var r := ParseRangeHeader(header, fileSize).value;
    FirstLastRange(r.start, r.end, [], fileSize);
    assert NatToString(r.end) + [] == NatToString(r.end);
  }
}
