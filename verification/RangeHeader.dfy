/** Byte-range headers: what the startup cache and the coalescing fetcher read out of a Range
    header, and what they print. Range semantics are those of section 14.1.2 of RFC 9110. */
module RangeHeader {
  import opened Basics
  import opened GoText

  /** An accepted request: the inclusive interval, and whether it had no last position. */
  datatype ByteRange = ByteRange(start: int, end: int, openEnded: bool)

  /** The three range forms of section 14.1.2 of RFC 9110. */
  datatype RangeSpec =
    | Bounded(first: nat, last: nat)
    | From(first: nat)
    | Suffix(length: nat)

  /** The text before and after the '-' of a range form. */
  function Bounds(spec: RangeSpec): (string, string) {
    match spec
    case Bounded(first, last) => (FormatInt(first), FormatInt(last))
    case From(first) => (FormatInt(first), "")
    case Suffix(length) => ("", FormatInt(length))
  }

  /** The header text of a range form. */
  function Header(spec: RangeSpec): string {
    "bytes=" + Bounds(spec).0 + "-" + Bounds(spec).1
  }

  /** The bytes a range form selects from a file of total bytes, or None when it selects nothing.
      A last position or a suffix length beyond the file is clipped. */
  function Selection(spec: RangeSpec, total: int): Option<(int, int)> {
    match spec
    case Bounded(first, last) =>
      if first <= last && first < total then Some((first, if last < total then last else total - 1)) else None
    case From(first) => if first < total then Some((first, total - 1)) else None
    case Suffix(length) =>
      if length > 0 && total > 0 then Some((if length <= total then total - length else 0, total - 1)) else None
  }

  /** The selection did not need clipping. */
  predicate InsideFile(spec: RangeSpec, total: int) {
    match spec
    case Bounded(_, last) => last < total
    case From(_) => true
    case Suffix(length) => length <= total
  }

  predicate Printable(spec: RangeSpec) {
    match spec
    case Bounded(first, last) => first <= MAX_INT64 && last <= MAX_INT64
    case From(first) => first <= MAX_INT64
    case Suffix(length) => length <= MAX_INT64
  }

  /** The three cases of parseRange, on the text before and after the first '-'. */
  function ParseBounds(lo: string, hi: string, total: int): Option<ByteRange> {
    if lo == "" then
      match ParseInt(hi)
      case None => None
      case Some(length) =>
        if length <= 0 || length > total then None else Some(ByteRange(total - length, total - 1, false))
    else if hi == "" then
      match ParseInt(lo)
      case None => None
      case Some(start) =>
        if start < 0 || start >= total then None else Some(ByteRange(start, total - 1, true))
    else
      match (ParseInt(lo), ParseInt(hi))
      case (Some(start), Some(end)) =>
        if start < 0 || end < start || end >= total then None else Some(ByteRange(start, end, false))
      case _ => None
  }

  /** parseRange. */
  function ParseRange(header: string, total: int): Option<ByteRange> {
    var trimmed := TrimSpace(header);
    if !HasPrefix(trimmed, "bytes=") then None
    else match Cut(trimmed[6..], '-')
      case None => None
      case Some((lo, hi)) => ParseBounds(lo, hi, total)
  }

  /** The text explicitRange reads its bounds from: after "bytes=", up to the first comma. */
  function FirstSpec(text: string): string {
    var spec := TrimSpace(text);
    TrimSpace(match Cut(spec, ',') case None => spec case Some((before, _)) => before)
  }

  function ExplicitBounds(lo: string, hi: string): Option<(int, int)> {
    if Blank(lo) || Blank(hi) then None
    else match (ParseInt(TrimSpace(lo)), ParseInt(TrimSpace(hi)))
      case (Some(start), Some(end)) => Some((start, end))
      case _ => None
  }

  /** explicitRange after trimming. */
  function ExplicitOf(trimmed: string): Option<(int, int)> {
    if !HasPrefix(ToLower(trimmed), "bytes=") then None
    else match Cut(FirstSpec(trimmed[6..]), '-')
      case None => None
      case Some((lo, hi)) => ExplicitBounds(lo, hi)
  }

  /** explicitRange. */
  function ExplicitRange(header: string): Option<(int, int)> {
    ExplicitOf(TrimSpace(header))
  }

  // ---------------------------------------------------------------- printing, then parsing

  /** A header text is parsed from the two parts around its first '-'. */
  lemma ParseParts(lo: string, hi: string, total: int)
    requires '-' !in lo
    requires hi != "" ==> !IsSpace(hi[|hi| - 1])
    ensures ParseRange("bytes=" + lo + "-" + hi, total) == ParseBounds(lo, hi, total)
  {
    var h := "bytes=" + lo + "-" + hi;
    assert h[6..] == lo + ['-'] + hi;
    CutOf(lo, '-', hi);
    assert h[0] == 'b' && h[..6] == "bytes=";
    assert h[|h| - 1] == if hi == "" then '-' else hi[|hi| - 1];
    TrimmedFixed(h);
  }

  /** Printed numbers contain digits only. */
  lemma PrintedNat(n: nat)
    requires n <= MAX_INT64
    ensures var s := FormatInt(n);
      s != "" && '-' !in s && !IsSpace(s[|s| - 1]) && Trimmed(s) && ParseInt(s) == Some(n as int)
  {
    FormatNatDigits(n);
    ParseFormatRoundTrip(n);
    var s := FormatInt(n);
    assert IsDigit(s[0]) && IsDigit(s[|s| - 1]);
  }

  /** Parsing a printed header gives exactly the interval the form selects, with its form
      remembered; a form that selects nothing or reaches past the file is refused. */
  lemma ParsePrinted(spec: RangeSpec, total: int)
    requires Printable(spec)
    ensures ParseRange(Header(spec), total) ==
      match Selection(spec, total)
      case Some((start, end)) =>
        if InsideFile(spec, total) then Some(ByteRange(start, end, spec.From?)) else None
      case None => None
  {
    PrintedBounds(spec, total);
    ParseParts(Bounds(spec).0, Bounds(spec).1, total);
  }

  lemma PrintedBounds(spec: RangeSpec, total: int)
    requires Printable(spec)
    ensures var (lo, hi) := Bounds(spec);
      && '-' !in lo && (hi != "" ==> !IsSpace(hi[|hi| - 1]))
      && ParseBounds(lo, hi, total) ==
        match Selection(spec, total)
        case Some((start, end)) =>
          if InsideFile(spec, total) then Some(ByteRange(start, end, spec.From?)) else None
        case None => None
  {
    match spec
    case Bounded(first, last) =>
      PrintedNat(first);
      PrintedNat(last);
    case From(first) =>
      PrintedNat(first);
    case Suffix(length) =>
      PrintedNat(length);
  }

  /** Conversely, any header the cache accepts means one of the three forms, with no clipping. */
  lemma AcceptedMeansAForm(header: string, total: int) returns (spec: RangeSpec)
    requires ParseRange(header, total).Some?
    ensures var r := ParseRange(header, total).value;
      && InsideFile(spec, total)
      && Selection(spec, total) == Some((r.start, r.end))
      && r.openEnded == spec.From?
      && 0 <= r.start <= r.end < total
  {
    var r := ParseRange(header, total).value;
    var parts := Cut(TrimSpace(header)[6..], '-').value;
    spec := if parts.0 == "" then Suffix(total - r.start)
            else if parts.1 == "" then From(r.start)
            else Bounded(r.start, r.end);
  }

  // ---------------------------------------------------------------- the two parsers agree

  lemma ToLowerKeepsPrefix(s: string)
    requires HasPrefix(s, "bytes=")
    ensures HasPrefix(ToLower(s), "bytes=")
  {
    assert s[0] == s[..6][0] && s[1] == s[..6][1] && s[2] == s[..6][2];
    assert s[3] == s[..6][3] && s[4] == s[..6][4] && s[5] == s[..6][5];
    assert ToLower(s)[..6] == "bytes=";
  }

  /** A header that parseRange accepts: explicitRange returns the same pair for the bounded form
      and refuses the suffix and open forms. */
  lemma ParsersAgree(header: string, total: int)
    requires ParseRange(header, total).Some?
    ensures var lo := Cut(TrimSpace(header)[6..], '-').value.0;
      var hi := Cut(TrimSpace(header)[6..], '-').value.1;
      var r := ParseRange(header, total).value;
      ExplicitRange(header) == if lo != "" && hi != "" then Some((r.start, r.end)) else None
  {
    var trimmed := TrimSpace(header);
    ToLowerKeepsPrefix(trimmed);
    var text := trimmed[6..];
    var (lo, hi) := Cut(text, '-').value;
    if lo != "" { ParseIntAlphabet(lo); TrimmedFixed(lo); }
    if hi != "" { ParseIntAlphabet(hi); TrimmedFixed(hi); }
    assert text[0] == (if lo == "" then '-' else lo[0]);
    assert text[|text| - 1] == (if hi == "" then '-' else hi[|hi| - 1]);
    TrimmedFixed(text);
    assert ',' !in lo && ',' !in hi;
    assert ',' !in text;
    assert FirstSpec(text) == text;
  }

  // ---------------------------------------------------------------- Content-Range

  /** The Content-Range of a 206 response, section 14.4 of RFC 9110. */
  function ContentRange(start: int, end: int, total: int): string {
    "bytes " + FormatInt(start) + "-" + FormatInt(end) + "/" + FormatInt(total)
  }

  /** totalLengthFromResponse, on a Content-Range value ("" when absent) and a body length
      (negative when unknown). */
  function TotalLength(contentRange: string, contentLength: int): int {
    var trimmed := TrimSpace(contentRange);
    var fromLength := if contentLength > 0 then contentLength else 0;
    if trimmed == "" then fromLength
    else match Cut(trimmed, '/')
      case None => fromLength
      case Some((_, after)) =>
        if '/' in after then fromLength
        else match ParseInt(TrimSpace(after))
          case Some(total) => total
          case None => fromLength
  }

  /** With an unknown complete length or no Content-Range at all, the length is that of the body, and
      zero when that is unknown too. */
  lemma TotalLengthUnknown(start: int, end: int, contentLength: int)
    requires 0 <= start <= end <= MAX_INT64
    ensures TotalLength("bytes " + FormatInt(start) + "-" + FormatInt(end) + "/*", contentLength)
      == TotalLength("", contentLength)
      == if contentLength > 0 then contentLength else 0
  {
    var before := "bytes " + FormatInt(start) + "-" + FormatInt(end);
    NoSlash(start);
    NoSlash(end);
    var text := before + "/*";
    assert text == before + ['/'] + "*" && '/' !in before;
    TrimmedFixed(text);
    TrimmedFixed("*");
    CutOf(before, '/', "*");
  }

  lemma NoSlash(n: int)
    requires MIN_INT64 <= n <= MAX_INT64
    ensures '/' !in FormatInt(n) && FormatInt(n) != "" && Trimmed(FormatInt(n))
  {
    ParseFormatRoundTrip(n);
    ParseIntAlphabet(FormatInt(n));
  }

  /** The complete length of a printed Content-Range is read back, whatever the body length. */
  lemma TotalLengthOfContentRange(start: int, end: int, total: int, contentLength: int)
    requires 0 <= start <= end < total <= MAX_INT64
    ensures TotalLength(ContentRange(start, end, total), contentLength) == total
  {
    var before := "bytes " + FormatInt(start) + "-" + FormatInt(end);
    var after := FormatInt(total);
    NoSlash(start);
    NoSlash(end);
    NoSlash(total);
    var text := ContentRange(start, end, total);
    assert text == before + ['/'] + after;
    assert text[0] == 'b' && text[|text| - 1] == after[|after| - 1];
    assert Trimmed(text);
    CutOf(before, '/', after);
    ParseFormatRoundTrip(total);
  }
}
