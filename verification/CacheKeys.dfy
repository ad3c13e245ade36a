/** Keys under which bytes are cached, and when two requests can share one. */
module CacheKeys {
  import opened Basics
  import opened GoText
  import opened RangeHeader

  // ---------------------------------------------------------------- coalescing key

  /** int64 wrap-around of a sum that exceeds the type by less than its range. */
  function Wrap64(x: int): int {
    if x > MAX_INT64 then x - 0x1_0000_0000_0000_0000 else x
  }

  /** The key of a URL and a trimmed range header. */
  function KeyText(url: string, range: string): string {
    "media-buffer:" + url + "|" + range
  }

  /** coalescingRangeKey. */
  function CoalescingKey(url: string, header: string, maxBytes: int): Option<string> {
    match ExplicitRange(header)
    case None => None
    case Some((start, end)) =>
      if start < 0 || end < start || Wrap64(end - start + 1) > maxBytes then None
      else Some(KeyText(url, TrimSpace(header)))
  }

  /** The size test holds back every range longer than the limit except the one whose length
      overflows int64. */
  lemma CoalescedSize(url: string, header: string, maxBytes: int)
    requires 0 <= maxBytes < MAX_INT64
    requires CoalescingKey(url, header, maxBytes).Some?
    ensures var (start, end) := ExplicitRange(header).value;
      end - start + 1 <= maxBytes <==> !(start == 0 && end == MAX_INT64)
  {
    var (start, end) := ExplicitRange(header).value;
    ExplicitBoundsAreInt64(header);
  }

  /** Which requests have a key, and what it is: those with two bounds in order whose range is within
      the limit, or is the one that wraps. */
  lemma CoalescingKeyIs(url: string, header: string, maxBytes: int)
    requires 0 <= maxBytes < MAX_INT64
    ensures CoalescingKey(url, header, maxBytes).Some? <==>
      && ExplicitRange(header).Some?
      && var (start, end) := ExplicitRange(header).value;
      0 <= start <= end && (end - start + 1 <= maxBytes || (start == 0 && end == MAX_INT64))
    ensures CoalescingKey(url, header, maxBytes).Some? ==>
      CoalescingKey(url, header, maxBytes).value == "media-buffer:" + url + "|" + TrimSpace(header)
  {
    if ExplicitRange(header).Some? { ExplicitBoundsAreInt64(header); }
  }

  /** The unit of a range may be written in any case. */
  lemma ExplicitOfUnit(unit: string, start: nat, end: nat)
    requires ToLower(unit) == "bytes=" && start <= MAX_INT64 && end <= MAX_INT64
    ensures ExplicitOf(unit + (FormatInt(start) + "-" + FormatInt(end))) == Some((start as int, end as int))
  {
    var text := FormatInt(start) + "-" + FormatInt(end);
    PlainSpec(start, end);
    UnitPrefix(unit, text);
  }

  /** Of a list of ranges the first one counts. */
  lemma ExplicitOfList(unit: string, start: nat, end: nat, rest: string)
    requires ToLower(unit) == "bytes=" && start <= MAX_INT64 && end <= MAX_INT64
    requires rest != "" && !IsSpace(rest[|rest| - 1])
    ensures ExplicitOf(unit + (FormatInt(start) + "-" + FormatInt(end) + "," + rest)) == Some((start as int, end as int))
  {
    var text := FormatInt(start) + "-" + FormatInt(end);
    PlainSpec(start, end);
    FirstSpecWithComma(text, rest);
    UnitPrefix(unit, text + "," + rest);
  }

  /** There may be space around the bounds. */
  lemma ExplicitOfSpaced(start: nat, end: nat)
    requires start <= MAX_INT64 && end <= MAX_INT64
    ensures ExplicitBounds(" " + FormatInt(start) + " ", " " + FormatInt(end) + " ") == Some((start as int, end as int))
  {
    NoComma(start);
    NoComma(end);
    PrintedNat(start);
    PrintedNat(end);
    SpaceAround(FormatInt(start));
    SpaceAround(FormatInt(end));
  }

  lemma PlainSpec(start: nat, end: nat)
    requires start <= MAX_INT64 && end <= MAX_INT64
    ensures var text := FormatInt(start) + "-" + FormatInt(end);
      && ',' !in text && Trimmed(text) && !Blank(text) && FirstSpec(text) == text
      && Cut(text, '-') == Some((FormatInt(start), FormatInt(end)))
      && ExplicitBounds(FormatInt(start), FormatInt(end)) == Some((start as int, end as int))
  {
    var lo, hi := FormatInt(start), FormatInt(end);
    var text := lo + "-" + hi;
    PrintedNat(start);
    PrintedNat(end);
    NoComma(start);
    NoComma(end);
    assert text[0] == lo[0] && text[|text| - 1] == hi[|hi| - 1];
    TrimmedFixed(text);
    FirstSpecOfPlain(text);
    assert text == lo + ['-'] + hi;
    CutOf(lo, '-', hi);
    TrimmedFixed(lo);
    TrimmedFixed(hi);
  }

  lemma NoComma(n: nat)
    requires n <= MAX_INT64
    ensures ',' !in FormatInt(n) && Trimmed(FormatInt(n)) && FormatInt(n) != ""
  {
    PrintedNat(n);
    ParseIntAlphabet(FormatInt(n));
  }

  lemma FirstSpecOfPlain(text: string)
    requires ',' !in text && Trimmed(text)
    ensures FirstSpec(text) == text
  {
    TrimmedFixed(text);
  }

  lemma UnitPrefix(unit: string, text: string)
    requires ToLower(unit) == "bytes="
    ensures HasPrefix(ToLower(unit + text), "bytes=") && (unit + text)[6..] == text
  {
    ToLowerConcat(unit, text);
    assert |unit| == 6;
  }

  lemma SpaceAround(s: string)
    requires Trimmed(s) && s != ""
    ensures TrimSpace(" " + s + " ") == s
  {
    var t := " " + s + " ";
    assert t[1..] == s + " " && (s + " ")[0] == s[0];
    assert TrimLeft(t) == s + " ";
    assert (s + " ")[..|s|] == s && s[|s| - 1] == (s + " ")[..|s|][|s| - 1];
    assert TrimRight(s) == s;
  }

  /** The one exception is accepted whatever the limit: the header printed for the first 2^63
      bytes of a file. */
  lemma WrappingHeaderAccepted(url: string, maxBytes: nat)
    ensures var header := Header(Bounded(0, MAX_INT64));
      && ExplicitRange(header) == Some((0, MAX_INT64))
      && CoalescingKey(url, header, maxBytes).Some?
  {
    var spec := Bounded(0, MAX_INT64);
    var header := Header(spec);
    ParsePrinted(spec, MAX_INT64 + 1);
    ParsersAgree(header, MAX_INT64 + 1);
    var (lo, hi) := Cut(TrimSpace(header)[6..], '-').value;
    assert ParseBounds(lo, hi, MAX_INT64 + 1) == Some(ByteRange(0, MAX_INT64, false));
  }

  lemma ExplicitBoundsAreInt64(header: string)
    requires ExplicitRange(header).Some?
    ensures ExplicitRange(header).value.0 <= MAX_INT64 && ExplicitRange(header).value.1 <= MAX_INT64
  {
  }

  /** Without a comma, the text an accepted header is read from holds signs, digits and space. */
  lemma CommaFreeTextHasNoBar(text: string)
    requires ',' !in text
    requires Cut(FirstSpec(text), '-').Some?
    requires var (lo, hi) := Cut(FirstSpec(text), '-').value; ExplicitBounds(lo, hi).Some?
    ensures '|' !in text
  {
    var spec := TrimSpace(text);
    assert ',' !in spec && spec == TrimSpace(spec) by { TrimSpaceTrims(text); }
    assert FirstSpec(text) == spec;
    var (lo, hi) := Cut(spec, '-').value;
    IntTextHasNoBar(lo);
    IntTextHasNoBar(hi);
    assert spec == lo + ['-'] + hi;
    assert '|' !in spec;
    TrimSpaceKeeps(text);
  }

  lemma IntTextHasNoBar(s: string)
    requires ParseInt(TrimSpace(s)).Some?
    ensures '|' !in s
  {
    ParseIntAlphabet(TrimSpace(s));
    TrimSpaceKeeps(s);
  }

  lemma PrefixHasNoBar(s: string)
    requires HasPrefix(ToLower(s), "bytes=")
    ensures '|' !in s[..6]
  {
    forall i | 0 <= i < 6 ensures s[i] != '|' {
      assert LowerRune(s[i]) == ToLower(s)[..6][i] == "bytes="[i];
    }
  }

  lemma CommaFreeTrimmedHasNoBar(trimmed: string)
    requires ExplicitOf(trimmed).Some? && ',' !in trimmed
    ensures '|' !in trimmed
  {
    PrefixHasNoBar(trimmed);
    CommaFreeTextHasNoBar(trimmed[6..]);
    assert trimmed == trimmed[..6] + trimmed[6..];
  }

  /** An accepted header without a comma contains no '|'. */
  lemma CommaFreeHasNoBar(header: string)
    requires ExplicitRange(header).Some? && ',' !in header
    ensures '|' !in TrimSpace(header)
  {
    TrimSpaceTrims(header);
    CommaFreeTrimmedHasNoBar(TrimSpace(header));
  }

  /** One text is the other preceded by a '|' (and anything before that). */
  predicate EndsAfterBar(long: string, short: string) {
    HasSuffix(long, "|" + short)
  }

  lemma KeyTextTail(url1: string, range1: string, url2: string, range2: string)
    requires KeyText(url1, range1) == KeyText(url2, range2)
    requires |range1| > |range2|
    ensures EndsAfterBar(range1, range2)
  {
    var k := KeyText(url1, range1);
    assert k[|k| - |range1|..] == range1;
    var n := |range2| + 1;
    assert k[|k| - n..] == "|" + range2;
    assert range1[|range1| - n..] == k[|k| - n..];
  }

  lemma SameLengthRanges(url1: string, range1: string, url2: string, range2: string)
    requires KeyText(url1, range1) == KeyText(url2, range2)
    requires |range1| == |range2|
    ensures url1 == url2 && range1 == range2
  {
    var k := KeyText(url1, range1);
    assert k[|k| - |range1|..] == range1 && k[|k| - |range2|..] == range2;
    assert k[13..13 + |url1|] == url1 && k[13..13 + |url2|] == url2;
  }

  /** Two range texts can meet in one key for different requests exactly when one of them ends in
      '|' and the other. */
  lemma KeyCollision(range1: string, range2: string)
    ensures (exists url1, url2 :: KeyText(url1, range1) == KeyText(url2, range2) && (url1, range1) != (url2, range2))
      <==> EndsAfterBar(range1, range2) || EndsAfterBar(range2, range1)
  {
    forall url1, url2 | KeyText(url1, range1) == KeyText(url2, range2) && (url1, range1) != (url2, range2)
      ensures EndsAfterBar(range1, range2) || EndsAfterBar(range2, range1)
    {
      if |range1| > |range2| {
        KeyTextTail(url1, range1, url2, range2);
      } else if |range2| > |range1| {
        KeyTextTail(url2, range2, url1, range1);
      } else {
        SameLengthRanges(url1, range1, url2, range2);
      }
    }
    if EndsAfterBar(range1, range2) {
      CollidingUrls(range1, range2);
    } else if EndsAfterBar(range2, range1) {
      CollidingUrls(range2, range1);
    }
  }

  lemma CollidingUrls(long: string, short: string)
    requires EndsAfterBar(long, short)
    ensures KeyText("", long) == KeyText("|" + long[..|long| - |short| - 1], short)
  {
    var n := |long| - |short| - 1;
    assert long == long[..n] + ("|" + short);
    calc {
      KeyText("", long);
      "media-buffer:" + "" + "|" + (long[..n] + ("|" + short));
      "media-buffer:" + ("|" + long[..n]) + "|" + short;
      KeyText("|" + long[..n], short);
    }
  }

  /** Accepted headers without a comma never share a key unless URL and trimmed header agree. */
  lemma CommaFreeKeysInjective(url1: string, header1: string, url2: string, header2: string, maxBytes: int)
    requires CoalescingKey(url1, header1, maxBytes).Some?
    requires CoalescingKey(url1, header1, maxBytes) == CoalescingKey(url2, header2, maxBytes)
    requires ',' !in header1 && ',' !in header2
    ensures url1 == url2 && TrimSpace(header1) == TrimSpace(header2)
  {
    var range1, range2 := TrimSpace(header1), TrimSpace(header2);
    CommaFreeHasNoBar(header1);
    CommaFreeHasNoBar(header2);
    if (url1, range1) != (url2, range2) {
      KeyCollision(range1, range2);
      if EndsAfterBar(range1, range2) { BarInside(range1, range2); } else { BarInside(range2, range1); }
      assert false;
    }
  }

  /** A text that is the trimmed form of an accepted header. */
  predicate AcceptedText(text: string, maxBytes: int) {
    TrimSpace(text) == text && CoalescingKey("", text, maxBytes).Some?
  }

  function Accepted(maxBytes: int): string -> bool {
    (text: string) => AcceptedText(text, maxBytes)
  }

  /** The range, cut after one of its bars, leaves an accepted range. */
  predicate RangeSplits(range: string, accepted: string -> bool) {
    exists i :: 0 <= i < |range| && range[i] == '|' && accepted(range[i + 1..])
  }

  /** The URL, cut at one of its bars, leaves the start of an accepted range that goes on with this one. */
  predicate UrlSplits(url: string, range: string, accepted: string -> bool) {
    exists i :: 0 <= i < |url| && url[i] == '|' && accepted(url[i + 1..] + "|" + range)
  }

  /** A different URL or range, the range an accepted one, has the same key text. */
  ghost predicate SharesText(url: string, range: string, accepted: string -> bool) {
    exists url', range' :: KeyText(url', range') == KeyText(url, range) && accepted(range') && (url', range') != (url, range)
  }

  /** Equal keys where the first range is the longer one: it ends in a bar and the second, and the
      second URL is the first one, a bar, and the rest of the first range. */
  lemma KeyTextSplit(url1: string, range1: string, url2: string, range2: string)
    requires KeyText(url1, range1) == KeyText(url2, range2) && |range1| > |range2|
    ensures var i := |range1| - |range2| - 1;
      range1[i] == '|' && range1[i + 1..] == range2 && url2 == url1 + "|" + range1[..i]
  {
    KeyTextTail(url1, range1, url2, range2);
    var i := |range1| - |range2| - 1;
    var k := KeyText(url1, range1);
    assert range1[i..][0] == '|' && range1[i..][1..] == range1[i + 1..] == range2;
    assert k[13..13 + |url2|] == url2;
    assert range1 == range1[..i] + range1[i..];
    assert k == "media-buffer:" + (url1 + "|" + range1[..i]) + ("|" + range2);
  }

  lemma SplitKeyText(url: string, range: string, i: nat)
    requires i < |range| && range[i] == '|'
    ensures KeyText(url, range) == KeyText(url + "|" + range[..i], range[i + 1..])
  {
    assert range == range[..i] + "|" + range[i + 1..];
    calc {
      KeyText(url, range);
      "media-buffer:" + url + "|" + (range[..i] + "|" + range[i + 1..]);
      "media-buffer:" + (url + "|" + range[..i]) + "|" + range[i + 1..];
      KeyText(url + "|" + range[..i], range[i + 1..]);
    }
  }

  lemma SplitUrlText(url: string, range: string, i: nat)
    requires i < |url| && url[i] == '|'
    ensures var range' := url[i + 1..] + "|" + range;
      KeyText(url[..i], range') == KeyText(url, range) && |range'| != |range|
  {
    var range' := url[i + 1..] + "|" + range;
    var n := |url| - i - 1;
    SplitKeyText(url[..i], range', n);
    assert range'[..n] == url[i + 1..] && range'[n + 1..] == range;
    assert url[..i] + "|" + url[i + 1..] == url;
  }

  lemma SharedTextSplits(url: string, range: string, url': string, range': string, accepted: string -> bool)
    requires KeyText(url, range) == KeyText(url', range') && (url, range) != (url', range')
    requires accepted(range')
    ensures RangeSplits(range, accepted) || UrlSplits(url, range, accepted)
  {
    if |range| > |range'| {
      KeyTextSplit(url, range, url', range');
    } else if |range'| > |range| {
      KeyTextSplit(url', range', url, range);
      var i, j := |range'| - |range| - 1, |url'|;
      assert url[j] == '|' && url[j + 1..] == range'[..i];
      assert range'[..i] + "|" + range'[i + 1..] == range';
    } else {
      SameLengthRanges(url, range, url', range');
    }
  }

  lemma SharesTextIff(url: string, range: string, accepted: string -> bool)
    ensures SharesText(url, range, accepted) <==> RangeSplits(range, accepted) || UrlSplits(url, range, accepted)
  {
    forall url', range' | KeyText(url', range') == KeyText(url, range) && accepted(range') && (url', range') != (url, range)
      ensures RangeSplits(range, accepted) || UrlSplits(url, range, accepted)
    {
      SharedTextSplits(url, range, url', range', accepted);
    }
    if RangeSplits(range, accepted) {
      var i :| 0 <= i < |range| && range[i] == '|' && accepted(range[i + 1..]);
      SplitKeyText(url, range, i);
      assert |range[i + 1..]| != |range|;
    }
    if UrlSplits(url, range, accepted) {
      var i :| 0 <= i < |url| && url[i] == '|' && accepted(url[i + 1..] + "|" + range);
      SplitUrlText(url, range, i);
    }
  }

  /** Another accepted request, for another URL or range, has the same key. */
  ghost predicate SharesItsKey(url: string, header: string, maxBytes: int) {
    exists url', header' ::
      && CoalescingKey(url', header', maxBytes) == CoalescingKey(url, header, maxBytes)
      && (url', TrimSpace(header')) != (url, TrimSpace(header))
  }

  lemma AcceptedTextIs(url: string, text: string, maxBytes: int)
    requires AcceptedText(text, maxBytes)
    ensures CoalescingKey(url, text, maxBytes) == Some(KeyText(url, text)) && TrimSpace(text) == text
  {
    KeyOfTrimmed(url, text, text, maxBytes);
    KeyOfTrimmed("", text, text, maxBytes);
  }

  lemma TrimmedHeaderAccepted(url: string, header: string, maxBytes: int)
    requires CoalescingKey(url, header, maxBytes).Some?
    ensures AcceptedText(TrimSpace(header), maxBytes)
    ensures CoalescingKey(url, header, maxBytes) == Some(KeyText(url, TrimSpace(header)))
  {
    var range := TrimSpace(header);
    TrimSpaceTrims(header);
    KeyOfTrimmed(url, header, range, maxBytes);
    KeyOfTrimmed("", range, range, maxBytes);
  }

  lemma SharedKeyIsSharedText(url: string, header: string, maxBytes: int)
    requires CoalescingKey(url, header, maxBytes).Some?
    ensures SharesItsKey(url, header, maxBytes) <==> SharesText(url, TrimSpace(header), Accepted(maxBytes))
  {
    var range, accepted := TrimSpace(header), Accepted(maxBytes);
    TrimmedHeaderAccepted(url, header, maxBytes);
    forall url', header' | CoalescingKey(url', header', maxBytes) == CoalescingKey(url, header, maxBytes)
        && (url', TrimSpace(header')) != (url, range)
      ensures SharesText(url, range, accepted)
    {
      TrimmedHeaderAccepted(url', header', maxBytes);
      assert accepted(TrimSpace(header'));
    }
    forall url', range' | KeyText(url', range') == KeyText(url, range) && accepted(range') && (url', range') != (url, range)
      ensures SharesItsKey(url, header, maxBytes)
    {
      AcceptedTextIs(url', range', maxBytes);
    }
  }

  /** An accepted request shares its key with a different accepted one exactly when its range or
      its URL can be cut at a bar so that an accepted range results. */
  lemma SharesItsKeyIff(url: string, header: string, maxBytes: int)
    requires CoalescingKey(url, header, maxBytes).Some?
    ensures SharesItsKey(url, header, maxBytes)
      <==> RangeSplits(TrimSpace(header), Accepted(maxBytes)) || UrlSplits(url, TrimSpace(header), Accepted(maxBytes))
  {
    SharedKeyIsSharedText(url, header, maxBytes);
    SharesTextIff(url, TrimSpace(header), Accepted(maxBytes));
  }

  /** A request whose URL and range hold no bar shares its key with no different request at all:
      only its own bytes can answer it. */
  lemma BarFreeKeyIsOwn(url: string, header: string, url': string, header': string, maxBytes: int)
    requires CoalescingKey(url, header, maxBytes).Some?
    requires CoalescingKey(url, header, maxBytes) == CoalescingKey(url', header', maxBytes)
    requires '|' !in url && '|' !in header
    ensures url' == url && TrimSpace(header') == TrimSpace(header)
  {
    TrimSpaceTrims(header);
    if (url', TrimSpace(header')) != (url, TrimSpace(header)) {
      assert SharesItsKey(url, header, maxBytes);
      SharesItsKeyIff(url, header, maxBytes);
      assert false;
    }
  }

  lemma BarInside(long: string, short: string)
    requires EndsAfterBar(long, short)
    ensures '|' in long
  {
    var n := |long| - |short| - 1;
    assert long[n..][0] == '|' && long[n] == long[n..][0];
  }

  /** The text explicitRange reads does not change when a comma and anything follow it. */
  lemma FirstSpecWithComma(text: string, rest: string)
    requires ',' !in text && !Blank(text) && rest != "" && !IsSpace(rest[|rest| - 1])
    ensures FirstSpec(text + "," + rest) == FirstSpec(text)
  {
    var left := TrimLeft(text);
    TrimLeftStart(text);
    BlankLeft(text);
    TrimLeftAppend(text, "," + rest);
    var long := text + "," + rest;
    assert long == text + ("," + rest);
    assert TrimLeft(long) == left + ("," + rest) == left + [','] + rest;
    assert TrimSpace(long) == TrimLeft(long);
    CutOf(left, ',', rest);
    TrimLeftStart(left);
    assert TrimLeft(left) == left;
    TrimSpaceTrims(text);
    assert ',' !in TrimSpace(text);
  }

  lemma {:induction false} BlankLeft(s: string)
    ensures TrimLeft(s) == [] ==> Blank(s)
  {
  }

  lemma {:induction false} TrimLeftAppend(s: string, more: string)
    requires TrimLeft(s) != []
    ensures TrimLeft(s + more) == TrimLeft(s) + more
  {
    if IsSpace(s[0]) {
      assert (s + more)[1..] == s[1..] + more;
      TrimLeftAppend(s[1..], more);
    }
  }

  lemma TwinPrefix(short: string, twin: string)
    requires HasPrefix(ToLower(short), "bytes=") && short <= twin
    ensures HasPrefix(ToLower(twin), "bytes=")
  {
    assert ToLower(twin)[..6] == ToLower(short)[..6];
  }

  lemma BlankHasNoRange(text: string)
    requires Blank(text)
    ensures Cut(FirstSpec(text), '-').None?
  {
  }

  lemma TwinTrimmed(short: string, twin: string)
    requires short != "" && Trimmed(short) && twin == short + "," + ("|" + short)
    ensures Trimmed(twin) && short <= twin
  {
    assert twin[0] == short[0] && twin[|twin| - 1] == short[|short| - 1];
  }

  lemma TwinText(short: string, twin: string)
    requires |short| >= 6 && ',' !in short && !IsSpace(short[|short| - 1])
    requires Cut(FirstSpec(short[6..]), '-').Some?
    requires twin == short + "," + ("|" + short)
    ensures FirstSpec(twin[6..]) == FirstSpec(short[6..])
  {
    var text, rest := short[6..], "|" + short;
    assert rest[|rest| - 1] == short[|short| - 1];
    assert twin[6..] == text + "," + rest;
    if Blank(text) { BlankHasNoRange(text); }
    FirstSpecWithComma(text, rest);
  }

  lemma SameSpec(a: string, b: string)
    requires HasPrefix(ToLower(a), "bytes=") && HasPrefix(ToLower(b), "bytes=")
    requires FirstSpec(a[6..]) == FirstSpec(b[6..])
    ensures ExplicitOf(a) == ExplicitOf(b)
  {
  }

  /** An accepted comma-free header is still accepted, with the same bounds, when a comma, a '|'
      and the header itself follow it. */
  lemma TwinAccepted(short: string, twin: string)
    requires ExplicitOf(short).Some? && ',' !in short && Trimmed(short)
    requires twin == short + "," + ("|" + short)
    ensures Trimmed(twin) && ExplicitOf(twin) == ExplicitOf(short)
  {
    TwinTrimmed(short, twin);
    TwinPrefix(short, twin);
    TwinText(short, twin);
    SameSpec(short, twin);
  }

  lemma KeyOfTrimmed(url: string, header: string, range: string, maxBytes: int)
    requires TrimSpace(header) == range
    ensures CoalescingKey(url, header, maxBytes) ==
      match ExplicitOf(range)
      case None => None
      case Some((start, end)) =>
        if start < 0 || end < start || Wrap64(end - start + 1) > maxBytes then None else Some(KeyText(url, range))
  {
  }

  /** The range, a comma, a bar and the range again. */
  function Twin(range: string): string {
    range + "," + ("|" + range)
  }

  lemma SameText(url: string, short: string)
    ensures KeyText(url, Twin(short)) == KeyText(url + "|" + short + ",", short)
  {
    calc {
      KeyText(url, Twin(short));
      "media-buffer:" + url + "|" + (short + "," + ("|" + short));
      "media-buffer:" + (url + "|" + short + ",") + "|" + short;
      KeyText(url + "|" + short + ",", short);
    }
  }

  lemma TwinKeyText(url: string, range: string, accepted: string -> bool)
    requires accepted(range)
    ensures SharesText(url, Twin(range), accepted)
  {
    SameText(url, range);
    assert |Twin(range)| > |range|;
  }

  /** With a comma the collision is real for every URL: the twin of an accepted comma-free range is
      accepted too, for the same bytes, and shares its key with a different accepted request. */
  lemma CommaKeysCollide(url: string, header: string, maxBytes: int)
    requires CoalescingKey(url, header, maxBytes).Some? && ',' !in header
    ensures var twin := Twin(TrimSpace(header));
      && ExplicitRange(twin) == ExplicitRange(header)
      && CoalescingKey(url, twin, maxBytes).Some?
      && SharesItsKey(url, twin, maxBytes)
  {
    var range := TrimSpace(header);
    var twin := Twin(range);
    TwinParses(header);
    KeyOfTrimmed(url, twin, twin, maxBytes);
    KeyOfTrimmed(url, header, range, maxBytes);
    assert Accepted(maxBytes)(range) by { TrimmedHeaderAccepted(url, header, maxBytes); }
    TwinKeyText(url, range, Accepted(maxBytes));
    SharedKeyIsSharedText(url, twin, maxBytes);
  }

  lemma TwinParses(header: string)
    requires ExplicitRange(header).Some? && ',' !in header
    ensures var twin := Twin(TrimSpace(header));
      TrimSpace(twin) == twin && ExplicitOf(twin) == ExplicitOf(TrimSpace(header))
  {
    var range := TrimSpace(header);
    TrimSpaceTrims(header);
    TwinAccepted(range, Twin(range));
    TrimmedFixed(Twin(range));
  }

  // ---------------------------------------------------------------- blob key

  /** The text that is hashed into a blob key. */
  function BlobPreimage(episode: string, url: string, part: string): string {
    episode + "|" + url + "|" + part
  }

  /** blobKey, for a hash printed in hexadecimal. */
  function BlobKeyText(hexHash: string -> string, episode: string, url: string, part: string): string {
    "startup-media/" + episode + "/" + hexHash(BlobPreimage(episode, url, part)) + ".bin"
  }

  /** Blob keys are distinct for distinct (episode, url, head/tail), provided the hash prints with
      a fixed length and does not collide on these two preimages. */
  lemma BlobKeysInjective(hexHash: string -> string,
                          episode1: string, url1: string, part1: string,
                          episode2: string, url2: string, part2: string)
    requires part1 in {"head", "tail"} && part2 in {"head", "tail"}
    requires var p1, p2 := BlobPreimage(episode1, url1, part1), BlobPreimage(episode2, url2, part2);
      |hexHash(p1)| == |hexHash(p2)| == 40 && (hexHash(p1) == hexHash(p2) ==> p1 == p2)
    requires BlobKeyText(hexHash, episode1, url1, part1) == BlobKeyText(hexHash, episode2, url2, part2)
    ensures episode1 == episode2 && url1 == url2 && part1 == part2
  {
    var p1, p2 := BlobPreimage(episode1, url1, part1), BlobPreimage(episode2, url2, part2);
    var k1, k2 := BlobKeyText(hexHash, episode1, url1, part1), BlobKeyText(hexHash, episode2, url2, part2);
    assert |episode1| == |episode2|;
    assert k1[14..14 + |episode1|] == episode1 && k2[14..14 + |episode1|] == episode2;
    assert k1[15 + |episode1|..55 + |episode1|] == hexHash(p1);
    assert k2[15 + |episode1|..55 + |episode1|] == hexHash(p2);
    assert p1 == p2;
    assert p1[|p1| - 4..] == part1 && p2[|p2| - 4..] == part2;
    assert p1[|episode1| + 1..|p1| - 5] == url1 && p2[|episode1| + 1..|p2| - 5] == url2;
  }
}
