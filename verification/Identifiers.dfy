/** Qualified identifiers: how they are built and parsed. */
module Identifiers {
  import opened Basics
  import opened GoText

  // ---------------------------------------------------------------- qualified identifiers

  function TrimSlashesLeft(s: string): string {
    if s != [] && s[0] == '/' then TrimSlashesLeft(s[1..]) else s
  }

  function TrimSlashesRight(s: string): string {
    if s != [] && s[|s| - 1] == '/' then TrimSlashesRight(s[..|s| - 1]) else s
  }

  /** strings.Trim(s, "/"). */
  function TrimSlashes(s: string): string {
    TrimSlashesRight(TrimSlashesLeft(s))
  }

  /** NewCatalogID. */
  function NewCatalogId(provider: string, slug: string): string {
    provider + ":" + TrimSlashes(TrimSpace(slug))
  }

  /** ParseQualifiedID. */
  function ParseQualified(value: string): Result<(string, string)> {
    match Cut(TrimSpace(value), ':')
    case None => Err
    case Some((provider, slug)) => if provider == "" || slug == "" then Err else Ok((provider, TrimSlashes(slug)))
  }

  lemma {:induction false} TrimSlashesRightEnd(s: string)
    ensures TrimSlashesRight(s) == [] || TrimSlashesRight(s)[|TrimSlashesRight(s)| - 1] != '/'
    ensures TrimSlashesRight(s) <= s
  {
    if s != [] && s[|s| - 1] == '/' {
      TrimSlashesRightEnd(s[..|s| - 1]);
    }
  }

  lemma {:induction false} TrimSlashesLeftStart(s: string)
    ensures TrimSlashesLeft(s) == [] || TrimSlashesLeft(s)[0] != '/'
  {
    if s != [] && s[0] == '/' {
      TrimSlashesLeftStart(s[1..]);
    }
  }

  predicate AllSlashes(s: string) {
    forall c :: c in s ==> c == '/'
  }

  /** Trimming slashes takes slashes off both ends, and leaves none there. */
  lemma TrimSlashesIs(s: string) returns (left: string, right: string)
    ensures var t := TrimSlashes(s);
      s == left + t + right && AllSlashes(left) && AllSlashes(right) && (t == "" || (t[0] != '/' && t[|t| - 1] != '/'))
  {
    left := TrimSlashesLeftIs(s);
    right := TrimSlashesRightIs(TrimSlashesLeft(s));
    Regroup(left, TrimSlashes(s), right);
    SlashFreeEnds(s);
  }

  lemma Regroup(left: string, middle: string, right: string)
    ensures left + (middle + right) == left + middle + right
  {
  }

  lemma SlashFreeEnds(s: string)
    ensures var t := TrimSlashes(s); t == "" || (t[0] != '/' && t[|t| - 1] != '/')
  {
    var x := TrimSlashesLeft(s);
    TrimSlashesLeftStart(s);
    TrimSlashesRightEnd(x);
    assert TrimSlashesRight(x) != "" ==> TrimSlashesRight(x)[0] == x[0];
  }

  lemma {:induction false} TrimSlashesLeftIs(s: string) returns (left: string)
    ensures s == left + TrimSlashesLeft(s) && AllSlashes(left)
  {
    left := "";
    if s != [] && s[0] == '/' {
      left := TrimSlashesLeftIs(s[1..]);
      left := "/" + left;
    }
  }

  lemma {:induction false} TrimSlashesRightIs(s: string) returns (right: string)
    ensures s == TrimSlashesRight(s) + right && AllSlashes(right)
  {
    right := "";
    if s != [] && s[|s| - 1] == '/' {
      right := TrimSlashesRightIs(s[..|s| - 1]);
      right := right + "/";
    }
  }

  lemma TrimSlashesTwice(s: string)
    ensures TrimSlashes(TrimSlashes(s)) == TrimSlashes(s)
  {
    TrimSlashesLeftStart(s);
    TrimSlashesRightEnd(TrimSlashesLeft(s));
  }

  /** Parsing cuts a trimmed identifier at its first colon, and fails when there is none or nothing on
      either side of it; the slug loses the slashes at its ends. */
  lemma ParseQualifiedIs(value: string, provider: string, rest: string)
    requires TrimSpace(value) == provider + ":" + rest && ':' !in provider
    ensures ParseQualified(value) == if provider != "" && rest != "" then Ok((provider, TrimSlashes(rest))) else Err
  {
    CutOf(provider, ':', rest);
  }

  /** A provider name that survives being parsed: not empty, no colon, no leading white space. */
  predicate ProviderName(s: string) {
    s != "" && ':' !in s && !IsSpace(s[0])
  }

  /** A built identifier parses back into its provider and cleaned slug exactly when the provider
      is a name, and the cleaned slug is not empty and does not end in white space (which a slash
      may have been hiding). */
  lemma QualifiedRoundTrip(provider: string, slug: string)
    ensures var cleaned := TrimSlashes(TrimSpace(slug));
      ParseQualified(NewCatalogId(provider, slug)) == Ok((provider, cleaned))
      <==> ProviderName(provider) && cleaned != "" && !IsSpace(cleaned[|cleaned| - 1])
  {
    if ProviderName(provider) {
      NamedRoundTrip(provider, slug);
    } else {
      ParsedProviderIsName(NewCatalogId(provider, slug));
    }
  }

  /** Whatever is parsed, its provider is a name. */
  lemma ParsedProviderIsName(value: string)
    ensures ParseQualified(value).Ok? ==> ProviderName(ParseQualified(value).value.0)
  {
    TrimSpaceTrims(value);
    if ParseQualified(value).Ok? {
      var (provider, slug) := Cut(TrimSpace(value), ':').value;
      assert TrimSpace(value)[0] == provider[0];
    }
  }

  lemma NamedRoundTrip(provider: string, slug: string)
    requires ProviderName(provider)
    ensures var cleaned := TrimSlashes(TrimSpace(slug));
      ParseQualified(NewCatalogId(provider, slug)) == Ok((provider, cleaned))
      <==> cleaned != "" && !IsSpace(cleaned[|cleaned| - 1])
  {
    var cleaned := TrimSlashes(TrimSpace(slug));
    var id := NewCatalogId(provider, slug);
    assert id[0] == provider[0];
    assert TrimLeft(id) == id;
    TrimSlashesTwice(TrimSpace(slug));
    if cleaned != "" && !IsSpace(cleaned[|cleaned| - 1]) {
      assert id == provider + [':'] + cleaned;
      assert id[|id| - 1] == cleaned[|cleaned| - 1];
      TrimmedFixed(id);
      CutOf(provider, ':', cleaned);
    } else if cleaned != "" {
      TrimSpaceTrims(id);
      LostSpace(provider, cleaned, id);
    } else {
      assert id == provider + [':'] + "";
      TrimmedFixed(id);
      CutOf(provider, ':', "");
    }
  }

  /** Trailing white space does not survive parsing. */
  lemma LostSpace(provider: string, cleaned: string, id: string)
    requires cleaned != "" && IsSpace(cleaned[|cleaned| - 1])
    requires id == provider + ":" + cleaned
    ensures ParseQualified(id) != Ok((provider, cleaned))
  {
    assert id[|id| - 1] == cleaned[|cleaned| - 1];
    TrimShortens(id);
    match Cut(TrimSpace(id), ':')
    case None =>
    case Some((_, after)) => TrimSlashesShorter(after);
  }

  lemma TrimShortens(s: string)
    requires s != "" && IsSpace(s[|s| - 1])
    ensures |TrimSpace(s)| < |s|
  {
    TrimLeftStart(s);
    TrimRightEnd(TrimLeft(s));
  }

  lemma TrimSlashesShorter(s: string)
    ensures |TrimSlashes(s)| <= |s|
  {
    TrimSlashesLeftShorter(s);
    TrimSlashesRightEnd(TrimSlashesLeft(s));
  }

  lemma {:induction false} TrimSlashesLeftShorter(s: string)
    ensures |TrimSlashesLeft(s)| <= |s|
  {
    if s != [] && s[0] == '/' {
      TrimSlashesLeftShorter(s[1..]);
    }
  }
}
