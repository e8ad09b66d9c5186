/** URLs of vocabulary-like endpoints (`get_vocab_like_url` and the three
    helpers built on it): the base URL, the endpoint and the locator joined
    with "/". */
module Urls {
  import opened SchemaModel

  const Slash := '/'
  const VocabulariesEndpoint := "@vocabularies"
  const QuerysourcesEndpoint := "@querysources"
  const SourcesEndpoint := "@sources"

  /** `sep.join(parts)`. */
  function Join(sep: char, parts: seq<string>): string
  {
    if parts == [] then []
    else if |parts| == 1 then parts[0]
    else parts[0] + [sep] + Join(sep, parts[1..])
  }

  /** `s.split(sep)`: the pieces between separators, always at least one. */
  function Split(sep: char, s: string): (r: seq<string>)
    ensures |r| >= 1
  {
    if s == [] then [[]]
    else
      var rest := Split(sep, s[1..]);
      if s[0] == sep then [[]] + rest else [[s[0]] + rest[0]] + rest[1..]
  }

  /** Splitting at a separator splits the two sides independently. */
  lemma {:induction false} SplitAt(sep: char, a: string, b: string)
    ensures Split(sep, a + [sep] + b) == Split(sep, a) + Split(sep, b)
    decreases |a|
  {
    if a == [] {
      assert a + [sep] + b == [sep] + b;
      assert ([sep] + b)[1..] == b;
    } else {
      assert (a + [sep] + b)[1..] == a[1..] + [sep] + b;
      SplitAt(sep, a[1..], b);
    }
  }

  /** A string without the separator is one piece. */
  lemma {:induction false} SplitNone(sep: char, a: string)
    requires sep !in a
    ensures Split(sep, a) == [a]
    decreases |a|
  {
    if a != [] {
      SplitNone(sep, a[1..]);
      assert [a[0]] + a[1..] == a;
    }
  }

  /** Joining pieces without the separator and splitting again gives the
      pieces back. */
  lemma {:induction false} SplitJoin(sep: char, parts: seq<string>)
    requires |parts| >= 1
    requires forall i :: 0 <= i < |parts| ==> sep !in parts[i]
    ensures Split(sep, Join(sep, parts)) == parts
    decreases |parts|
  {
    SplitNone(sep, parts[0]);
    if |parts| > 1 {
      SplitJoin(sep, parts[1..]);
      SplitAt(sep, parts[0], Join(sep, parts[1..]));
      assert [parts[0]] + parts[1..] == parts;
    }
  }

  /** The URL of `locator` under `endpoint`, below the context's URL or, for a
      context without one, below the site's URL. */
  function VocabLikeUrl(endpoint: string, locator: string, contextUrl: Option<string>, siteUrl: string): string
  {
    var base := if contextUrl.Some? then contextUrl.value else siteUrl;
    Join(Slash, [base, endpoint, locator])
  }

  /** The URL is the base, the endpoint and the locator with a "/" between
      each two. */
  lemma UrlConcat(endpoint: string, locator: string, contextUrl: Option<string>, siteUrl: string)
    ensures var base := if contextUrl.Some? then contextUrl.value else siteUrl;
      VocabLikeUrl(endpoint, locator, contextUrl, siteUrl) == base + [Slash] + endpoint + [Slash] + locator
  {
    var base := if contextUrl.Some? then contextUrl.value else siteUrl;
    assert [base, endpoint, locator][1..] == [endpoint, locator];
    assert [endpoint, locator][1..] == [locator];
    assert Join(Slash, [locator]) == locator;
    assert Join(Slash, [endpoint, locator]) == endpoint + [Slash] + locator;
  }

  /** The URL's "/"-separated segments are the base's, then the endpoint's,
      then the locator's. */
  lemma UrlSegments(endpoint: string, locator: string, contextUrl: Option<string>, siteUrl: string)
    ensures var base := if contextUrl.Some? then contextUrl.value else siteUrl;
      Split(Slash, VocabLikeUrl(endpoint, locator, contextUrl, siteUrl))
      == Split(Slash, base) + Split(Slash, endpoint) + Split(Slash, locator)
  {
    var base := if contextUrl.Some? then contextUrl.value else siteUrl;
    UrlConcat(endpoint, locator, contextUrl, siteUrl);
    assert base + [Slash] + endpoint + [Slash] + locator == base + [Slash] + (endpoint + [Slash] + locator);
    SplitAt(Slash, base, endpoint + [Slash] + locator);
    SplitAt(Slash, endpoint, locator);
  }

  /** With an endpoint and locator free of "/", the URL's last two path
      segments are exactly those two and everything before is the base. */
  lemma UrlTail(endpoint: string, locator: string, contextUrl: Option<string>, siteUrl: string)
    ensures Slash !in endpoint && Slash !in locator ==>
      var base, parts := (if contextUrl.Some? then contextUrl.value else siteUrl),
                               Split(Slash, VocabLikeUrl(endpoint, locator, contextUrl, siteUrl));
      && |parts| >= 3
      && parts[|parts| - 2] == endpoint && parts[|parts| - 1] == locator
      && Join(Slash, parts[..|parts| - 2]) == base
  {
    if Slash !in endpoint && Slash !in locator {
      var base := if contextUrl.Some? then contextUrl.value else siteUrl;
      UrlSegments(endpoint, locator, contextUrl, siteUrl);
      SplitNone(Slash, endpoint);
      SplitNone(Slash, locator);
      var parts := Split(Slash, VocabLikeUrl(endpoint, locator, contextUrl, siteUrl));
      assert parts[..|parts| - 2] == Split(Slash, base);
      JoinSplit(Slash, base);
    }
  }

  /** Splitting and joining again gives the string back. */
  lemma {:induction false} JoinSplit(sep: char, s: string)
    ensures Join(sep, Split(sep, s)) == s
    decreases |s|
  {
    if s != [] {
      JoinSplit(sep, s[1..]);
      var rest := Split(sep, s[1..]);
      if s[0] == sep {
        assert ([[]] + rest)[1..] == rest;
        assert s == [sep] + s[1..];
      } else {
        var r := [[s[0]] + rest[0]] + rest[1..];
        assert r[1..] == rest[1..];
        if |rest| == 1 {
          assert s == [s[0]] + s[1..];
        } else {
          assert rest[1..][1..] == rest[2..];
          assert Join(sep, rest) == rest[0] + [sep] + Join(sep, rest[1..]);
          assert s == [s[0]] + s[1..];
        }
      }
    }
  }

  /** `get_vocabulary_url`. */
  function VocabularyUrl(vocabName: string, contextUrl: Option<string>, siteUrl: string): (r: string)
    ensures Slash !in vocabName ==>
      var parts := Split(Slash, r);
      && |parts| >= 3 && parts[|parts| - 2] == VocabulariesEndpoint && parts[|parts| - 1] == vocabName
      && Join(Slash, parts[..|parts| - 2]) == (if contextUrl.Some? then contextUrl.value else siteUrl)
  {
    UrlTail(VocabulariesEndpoint, vocabName, contextUrl, siteUrl);
    VocabLikeUrl(VocabulariesEndpoint, vocabName, contextUrl, siteUrl)
  }

  /** `get_querysource_url`: the locator is the field's name. */
  function QuerysourceUrl(field: SchemaField, contextUrl: Option<string>, siteUrl: string): (r: string)
    ensures Slash !in field.name ==>
      var parts := Split(Slash, r);
      && |parts| >= 3 && parts[|parts| - 2] == QuerysourcesEndpoint && parts[|parts| - 1] == field.name
      && Join(Slash, parts[..|parts| - 2]) == (if contextUrl.Some? then contextUrl.value else siteUrl)
  {
    UrlTail(QuerysourcesEndpoint, field.name, contextUrl, siteUrl);
    VocabLikeUrl(QuerysourcesEndpoint, field.name, contextUrl, siteUrl)
  }

  /** `get_source_url`: the locator is the field's name. */
  function SourceUrl(field: SchemaField, contextUrl: Option<string>, siteUrl: string): (r: string)
    ensures Slash !in field.name ==>
      var parts := Split(Slash, r);
      && |parts| >= 3 && parts[|parts| - 2] == SourcesEndpoint && parts[|parts| - 1] == field.name
      && Join(Slash, parts[..|parts| - 2]) == (if contextUrl.Some? then contextUrl.value else siteUrl)
  {
    UrlTail(SourcesEndpoint, field.name, contextUrl, siteUrl);
    VocabLikeUrl(SourcesEndpoint, field.name, contextUrl, siteUrl)
  }
}
