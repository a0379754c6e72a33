/** One fetch attempt as `download_image` decides it once the HTTP exchange is
    over: the `X-Robots-Tag` usage policy (`is_disallowed`) and the outcome
    (a stream or an error text). The exchange itself is an input. */
module Fetch {
  import opened Common
  import opened Text

  /** A header value: its text, or a value whose parsing raises inside the
      `try` of `is_disallowed`, which the `except` branch reports and skips.
      Python's HTTP client decodes header blocks as ISO-8859-1, so a real
      response gives text for every header; `Undecodable` stands for any
      value on which that parsing raises. */
  datatype HeaderValue = Decoded(text: string) | Undecodable

  datatype Header = Header(name: string, value: HeaderValue)

  /** What one HTTP exchange gave: a response with its headers and body, or
      the text of the exception that the request raised (timeout, DNS, TLS,
      an HTTP error status such as `"HTTP Error 429: Too Many Requests"`). */
  datatype Response = Response(headers: seq<Header>, body: seq<byte>) | RequestError(message: string)

  /** The result of one attempt: the body as a stream, or an error text. */
  datatype FetchOutcome = Fetched(stream: seq<byte>) | Failed(error: string)

  const DisallowedMessage: string := "Use of image disallowed by X-Robots-Tag directive"

  const RobotsTag: string := "x-robots-tag"

  /** `headers.get_all("X-Robots-Tag", [])`: the values of the
      headers whose name is `X-Robots-Tag` in any letter case. */
  function RobotsTagValues(headers: seq<Header>): (vs: seq<HeaderValue>)
    ensures |vs| <= |headers|
    ensures forall v :: v in vs <==> exists i :: 0 <= i < |headers| && Lower(headers[i].name) == RobotsTag && headers[i].value == v
  {
    if headers == [] then []
    else
      var rest := RobotsTagValues(headers[1..]);
      assert forall i :: 1 <= i < |headers| ==> headers[i] == headers[1..][i - 1];
      if Lower(headers[0].name) == RobotsTag then [headers[0].value] + rest else rest
  }

  /** The scoping token of a value: the text before the first colon,
      lowered but not stripped; `None` when the value has no colon. */
  function Scope(v: string): (t: Option<string>)
    ensures t.None? <==> ':' !in v
    ensures t.Some? ==> exists i :: 0 <= i < |v| && v[i] == ':' && ':' !in v[..i] && t.value == Lower(v[..i])
  {
    var (head, _) := SplitFirst(v, ':');
    match head
    case None => None
    case Some(h) =>
      assert v[|h|] == ':' && v[..|h|] == h by { assert v == h + [':'] + SplitFirst(v, ':').1; }
      Some(Lower(h))
  }

  /** The directives of a value: the text after the first colon (the whole
      value when there is none) split on commas, each piece stripped and
      lowered. */
  function Directives(v: string): (ds: seq<string>)
    ensures |ds| >= 1
    ensures var parts := SplitOn(SplitFirst(v, ':').1, ',');
      |ds| == |parts| && forall k :: 0 <= k < |ds| ==> ds[k] == Lower(Strip(parts[k]))
  {
    var parts := SplitOn(SplitFirst(v, ':').1, ',');
    seq(|parts|, k requires 0 <= k < |parts| => Lower(Strip(parts[k])))
  }

  /** One decoded value forbids use by the agent `token`: it is unscoped or
      scoped to exactly `token`, and one of its directives is disallowed. */
  predicate Forbids(v: string, token: Option<string>, disallowed: set<string>)
  {
    (Scope(v).None? || Scope(v) == token)
    && exists k :: 0 <= k < |Directives(v)| && Directives(v)[k] in disallowed
  }

  /** The effect of one value in the loop of `is_disallowed`: an undecodable
      value raises inside the `try`, is reported and skipped. */
  predicate Blocks(v: HeaderValue, token: Option<string>, disallowed: set<string>)
  {
    v.Decoded? && Forbids(v.text, token, disallowed)
  }

  /** The loop of `is_disallowed` over the values: the first blocking value
      ends it with `true`; running out of values gives `false`. */
  function ScanValues(vs: seq<HeaderValue>, token: Option<string>, disallowed: set<string>): (r: bool)
    ensures r <==> exists i :: 0 <= i < |vs| && Blocks(vs[i], token, disallowed)
  {
    if vs == [] then false
    else if Blocks(vs[0], token, disallowed) then true
    else
      var r := ScanValues(vs[1..], token, disallowed);
      assert forall i :: 1 <= i < |vs| ==> vs[i] == vs[1..][i - 1];
      r
  }

  /** `is_disallowed(headers, user_agent_token, disallowed_header_directives)`. */
  function IsDisallowed(headers: seq<Header>, token: Option<string>, disallowed: set<string>): bool
  {
    ScanValues(RobotsTagValues(headers), token, disallowed)
  }

  /** `is_disallowed` is true exactly when some `X-Robots-Tag` header has a
      decoded value that is unscoped or scoped to the caller's token and names
      a disallowed directive. In particular it is false without such headers,
      false when no directive is disallowed, and false when every decoded
      value is scoped to another token. */
  lemma IsDisallowedMeaning(headers: seq<Header>, token: Option<string>, disallowed: set<string>)
    ensures IsDisallowed(headers, token, disallowed) <==>
      exists i :: 0 <= i < |headers| && Lower(headers[i].name) == RobotsTag && Blocks(headers[i].value, token, disallowed)
    ensures RobotsTagValues(headers) == [] ==> !IsDisallowed(headers, token, disallowed)
    ensures disallowed == {} ==> !IsDisallowed(headers, token, disallowed)
    ensures (forall i :: 0 <= i < |headers| && Lower(headers[i].name) == RobotsTag && headers[i].value.Decoded? ==>
               Scope(headers[i].value.text).Some? && Scope(headers[i].value.text) != token)
        ==> !IsDisallowed(headers, token, disallowed)
  {
    var vs := RobotsTagValues(headers);
    if IsDisallowed(headers, token, disallowed) {
      var j :| 0 <= j < |vs| && Blocks(vs[j], token, disallowed);
      assert vs[j] in vs;
    }
    if exists i :: 0 <= i < |headers| && Lower(headers[i].name) == RobotsTag && Blocks(headers[i].value, token, disallowed) {
      var i :| 0 <= i < |headers| && Lower(headers[i].name) == RobotsTag && Blocks(headers[i].value, token, disallowed);
      var v := headers[i].value;
      assert v in vs;
      var j :| 0 <= j < |vs| && vs[j] == v;
    }
  }

  /** The decoded values among `vs`, in order. */
  function DecodedOnly(vs: seq<HeaderValue>): (ds: seq<HeaderValue>)
    ensures forall v :: v in ds <==> v in vs && v.Decoded?
  {
    if vs == [] then []
    else if vs[0].Decoded? then [vs[0]] + DecodedOnly(vs[1..])
    else DecodedOnly(vs[1..])
  }

  /** A value that fails to parse never decides the verdict: dropping the
      undecodable values (which raise inside the `try` and are reported) gives
      the same answer. */
  lemma {:induction false} UndecodableSkipped(vs: seq<HeaderValue>, token: Option<string>, disallowed: set<string>)
    ensures ScanValues(DecodedOnly(vs), token, disallowed) == ScanValues(vs, token, disallowed)
  {
    if vs != [] {
      UndecodableSkipped(vs[1..], token, disallowed);
      if !Blocks(vs[0], token, disallowed) {
        assert ScanValues(vs, token, disallowed) == ScanValues(vs[1..], token, disallowed);
      }
    }
  }

  const BrowserAgent: string := "Mozilla/5.0 (Macintosh; Intel Mac OS X 10_15_7) AppleWebKit/537.36 (KHTML, like Gecko) Chrome/118.0.0.0 Safari/537.36"

  /** The user-agent string: the fixed browser string, followed by the
      caller's identifying token when one is given and is not empty. */
  function UserAgent(token: Option<string>): (ua: string)
    ensures BrowserAgent <= ua
    ensures ua == BrowserAgent <==> token.None? || token.value == ""
    ensures token.Some? && token.value != "" ==> Contains(ua, "; " + token.value + ";")
  {
    if token.Some? && token.value != "" then
      var pat := "; " + token.value + ";";
      var head := BrowserAgent + " (compatible";
      var ua := head + pat + " +https://github.com/rom1504/img2dataset)";
      assert ua[|head|..|head| + |pat|] == pat;
      assert OccursAt(ua, pat, |head|);
      ua
    else BrowserAgent
  }

  /** `download_image` once the exchange is over: a request error becomes its
      text; when the disallowed set is given and not empty and the headers
      disallow use, the fixed policy message; otherwise the body. */
  function DownloadImage(response: Response, token: Option<string>, disallowed: Option<set<string>>): (r: FetchOutcome)
    ensures response.RequestError? ==> r == Failed(response.message)
    ensures response.Response? ==> (r.Failed? <==>
      disallowed.Some? && disallowed.value != {} && IsDisallowed(response.headers, token, disallowed.value))
    ensures response.Response? && r.Failed? ==> r.error == DisallowedMessage
    ensures response.Response? && r.Fetched? ==> r.stream == response.body
  {
    match response
    case RequestError(msg) => Failed(msg)
    case Response(headers, body) =>
      if disallowed.Some? && disallowed.value != {} && IsDisallowed(headers, token, disallowed.value) then
        Failed(DisallowedMessage)
      else
        Fetched(body)
  }

  lemma RobotsTagName()
    ensures Lower("X-Robots-Tag") == RobotsTag
  {
    var n := "X-Robots-Tag";
    assert forall i :: 0 <= i < |n| ==> Lower(n)[i] == RobotsTag[i];
  }

  /** `X-Robots-Tag: noindex` blocks exactly when `noindex` is disallowed. */
  lemma NoindexExample()
    ensures !IsDisallowed([Header("X-Robots-Tag", Decoded("noindex"))], Some("mybot"), {})
    ensures IsDisallowed([Header("X-Robots-Tag", Decoded("noindex"))], Some("mybot"), {"noindex"})
  {
    var h := [Header("X-Robots-Tag", Decoded("noindex"))];
    RobotsTagName();
    assert RobotsTagValues(h) == [Decoded("noindex")];
    NoindexParse();
    assert Blocks(Decoded("noindex"), Some("mybot"), {"noindex"});
  }

  /** The value `noindex` is unscoped and its one directive is `noindex`. */
  lemma NoindexParse()
    ensures Scope("noindex").None? && Directives("noindex")[0] == "noindex"
  {
    NoindexStripLower();
    SingleDirective("noindex");
  }

  /** A value without colon or comma is unscoped, and its one directive is
      the value stripped and lowered. */
  lemma SingleDirective(v: string)
    requires ':' !in v && ',' !in v
    ensures Scope(v).None? && Directives(v) == [Lower(Strip(v))]
  {
    assert SplitOn(v, ',') == [v];
  }

  lemma NoindexStripLower()
    ensures Lower(Strip("noindex")) == "noindex"
  {
    NoindexStrip();
    NoindexLower();
  }

  lemma NoindexStrip()
    ensures Strip("noindex") == "noindex"
  {
    var s := "noindex";
    assert s[0] == 'n' && s[|s| - 1] == 'x';
    StripTrimmed(s);
  }

  lemma NoindexLower()
    ensures Lower("noindex") == "noindex"
  {
    var s := "noindex";
    forall i | 0 <= i < |s| ensures IsLower(s[i]) {
      assert 'a' <= s[i] <= 'z';
    }
    LowerOfLower(s);
  }

  /** `X-Robots-Tag: otherbot: noindex` does not block the agent `mybot`,
      even with `noindex` disallowed. */
  lemma OtherAgentExample()
    ensures !IsDisallowed([Header("X-Robots-Tag", Decoded("otherbot: noindex"))], Some("mybot"), {"noindex"})
  {
    var other := "otherbot: noindex";
    OtherAgentScope();
    assert !Blocks(Decoded(other), Some("mybot"), {"noindex"});
    RobotsTagName();
    assert RobotsTagValues([Header("X-Robots-Tag", Decoded(other))]) == [Decoded(other)];
  }

  lemma OtherAgentScope()
    ensures Scope("otherbot: noindex") == Some("otherbot")
  {
    LowerOfLower("otherbot");
    OtherAgentSplit();
  }

  lemma OtherAgentSplit()
    ensures SplitFirst("otherbot: noindex", ':').0 == Some("otherbot")
  {
    assert "otherbot: noindex" == "otherbot" + [':'] + " noindex";
    SplitFirstAt("otherbot", ':', " noindex");
  }
}
