/** The HTML parse log (src/replayio/replayio-commands.cc): the embedder
    reports each HTML parse by an opaque token, feeds it text, and finishes
    it; the `Target.getHTMLSource` command later reads a page's text back by
    URL. `gHTMLParses` is created on the first `ParseStart`; the other
    operations do nothing while it is null, which is what they do on an
    empty log, so the log is a plain sequence here. */
module HtmlParses {
  import opened Wrappers

  /** A parse token is an address; `NullToken` is the null pointer. */
  type Token = nat
  const NullToken: Token := 0

  /** An `HTMLParseData` record. */
  datatype ParseData = ParseData(token: Token, url: string, contents: string)

  /** The first record whose token is `token`. */
  function FirstWithToken(parses: seq<ParseData>, token: Token): (r: Option<nat>)
    ensures r.None? <==> forall j :: 0 <= j < |parses| ==> parses[j].token != token
    ensures r.Some? ==> r.value < |parses| && parses[r.value].token == token
    ensures r.Some? ==> forall j :: 0 <= j < r.value ==> parses[j].token != token
  {
    if parses == [] then None
    else if parses[0].token == token then Some(0)
    else
      var rest := FirstWithToken(parses[1..], token);
      if rest.None? then None else Some(rest.value + 1)
  }

  /** The first record whose URL is `url`. */
  function FirstWithUrl(parses: seq<ParseData>, url: string): (r: Option<nat>)
    ensures r.None? <==> forall j :: 0 <= j < |parses| ==> parses[j].url != url
    ensures r.Some? ==> r.value < |parses| && parses[r.value].url == url
    ensures r.Some? ==> forall j :: 0 <= j < r.value ==> parses[j].url != url
  {
    if parses == [] then None
    else if parses[0].url == url then Some(0)
    else
      var rest := FirstWithUrl(parses[1..], url);
      if rest.None? then None else Some(rest.value + 1)
  }

  /** The log after `ParseFinish(token)`: every record holding the token
      forgets it. */
  function Finished(parses: seq<ParseData>, token: Token): seq<ParseData> {
    seq(|parses|, i requires 0 <= i < |parses| =>
      if parses[i].token == token then parses[i].(token := NullToken) else parses[i])
  }

  /** The log after `ParseAddData(token, text)`: the text goes to the first
      record holding the token, if any. */
  function WithData(parses: seq<ParseData>, token: Token, text: string): seq<ParseData> {
    var first := FirstWithToken(parses, token);
    if first.None? then parses
    else parses[first.value := parses[first.value].(contents := parses[first.value].contents + text)]
  }

  /** What `Target.getHTMLSource` reports for `url`: the contents of the
      first record with that URL, or "". */
  function SourceOf(parses: seq<ParseData>, url: string): string {
    var first := FirstWithUrl(parses, url);
    if first.None? then "" else parses[first.value].contents
  }

  class HtmlParseLog {
    var parses: seq<ParseData>
    /** The URLs passed to the recorder's `RecordReplayAddHTMLParse`. */
    var announced: seq<string>

    constructor()
      ensures parses == [] && announced == []
    {
      parses := [];
      announced := [];
    }

    /** `V8RecordReplayHTMLParseStart`: tells the recorder, then appends a
        record with no contents. */
    method ParseStart(token: Token, url: string)
      modifies this
      ensures parses == old(parses) + [ParseData(token, url, "")]
      ensures announced == old(announced) + [url]
    {
      announced := announced + [url];
      parses := parses + [ParseData(token, url, "")];
    }

    /** `V8RecordReplayHTMLParseFinish`: nulls the token of every record
        holding it. */
    method ParseFinish(token: Token)
      modifies this
      ensures parses == Finished(old(parses), token)
      ensures announced == old(announced)
    {
      var i := 0;
      while i < |parses|
        invariant 0 <= i <= |parses| == |old(parses)|
        invariant forall j :: 0 <= j < i ==> parses[j] == Finished(old(parses), token)[j]
        invariant parses[i..] == old(parses)[i..]
        invariant announced == old(announced)
      {
        assert parses[i] == old(parses)[i..][0];
        if parses[i].token == token {
          parses := parses[i := parses[i].(token := NullToken)];
        }
        i := i + 1;
      }
    }

    /** `V8RecordReplayHTMLParseAddData`: appends the text to the first
        record holding the token and stops there. */
    method AddData(token: Token, text: string)
      modifies this
      ensures parses == WithData(old(parses), token, text)
      ensures announced == old(announced)
    {
      var i := 0;
      while i < |parses|
        invariant 0 <= i <= |parses|
        invariant parses == old(parses)
        invariant forall j :: 0 <= j < i ==> parses[j].token != token
      {
        if parses[i].token == token {
          parses := parses[i := parses[i].(contents := parses[i].contents + text)];
          return;
        }
        i := i + 1;
      }
    }

    /** `RecordReplayGetHTMLSource`: the contents of the first record whose
        URL matches, or "" when there is none. */
    method GetHtmlSource(url: string) returns (contents: string)
      ensures contents == SourceOf(parses, url)
      ensures contents != "" ==> exists j :: 0 <= j < |parses| && parses[j].url == url
    {
      contents := "";
      var i := 0;
      while i < |parses|
        invariant 0 <= i <= |parses|
        invariant forall j :: 0 <= j < i ==> parses[j].url != url
      {
        if parses[i].url == url {
          contents := parses[i].contents;
          return;
        }
        i := i + 1;
      }
    }
  }

  /** A parse whose token no earlier record holds receives the text fed
      under that token. */
  lemma NewParseReceivesData(parses: seq<ParseData>, token: Token, url: string, text: string)
    requires forall j :: 0 <= j < |parses| ==> parses[j].token != token
    ensures WithData(parses + [ParseData(token, url, "")], token, text)
              == parses + [ParseData(token, url, text)]
  {
    var log := parses + [ParseData(token, url, "")];
    assert log[|parses|].token == token;
    assert FirstWithToken(log, token) == Some(|parses|);
    assert "" + text == text;
  }

  /** Feeding text in two pieces is feeding their concatenation: the record
      chosen does not change, since feeding text changes no token. */
  lemma WithDataConcatenates(parses: seq<ParseData>, token: Token, a: string, b: string)
    ensures WithData(WithData(parses, token, a), token, b) == WithData(parses, token, a + b)
  {
    var once := WithData(parses, token, a);
    var first := FirstWithToken(parses, token);
    if first.Some? {
      assert forall j :: 0 <= j < |parses| ==> once[j].token == parses[j].token;
      FirstWithTokenAgrees(parses, once, token);
      assert once[first.value].contents + b == parses[first.value].contents + (a + b);
    }
  }

  /** Two logs with the same tokens, record by record, agree on the first
      record holding a token. */
  lemma FirstWithTokenAgrees(p: seq<ParseData>, q: seq<ParseData>, token: Token)
    requires |p| == |q|
    requires forall j :: 0 <= j < |p| ==> p[j].token == q[j].token
    ensures FirstWithToken(p, token) == FirstWithToken(q, token)
  {
    var a := FirstWithToken(p, token);
    if a.Some? {
      FirstWithTokenIs(q, token, a.value);
    }
  }

  /** An index holding the token with none before it is the first match. */
  lemma FirstWithTokenIs(parses: seq<ParseData>, token: Token, k: nat)
    requires k < |parses| && parses[k].token == token
    requires forall j :: 0 <= j < k ==> parses[j].token != token
    ensures FirstWithToken(parses, token) == Some(k)
  {
    var r := FirstWithToken(parses, token);
    assert r.Some?;
  }

  /** Two logs with the same URLs, record by record, agree on the first
      record with a URL. */
  lemma FirstWithUrlAgrees(p: seq<ParseData>, q: seq<ParseData>, url: string)
    requires |p| == |q|
    requires forall j :: 0 <= j < |p| ==> p[j].url == q[j].url
    ensures FirstWithUrl(p, url) == FirstWithUrl(q, url)
  {
    var a := FirstWithUrl(p, url);
    if a.Some? {
      FirstWithUrlIs(q, url, a.value);
    }
  }

  /** Once a parse is finished, text fed under its token goes nowhere, and
      the source served for any URL is unchanged by finishing. */
  lemma FinishedParseTakesNoData(parses: seq<ParseData>, token: Token, text: string, url: string)
    requires token != NullToken
    ensures WithData(Finished(parses, token), token, text) == Finished(parses, token)
    ensures SourceOf(Finished(parses, token), url) == SourceOf(parses, url)
  {
    var done := Finished(parses, token);
    assert forall j :: 0 <= j < |done| ==> done[j].token != token;
    FirstWithUrlAgrees(parses, done, url);
  }

  /** A later parse of a URL already in the log is never served: the first
      record with a URL wins. */
  lemma FirstParseOfUrlWins(parses: seq<ParseData>, record: ParseData, url: string)
    requires exists j :: 0 <= j < |parses| && parses[j].url == url
    ensures SourceOf(parses + [record], url) == SourceOf(parses, url)
  {
    var j :| 0 <= j < |parses| && parses[j].url == url;
    var log := parses + [record];
    var first := FirstWithUrl(log, url);
    assert log[j].url == url;
    assert first.Some? && first.value <= j;
    assert log[..|parses|] == parses;
    FirstWithUrlOfPrefix(log, |parses|, url);
  }

  /** A first match inside a prefix is the prefix's first match. */
  lemma FirstWithUrlOfPrefix(log: seq<ParseData>, n: nat, url: string)
    requires n <= |log|
    requires FirstWithUrl(log, url).Some? && FirstWithUrl(log, url).value < n
    ensures FirstWithUrl(log[..n], url) == FirstWithUrl(log, url)
  {
    var a := FirstWithUrl(log, url).value;
    forall j | 0 <= j < a
      ensures log[..n][j].url != url
    {
      assert log[..n][j] == log[j];
    }
    FirstWithUrlIs(log[..n], url, a);
  }

  /** An index holding the URL with none before it is the first match. */
  lemma FirstWithUrlIs(parses: seq<ParseData>, url: string, k: nat)
    requires k < |parses| && parses[k].url == url
    requires forall j :: 0 <= j < k ==> parses[j].url != url
    ensures FirstWithUrl(parses, url) == Some(k)
  {
    var r := FirstWithUrl(parses, url);
    assert r.Some?;
  }

  /** The text of a page parsed once and fed in pieces is served back as
      their concatenation, as long as no earlier parse had that URL. */
  lemma ParsedPageIsServed(parses: seq<ParseData>, token: Token, url: string, text: string)
    requires forall j :: 0 <= j < |parses| ==> parses[j].token != token && parses[j].url != url
    ensures SourceOf(WithData(parses + [ParseData(token, url, "")], token, text), url) == text
  {
    NewParseReceivesData(parses, token, url, text);
    var log := parses + [ParseData(token, url, text)];
    assert log[|parses|].url == url;
    assert FirstWithUrl(log, url) == Some(|parses|);
  }
}
