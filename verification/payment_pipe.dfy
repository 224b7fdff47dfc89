/**
 * `PaymentPipe`: posts a payment-initialisation message to the gateway's
 * `PaymentInitHTTPServlet` and turns the one-line reply `<id>:<page URL>` into
 * `PaymentDetails`, or into a `BadResponseFromWebServiceException` that
 * carries the reply, the URL called and the body posted.
 *
 * The HTTP exchange itself is a parameter: `send` maps the request the pipe
 * would post to the text the gateway answers with.
 */
module Pipe {
  import opened Wrappers
  import opened Text
  import opened Exceptions
  import opened FormBody
  import opened InitMessage

  datatype PaymentDetails = PaymentDetails(paymentId: string, paymentPage: string)

  /** The pipe keeps the gateway's base address (`Uri.AbsoluteUri`). */
  datatype PaymentPipe = PaymentPipe(paymentServerUrl: string)

  /** What `sendMessage` would post: URL, form body and timeout in milliseconds. */
  datatype Request = Request(url: string, body: string, timeout: int)

  const InitServlet: string := "PaymentInitHTTPServlet"
  const ErrorPrefix: string := "!ERROR!"
  const PaymentIdMarker: string := "?PaymentID="

  /** The constructor refuses a null address. */
  function NewPaymentPipe(paymentServerUrl: Option<string>): (r: Result<PaymentPipe>)
    ensures r.Err? <==> paymentServerUrl.None?
    ensures r.Err? ==> r.failure == ArgumentNull(Some("paymentServerUrl"))
    ensures r.Ok? ==> r.value.paymentServerUrl == paymentServerUrl.value
  {
    if paymentServerUrl.None? then Err(ArgumentNull(Some("paymentServerUrl")))
    else Ok(PaymentPipe(paymentServerUrl.value))
  }

  /** The address of a servlet: the base address, `servlet/`, the servlet name. */
  function BuildUrl(pipe: PaymentPipe, servletName: string): (url: string)
    ensures StartsWith(url, pipe.paymentServerUrl)
    ensures EndsWith(url, "servlet/" + servletName)
    ensures |url| == |pipe.paymentServerUrl| + |"servlet/"| + |servletName|
  {
    var url := pipe.paymentServerUrl + "servlet/" + servletName;
    StartsWithAppend(pipe.paymentServerUrl, "servlet/" + servletName);
    EndsWithAppend(pipe.paymentServerUrl, "servlet/" + servletName);
    assert url == pipe.paymentServerUrl + ("servlet/" + servletName);
    url
  }

  /** The reply cut at every `:`; the pieces hold no `:` and join back to the reply. */
  function ParseResponse(response: string): (parts: seq<string>)
    ensures |parts| == Count(response, ':') + 1
    ensures forall i :: 0 <= i < |parts| ==> ':' !in parts[i]
    ensures Join(parts, ':') == response
  {
    JoinSplit(response, ':');
    Split(response, ':')
  }

  /** The reply the source rejects outright: empty, an `!ERROR!` message, or
      without any `:`. */
  predicate IsBadResponse(response: string) {
    |response| == 0 || StartsWith(response, ErrorPrefix) || ':' !in response
  }

  /** The request for a payment initialisation. */
  function InitRequest(pipe: PaymentPipe, m: PaymentInitMessage, timeout: int): (req: Request)
    ensures EndsWith(req.url, "servlet/" + InitServlet) && StartsWith(req.url, pipe.paymentServerUrl)
    ensures Decode(req.body) == Some(IncludedFields(m))
    ensures req.timeout == timeout
  {
    BodyDecodes(m);
    Request(BuildUrl(pipe, InitServlet), ToUrlParameters(m), timeout)
  }

  // ---------------------------------------------------------------------------
  // Interpreting the reply
  // ---------------------------------------------------------------------------

  /** The reply handling as the source writes it: a reply that passes the
      checks but has only one `:` yields two pieces, and reading the third
      raises `IndexOutOfRangeException`; the page is rebuilt from the second
      and third pieces only. */
  function InterpretAsWritten(url: string, params: string, response: string): Result<PaymentDetails>
  {
    if IsBadResponse(response) then Err(BadResponseFromWebService(response, url, params))
    else
      var parts := ParseResponse(response);
      if |parts| < 3 then Err(IndexOutOfRange)
      else Ok(PaymentDetails(parts[0], parts[1] + ":" + parts[2] + PaymentIdMarker + parts[0]))
  }

  /** The reply handling the model uses: a reply with fewer than two `:` is a
      bad response like the others, and the page is everything after the
      first `:` followed by `?PaymentID=<id>`. */
  function Interpret(url: string, params: string, response: string): (r: Result<PaymentDetails>)
    ensures r.Err? ==> r.failure == BadResponseFromWebService(response, url, params)
  {
    if IsBadResponse(response) || Count(response, ':') < 2 then
      Err(BadResponseFromWebService(response, url, params))
    else
      var i := IndexOf(response, ':');
      Ok(PaymentDetails(response[..i], response[i + 1..] + PaymentIdMarker + response[..i]))
  }

  /** `performPaymentInitialization` with the corrected reply handling of
      `Interpret`: a null message is refused before anything is sent;
      otherwise the reply to the one request is interpreted.  The source as
      written is `PerformPaymentInitializationAsWritten`. */
  function PerformPaymentInitialization(pipe: PaymentPipe, initMessage: Option<PaymentInitMessage>,
                                        send: Request -> string, timeout: int := 5000)
    : (r: Result<PaymentDetails>)
    ensures initMessage.None? <==> r == Err(ArgumentNull(Some("initMessage")))
    ensures r.Err? && initMessage.Some? ==> r.failure.BadResponseFromWebService?
  {
    match initMessage
    case None => Err(ArgumentNull(Some("initMessage")))
    case Some(m) =>
      var req := InitRequest(pipe, m, timeout);
      Interpret(req.url, req.body, send(req))
  }

  /** The same operation with the reply handling as the source writes it. */
  function PerformPaymentInitializationAsWritten(pipe: PaymentPipe, initMessage: Option<PaymentInitMessage>,
                                                 send: Request -> string, timeout: int := 5000)
    : (r: Result<PaymentDetails>)
    ensures initMessage.None? <==> r == Err(ArgumentNull(Some("initMessage")))
    ensures r.Err? && initMessage.Some? ==> r.failure.BadResponseFromWebService? || r.failure == IndexOutOfRange
  {
    match initMessage
    case None => Err(ArgumentNull(Some("initMessage")))
    case Some(m) =>
      var req := InitRequest(pipe, m, timeout);
      InterpretAsWritten(req.url, req.body, send(req))
  }

  // ---------------------------------------------------------------------------
  // Properties
  // ---------------------------------------------------------------------------

  /** A failed initialisation reports exactly the reply, the servlet URL that
      was called and the body that was posted, in both readings. */
  lemma BadResponseCarriesRequest(pipe: PaymentPipe, m: PaymentInitMessage, send: Request -> string, timeout: int)
    ensures var r, req := PerformPaymentInitialization(pipe, Some(m), send, timeout), InitRequest(pipe, m, timeout);
      r.Err? ==> && r.failure.msg == send(req)
                 && r.failure.attemptedUrl == req.url
                 && EndsWith(r.failure.attemptedUrl, "servlet/PaymentInitHTTPServlet")
                 && r.failure.attemptedParams == ToUrlParameters(m)
    ensures var r, req := PerformPaymentInitializationAsWritten(pipe, Some(m), send, timeout), InitRequest(pipe, m, timeout);
      r.Err? && r.failure.BadResponseFromWebService? ==>
                 && r.failure.msg == send(req)
                 && r.failure.attemptedUrl == req.url
                 && EndsWith(r.failure.attemptedUrl, "servlet/PaymentInitHTTPServlet")
                 && r.failure.attemptedParams == ToUrlParameters(m)
  {
    InitServletPath();
  }

  lemma InitServletPath()
    ensures "servlet/" + InitServlet == "servlet/PaymentInitHTTPServlet"
  {
  }

  /** Only the reply to the one request matters: two transports that answer
      it alike give the same outcome. */
  lemma OnlyTheReplyMatters(pipe: PaymentPipe, m: PaymentInitMessage, s1: Request -> string, s2: Request -> string, timeout: int)
    requires s1(InitRequest(pipe, m, timeout)) == s2(InitRequest(pipe, m, timeout))
    ensures PerformPaymentInitialization(pipe, Some(m), s1, timeout) == PerformPaymentInitialization(pipe, Some(m), s2, timeout)
    ensures PerformPaymentInitializationAsWritten(pipe, Some(m), s1, timeout) == PerformPaymentInitializationAsWritten(pipe, Some(m), s2, timeout)
  {
  }

  /** A reply is accepted exactly when it is not empty, does not start with
      `!ERROR!` and has at least two `:`. */
  lemma AcceptedIff(url: string, params: string, response: string)
    ensures Interpret(url, params, response).Ok? <==>
      |response| > 0 && !StartsWith(response, ErrorPrefix) && Count(response, ':') >= 2
  {
  }

  /** An accepted reply is `<id>:<page URL>`: the id is the colon-free text
      before the first `:`, and the page is the rest of the reply with
      `?PaymentID=<id>` appended. */
  lemma AcceptedShape(url: string, params: string, response: string)
    requires Interpret(url, params, response).Ok?
    ensures var d := Interpret(url, params, response).value;
      && ':' !in d.paymentId
      && d.paymentId == ParseResponse(response)[0]
      && exists page :: d.paymentPage == page + PaymentIdMarker + d.paymentId && response == d.paymentId + ":" + page
  {
    var i := IndexOf(response, ':');
    var id, page := response[..i], response[i + 1..];
    SplitHead(response, ':');
    assert response == id + ":" + page by {
      SplitDecompose(response, ':');
    }
  }

  /** A reply `<id>:<rest>` with a colon-free id: where its first `:` is,
      how many it has and how it splits. */
  lemma FirstColon(id: string, rest: string)
    requires ':' !in id
    ensures var s := id + ":" + rest;
      && IndexOf(s, ':') == |id| && s[..|id|] == id && s[|id| + 1..] == rest
      && Count(s, ':') == Count(rest, ':') + 1
      && Split(s, ':') == [id] + Split(rest, ':')
  {
    var s := id + ":" + rest;
    assert s == id + ([':'] + rest);
    IndexOfAppend(id, [':'] + rest, ':');
    CountAppend(id, [':'] + rest, ':');
    CountAppend([':'], rest, ':');
    assert [':'][1..] == [];
    assert s == id + [':'] + rest;
    SplitAfterFree(id, rest, ':');
  }

  /** A colon-free id that is not an error message keeps the reply from
      looking like one. */
  lemma NotAnError(id: string, rest: string)
    requires ':' !in id && !StartsWith(id, ErrorPrefix)
    ensures !StartsWith(id + ":" + rest, ErrorPrefix)
  {
    var s := id + ":" + rest;
    if |id| >= |ErrorPrefix| {
      assert s[..|ErrorPrefix|] == id[..|ErrorPrefix|];
    } else {
      assert s[|id|] == ':' && ErrorPrefix[|id|] != ':';
    }
  }

  /** Composing a reply from an id and a page URL with a `:` in it, then
      interpreting it, gives that id and page back. */
  lemma InterpretCompose(url: string, params: string, id: string, page: string)
    requires ':' !in id && !StartsWith(id, ErrorPrefix) && ':' in page
    ensures Interpret(url, params, id + ":" + page) == Ok(PaymentDetails(id, page + PaymentIdMarker + id))
  {
    FirstColon(id, page);
    NotAnError(id, page);
  }

  /** A colon-free text followed by nothing or by a `:` is the first piece. */
  lemma FirstPiece(b: string, tail: string)
    requires ':' !in b
    requires tail == "" || tail[0] == ':'
    ensures Split(b + tail, ':')[0] == b
  {
    if tail == "" {
      assert b + tail == b;
      SplitFree(b, ':');
    } else {
      assert b + tail == b + [':'] + tail[1..];
      SplitAfterFree(b, tail[1..], ':');
    }
  }

  /** The first three pieces of `<id>:<a>:<b><tail>` when the tail is empty
      or starts a fourth piece. */
  lemma ThreePieces(id: string, a: string, b: string, tail: string)
    requires ':' !in id && ':' !in a && ':' !in b
    requires tail == "" || tail[0] == ':'
    ensures var parts := Split(id + ":" + a + ":" + b + tail, ':');
      |parts| >= 3 && parts[0] == id && parts[1] == a && parts[2] == b
  {
    var response := id + ":" + a + ":" + b + tail;
    assert response == id + [':'] + (a + [':'] + (b + tail));
    SplitAfterFree(id, a + [':'] + (b + tail), ':');
    SplitAfterFree(a, b + tail, ':');
    var last := Split(b + tail, ':');
    FirstPiece(b, tail);
    assert Split(response, ':') == [id] + ([a] + last);
  }

  /** The source reads `<id>:<a>:<b>` and ignores whatever follows a third `:`. */
  lemma AsWrittenCompose(url: string, params: string, id: string, a: string, b: string, tail: string)
    requires ':' !in id && ':' !in a && ':' !in b && !StartsWith(id, ErrorPrefix)
    requires tail == "" || tail[0] == ':'
    ensures InterpretAsWritten(url, params, id + ":" + a + ":" + b + tail)
      == Ok(PaymentDetails(id, a + ":" + b + PaymentIdMarker + id))
  {
    var response := id + ":" + a + ":" + b + tail;
    assert response == id + ":" + (a + ":" + b + tail);
    NotAnError(id, a + ":" + b + tail);
    assert response[|id|] == ':';
    ThreePieces(id, a, b, tail);
  }

  /** As written, two replies that agree up to their third piece give the
      same result, whatever follows. */
  lemma AsWrittenIgnoresTail(url: string, params: string, id: string, a: string, b: string, t1: string, t2: string)
    requires ':' !in id && ':' !in a && ':' !in b && !StartsWith(id, ErrorPrefix)
    requires t1 == "" || t1[0] == ':'
    requires t2 == "" || t2[0] == ':'
    ensures InterpretAsWritten(url, params, id + ":" + a + ":" + b + t1)
      == InterpretAsWritten(url, params, id + ":" + a + ":" + b + t2)
  {
    AsWrittenCompose(url, params, id, a, b, t1);
    AsWrittenCompose(url, params, id, a, b, t2);
  }

  /** An `!ERROR!` reply is a bad response in both readings, whatever `:` it holds. */
  lemma ErrorReplyRejected(url: string, params: string, response: string)
    requires StartsWith(response, ErrorPrefix)
    ensures InterpretAsWritten(url, params, response) == Err(BadResponseFromWebService(response, url, params))
    ensures Interpret(url, params, response) == Err(BadResponseFromWebService(response, url, params))
  {
  }

  // ---------------------------------------------------------------------------
  // The source as written against the model
  // ---------------------------------------------------------------------------

  /** A reply that passes the source's checks with only one `:` crashes the
      source with an index error; the model reports it as a bad response. */
  lemma OneColonFaults(url: string, params: string, response: string)
    requires !IsBadResponse(response) && Count(response, ':') == 1
    ensures InterpretAsWritten(url, params, response) == Err(IndexOutOfRange)
    ensures Interpret(url, params, response) == Err(BadResponseFromWebService(response, url, params))
  {
  }

  /** The source keeps only `<scheme>:<host>` of a page address that has a
      further `:`. */
  lemma AsWrittenDropsPort(url: string, params: string, id: string, scheme: string, host: string, rest: string)
    requires ':' !in id && ':' !in scheme && ':' !in host && !StartsWith(id, ErrorPrefix)
    ensures InterpretAsWritten(url, params, id + ":" + scheme + ":" + host + ":" + rest)
      == Ok(PaymentDetails(id, scheme + ":" + host + PaymentIdMarker + id))
  {
    var tail := ":" + rest;
    assert id + ":" + scheme + ":" + host + ":" + rest == id + ":" + scheme + ":" + host + tail;
    AsWrittenCompose(url, params, id, scheme, host, tail);
  }

  /** The model keeps the whole page address after the first `:`. */
  lemma ModelKeepsPort(url: string, params: string, id: string, scheme: string, host: string, rest: string)
    requires ':' !in id && ':' !in scheme && ':' !in host && !StartsWith(id, ErrorPrefix)
    ensures Interpret(url, params, id + ":" + scheme + ":" + host + ":" + rest)
      == Ok(PaymentDetails(id, scheme + ":" + host + ":" + rest + PaymentIdMarker + id))
  {
    var page := scheme + ":" + host + ":" + rest;
    assert id + ":" + scheme + ":" + host + ":" + rest == id + ":" + page;
    assert page[|scheme|] == ':';
    InterpretCompose(url, params, id, page);
  }

  /** A page address with its own port loses it in the source: the reply
      `<id>:<scheme>:<host>:<port and path>` becomes the page
      `<scheme>:<host>?PaymentID=<id>`, where the model keeps the port and path. */
  lemma PortDroppedFromPage(url: string, params: string, id: string, scheme: string, host: string, rest: string)
    requires ':' !in id && ':' !in scheme && ':' !in host && !StartsWith(id, ErrorPrefix)
    ensures var response := id + ":" + scheme + ":" + host + ":" + rest;
      && InterpretAsWritten(url, params, response) == Ok(PaymentDetails(id, scheme + ":" + host + PaymentIdMarker + id))
      && Interpret(url, params, response) == Ok(PaymentDetails(id, scheme + ":" + host + ":" + rest + PaymentIdMarker + id))
  {
    AsWrittenDropsPort(url, params, id, scheme, host, rest);
    ModelKeepsPort(url, params, id, scheme, host, rest);
  }

  /** A text with a `:` is `<head>:<rest>` with a colon-free head. */
  lemma CutAtFirstColon(s: string) returns (head: string, rest: string)
    requires ':' in s
    ensures ':' !in head && s == head + ":" + rest
    ensures Count(rest, ':') + 1 == Count(s, ':')
  {
    var i := IndexOf(s, ':');
    head, rest := s[..i], s[i + 1..];
    SplitDecompose(s, ':');
    assert s == head + [':'] + rest;
    CountAppend(head, [':'] + rest, ':');
    CountAppend([':'], rest, ':');
    assert [':'][1..] == [];
  }

  /** A reply that passes the checks and has exactly two `:` is `<id>:<a>:<b>`. */
  lemma TwoColonParts(response: string) returns (id: string, a: string, b: string)
    requires !IsBadResponse(response) && Count(response, ':') == 2
    ensures ':' !in id && ':' !in a && ':' !in b && !StartsWith(id, ErrorPrefix)
    ensures response == id + ":" + (a + ":" + b)
  {
    var page;
    id, page := CutAtFirstColon(response);
    a, b := CutAtFirstColon(page);
    if |id| >= |ErrorPrefix| {
      assert response[..|ErrorPrefix|] == id[..|ErrorPrefix|];
    }
  }

  /** On `<id>:<a>:<b>` the source and the model build the same details. */
  lemma AgreeOnTwoColons(url: string, params: string, id: string, a: string, b: string)
    requires ':' !in id && ':' !in a && ':' !in b && !StartsWith(id, ErrorPrefix)
    ensures InterpretAsWritten(url, params, id + ":" + (a + ":" + b)) == Interpret(url, params, id + ":" + (a + ":" + b))
  {
    var response := id + ":" + (a + ":" + b);
    var details := PaymentDetails(id, a + ":" + b + PaymentIdMarker + id);
    assert InterpretAsWritten(url, params, response) == Ok(details) by {
      assert response == id + ":" + a + ":" + b + "";
      AsWrittenCompose(url, params, id, a, b, "");
    }
    assert Interpret(url, params, response) == Ok(details) by {
      assert (a + ":" + b)[|a|] == ':';
      InterpretCompose(url, params, id, a + ":" + b);
    }
  }

  /** Everywhere else the source and the model agree: on bad replies, and on
      accepted replies with exactly two `:`. */
  lemma AsWrittenAgreesOtherwise(url: string, params: string, response: string)
    requires IsBadResponse(response) || Count(response, ':') == 2
    ensures InterpretAsWritten(url, params, response) == Interpret(url, params, response)
  {
    if !IsBadResponse(response) {
      var id, a, b := TwoColonParts(response);
      AgreeOnTwoColons(url, params, id, a, b);
    }
  }
}
