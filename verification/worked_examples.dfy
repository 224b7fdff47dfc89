/**
 * The exact body of a full message whose values need no escaping apart from
 * the separators of its two addresses, and the request of the repository's
 * `InitGetParameters` test evaluated with it.
 */
module WorkedExamples {
  import opened Wrappers
  import opened Text
  import opened Numbers
  import opened PercentEncoding
  import opened FormBody
  import opened InitMessage

  // ---------------------------------------------------------------------------
  // Formatting and escaping of the values the test uses
  // ---------------------------------------------------------------------------

  lemma Digits978()
    ensures NatToString(978) == "978"
  {
    assert DigitChar(9) == '9' && DigitChar(7) == '7' && DigitChar(8) == '8';
    assert NatToString(97) == NatToString(9) + [DigitChar(7)];
    assert NatToString(978) == NatToString(97) + [DigitChar(8)];
  }

  lemma Digits33()
    ensures NatToString(33) == "33"
  {
    assert NatToString(33) == NatToString(3) + [DigitChar(3)];
  }

  /** The formatted values: action 4, currency 978, amount 33.33, language ITA. */
  lemma FormattedValues()
    ensures NatToString(ActionCode(Authorization)) == "4"
    ensures FormatThreeDigits(978) == "978"
    ensures FormatCents(3333) == "33.33"
    ensures LanguageId(ITA) == "ITA"
  {
    Digits978();
    Digits33();
    assert 3333 / 100 == 33 && 3333 % 100 == 33;
    LanguageIdRoundTrip(ITA);
  }

  /** Text made of unreserved characters only. */
  predicate Plain(s: string) {
    forall i :: 0 <= i < |s| ==> IsUnreserved(s[i])
  }

  /** Plain text is sent as it is. */
  lemma EscapeUnreserved(s: AsciiString)
    requires Plain(s)
    ensures EscapeDataString(s) == s
  {
    EscapeIdentity(s);
  }

  lemma EscapeSchemeSeparator()
    ensures EscapeDataString("://") == "%3A%2F%2F"
  {
    assert EscapeChar(':') == "%3A";
    assert EscapeChar('/') == "%2F";
    assert "://"[1..] == "//";
    assert "//"[1..] == "/";
    assert "/"[1..] == "";
  }

  lemma EscapeSlash()
    ensures EscapeDataString("/") == "%2F"
  {
    assert EscapeChar('/') == "%2F";
    assert "/"[1..] == "";
  }

  /** An address `<scheme>://<host>/<page>`. */
  function Url(scheme: AsciiString, host: AsciiString, page: AsciiString): AsciiString
  {
    AsciiAppend(scheme, "://");
    AsciiAppend(scheme + "://", host);
    AsciiAppend(scheme + "://" + host, "/");
    AsciiAppend(scheme + "://" + host + "/", page);
    scheme + "://" + host + "/" + page
  }

  /** In an address of unreserved pieces only the `:` and the two `/` of the
      scheme separator and the `/` before the page are escaped. */
  lemma EscapeUrl(scheme: AsciiString, host: AsciiString, page: AsciiString)
    requires Plain(scheme) && Plain(host) && Plain(page)
    ensures EscapeDataString(Url(scheme, host, page)) == scheme + "%3A%2F%2F" + host + "%2F" + page
  {
    var sep: AsciiString, slash: AsciiString := "://", "/";
    EscapeUnreserved(scheme);
    EscapeUnreserved(host);
    EscapeUnreserved(page);
    EscapeSchemeSeparator();
    EscapeSlash();
    EscapeAppend(scheme, sep);
    EscapeAppend(scheme + sep, host);
    EscapeAppend(scheme + sep + host, slash);
    EscapeAppend(scheme + sep + host + slash, page);
  }

  lemma DigitsArePlain(s: string)
    requires AllDigits(s)
    ensures Plain(s)
  {
    assert forall i :: 0 <= i < |s| ==> IsDigit(s[i]);
  }

  /** Digits, one '.', two digits: every character is unreserved. */
  lemma DottedPlain(s: string)
    requires |s| >= 4 && s[|s| - 3] == '.' && AllDigits(s[..|s| - 3]) && AllDigits(s[|s| - 2..])
    ensures Plain(s)
  {
    forall i | 0 <= i < |s| ensures IsUnreserved(s[i]) {
      if i < |s| - 3 {
        assert s[i] == s[..|s| - 3][i];
      } else if i > |s| - 3 {
        assert s[i] == s[|s| - 2..][i - (|s| - 2)];
      }
    }
  }

  /** An amount is written with digits and one '.', all unreserved. */
  lemma FormatCentsPlain(cents: nat)
    ensures Plain(FormatCents(cents))
  {
    FormatCentsShape(cents);
    DottedPlain(FormatCents(cents));
  }

  lemma LanguageIdPlain(l: AcceptedLanguage)
    ensures Plain(LanguageId(l))
  {
    LanguageIdIsName(l);
    var n := LanguageName(l);
    assert |n| == 3 && forall i :: 0 <= i < 3 ==> 'A' <= n[i] <= 'Z';
  }

  /** A pair whose value is plain is sent as written. */
  lemma PlainPair(key: string, value: AsciiString)
    requires Plain(value)
    ensures EncodePair(Field(key, value)) == key + "=" + value
  {
    EscapeUnreserved(value);
  }

  /** A pair whose value is an address of plain pieces. */
  lemma UrlPair(key: string, scheme: AsciiString, host: AsciiString, page: AsciiString)
    requires Plain(scheme) && Plain(host) && Plain(page)
    ensures EncodePair(Field(key, Url(scheme, host, page))) == key + "=" + (scheme + "%3A%2F%2F" + host + "%2F" + page)
  {
    EscapeUrl(scheme, host, page);
  }

  /** A full message whose text fields are plain and whose two addresses are
      `<scheme>://<host>/<page>` of plain pieces. */
  predicate PlainMessage(m: PaymentInitMessage, scheme: AsciiString, host: AsciiString, receipt: AsciiString, error: AsciiString)
  {
    && IsFull(m)
    && Plain(m.id) && Plain(m.password) && Plain(m.trackId)
    && Plain(m.udf1) && Plain(m.udf2) && Plain(m.udf3) && Plain(m.udf4) && Plain(m.udf5)
    && Plain(scheme) && Plain(host) && Plain(receipt) && Plain(error)
    && m.responseUrl == Some(Url(scheme, host, receipt)) && m.errorUrl == Some(Url(scheme, host, error))
  }

  /** The pairs of such a message, fourteen of them in the fixed order: text
      and numbers as written, addresses with `:` and `/` escaped. */
  function PlainPairs(m: PaymentInitMessage, scheme: AsciiString, host: AsciiString, receipt: AsciiString, error: AsciiString): seq<string>
    requires PlainMessage(m, scheme, host, receipt, error)
  {
    [ "id" + "=" + m.id,
      "password" + "=" + m.password,
      "amt" + "=" + FormatCents(m.amountCents),
      "currencycode" + "=" + FormatThreeDigits(m.currency),
      "action" + "=" + NatToString(ActionCode(m.action)),
      "langid" + "=" + LanguageId(m.language),
      "responseURL" + "=" + (scheme + "%3A%2F%2F" + host + "%2F" + receipt),
      "errorURL" + "=" + (scheme + "%3A%2F%2F" + host + "%2F" + error),
      "trackid" + "=" + m.trackId,
      "udf1" + "=" + m.udf1,
      "udf2" + "=" + m.udf2,
      "udf3" + "=" + m.udf3,
      "udf4" + "=" + m.udf4,
      "udf5" + "=" + m.udf5 ]
  }

  /** Fourteen images under `g`, listed one by one.  Generic in `g` so that
      the positional reasoning is done once, without unfolding `g`. */
  lemma MapFourteen<A, B>(g: A -> B, xs: seq<A>, ys: seq<B>)
    requires |xs| == 14 && |ys| == 14
    requires forall i :: 0 <= i < 14 ==> ys[i] == g(xs[i])
    ensures ys == [g(xs[0]), g(xs[1]), g(xs[2]), g(xs[3]), g(xs[4]), g(xs[5]), g(xs[6]), g(xs[7]), g(xs[8]), g(xs[9]), g(xs[10]), g(xs[11]), g(xs[12]), g(xs[13])]
  {
    SeqEq14(ys, [g(xs[0]), g(xs[1]), g(xs[2]), g(xs[3]), g(xs[4]), g(xs[5]), g(xs[6]), g(xs[7]), g(xs[8]), g(xs[9]), g(xs[10]), g(xs[11]), g(xs[12]), g(xs[13])]);
  }

  /** The encoded pairs of fourteen fields, one per field.  Goes through
      `MapFourteen` so that the encoder is not unfolded over the whole list. */
  lemma EncodePairsOfFourteen(f0: Field, f1: Field, f2: Field, f3: Field, f4: Field, f5: Field, f6: Field, f7: Field, f8: Field, f9: Field, f10: Field, f11: Field, f12: Field, f13: Field)
    ensures EncodePairs([f0, f1, f2, f3, f4, f5, f6, f7, f8, f9, f10, f11, f12, f13]) == [EncodePair(f0), EncodePair(f1), EncodePair(f2), EncodePair(f3), EncodePair(f4), EncodePair(f5), EncodePair(f6), EncodePair(f7), EncodePair(f8), EncodePair(f9), EncodePair(f10), EncodePair(f11), EncodePair(f12), EncodePair(f13)]
  {
    var fs := [f0, f1, f2, f3, f4, f5, f6, f7, f8, f9, f10, f11, f12, f13];
    MapFourteen(EncodePair, fs, EncodePairs(fs));
  }

  lemma FrontPairs(m: PaymentInitMessage, scheme: AsciiString, host: AsciiString, receipt: AsciiString, error: AsciiString)
    requires PlainMessage(m, scheme, host, receipt, error)
    ensures EncodePair(Field("id", m.id)) == "id" + "=" + m.id
    ensures EncodePair(Field("password", m.password)) == "password" + "=" + m.password
    ensures EncodePair(Field("amt", FormatCents(m.amountCents))) == "amt" + "=" + FormatCents(m.amountCents)
    ensures EncodePair(Field("currencycode", FormatThreeDigits(m.currency))) == "currencycode" + "=" + FormatThreeDigits(m.currency)
    ensures EncodePair(Field("action", NatToString(ActionCode(m.action)))) == "action" + "=" + NatToString(ActionCode(m.action))
    ensures EncodePair(Field("langid", LanguageId(m.language)))  == "langid" + "=" + LanguageId(m.language)
  {
    PlainPair("id", m.id);
    PlainPair("password", m.password);
    FormatCentsPlain(m.amountCents);
    PlainPair("amt", FormatCents(m.amountCents));
    ThreeDigitsRoundTrip(m.currency);
    DigitsArePlain(FormatThreeDigits(m.currency));
    PlainPair("currencycode", FormatThreeDigits(m.currency));
    DigitsArePlain(NatToString(ActionCode(m.action)));
    PlainPair("action", NatToString(ActionCode(m.action)));
    LanguageIdPlain(m.language);
    PlainPair("langid", LanguageId(m.language));
  }

  lemma BackPairs(m: PaymentInitMessage, scheme: AsciiString, host: AsciiString, receipt: AsciiString, error: AsciiString)
    requires PlainMessage(m, scheme, host, receipt, error)
    ensures EncodePair(Field("responseURL", m.responseUrl.value)) == "responseURL" + "=" + (scheme + "%3A%2F%2F" + host + "%2F" + receipt)
    ensures EncodePair(Field("errorURL", m.errorUrl.value)) == "errorURL" + "=" + (scheme + "%3A%2F%2F" + host + "%2F" + error)
    ensures EncodePair(Field("trackid", m.trackId)) == "trackid" + "=" + m.trackId
    ensures EncodePair(Field("udf1", m.udf1)) == "udf1" + "=" + m.udf1
    ensures EncodePair(Field("udf2", m.udf2)) == "udf2" + "=" + m.udf2
    ensures EncodePair(Field("udf3", m.udf3)) == "udf3" + "=" + m.udf3
    ensures EncodePair(Field("udf4", m.udf4)) == "udf4" + "=" + m.udf4
    ensures EncodePair(Field("udf5", m.udf5)) == "udf5" + "=" + m.udf5
  {
    UrlPair("responseURL", scheme, host, receipt);
    UrlPair("errorURL", scheme, host, error);
    PlainPair("trackid", m.trackId);
    PlainPair("udf1", m.udf1);
    PlainPair("udf2", m.udf2);
    PlainPair("udf3", m.udf3);
    PlainPair("udf4", m.udf4);
    PlainPair("udf5", m.udf5);
  }

  /** The body of such a message is the `&`-join of those pairs, and splitting
      it at `&` gives them back. */
  lemma PlainMessageBody(m: PaymentInitMessage, scheme: AsciiString, host: AsciiString, receipt: AsciiString, error: AsciiString)
    requires PlainMessage(m, scheme, host, receipt, error)
    ensures ToUrlParameters(m) == Join(PlainPairs(m, scheme, host, receipt, error), '&')
    ensures Split(ToUrlParameters(m), '&') == PlainPairs(m, scheme, host, receipt, error)
  {
    FullMessageSendsEveryField(m);
    EncodePairsOfFourteen(
      Field("id", m.id), Field("password", m.password), Field("amt", FormatCents(m.amountCents)),
      Field("currencycode", FormatThreeDigits(m.currency)), Field("action", NatToString(ActionCode(m.action))),
      Field("langid", LanguageId(m.language)), Field("responseURL", m.responseUrl.value),
      Field("errorURL", m.errorUrl.value), Field("trackid", m.trackId),
      Field("udf1", m.udf1), Field("udf2", m.udf2), Field("udf3", m.udf3), Field("udf4", m.udf4), Field("udf5", m.udf5));
    FrontPairs(m, scheme, host, receipt, error);
    BackPairs(m, scheme, host, receipt, error);
    ToUrlParametersShape(m);
  }

  // ---------------------------------------------------------------------------
  // The InitGetParameters test
  // ---------------------------------------------------------------------------

  function ReceiptUrl(): AsciiString { Url("http", "www.mioserver.com", "Receipt.jsp") }
  function ErrorUrl(): AsciiString { Url("http", "www.mioserver.com", "Error.jsp") }

  /** The test's message: every field set, amount 33.33 held as 3333 cents. */
  function TestMessage(): PaymentInitMessage
  {
    PaymentInitMessage(
      id := "89025555", password := "test", action := Authorization, currency := 978,
      language := ITA, responseUrl := Some(ReceiptUrl()), errorUrl := Some(ErrorUrl()),
      amountCents := 3333, trackId := "trackId",
      udf1 := "udf1", udf2 := "udf2", udf3 := "udf3", udf4 := "udf4", udf5 := "udf5")
  }

  /** The pairs the test expects, in its order. */
  function TestPairs(): seq<string>
  {
    [ "id" + "=" + "89025555",
      "password" + "=" + "test",
      "amt" + "=" + "33.33",
      "currencycode" + "=" + "978",
      "action" + "=" + "4",
      "langid" + "=" + "ITA",
      "responseURL" + "=" + ("http" + "%3A%2F%2F" + "www.mioserver.com" + "%2F" + "Receipt.jsp"),
      "errorURL" + "=" + ("http" + "%3A%2F%2F" + "www.mioserver.com" + "%2F" + "Error.jsp"),
      "trackid" + "=" + "trackId",
      "udf1" + "=" + "udf1",
      "udf2" + "=" + "udf2",
      "udf3" + "=" + "udf3",
      "udf4" + "=" + "udf4",
      "udf5" + "=" + "udf5" ]
  }

  lemma TestPiecesPlain()
    ensures Plain("http") && Plain("www.mioserver.com") && Plain("Receipt.jsp") && Plain("Error.jsp")
  {
  }

  lemma TestTextPlain()
    ensures var m := TestMessage();
      && Plain(m.id) && Plain(m.password) && Plain(m.trackId)
      && Plain(m.udf1) && Plain(m.udf2) && Plain(m.udf3) && Plain(m.udf4) && Plain(m.udf5)
  {
  }

  lemma TestMessageIsPlain()
    ensures PlainMessage(TestMessage(), "http", "www.mioserver.com", "Receipt.jsp", "Error.jsp")
  {
    TestPiecesPlain();
    TestTextPlain();
  }

  /**
   * The `InitGetParameters` test: the body of the test's message is the
   * `&`-join of the expected pairs, in the expected order, and splitting it at
   * `&` gives exactly those pairs back.
   */
  lemma InitGetParameters()
    ensures ToUrlParameters(TestMessage()) == Join(TestPairs(), '&')
    ensures Split(ToUrlParameters(TestMessage()), '&') == TestPairs()
  {
    TestMessageIsPlain();
    PlainMessageBody(TestMessage(), "http", "www.mioserver.com", "Receipt.jsp", "Error.jsp");
    FormattedValues();
  }
}
