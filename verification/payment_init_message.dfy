/**
 * `PaymentInitMessage`: the immutable payment-initialisation request and its
 * `ToUrlParameters` form body.  Which fields are sent, in which order and
 * with which value is decided by `IncludedFields`; the body is those fields
 * encoded, `&`-joined.
 */
module InitMessage {
  import opened Wrappers
  import opened Text
  import opened Numbers
  import opened PercentEncoding
  import opened FormBody

  /** `RequiredAction`; its numeric value is `ActionCode`. */
  datatype RequiredAction = Purchase | Credit | Authorization | Capture | Void

  function ActionCode(a: RequiredAction): nat
  {
    match a
    case Purchase => 1
    case Credit => 2
    case Authorization => 4
    case Capture => 5
    case Void => 9
  }

  function ActionFromCode(n: nat): Option<RequiredAction>
  {
    if n == 1 then Some(Purchase)
    else if n == 2 then Some(Credit)
    else if n == 4 then Some(Authorization)
    else if n == 5 then Some(Capture)
    else if n == 9 then Some(Void)
    else None
  }

  /** `AcceptedLanguage`; its member name is `LanguageName`. */
  datatype AcceptedLanguage = ITA | USA | FRA | DEU | ESP | SLO

  function LanguageName(l: AcceptedLanguage): AsciiString
  {
    match l
    case ITA => "ITA"
    case USA => "USA"
    case FRA => "FRA"
    case DEU => "DEU"
    case ESP => "ESP"
    case SLO => "SLO"
  }

  /** The `langid` value: the member name upper-cased. */
  function LanguageId(l: AcceptedLanguage): AsciiString
  {
    ToUpper(LanguageName(l))
  }

  function LanguageFromId(s: string): Option<AcceptedLanguage>
  {
    if s == "ITA" then Some(ITA)
    else if s == "USA" then Some(USA)
    else if s == "FRA" then Some(FRA)
    else if s == "DEU" then Some(DEU)
    else if s == "ESP" then Some(ESP)
    else if s == "SLO" then Some(SLO)
    else None
  }

  /**
   * The message.  The amount is held in integer cents; `responseUrl` and
   * `errorUrl` are absolute URIs already rendered as strings, `None` for a
   * null `Uri`.  The constructor's defaults are the source's: currency 978
   * and empty user-defined fields.
   */
  datatype PaymentInitMessage = PaymentInitMessage(
    id: AsciiString,
    password: AsciiString,
    action: RequiredAction,
    amountCents: int,
    language: AcceptedLanguage,
    responseUrl: Option<AsciiString>,
    errorUrl: Option<AsciiString>,
    trackId: AsciiString,
    currency: int := 978,
    udf1: AsciiString := "",
    udf2: AsciiString := "",
    udf3: AsciiString := "",
    udf4: AsciiString := "",
    udf5: AsciiString := "")

  /** The constructor's defaults: currency 978 (euro) and empty user-defined fields. */
  lemma ConstructorDefaults(id: AsciiString, password: AsciiString, action: RequiredAction, amountCents: int,
                            language: AcceptedLanguage, responseUrl: Option<AsciiString>,
                            errorUrl: Option<AsciiString>, trackId: AsciiString)
    ensures var m := PaymentInitMessage(id, password, action, amountCents, language, responseUrl, errorUrl, trackId);
      && m.currency == 978
      && m.udf1 == "" && m.udf2 == "" && m.udf3 == "" && m.udf4 == "" && m.udf5 == ""
      && m.id == id && m.password == password && m.action == action && m.amountCents == amountCents
      && m.language == language && m.responseUrl == responseUrl && m.errorUrl == errorUrl && m.trackId == trackId
  {
  }

  /** Every key the body can carry, in the order they are appended. */
  const KeyOrder: seq<string> := [
    "id", "password", "amt", "currencycode", "action", "langid",
    "responseURL", "errorURL", "trackid", "udf1", "udf2", "udf3", "udf4", "udf5"]

  /** A key with the value to send under it, or `None` when the field is skipped. */
  type Candidate = (string, Option<AsciiString>)

  /** A string field is sent only when it is non-empty. */
  function NonEmpty(value: AsciiString): Option<AsciiString>
  {
    if |value| > 0 then Some(value) else None
  }

  /**
   * One entry per `if`/`Append` of `ToUrlParameters`, in its order: the key
   * and the unescaped value it appends, `None` when its guard is false.
   */
  function Candidates(m: PaymentInitMessage): seq<Candidate>
  {
    [ ("id", NonEmpty(m.id)),
      ("password", NonEmpty(m.password)),
      ("amt", if m.amountCents > 0 then Some(FormatCents(m.amountCents)) else None),
      ("currencycode", if 0 < m.currency <= 999 then Some(FormatThreeDigits(m.currency)) else None),
      ("action", Some(NatToString(ActionCode(m.action)))),
      ("langid", Some(LanguageId(m.language))),
      ("responseURL", m.responseUrl),
      ("errorURL", m.errorUrl),
      ("trackid", NonEmpty(m.trackId)),
      ("udf1", NonEmpty(m.udf1)),
      ("udf2", NonEmpty(m.udf2)),
      ("udf3", NonEmpty(m.udf3)),
      ("udf4", NonEmpty(m.udf4)),
      ("udf5", NonEmpty(m.udf5)) ]
  }

  /** The candidates whose guard held, as fields, in order. */
  function Present(cs: seq<Candidate>): seq<Field>
  {
    if |cs| == 0 then []
    else
      (match cs[0].1 case Some(v) => [Field(cs[0].0, v)] case None => [])
      + Present(cs[1..])
  }

  /** The fields `ToUrlParameters` appends, in its order, with their unescaped values. */
  function IncludedFields(m: PaymentInitMessage): seq<Field>
  {
    Present(Candidates(m))
  }

  /** `ToUrlParameters`: each included field appended as `key=escaped&`, then `TrimEnd('&')`. */
  function ToUrlParameters(m: PaymentInitMessage): string
  {
    Encode(IncludedFields(m))
  }

  // ---------------------------------------------------------------------------
  // Properties
  // ---------------------------------------------------------------------------

  /** The action code and the language id are mutually inverse table lookups. */
  lemma ActionCodeRoundTrip(a: RequiredAction, n: nat)
    ensures ActionFromCode(ActionCode(a)) == Some(a)
    ensures ActionFromCode(n) == Some(a) ==> ActionCode(a) == n
  {
  }

  /** Upper-casing leaves the member names as they are. */
  lemma LanguageIdIsName(l: AcceptedLanguage)
    ensures LanguageId(l) == LanguageName(l)
  {
    var n := LanguageName(l);
    assert |n| == 3 && forall i :: 0 <= i < 3 ==> 'A' <= n[i] <= 'Z';
    ToUpperNoLower(n);
  }

  /** Every member name reads back as its member. */
  lemma LanguageNameRoundTrip(l: AcceptedLanguage)
    ensures LanguageFromId(LanguageName(l)) == Some(l)
  {
    match l
    case ITA =>
    case USA => assert "USA" != "ITA" by { assert "USA"[0] != "ITA"[0]; }
    case FRA => assert "FRA"[0] != "ITA"[0] && "FRA"[0] != "USA"[0];
    case DEU => assert "DEU"[0] != "ITA"[0] && "DEU"[0] != "USA"[0] && "DEU"[0] != "FRA"[0];
    case ESP => assert "ESP"[0] != "ITA"[0] && "ESP"[0] != "USA"[0] && "ESP"[0] != "FRA"[0] && "ESP"[0] != "DEU"[0];
    case SLO => assert "SLO"[0] != "ITA"[0] && "SLO"[0] != "USA"[0] && "SLO"[0] != "FRA"[0] && "SLO"[0] != "DEU"[0] && "SLO"[0] != "ESP"[0];
  }

  /** The `langid` value is the member name itself, and reads back as the member. */
  lemma LanguageIdRoundTrip(l: AcceptedLanguage)
    ensures LanguageId(l) == LanguageName(l)
    ensures LanguageFromId(LanguageId(l)) == Some(l)
  {
    LanguageIdIsName(l);
    LanguageNameRoundTrip(l);
  }

  /** The only text that reads as a member is that member's `langid`. */
  lemma LanguageFromIdInverse(l: AcceptedLanguage, s: string)
    requires LanguageFromId(s) == Some(l)
    ensures LanguageId(l) == s
  {
    LanguageIdIsName(l);
  }

  function CandidateKeys(cs: seq<Candidate>): (ks: seq<string>)
    ensures |ks| == |cs|
    ensures forall i :: 0 <= i < |cs| ==> ks[i] == cs[i].0
  {
    if |cs| == 0 then [] else [cs[0].0] + CandidateKeys(cs[1..])
  }

  /** `a` is `b` with some elements left out, the rest kept in order. */
  predicate IsSubsequence(a: seq<string>, b: seq<string>)
    decreases |b|
  {
    || |a| == 0
    || (|b| > 0 && ((a[0] == b[0] && IsSubsequence(a[1..], b[1..])) || IsSubsequence(a, b[1..])))
  }

  /** Skipping candidates keeps the remaining keys in table order. */
  lemma {:induction false} PresentKeysSubsequence(cs: seq<Candidate>)
    ensures IsSubsequence(Keys(Present(cs)), CandidateKeys(cs))
  {
    if |cs| > 0 {
      PresentKeysSubsequence(cs[1..]);
      var rest := Present(cs[1..]);
      match cs[0].1
      case Some(v) =>
        KeysAppend([Field(cs[0].0, v)], rest);
        assert Keys(Present(cs))[1..] == Keys(rest);
        assert CandidateKeys(cs)[1..] == CandidateKeys(cs[1..]);
      case None =>
        assert Present(cs) == rest;
        assert CandidateKeys(cs)[1..] == CandidateKeys(cs[1..]);
    }
  }

  /** With distinct keys, looking a key up among the present fields finds its candidate's value. */
  lemma {:induction false} LookupPresent(cs: seq<Candidate>, i: nat)
    requires i < |cs|
    requires forall j :: 0 <= j < |cs| && j != i ==> cs[j].0 != cs[i].0
    ensures Lookup(Present(cs), cs[i].0) == cs[i].1
  {
    var head := match cs[0].1 case Some(v) => [Field(cs[0].0, v)] case None => [];
    LookupAppend(head, Present(cs[1..]), cs[i].0);
    if i > 0 {
      LookupPresent(cs[1..], i - 1);
    } else {
      LookupPresentAbsent(cs[1..], cs[0].0);
    }
  }

  lemma {:induction false} LookupPresentAbsent(cs: seq<Candidate>, key: string)
    requires forall j :: 0 <= j < |cs| ==> cs[j].0 != key
    ensures Lookup(Present(cs), key) == None
  {
    if |cs| > 0 {
      var head := match cs[0].1 case Some(v) => [Field(cs[0].0, v)] case None => [];
      LookupAppend(head, Present(cs[1..]), key);
      LookupPresentAbsent(cs[1..], key);
    }
  }

  lemma {:induction false} SubsequenceMembers(a: seq<string>, b: seq<string>, x: string)
    requires IsSubsequence(a, b) && x in a
    ensures x in b
    decreases |b|
  {
    if a[0] == b[0] && IsSubsequence(a[1..], b[1..]) {
      if x != a[0] {
        assert x in a[1..];
        SubsequenceMembers(a[1..], b[1..], x);
      }
    } else {
      SubsequenceMembers(a, b[1..], x);
    }
  }

  lemma CandidateKeysInOrder(m: PaymentInitMessage)
    ensures CandidateKeys(Candidates(m)) == KeyOrder
  {
    var cs := Candidates(m);
    KeysOfFourteen(cs[0], cs[1], cs[2], cs[3], cs[4], cs[5], cs[6], cs[7], cs[8], cs[9], cs[10], cs[11], cs[12], cs[13]);
  }

  /** The keys of fourteen candidates, in order.  Spelled out one candidate
      at a time so that the solver need not unfold the filter fourteen deep. */
  lemma KeysOfFourteen(c0: Candidate, c1: Candidate, c2: Candidate, c3: Candidate, c4: Candidate, c5: Candidate, c6: Candidate, c7: Candidate, c8: Candidate, c9: Candidate, c10: Candidate, c11: Candidate, c12: Candidate, c13: Candidate)
    ensures CandidateKeys([c0, c1, c2, c3, c4, c5, c6, c7, c8, c9, c10, c11, c12, c13]) == [c0.0, c1.0, c2.0, c3.0, c4.0, c5.0, c6.0, c7.0, c8.0, c9.0, c10.0, c11.0, c12.0, c13.0]
  {
    SeqEq14(CandidateKeys([c0, c1, c2, c3, c4, c5, c6, c7, c8, c9, c10, c11, c12, c13]), [c0.0, c1.0, c2.0, c3.0, c4.0, c5.0, c6.0, c7.0, c8.0, c9.0, c10.0, c11.0, c12.0, c13.0]);
  }

  /** No key of the fixed list contains `&` or `=`. */
  lemma KeyOrderFormKeys()
    ensures forall i :: 0 <= i < |KeyOrder| ==> IsFormKey(KeyOrder[i])
  {
  }

  /** The keys in the body are drawn from the fixed list and appear in its order. */
  lemma KeysInFixedOrder(m: PaymentInitMessage)
    ensures IsSubsequence(Keys(IncludedFields(m)), KeyOrder)
    ensures forall i :: 0 <= i < |IncludedFields(m)| ==> IncludedFields(m)[i].key in KeyOrder
  {
    var cs := Candidates(m);
    CandidateKeysInOrder(m);
    PresentKeysSubsequence(cs);
    var fs := IncludedFields(m);
    forall i | 0 <= i < |fs| ensures fs[i].key in KeyOrder {
      assert Keys(fs)[i] == fs[i].key;
      SubsequenceMembers(Keys(fs), KeyOrder, fs[i].key);
    }
  }

  /** Every key the message can send is a valid form key. */
  lemma IncludedFormKeys(m: PaymentInitMessage)
    ensures AllFormKeys(IncludedFields(m))
  {
    KeysInFixedOrder(m);
    KeyOrderFormKeys();
  }

  /** No key of the fixed list occurs twice. */
  lemma KeyOrderDistinct()
    ensures forall i, j :: 0 <= i < j < |KeyOrder| ==> KeyOrder[i] != KeyOrder[j]
  {
  }

  /** Looking up the `i`-th key finds the `i`-th candidate's value, or nothing when it was skipped. */
  lemma LookupCandidate(m: PaymentInitMessage, i: nat)
    requires i < |KeyOrder|
    ensures Lookup(IncludedFields(m), KeyOrder[i]) == Candidates(m)[i].1
  {
    var cs := Candidates(m);
    CandidateKeysInOrder(m);
    KeyOrderDistinct();
    forall j | 0 <= j < |cs| && j != i ensures cs[j].0 != cs[i].0 {
      assert CandidateKeys(cs)[j] == cs[j].0 && CandidateKeys(cs)[i] == cs[i].0;
    }
    LookupPresent(cs, i);
  }

  lemma LookupSomeIsPresent(fs: seq<Field>, key: string)
    requires Lookup(fs, key).Some?
    ensures |fs| > 0
  {
  }

  /** `action` is always sent, so the message never has an empty field list. */
  lemma IncludedNonEmpty(m: PaymentInitMessage)
    ensures |IncludedFields(m)| > 0
  {
    ActionLookup(m);
    LookupSomeIsPresent(IncludedFields(m), "action");
  }

  /**
   * The body is the `&`-join of `key=escaped` for the included fields, which
   * is also exactly what splitting it at `&` yields: no empty piece, each
   * piece with one `=`; the final trim removed only the last separator.
   */
  lemma ToUrlParametersShape(m: PaymentInitMessage)
    ensures var body, fs := ToUrlParameters(m), IncludedFields(m);
      && |fs| > 0
      && body == Join(EncodePairs(fs), '&')
      && Split(body, '&') == EncodePairs(fs)
      && (forall p :: p in Split(body, '&') ==> |p| > 0 && Count(p, '=') == 1)
      && Appended(fs) == body + "&"
  {
    IncludedNonEmpty(m);
    IncludedFormKeys(m);
    EncodeShape(IncludedFields(m));
  }

  /** The gateway reads back exactly the included fields, in order. */
  lemma BodyDecodes(m: PaymentInitMessage)
    ensures Decode(ToUrlParameters(m)) == Some(IncludedFields(m))
  {
    IncludedFormKeys(m);
    DecodeEncode(IncludedFields(m));
  }

  /** Each string field is sent under its key exactly when it is non-empty;
      an empty one leaves no pair at all, not even `key=`. */
  lemma StringFieldsSent(m: PaymentInitMessage)
    ensures var fs := IncludedFields(m);
      && Lookup(fs, "id") == (if m.id == "" then None else Some(m.id))
      && Lookup(fs, "password") == (if m.password == "" then None else Some(m.password))
      && Lookup(fs, "trackid") == (if m.trackId == "" then None else Some(m.trackId))
      && Lookup(fs, "udf1") == (if m.udf1 == "" then None else Some(m.udf1))
      && Lookup(fs, "udf2") == (if m.udf2 == "" then None else Some(m.udf2))
      && Lookup(fs, "udf3") == (if m.udf3 == "" then None else Some(m.udf3))
      && Lookup(fs, "udf4") == (if m.udf4 == "" then None else Some(m.udf4))
      && Lookup(fs, "udf5") == (if m.udf5 == "" then None else Some(m.udf5))
  {
    LookupCandidate(m, 0);
    LookupCandidate(m, 1);
    LookupCandidate(m, 8);
    LookupCandidate(m, 9);
    LookupCandidate(m, 10);
    LookupCandidate(m, 11);
    LookupCandidate(m, 12);
    LookupCandidate(m, 13);
  }

  /** The URIs are sent exactly when they are not null. */
  lemma UriFieldsSent(m: PaymentInitMessage)
    ensures Lookup(IncludedFields(m), "responseURL") == m.responseUrl
    ensures Lookup(IncludedFields(m), "errorURL") == m.errorUrl
  {
    LookupCandidate(m, 6);
    LookupCandidate(m, 7);
  }

  /** The `amt` candidate, looked up in the included fields. */
  lemma AmountLookup(m: PaymentInitMessage)
    ensures Lookup(IncludedFields(m), "amt") == if m.amountCents > 0 then Some(FormatCents(m.amountCents)) else None
  {
    LookupCandidate(m, 2);
  }

  /** The `currencycode` candidate, looked up in the included fields. */
  lemma CurrencyLookup(m: PaymentInitMessage)
    ensures Lookup(IncludedFields(m), "currencycode") == if 0 < m.currency <= 999 then Some(FormatThreeDigits(m.currency)) else None
  {
    LookupCandidate(m, 3);
  }

  /** The `action` candidate, looked up in the included fields. */
  lemma ActionLookup(m: PaymentInitMessage)
    ensures Lookup(IncludedFields(m), "action") == Some(NatToString(ActionCode(m.action)))
  {
    LookupCandidate(m, 4);
  }

  /** The `langid` candidate, looked up in the included fields. */
  lemma LanguageLookup(m: PaymentInitMessage)
    ensures Lookup(IncludedFields(m), "langid") == Some(LanguageId(m.language))
  {
    LookupCandidate(m, 5);
  }

  /** `amt` is sent exactly when the amount is positive, as units, `.`, two
      digits, reading back as the amount. */
  lemma AmountSent(m: PaymentInitMessage)
    ensures var v := Lookup(IncludedFields(m), "amt");
      && (v.Some? <==> m.amountCents > 0)
      && (v.Some? ==> ParseCents(v.value) == Some(m.amountCents))
  {
    AmountLookup(m);
    if m.amountCents > 0 {
      FormatCentsRoundTrip(m.amountCents);
    }
  }

  /** `currencycode` is sent exactly when the code is in 1..999, as three
      digits reading back as the code. */
  lemma CurrencySent(m: PaymentInitMessage)
    ensures var v := Lookup(IncludedFields(m), "currencycode");
      && (v.Some? <==> 0 < m.currency <= 999)
      && (v.Some? ==> |v.value| == 3 && AllDigits(v.value) && ParseNat(v.value) == Some(m.currency))
  {
    CurrencyLookup(m);
    if 0 < m.currency <= 999 {
      ThreeDigitsRoundTrip(m.currency);
    }
  }

  /** `action` and `langid` are always sent: the action's number and the
      language's upper-case name, each reading back as the member. */
  lemma ActionAndLanguageSent(m: PaymentInitMessage)
    ensures var a, l := Lookup(IncludedFields(m), "action"), Lookup(IncludedFields(m), "langid");
      && a.Some? && ParseNat(a.value).Some? && ActionFromCode(ParseNat(a.value).value) == Some(m.action)
      && l.Some? && LanguageFromId(l.value) == Some(m.language)
  {
    ActionLookup(m);
    LanguageLookup(m);
    ParseNatToString(ActionCode(m.action));
    ActionCodeRoundTrip(m.action, ActionCode(m.action));
    LanguageIdRoundTrip(m.language);
  }

  lemma {:induction false} PresentAllSome(cs: seq<Candidate>)
    requires forall i :: 0 <= i < |cs| ==> cs[i].1.Some?
    ensures |Present(cs)| == |cs|
    ensures forall i :: 0 <= i < |cs| ==> Present(cs)[i] == Field(cs[i].0, cs[i].1.value)
  {
    if |cs| > 0 {
      PresentAllSome(cs[1..]);
    }
  }


  /** Every field of the message is set: non-empty strings, a positive
      amount, a currency code in 1..999 and both URIs. */
  predicate IsFull(m: PaymentInitMessage) {
    && m.id != "" && m.password != "" && m.amountCents > 0 && 0 < m.currency <= 999
    && m.responseUrl.Some? && m.errorUrl.Some? && m.trackId != ""
    && m.udf1 != "" && m.udf2 != "" && m.udf3 != "" && m.udf4 != "" && m.udf5 != ""
  }

  /** Two sequences of fourteen elements that agree at every position are equal.
      The fourteen-field lemmas use it in place of one large extensionality step,
      which the solver cannot afford. */
  lemma SeqEq14<T>(a: seq<T>, b: seq<T>)
    requires |a| == 14 && |b| == 14
    requires a[0] == b[0] && a[1] == b[1] && a[2] == b[2] && a[3] == b[3] && a[4] == b[4] && a[5] == b[5] && a[6] == b[6] && a[7] == b[7] && a[8] == b[8] && a[9] == b[9] && a[10] == b[10] && a[11] == b[11] && a[12] == b[12] && a[13] == b[13]
    ensures a == b
  {
    forall j | 0 <= j < 14 ensures a[j] == b[j] {
      if j == 0 {
      } else if j == 1 {
      } else if j == 2 {
      } else if j == 3 {
      } else if j == 4 {
      } else if j == 5 {
      } else if j == 6 {
      } else if j == 7 {
      } else if j == 8 {
      } else if j == 9 {
      } else if j == 10 {
      } else if j == 11 {
      } else if j == 12 {
      } else {
      }
    }
  }

  /** Fourteen candidates that are all present give fourteen fields, in order.
      Listed by position so that the filter is unfolded once per candidate. */
  lemma PresentFourteen(c0: Candidate, c1: Candidate, c2: Candidate, c3: Candidate, c4: Candidate, c5: Candidate, c6: Candidate, c7: Candidate, c8: Candidate, c9: Candidate, c10: Candidate, c11: Candidate, c12: Candidate, c13: Candidate)
    requires c0.1.Some? && c1.1.Some? && c2.1.Some? && c3.1.Some? && c4.1.Some? && c5.1.Some? && c6.1.Some? && c7.1.Some? && c8.1.Some? && c9.1.Some? && c10.1.Some? && c11.1.Some? && c12.1.Some? && c13.1.Some?
    ensures Present([c0, c1, c2, c3, c4, c5, c6, c7, c8, c9, c10, c11, c12, c13]) == [Field(c0.0, c0.1.value), Field(c1.0, c1.1.value), Field(c2.0, c2.1.value), Field(c3.0, c3.1.value), Field(c4.0, c4.1.value), Field(c5.0, c5.1.value), Field(c6.0, c6.1.value), Field(c7.0, c7.1.value), Field(c8.0, c8.1.value), Field(c9.0, c9.1.value), Field(c10.0, c10.1.value), Field(c11.0, c11.1.value), Field(c12.0, c12.1.value), Field(c13.0, c13.1.value)]
  {
    var cs := [c0, c1, c2, c3, c4, c5, c6, c7, c8, c9, c10, c11, c12, c13];
    PresentAllSome(cs);
    SeqEq14(Present(cs), [Field(c0.0, c0.1.value), Field(c1.0, c1.1.value), Field(c2.0, c2.1.value), Field(c3.0, c3.1.value), Field(c4.0, c4.1.value), Field(c5.0, c5.1.value), Field(c6.0, c6.1.value), Field(c7.0, c7.1.value), Field(c8.0, c8.1.value), Field(c9.0, c9.1.value), Field(c10.0, c10.1.value), Field(c11.0, c11.1.value), Field(c12.0, c12.1.value), Field(c13.0, c13.1.value)]);
  }

  /** A message with every field set sends all fourteen fields, in the fixed
      order, each with its formatted value. */
  lemma FullMessageSendsEveryField(m: PaymentInitMessage)
    requires IsFull(m)
    ensures IncludedFields(m) == [
      Field("id", m.id),
      Field("password", m.password),
      Field("amt", FormatCents(m.amountCents)),
      Field("currencycode", FormatThreeDigits(m.currency)),
      Field("action", NatToString(ActionCode(m.action))),
      Field("langid", LanguageId(m.language)),
      Field("responseURL", m.responseUrl.value),
      Field("errorURL", m.errorUrl.value),
      Field("trackid", m.trackId),
      Field("udf1", m.udf1),
      Field("udf2", m.udf2),
      Field("udf3", m.udf3),
      Field("udf4", m.udf4),
      Field("udf5", m.udf5)]
  {
    var cs := Candidates(m);
    PresentFourteen(cs[0], cs[1], cs[2], cs[3], cs[4], cs[5], cs[6], cs[7], cs[8], cs[9], cs[10], cs[11], cs[12], cs[13]);
  }
}
