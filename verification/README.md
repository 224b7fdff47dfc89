# e24PaymentPipe client core, modelled in Dafny

The e24PaymentPipe client starts a card payment with an e24 gateway in three steps:

1. It builds the gateway's base address with `PaymentServerUrlBuilder`.
2. It encodes a `PaymentInitMessage` as an `application/x-www-form-urlencoded` body with `ToUrlParameters`.
3. `PaymentPipe.performPaymentInitialization` posts that body to `<base>servlet/PaymentInitHTTPServlet`. It reads the one-line reply `<payment id>:<payment page URL>` into `PaymentDetails`. A malformed reply raises `BadResponseFromWebServiceException`.

The project models each step as pure functions over immutable datatypes and proves properties of them.

- Exceptions are values: a call returns `Ok(value)` or `Err(failure)`, where a `Failure` is one of the three exceptions the model represents (`exceptions.dfy`).
- A `null` message, address, port, context or URI is `None` of an `Option`. The message's string fields (`id`, `password`, `trackId`, `udf1`..`udf5`) are not nullable in the model; see "Left out".
- The HTTP exchange (`sendMessage`) is a function parameter `send: Request -> string`. It maps the request the pipe would post to the gateway's reply.

Files:

| file | module | contents |
|---|---|---|
| `wrappers.dfy` | `Wrappers` | `Option` |
| `exceptions.dfy` | `Exceptions` | `Failure` (`ArgumentNullException`, `BadResponseFromWebServiceException`, `IndexOutOfRangeException`), `Result` |
| `text.dfy` | `Text` | the `System.String` operations used: `IsNullOrWhiteSpace`, `StartsWith`, `EndsWith`, `Split`/`Join` (proved inverse), `TrimEnd`, `ToUpper` |
| `numbers.dfy` | `Numbers` | decimal formatting: `ToString("000")`, `ToString("0.00")` on an amount in cents, parsers proved to undo them |
| `percent_encoding.dfy` | `PercentEncoding` | `Uri.EscapeDataString` over ASCII (section 2.3 of RFC 3986 unreserved set, upper-case `%HH`) and a decoder proved to undo it |
| `form_body.dfy` | `FormBody` | the `key=value&…` body with its trailing-`&` trim, and the gateway's reading of it |
| `payment_init_message.dfy` | `InitMessage` | `RequiredAction`, `AcceptedLanguage`, `PaymentInitMessage`, `ToUrlParameters` |
| `server_url_builder.dfy` | `ServerUrl` | `UseSSL`, `PaymentServerUrlBuilder` constructor and `ToUrl`, and a parser for the URL it builds |
| `payment_pipe.dfy` | `Pipe` | `PaymentPipe` constructor, `BuildUrl`, `ParseResponse`, `performPaymentInitialization` as written and corrected |
| `worked_examples.dfy` | `WorkedExamples` | the exact body of a message with plain values; the repository's `InitGetParameters` test evaluated in the model |

Where a description of the builder and the code disagree, the model follows the code. A context that already ends in several `/` keeps all of them, because the code only adds a missing `/` and never removes one. `ServerUrl.ContextKeepsTrailingSlashes` shows `"/a//"` staying `"/a//"`. What the code guarantees, for text without characters that the current culture ignores, is that the path starts and ends with `/` (`ServerUrl.ContextPathSlashes`).

The repository's tests name the language enum `RequiredLanguage`; the source declares it as `AcceptedLanguage`, which the model uses.

## Model

| member | source | states |
|---|---|---|
| InitMessage.ActionCodeRoundTrip | e24PaymentPipe/PaymentInitMessage.cs:14-20 | each action's numeric code (1, 2, 4, 5, 9) reads back as that action, and a code that reads back as an action is that action's code |
| InitMessage.LanguageIdRoundTrip | e24PaymentPipe/PaymentInitMessage.cs:95 | upper-casing a language's name leaves it unchanged, and the `langid` value reads back as the language |
| InitMessage.LanguageFromIdInverse | e24PaymentPipe/PaymentInitMessage.cs:22-29 | a text that reads as a language is exactly that language's `langid` value |
| InitMessage.ConstructorDefaults | e24PaymentPipe/PaymentInitMessage.cs:51-82 | the constructor stores every argument unchanged; currency defaults to 978 and udf1..udf5 to empty |
| InitMessage.KeysInFixedOrder | e24PaymentPipe/PaymentInitMessage.cs:84-111 | the keys of the body are a subsequence of the fixed order id, password, amt, currencycode, action, langid, responseURL, errorURL, trackid, udf1..udf5 |
| InitMessage.StringFieldsSent | e24PaymentPipe/PaymentInitMessage.cs:86-89 | id, password, trackid and udf1..udf5 are sent with their value exactly when non-empty, otherwise no pair at all |
| InitMessage.AmountSent | e24PaymentPipe/PaymentInitMessage.cs:90-91 | `amt` is sent exactly when the amount is positive, and its text reads back as the amount |
| InitMessage.CurrencySent | e24PaymentPipe/PaymentInitMessage.cs:92-93 | `currencycode` is sent exactly when the code is in 1..999, as three digits reading back as the code |
| InitMessage.ActionAndLanguageSent | e24PaymentPipe/PaymentInitMessage.cs:94-95 | `action` and `langid` are always sent and read back as the message's action and language |
| InitMessage.UriFieldsSent | e24PaymentPipe/PaymentInitMessage.cs:96-99 | `responseURL` and `errorURL` are sent exactly when the URI is not null, with the URI as value |
| InitMessage.ToUrlParametersShape | e24PaymentPipe/PaymentInitMessage.cs:84-114 | the body is the `&`-join of the encoded pairs; splitting it at `&` gives them back, each non-empty with one `=`; the final trim removed only the one `&` after the last pair |
| InitMessage.BodyDecodes | e24PaymentPipe/PaymentInitMessage.cs:84-114 | the receiving side decodes the body back into exactly the included fields, in order, with their unescaped values |
| InitMessage.FullMessageSendsEveryField | e24PaymentPipe/PaymentInitMessage.cs:84-111 | a message with every field set sends all fourteen fields in the fixed order, each with its formatted value |
| FormBody.DecodeEncode | e24PaymentPipe/PaymentInitMessage.cs:84-114 | for keys without `&` or `=`, decoding an encoded field list gives the list back |
| FormBody.EncodeShape | e24PaymentPipe/PaymentInitMessage.cs:113 | appending `key=value&` per field and trimming trailing `&` yields the `&`-join of the pairs, which splits back into them |
| PercentEncoding.EscapeDataString | e24PaymentPipe/PaymentInitMessage.cs:87 | the escaped text holds only unreserved characters, `%` and hex digits, so never `&`, `=`, `+`, `:` or `/`; it is one to three times as long |
| PercentEncoding.UnescapeEscape | e24PaymentPipe/PaymentInitMessage.cs:87 | percent-decoding the escaped text gives the original back |
| PercentEncoding.EscapeInjective | e24PaymentPipe/PaymentInitMessage.cs:87 | two texts with the same escaping are equal |
| PercentEncoding.EscapeIdentity | e24PaymentPipe/PaymentInitMessage.cs:87 | escaping leaves a text unchanged exactly when all its characters are unreserved |
| PercentEncoding.EscapeAppend | e24PaymentPipe/PaymentInitMessage.cs:97 | escaping a concatenation is the concatenation of the escapings |
| Numbers.FormatCentsRoundTrip | e24PaymentPipe/PaymentInitMessage.cs:91 | the `0.00` text of an amount reads back as the same number of cents |
| Numbers.FormatCentsShape | e24PaymentPipe/PaymentInitMessage.cs:91 | the `0.00` text is digits, exactly one `.`, then exactly two digits |
| Numbers.ThreeDigitsRoundTrip | e24PaymentPipe/PaymentInitMessage.cs:93 | the `000` text of a code in 1..999 is three digits reading back as the code |
| Text.JoinSplit | e24PaymentPipe/PaymentPipe.cs:73-76 | joining the pieces of a split with the separator gives the original text |
| Text.SplitJoin | e24PaymentPipe/PaymentInitMessage.cs:113 | splitting a join of separator-free pieces gives the pieces back |
| Text.ToUpperNoLower | e24PaymentPipe/PaymentInitMessage.cs:95 | upper-casing a text without lower-case letters leaves it unchanged |
| WorkedExamples.EscapeUrl | e24PaymentPipe/PaymentInitMessage.cs:97 | in `scheme://host/page` made of unreserved pieces, only the separators are escaped, to `%3A%2F%2F` and `%2F` |
| WorkedExamples.PlainMessageBody | e24PaymentPipe/PaymentInitMessage.cs:84-113 | a full message with plain values has as body exactly the fourteen `key=value` pairs in the fixed order, joined by `&` |
| WorkedExamples.FormattedValues | e24PaymentPipeTests/PaymentInitTest.cs:44-49 | action 4, currency `978`, amount `33.33` and language `ITA` are formatted as the test expects |
| WorkedExamples.InitGetParameters | e24PaymentPipeTests/PaymentInitTest.cs:41-60 | the test's message encodes to the expected body, pair by pair and in order |
| ServerUrl.NewPaymentServerUrlBuilder | e24PaymentPipe/PaymentServerUrlBuilder.cs:61-69 | construction fails exactly for a null or whitespace address, with an `ArgumentNullException` named after the address; otherwise every argument is stored |
| ServerUrl.ToUrl | e24PaymentPipe/PaymentServerUrlBuilder.cs:87-90 | building fails exactly when the address is null or whitespace, with the same exception |
| ServerUrl.ConstructedBuilderBuilds | e24PaymentPipe/PaymentServerUrlBuilder.cs:63 | a builder the constructor accepted always assembles the URL string (whether `new Uri` accepts that string is not modelled) |
| ServerUrl.ToUrlScheme | e24PaymentPipe/PaymentServerUrlBuilder.cs:78-85 | the URL starts with `https://` exactly when SSL is on and with `http://` exactly when it is off |
| ServerUrl.ToUrlHost | e24PaymentPipe/PaymentServerUrlBuilder.cs:93 | the address follows the scheme verbatim |
| ServerUrl.ParseAuthorityOf | e24PaymentPipe/PaymentServerUrlBuilder.cs:97-101 | `host`, the port suffix and a path read back as that host, the port exactly when it is positive, and that path |
| ServerUrl.ParseToUrl | e24PaymentPipe/PaymentServerUrlBuilder.cs:75-115 | for an address without `:` or `/`, the built URL reads back as scheme, address, the port when positive, and the normalised context |
| ServerUrl.ToUrlPortColon | e24PaymentPipe/PaymentServerUrlBuilder.cs:97-101 | for every accepted address, the character after it is `:` exactly when a positive port is set |
| ServerUrl.ToUrlEndsWithSlash | e24PaymentPipe/PaymentServerUrlBuilder.cs:103-112 | the URL always ends with `/` |
| ServerUrl.ContextPathSlashes | e24PaymentPipe/PaymentServerUrlBuilder.cs:103-112 | the path starts and ends with `/`, and a blank or null context gives just `/` |
| ServerUrl.ContextPathKeepsContext | e24PaymentPipe/PaymentServerUrlBuilder.cs:105-107 | a non-blank context appears verbatim in the path, which adds a `/` at an end exactly when that end lacks one, so its length is the context's plus one per missing end |
| ServerUrl.SlashedPathFixed | e24PaymentPipe/PaymentServerUrlBuilder.cs:105-107 | a context that starts and ends with `/` is used unchanged |
| ServerUrl.ContextPathIdempotent | e24PaymentPipe/PaymentServerUrlBuilder.cs:103-112 | normalising an already normalised path changes nothing |
| ServerUrl.ContextKeepsTrailingSlashes | e24PaymentPipe/PaymentServerUrlBuilder.cs:107 | a context ending in `//` keeps both slashes |
| ServerUrl.UrlWithPortAndContext | e24PaymentPipe/PaymentServerUrlBuilder.cs:97-108 | with a positive port and a context starting with `/` and not ending with one, the URL is scheme, address, `:port`, context, `/` |
| ServerUrl.BuilderTestUrl | e24PaymentPipeTests/ServerUrlBuilderTest.cs:22-31 | `test4.constriv.com`, context `/cg301`, SSL off and port 80 give `http://test4.constriv.com:80/cg301/` |
| Pipe.NewPaymentPipe | e24PaymentPipe/PaymentPipe.cs:19-23 | construction fails exactly for a null address, with `ArgumentNullException("paymentServerUrl")`; otherwise the address is stored |
| Pipe.BuildUrl | e24PaymentPipe/PaymentPipe.cs:44-50 | the servlet address starts with the base address and ends with `servlet/<name>`, with nothing in between |
| Pipe.ParseResponse | e24PaymentPipe/PaymentPipe.cs:73-76 | the reply splits into one more piece than it has `:`; no piece holds a `:`; the pieces join back to the reply |
| Pipe.InitRequest | e24PaymentPipe/PaymentPipe.cs:30-32 | the request goes to `servlet/PaymentInitHTTPServlet` under the base address, with the given timeout, and its body decodes to the message's included fields |
| Pipe.Interpret | e24PaymentPipe/PaymentPipe.cs:34-37 | corrected reading (see "Findings"; as written: `Pipe.InterpretAsWritten`): a rejected reply fails with a bad-response exception that carries the reply, the URL called and the body posted |
| Pipe.AcceptedIff | e24PaymentPipe/PaymentPipe.cs:34 | the corrected reading accepts a reply exactly when it is non-empty, does not start with `!ERROR!` and has at least two `:` |
| Pipe.AcceptedShape | e24PaymentPipe/PaymentPipe.cs:39-41 | corrected reading (see "Findings"; as written: `Pipe.AsWrittenCompose`): an accepted reply is `<id>:<page>`: the id is the first piece, and the page is everything after the first `:` followed by `?PaymentID=<id>` |
| Pipe.InterpretCompose | e24PaymentPipe/PaymentPipe.cs:39-41 | corrected reading (see "Findings"; as written: `Pipe.AsWrittenCompose`): building a reply from an id and a page with a `:`, then reading it, gives back that id and page |
| Pipe.AsWrittenCompose | e24PaymentPipe/PaymentPipe.cs:39-41 | read as written, a reply `<id>:<a>:<b>…` gives the id and the page `<a>:<b>?PaymentID=<id>` |
| Pipe.PerformPaymentInitialization | e24PaymentPipe/PaymentPipe.cs:26-42 | corrected reading (see "Findings"; as written: `Pipe.PerformPaymentInitializationAsWritten`): a null message fails with `ArgumentNullException("initMessage")` and nothing else does; any other failure is a bad response (null string fields and transport failures are left out) |
| Pipe.PerformPaymentInitializationAsWritten | e24PaymentPipe/PaymentPipe.cs:26-42 | the same, except that a failure with a message may also be an index error |
| Pipe.BadResponseCarriesRequest | e24PaymentPipe/PaymentPipe.cs:34-37 | in both readings, a bad-response failure carries the reply, the `…servlet/PaymentInitHTTPServlet` address and the body `ToUrlParameters` produced |
| Pipe.OnlyTheReplyMatters | e24PaymentPipe/PaymentPipe.cs:32 | in both readings, two transports that answer the request the same way give the same outcome |
| Pipe.AsWrittenIgnoresTail | e24PaymentPipe/PaymentPipe.cs:41 | read as written, two replies whose id has no `:` and does not start with `!ERROR!`, and which agree up to their third piece, give the same result |
| Pipe.ErrorReplyRejected | e24PaymentPipe/PaymentPipe.cs:34-37 | a reply starting with `!ERROR!` is a bad response in both readings, even when it holds `:` |
| Pipe.OneColonFaults | e24PaymentPipe/PaymentPipe.cs:39-41 | a reply that passes the checks with exactly one `:` raises an index error as written, and is a bad response in the corrected reading |
| Pipe.AsWrittenDropsPort | e24PaymentPipe/PaymentPipe.cs:41 | read as written, a page URL with a port loses the `:` after the host and everything behind it |
| Pipe.ModelKeepsPort | e24PaymentPipe/PaymentPipe.cs:41 | the corrected reading keeps the whole page URL, port and path included |
| Pipe.PortDroppedFromPage | e24PaymentPipe/PaymentPipe.cs:41 | both readings of the same reply `<id>:<scheme>:<host>:<rest>` side by side |
| Pipe.AsWrittenAgreesOtherwise | e24PaymentPipe/PaymentPipe.cs:34-41 | the two readings agree on every rejected reply and on every reply with exactly two `:` |

## Left out

- `sendMessage` (the `WebRequest` POST, the ASCII encoding of the body, the timeout, reading the reply) is I/O. It is the parameter `send`; `Pipe.OnlyTheReplyMatters` states that only its reply matters.
- `System.Uri` parsing and normalisation are not modelled. URIs are the strings `AbsoluteUri` would give, so `BuildUrl` appends to the base address as given and `ToUrl` returns its string. As a result the model keeps `:80` in `http://…:80/…`, where `Uri.ToString` drops the default port (ServerUrlBuilderTest.cs line 32).
- `PaymentServerUrlBuilder.ToString` is `ToUrl` followed by that normalisation, so it is left out with it.
- The amount is a `double` in the source and integer cents in the model. Floating-point rounding of `ToString("0.00")` is not modelled.
- PercentEncoding.EscapeDataString: models ASCII input only; string fields of the message are `AsciiString`. `Uri.EscapeDataString` first encodes other characters as UTF-8, which is not modelled.
- Culture: only `Amount.ToString` passes the invariant culture. `ToUpper` is modelled for ASCII letters only, which covers the language names.
- Text.StartsWith: compares ordinally, and so does `Text.EndsWith`. The source's `Context.StartsWith("/")`, `Context.EndsWith("/")` and `response.StartsWith("!ERROR!")` compare in the current culture, which skips ignorable characters such as U+00AD. The two agree on text without such characters. `ServerUrl.ToUrlEndsWithSlash` and `ServerUrl.ContextPathSlashes` hold for the model. A context like `/cg301/` followed by U+00AD counts as ending in `/` in the source, so its URL does not end in `/` there.
- Null strings in the message: `id`, `password`, `trackId` and `udf1`..`udf5` are non-null in the model. The C# constructor accepts null for them, and `ToUrlParameters` then throws `NullReferenceException` on `.Length`. That failure passes up through `performPaymentInitialization`, and `Pipe.PerformPaymentInitialization` does not include it.
- Transport failures: `send` is total. The source's `GetResponse` throws `WebException` on a timeout or an HTTP error status, and that propagates out of `performPaymentInitialization`. `Pipe.PerformPaymentInitialization` does not include this failure either.
- ServerUrl.ParseToUrl: reads the URL back only for an address without `:` or `/`, such as a host name. An address like `[::1]` or `host:8443` is accepted by the constructor but makes the URL ambiguous to read back; for those `ServerUrl.ToUrlPortColon` still states the port rule.
- ServerUrl.ConstructedBuilderBuilds: states only that the URL string is assembled. `new Uri(...)` in `ToUrl`, and likewise in `BuildUrl`, throws `UriFormatException` on a string that is not a valid URI. A port above 65535 or an address with a space does that, and the constructor accepts both. That failure path is not modelled.
- Integers are unbounded. The source's `int` port, currency and timeout are 32-bit; the model does not wrap them, and the checks in the source never rely on wrap-around.
- The exception machinery (stack traces, `Serializable`, the parameterless constructor and the inner-exception constructor of `BadResponseFromWebServiceException`) is left out. That constructor assigns `AttemptedParams` to itself and so leaves it null.
- `ConnectionTests` need a live gateway and are left out.

## Findings

| source | as written | input that shows it | evidently intended | confidence | as-written member | corrected member |
|---|---|---|---|---|---|---|
| e24PaymentPipe/PaymentPipe.cs:34-41 | the guard only requires one `:`, then line 41 reads the third piece of the split | the reply `8765:pay` passes the guard and has two pieces, so `parsedrsp[2]` raises `IndexOutOfRangeException` instead of `BadResponseFromWebServiceException` | a reply the client cannot read is reported as a bad response | not executed | Pipe.OneColonFaults | Pipe.Interpret |
| e24PaymentPipe/PaymentPipe.cs:41 | the page is rebuilt from the second and third pieces only | the reply `8765:https://pay.example.com:8443/hpp` gives the page `https://pay.example.com?PaymentID=8765`, losing `:8443/hpp` | the page is everything after the first `:` followed by `?PaymentID=<id>` | not executed | Pipe.AsWrittenDropsPort | Pipe.ModelKeepsPort |
