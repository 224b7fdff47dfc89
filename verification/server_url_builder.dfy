/**
 * `PaymentServerUrlBuilder`: the payment server's scheme, host, optional port
 * and context, assembled into the URL string that `ToUrl` hands to
 * `new Uri(...)`.  A parser beside it reads the four parts back.
 */
module ServerUrl {
  import opened Wrappers
  import opened Text
  import opened Numbers
  import opened Exceptions

  /** `UseSSL`: `off` (http) or `on` (https). */
  datatype UseSsl = Off | On

  /** The builder's four properties; `None` stands for a C# `null`. */
  datatype PaymentServerUrlBuilder = PaymentServerUrlBuilder(
    ssl: UseSsl,
    webAddress: Option<string>,
    port: Option<int>,
    context: Option<string>)

  /** `String.IsNullOrWhiteSpace`. */
  predicate IsNullOrWhiteSpace(s: Option<string>) {
    s.None? || IsBlank(s.value)
  }

  /** The constructor: a null, empty or all-whitespace address is refused with
      an `ArgumentNullException` whose parameter name is the address itself;
      otherwise every argument is stored unchanged. */
  function NewPaymentServerUrlBuilder(webAddress: Option<string>, context: Option<string> := Some(""),
                                      ssl: UseSsl := Off, port: Option<int> := None)
    : (r: Result<PaymentServerUrlBuilder>)
    ensures r.Err? <==> IsNullOrWhiteSpace(webAddress)
    ensures r.Err? ==> r.failure == ArgumentNull(webAddress)
    ensures r.Ok? ==> (r.value.ssl == ssl && r.value.webAddress == webAddress
                       && r.value.port == port && r.value.context == context)
  {
    if IsNullOrWhiteSpace(webAddress) then Err(ArgumentNull(webAddress))
    else Ok(PaymentServerUrlBuilder(ssl, webAddress, port, context))
  }

  function Scheme(ssl: UseSsl): string
  {
    if ssl == On then "https://" else "http://"
  }

  /** `:<port>` when a port is present and positive, nothing otherwise. */
  function PortSuffix(port: Option<int>): string
  {
    if port.Some? && port.value > 0 then ":" + NatToString(port.value) else ""
  }

  /** The context with a `/` added in front unless it starts with one and
      behind unless it ends with one; a blank or null context is just `/`. */
  function ContextPath(context: Option<string>): string
  {
    if !IsNullOrWhiteSpace(context) then Slashed(context.value) else "/"
  }

  /** The text with a `/` added at each end that lacks one. */
  function Slashed(c: string): string
  {
    (if StartsWith(c, "/") then "" else "/") + c + (if EndsWith(c, "/") then "" else "/")
  }

  /** `ToUrl`'s string, or the `ArgumentNullException` of its repeated address check. */
  function ToUrl(b: PaymentServerUrlBuilder): (r: Result<string>)
    ensures r.Err? <==> IsNullOrWhiteSpace(b.webAddress)
    ensures r.Err? ==> r.failure == ArgumentNull(b.webAddress)
  {
    if IsNullOrWhiteSpace(b.webAddress) then Err(ArgumentNull(b.webAddress))
    else Ok(Scheme(b.ssl) + b.webAddress.value + PortSuffix(b.port) + ContextPath(b.context))
  }

  // ---------------------------------------------------------------------------
  // Reading a URL back
  // ---------------------------------------------------------------------------

  datatype UrlParts = UrlParts(ssl: UseSsl, host: string, port: Option<nat>, path: string)

  /** Splits `scheme://host[:port]/path`; `None` when the text has another shape. */
  function ParseServerUrl(url: string): Option<UrlParts>
  {
    if StartsWith(url, "https://") then ParseAuthority(On, url[8..])
    else if StartsWith(url, "http://") then ParseAuthority(Off, url[7..])
    else None
  }

  /** Splits `host[:port]/path` at the first `/`, then the authority at its first `:`. */
  function ParseAuthority(ssl: UseSsl, rest: string): Option<UrlParts>
  {
    var slash := IndexOf(rest, '/');
    if slash == |rest| then None
    else
      var authority := rest[..slash];
      var colon := IndexOf(authority, ':');
      if colon == |authority| then Some(UrlParts(ssl, authority, None, rest[slash..]))
      else
        match ParseNat(authority[colon + 1..])
        case Some(p) => Some(UrlParts(ssl, authority[..colon], Some(p), rest[slash..]))
        case None => None
  }

  /** The port a URL shows: present exactly when positive. */
  function ShownPort(port: Option<int>): Option<nat>
  {
    if port.Some? && port.value > 0 then Some(port.value) else None
  }

  // ---------------------------------------------------------------------------
  // Properties
  // ---------------------------------------------------------------------------

  /** A builder the constructor accepted never fails the second check in `ToUrl`. */
  lemma ConstructedBuilderBuilds(webAddress: Option<string>, context: Option<string>, ssl: UseSsl, port: Option<int>)
    requires NewPaymentServerUrlBuilder(webAddress, context, ssl, port).Ok?
    ensures ToUrl(NewPaymentServerUrlBuilder(webAddress, context, ssl, port).value).Ok?
  {
  }

  /** The path always starts and ends with `/`; a blank or null context
      gives just `/`. */
  lemma ContextPathSlashes(context: Option<string>)
    ensures var p := ContextPath(context);
      && |p| > 0 && p[0] == '/' && p[|p| - 1] == '/'
      && (IsNullOrWhiteSpace(context) ==> p == "/")
  {
    if !IsNullOrWhiteSpace(context) {
      SlashedEnds(context.value);
    }
  }

  lemma SlashedEnds(c: string)
    ensures var p := Slashed(c); |p| > 0 && p[0] == '/' && p[|p| - 1] == '/'
  {
    var front := if StartsWith(c, "/") then "" else "/";
    var back := if EndsWith(c, "/") then "" else "/";
    var p := front + c + back;
    if front == "" {
      assert p[0] == c[0];
    }
    if back == "" {
      assert p[|p| - 1] == c[|c| - 1];
    }
  }

  /** A non-blank context appears verbatim in the path, which adds one `/`
      at an end exactly when that end lacks one. */
  lemma ContextPathKeepsContext(context: Option<string>)
    requires !IsNullOrWhiteSpace(context)
    ensures var p, c := ContextPath(context), context.value;
      var k := if StartsWith(c, "/") then 0 else 1;
      && |p| == |c| + k + (if EndsWith(c, "/") then 0 else 1)
      && p[k..k + |c|] == c
  {
    var c := context.value;
    var front := if StartsWith(c, "/") then "" else "/";
    var back := if EndsWith(c, "/") then "" else "/";
    var p := front + c + back;
    assert p[|front|..|front| + |c|] == c;
  }

  /** A path that already starts and ends with `/` is left as it is. */
  lemma SlashedPathFixed(p: string)
    requires |p| > 0 && p[0] == '/' && p[|p| - 1] == '/'
    ensures ContextPath(Some(p)) == p
  {
    assert !IsBlank(p) by {
      assert !IsWhiteSpace(p[0]);
    }
    assert StartsWith(p, "/") by {
      assert p[..1] == [p[0]];
    }
    assert EndsWith(p, "/") by {
      assert p[|p| - 1..] == [p[|p| - 1]];
    }
    assert "" + p + "" == p;
  }

  /** Normalising a path that is already normalised changes nothing. */
  lemma ContextPathIdempotent(context: Option<string>)
    ensures ContextPath(Some(ContextPath(context))) == ContextPath(context)
  {
    ContextPathSlashes(context);
    SlashedPathFixed(ContextPath(context));
  }

  /** `https://` exactly when SSL is on, `http://` exactly when it is off. */
  lemma ToUrlScheme(b: PaymentServerUrlBuilder)
    requires ToUrl(b).Ok?
    ensures StartsWith(ToUrl(b).value, "https://") <==> b.ssl == On
    ensures StartsWith(ToUrl(b).value, "http://") <==> b.ssl == Off
  {
    var url := ToUrl(b).value;
    var rest := b.webAddress.value + PortSuffix(b.port) + ContextPath(b.context);
    assert url == Scheme(b.ssl) + rest;
    StartsWithAppend(Scheme(b.ssl), rest);
    if b.ssl == On {
      assert url[4] == 's';
    } else {
      assert url[4] == ':';
    }
  }

  /** The address follows the scheme verbatim. */
  lemma ToUrlHost(b: PaymentServerUrlBuilder)
    requires ToUrl(b).Ok?
    ensures var url, s, h := ToUrl(b).value, Scheme(b.ssl), b.webAddress.value;
      |s| + |h| <= |url| && url[|s|..|s| + |h|] == h
  {
    var s, h := Scheme(b.ssl), b.webAddress.value;
    var tail := PortSuffix(b.port) + ContextPath(b.context);
    var url := ToUrl(b).value;
    assert url == s + h + tail;
    assert url[|s|..|s| + |h|] == h;
  }

  /** Whatever the context, the URL ends with `/`. */
  lemma ToUrlEndsWithSlash(b: PaymentServerUrlBuilder)
    requires ToUrl(b).Ok?
    ensures EndsWith(ToUrl(b).value, "/")
  {
    var front := Scheme(b.ssl) + b.webAddress.value + PortSuffix(b.port);
    var p := ContextPath(b.context);
    var url := ToUrl(b).value;
    assert url == front + p;
    ContextPathSlashes(b.context);
    assert url[|url| - 1] == p[|p| - 1];
    assert url[|url| - 1..] == [url[|url| - 1]];
  }

  /** For every address, the character right after it is `:` exactly when a
      positive port is set: the port rule holds whatever the address holds. */
  lemma ToUrlPortColon(b: PaymentServerUrlBuilder)
    requires ToUrl(b).Ok?
    ensures var url, n := ToUrl(b).value, |Scheme(b.ssl)| + |b.webAddress.value|;
      n < |url| && (url[n] == ':' <==> (b.port.Some? && b.port.value > 0))
  {
    var s, h, p := Scheme(b.ssl), b.webAddress.value, ContextPath(b.context);
    var url := ToUrl(b).value;
    ContextPathSlashes(b.context);
    var tail := PortSuffix(b.port) + p;
    assert url == (s + h) + tail;
    assert url[|s + h|] == tail[0];
    if b.port.Some? && b.port.value > 0 {
      assert tail[0] == ':';
    } else {
      assert tail[0] == p[0];
    }
  }

  /** A digit string never holds `/` or `:`. */
  lemma DigitsHaveNoSeparators(s: string)
    requires AllDigits(s)
    ensures '/' !in s && ':' !in s
  {
  }

  /** Host, port suffix and a `/`-led path are split back apart. */
  lemma ParseAuthorityOf(ssl: UseSsl, host: string, port: Option<int>, path: string)
    requires ':' !in host && '/' !in host && |path| > 0 && path[0] == '/'
    ensures ParseAuthority(ssl, host + PortSuffix(port) + path) == Some(UrlParts(ssl, host, ShownPort(port), path))
  {
    var suffix := PortSuffix(port);
    var rest := host + suffix + path;
    var authority := host + suffix;
    if port.Some? && port.value > 0 {
      var digits := NatToString(port.value);
      DigitsHaveNoSeparators(digits);
      assert '/' !in suffix by {
        assert suffix == [':'] + digits;
      }
    }
    assert '/' !in authority;
    assert rest == authority + path;
    IndexOfAppend(authority, path, '/');
    assert IndexOf(rest, '/') == |authority|;
    assert rest[..|authority|] == authority;
    assert rest[|authority|..] == path;
    IndexOfAppend(host, suffix, ':');
    if port.Some? && port.value > 0 {
      var digits := NatToString(port.value);
      assert suffix[0] == ':';
      assert IndexOf(authority, ':') == |host|;
      assert authority[..|host|] == host;
      assert authority[|host| + 1..] == digits;
      ParseNatToString(port.value);
    } else {
      assert authority == host;
    }
  }

  /** Parsing what `ToUrl` built gives back the scheme, the address, the port
      when it is shown and the normalised context, for an address without
      `:` or `/` in it. */
  lemma ParseToUrl(b: PaymentServerUrlBuilder)
    requires ToUrl(b).Ok?
    requires ':' !in b.webAddress.value && '/' !in b.webAddress.value
    ensures ParseServerUrl(ToUrl(b).value) ==
      Some(UrlParts(b.ssl, b.webAddress.value, ShownPort(b.port), ContextPath(b.context)))
  {
    var s, h, path := Scheme(b.ssl), b.webAddress.value, ContextPath(b.context);
    var rest := h + PortSuffix(b.port) + path;
    assert ToUrl(b).value == s + rest;
    ContextPathSlashes(b.context);
    ParseAuthorityOf(b.ssl, h, b.port, path);
    ParseAfterScheme(b.ssl, rest);
  }

  /** The parser recognises the scheme and hands the rest to the authority parser. */
  lemma ParseAfterScheme(ssl: UseSsl, rest: string)
    ensures ParseServerUrl(Scheme(ssl) + rest) == ParseAuthority(ssl, rest)
  {
    var url := Scheme(ssl) + rest;
    if ssl == On {
      assert StartsWith(url, "https://") by {
        assert url[..8] == "https://";
      }
      assert url[8..] == rest;
    } else {
      assert !StartsWith(url, "https://") by {
        assert url[4] == ':';
      }
      assert StartsWith(url, "http://") by {
        assert url[..7] == "http://";
      }
      assert url[7..] == rest;
    }
  }

  // ---------------------------------------------------------------------------
  // Worked examples
  // ---------------------------------------------------------------------------

  /** A builder with a port and a context that starts but does not end with
      `/`: the URL is scheme, address, `:port`, context and one `/`. */
  lemma UrlWithPortAndContext(ssl: UseSsl, host: string, port: int, ctx: string)
    requires !IsBlank(host) && !IsBlank(ctx) && port > 0
    requires StartsWith(ctx, "/") && !EndsWith(ctx, "/")
    ensures var r := NewPaymentServerUrlBuilder(Some(host), Some(ctx), ssl, Some(port));
      r.Ok? && ToUrl(r.value) == Ok(Scheme(ssl) + host + ":" + NatToString(port) + ctx + "/")
  {
    var b := PaymentServerUrlBuilder(ssl, Some(host), Some(port), Some(ctx));
    assert NewPaymentServerUrlBuilder(Some(host), Some(ctx), ssl, Some(port)) == Ok(b);
    assert ContextPath(Some(ctx)) == ctx + "/";
    assert PortSuffix(Some(port)) == ":" + NatToString(port);
    assert ToUrl(b).value == Scheme(ssl) + host + (":" + NatToString(port)) + (ctx + "/");
    assert Scheme(ssl) + host + (":" + NatToString(port)) + (ctx + "/")
        == Scheme(ssl) + host + ":" + NatToString(port) + ctx + "/";
  }

  lemma NotBlank(s: string)
    requires |s| > 0 && !IsWhiteSpace(s[0])
    ensures !IsBlank(s)
  {
  }

  lemma Digits80()
    ensures NatToString(80) == "80"
  {
    assert NatToString(80) == NatToString(8) + [DigitChar(0)];
  }

  /** The expected text of the builder test, assembled from its parts.  Kept
      apart so that the concatenation of literals is settled on its own. */
  lemma LiteralUrl()
    ensures "http://" + "test4.constriv.com" + ":" + "80" + "/cg301" + "/" == "http://test4.constriv.com:80/cg301/"
  {
  }

  /** The builder test: address `test4.constriv.com`, context `/cg301`, SSL
      off and port 80 give `http://test4.constriv.com:80/cg301/`. */
  lemma BuilderTestUrl()
    ensures var r := NewPaymentServerUrlBuilder(Some("test4.constriv.com"), Some("/cg301"), Off, Some(80));
      r.Ok? && ToUrl(r.value) == Ok("http://test4.constriv.com:80/cg301/")
  {
    var host, ctx := "test4.constriv.com", "/cg301";
    NotBlank(host);
    NotBlank(ctx);
    assert StartsWith(ctx, "/") by {
      assert ctx[..1] == "/";
    }
    assert !EndsWith(ctx, "/") by {
      assert ctx[|ctx| - 1..] == "1";
    }
    UrlWithPortAndContext(Off, host, 80, ctx);
    Digits80();
    assert Scheme(Off) + host + ":" + "80" + ctx + "/" == "http://test4.constriv.com:80/cg301/" by { LiteralUrl(); }
  }

  /** A context that already ends with several `/` keeps all of them: the
      builder adds a missing slash but never removes one. */
  lemma ContextKeepsTrailingSlashes()
    ensures ContextPath(Some("/a//")) == "/a//"
    ensures EndsWith(ContextPath(Some("/a//")), "//")
  {
    var ctx := "/a//";
    NotBlank(ctx);
    SlashedPathFixed(ctx);
    assert ctx[|ctx| - 2..] == "//";
  }
}
