/**
 * The `application/x-www-form-urlencoded` body the client posts: a sequence
 * of named fields written as `key=EscapeDataString(value)`, each followed by
 * `&` as it is appended to the buffer, with the trailing `&` trimmed at the
 * end.  The decoder is the gateway's view of the body.
 */
module FormBody {
  import opened Wrappers
  import opened Text
  import opened PercentEncoding

  datatype Field = Field(key: string, value: AsciiString)

  /** A key the body can carry unambiguously. */
  predicate IsFormKey(k: string) {
    '&' !in k && '=' !in k
  }

  predicate AllFormKeys(fs: seq<Field>) {
    forall i :: 0 <= i < |fs| ==> IsFormKey(fs[i].key)
  }

  /** One `key=value` pair with the value escaped. */
  function EncodePair(f: Field): (r: string)
    ensures IsFormKey(f.key) ==> '&' !in r && Count(r, '=') == 1
  {
    var e := EscapeDataString(f.value);
    CountAppend(f.key, "=" + e, '=');
    CountAppend("=", e, '=');
    assert "="[1..] == "";
    f.key + ("=" + e)
  }

  function EncodePairs(fs: seq<Field>): (ps: seq<string>)
    ensures |ps| == |fs|
    ensures forall i :: 0 <= i < |fs| ==> ps[i] == EncodePair(fs[i])
  {
    if |fs| == 0 then [] else [EncodePair(fs[0])] + EncodePairs(fs[1..])
  }

  /** The buffer after appending every pair followed by `&`. */
  function Appended(fs: seq<Field>): string
  {
    if |fs| == 0 then "" else EncodePair(fs[0]) + "&" + Appended(fs[1..])
  }

  /** The body: the appended pairs with the trailing `&` characters trimmed. */
  function Encode(fs: seq<Field>): string
  {
    TrimEnd(Appended(fs), '&')
  }

  /** Splits one pair at its first `=` and unescapes the value. */
  function DecodePair(s: string): Option<Field>
  {
    var i := IndexOf(s, '=');
    if i == |s| then None
    else
      match UnescapeDataString(s[i + 1..])
      case Some(v) => if IsAscii(v) then Some(Field(s[..i], v)) else None
      case None => None
  }

  function DecodePairs(ps: seq<string>): Option<seq<Field>>
  {
    if |ps| == 0 then Some([])
    else
      match (DecodePair(ps[0]), DecodePairs(ps[1..]))
      case (Some(f), Some(rest)) => Some([f] + rest)
      case _ => None
  }

  /** The gateway's reading of a body: the empty body carries no field,
      any other is split at every `&` into pairs. */
  function Decode(body: string): Option<seq<Field>>
  {
    if |body| == 0 then Some([]) else DecodePairs(Split(body, '&'))
  }

  /** The value of the first field with the given key. */
  function Lookup(fs: seq<Field>, key: string): Option<AsciiString>
  {
    if |fs| == 0 then None
    else if fs[0].key == key then Some(fs[0].value)
    else Lookup(fs[1..], key)
  }

  function Keys(fs: seq<Field>): (ks: seq<string>)
    ensures |ks| == |fs|
    ensures forall i :: 0 <= i < |fs| ==> ks[i] == fs[i].key
  {
    if |fs| == 0 then [] else [fs[0].key] + Keys(fs[1..])
  }

  // ---------------------------------------------------------------------------
  // Properties
  // ---------------------------------------------------------------------------

  /** A join of non-empty `&`-free pieces does not end with `&`. */
  lemma {:induction false} JoinLastChar(ps: seq<string>)
    requires |ps| > 0
    requires forall i :: 0 <= i < |ps| ==> |ps[i]| > 0 && '&' !in ps[i]
    ensures var j := Join(ps, '&'); |j| > 0 && j[|j| - 1] != '&'
  {
    if |ps| > 1 {
      JoinLastChar(ps[1..]);
    }
  }

  /** Before the trim, the buffer is the `&`-join of the pairs plus one `&`. */
  lemma {:induction false} AppendedIsJoin(fs: seq<Field>)
    requires |fs| > 0
    ensures Appended(fs) == Join(EncodePairs(fs), '&') + "&"
  {
    if |fs| > 1 {
      AppendedIsJoin(fs[1..]);
      assert EncodePairs(fs)[1..] == EncodePairs(fs[1..]);
    }
  }

  /** Trimming `&` from a text that ends in exactly one removes just that one. */
  lemma TrimOneSeparator(j: string)
    requires |j| > 0 && j[|j| - 1] != '&'
    ensures TrimEnd(j + "&", '&') == j
  {
    assert (j + "&")[..|j|] == j;
  }

  /** The body is the `&`-join of the encoded pairs, and the trim removed
      exactly the one `&` that followed the last pair. */
  lemma EncodeIsJoin(fs: seq<Field>)
    requires AllFormKeys(fs)
    ensures Encode(fs) == Join(EncodePairs(fs), '&')
    ensures |fs| > 0 ==> Appended(fs) == Encode(fs) + "&"
  {
    if |fs| > 0 {
      AppendedIsJoin(fs);
      var ps := EncodePairs(fs);
      var j := Join(ps, '&');
      assert |j| > 0 && j[|j| - 1] != '&' by {
        forall i | 0 <= i < |ps| ensures |ps[i]| > 0 && '&' !in ps[i] {
          assert IsFormKey(fs[i].key);
        }
        JoinLastChar(ps);
      }
      TrimOneSeparator(j);
    }
  }

  /** Splitting the body at `&` gives back exactly the encoded pairs. */
  lemma SplitEncode(fs: seq<Field>)
    requires |fs| > 0 && AllFormKeys(fs)
    ensures Split(Encode(fs), '&') == EncodePairs(fs)
  {
    EncodeIsJoin(fs);
    var ps := EncodePairs(fs);
    forall i | 0 <= i < |ps| ensures '&' !in ps[i] {
      assert IsFormKey(fs[i].key);
    }
    SplitJoin(ps, '&');
  }

  /**
   * A non-empty body is the `&`-join of `key=escaped` pieces, which is also
   * exactly what splitting it at `&` yields: no empty piece, each piece with
   * one `=`; the final trim removed only the last separator.
   */
  lemma EncodeShape(fs: seq<Field>)
    requires |fs| > 0 && AllFormKeys(fs)
    ensures var body := Encode(fs);
      && body == Join(EncodePairs(fs), '&')
      && Split(body, '&') == EncodePairs(fs)
      && (forall p :: p in Split(body, '&') ==> |p| > 0 && Count(p, '=') == 1)
      && Appended(fs) == body + "&"
  {
    EncodeIsJoin(fs);
    SplitEncode(fs);
    PairsShape(fs);
  }

  /** Every encoded pair of a form key is non-empty and has exactly one `=`. */
  lemma PairsShape(fs: seq<Field>)
    requires AllFormKeys(fs)
    ensures forall p :: p in EncodePairs(fs) ==> |p| > 0 && Count(p, '=') == 1
  {
    forall p | p in EncodePairs(fs) ensures |p| > 0 && Count(p, '=') == 1 {
      var i :| 0 <= i < |fs| && p == EncodePair(fs[i]);
      assert IsFormKey(fs[i].key);
    }
  }

  lemma DecodeEncodePair(f: Field)
    requires IsFormKey(f.key)
    ensures DecodePair(EncodePair(f)) == Some(f)
  {
    var e := EscapeDataString(f.value);
    var s := EncodePair(f);
    assert s[|f.key|] == '=';
    assert forall j :: 0 <= j < |f.key| ==> s[j] == f.key[j];
    assert IndexOf(s, '=') == |f.key|;
    assert s[..|f.key|] == f.key;
    assert s[|f.key| + 1..] == e;
    UnescapeEscape(f.value);
  }

  lemma {:induction false} DecodeEncodePairs(fs: seq<Field>)
    requires AllFormKeys(fs)
    ensures DecodePairs(EncodePairs(fs)) == Some(fs)
  {
    if |fs| > 0 {
      DecodeEncodePair(fs[0]);
      DecodeEncodePairs(fs[1..]);
      assert EncodePairs(fs)[1..] == EncodePairs(fs[1..]);
      assert [fs[0]] + fs[1..] == fs;
    }
  }

  /** The gateway reads back exactly the fields that were encoded, in order. */
  lemma DecodeEncode(fs: seq<Field>)
    requires AllFormKeys(fs)
    ensures Decode(Encode(fs)) == Some(fs)
  {
    EncodeIsJoin(fs);
    if |fs| > 0 {
      SplitEncode(fs);
      DecodeEncodePairs(fs);
      assert '=' in EncodePairs(fs)[0];
      assert |Encode(fs)| > 0;
    }
  }

  lemma {:induction false} LookupAppend(a: seq<Field>, b: seq<Field>, key: string)
    ensures Lookup(a + b, key) == if Lookup(a, key).Some? then Lookup(a, key) else Lookup(b, key)
  {
    if |a| == 0 {
      assert a + b == b;
    } else {
      assert (a + b)[1..] == a[1..] + b;
      LookupAppend(a[1..], b, key);
    }
  }

  lemma {:induction false} KeysAppend(a: seq<Field>, b: seq<Field>)
    ensures Keys(a + b) == Keys(a) + Keys(b)
  {
  }
}
