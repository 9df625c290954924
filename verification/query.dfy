/** Query-string building: one `key=value` part per parameter, the value
    passed through `encodeURIComponent`, parts joined by `&`.

    The parameter object is given as its own enumerable properties in
    `Object.keys` order, each value already converted to its string form.
    `Parse` is the partner the builder is checked against: split on `&`,
    split each part at its first `=`, decode the value. */
module Query {
  import opened Wrappers
  import opened Strings
  import UriComponent

  datatype Parameter = Parameter(key: string, value: string)

  // ---------------------------------------------------------------------
  // Building

  function Part(p: Parameter): string {
    p.key + "=" + UriComponent.Encode(p.value)
  }

  function Parts(ps: seq<Parameter>): (r: seq<string>)
    ensures |r| == |ps|
    ensures forall i :: 0 <= i < |ps| ==> r[i] == Part(ps[i])
  {
    if |ps| == 0 then [] else [Part(ps[0])] + Parts(ps[1..])
  }

  /** encodeQueryParameters: empty exactly when there are no parameters. */
  function EncodeQueryParameters(ps: seq<Parameter>): (r: string)
    ensures r == "" <==> |ps| == 0
  {
    var parts := Parts(ps);
    assert |ps| > 0 ==> '=' in Join(parts, '&') by {
      if |ps| > 0 {
        JoinHoldsFirst(parts, '&');
        assert parts[0][|ps[0].key|] == '=';
      }
    }
    Join(parts, '&')
  }

  /** encodeQuery: the url alone when there is nothing to add, otherwise the
      url, `?` and the parameters. */
  function EncodeQuery(url: string, ps: seq<Parameter>): (r: string)
    ensures |ps| == 0 ==> r == url
    ensures |ps| > 0 ==> r == url + "?" + EncodeQueryParameters(ps)
  {
    var query := EncodeQueryParameters(ps);
    if query != "" then url + "?" + query else url
  }

  // ---------------------------------------------------------------------
  // Parsing

  /** One `key=value` part: the key runs to the first `=`, the value (decoded)
      is the rest; a part with no `=` is a key with an empty value. */
  function ParsePart(part: string): Option<Parameter> {
    match IndexOf(part, '=')
    case None => Some(Parameter(part, ""))
    case Some(i) =>
      match UriComponent.Decode(part[i + 1..])
      case None => None
      case Some(v) => Some(Parameter(part[..i], v))
  }

  function ParseParts(parts: seq<string>): (r: Option<seq<Parameter>>)
    ensures r.Some? ==> |r.value| == |parts|
  {
    if |parts| == 0 then Some([])
    else
      match (ParsePart(parts[0]), ParseParts(parts[1..]))
      case (Some(p), Some(rest)) => Some([p] + rest)
      case _ => None
  }

  /** A query string back to its parameters; the empty string has none. */
  function Parse(query: string): Option<seq<Parameter>> {
    if query == "" then Some([]) else ParseParts(Split(query, '&'))
  }

  /** A key that survives the round trip: it is emitted verbatim, so it must
      not hold the two delimiters. */
  predicate PlainKey(key: string) {
    '&' !in key && '=' !in key
  }

  lemma ParsePartOf(p: Parameter)
    requires PlainKey(p.key)
    ensures ParsePart(Part(p)) == Some(p)
  {
    var part := Part(p);
    var k := |p.key|;
    assert part[..k] == p.key && part[k] == '=';
    assert IndexOf(part, '=') == Some(k) by {
      assert '=' !in part[..k];
    }
    assert part[k + 1..] == UriComponent.Encode(p.value);
    UriComponent.DecodeEncode(p.value);
  }

  lemma {:induction false} ParsePartsOf(ps: seq<Parameter>)
    requires forall i :: 0 <= i < |ps| ==> PlainKey(ps[i].key)
    ensures ParseParts(Parts(ps)) == Some(ps)
    decreases |ps|
  {
    if |ps| > 0 {
      var parts := Parts(ps);
      PartsTail(ps);
      ParsePartOf(ps[0]);
      ParsePartsOf(ps[1..]);
      ParsePartsCons(parts, ps[0], ps[1..]);
      assert [ps[0]] + ps[1..] == ps;
    }
  }

  lemma PartsTail(ps: seq<Parameter>)
    requires |ps| > 0
    ensures Parts(ps)[0] == Part(ps[0]) && Parts(ps)[1..] == Parts(ps[1..])
  {
  }

  /** Parts parse one by one: the first part's parameter, then the rest's. */
  lemma ParsePartsCons(parts: seq<string>, p: Parameter, rest: seq<Parameter>)
    requires |parts| > 0 && ParsePart(parts[0]) == Some(p) && ParseParts(parts[1..]) == Some(rest)
    ensures ParseParts(parts) == Some([p] + rest)
  {
  }

  lemma PartHasNoAmpersand(p: Parameter)
    requires PlainKey(p.key)
    ensures '&' !in Part(p)
  {
    UriComponent.EncodeHasNoDelimiters(p.value);
  }

  /** Splitting on `&`, then at the first `=`, then decoding recovers the
      parameters, provided no key holds `&` or `=`. */
  lemma ParseEncode(ps: seq<Parameter>)
    requires forall i :: 0 <= i < |ps| ==> PlainKey(ps[i].key)
    ensures Parse(EncodeQueryParameters(ps)) == Some(ps)
  {
    if |ps| > 0 {
      var parts := Parts(ps);
      forall i | 0 <= i < |parts| ensures '&' !in parts[i] {
        PartHasNoAmpersand(ps[i]);
      }
      SplitJoin(parts, '&');
      ParsePartsOf(ps);
    }
  }
}
