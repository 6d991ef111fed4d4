/**
 Query strings of the request URLs the pages build: an endpoint, a `?`, and
 `name=value` pairs joined by `&`. Parsing a URL back into its parameters is the
 partner of building one; percent-decoding is not modelled (values are compared
 exactly as they appear in the URL).
 */
module Query {
  import opened Wrappers
  import opened Text

  datatype Param = Param(name: string, value: string)

  /** Position of the first occurrence of `c` in `s`, if any. */
  function IndexOf(s: string, c: char): (r: Option<nat>)
    ensures r.Some? ==> r.value < |s| && s[r.value] == c && c !in s[..r.value]
    ensures r.None? ==> c !in s
    decreases |s|
  {
    if |s| == 0 then None
    else if s[0] == c then Some(0)
    else
      match IndexOf(s[1..], c)
      case None => None
      case Some(i) =>
        assert s[..i + 1] == [s[0]] + s[1..][..i];
        Some(i + 1)
  }

  /** A `name=value` piece, split at its first `=`; a piece without `=` is a name with an empty value. */
  function ParseParam(piece: string): Param {
    match IndexOf(piece, '=')
    case None => Param(piece, "")
    case Some(i) => Param(piece[..i], piece[i + 1..])
  }

  function RenderParam(p: Param): string {
    p.name + "=" + p.value
  }

  /** The parameters of `url`: the text after its first `?`, split on `&`, each piece split at `=`. */
  function Params(url: string): (ps: seq<Param>)
    ensures IndexOf(url, '?').Some? ==> |ps| >= 1
  {
    match IndexOf(url, '?')
    case None => []
    case Some(i) =>
      var pieces := Split(url[i + 1..], '&');
      seq(|pieces|, k requires 0 <= k < |pieces| => ParseParam(pieces[k]))
  }

  /** The URL with the given parameters, in order, after `endpoint`. */
  function BuildUrl(endpoint: string, ps: seq<Param>): string {
    endpoint + "?" + Join(seq(|ps|, k requires 0 <= k < |ps| => RenderParam(ps[k])), '&')
  }

  /** One more parameter on a URL that already has a query: `url += `&${name}=${value}``. */
  function WithParam(url: string, name: string, value: string): (r: string)
    ensures url < r && |r| == |url| + |name| + |value| + 2
  {
    url + "&" + name + "=" + value
  }

  /** Names free of `=` and `&`, values free of `&`: such parameters survive a round trip. */
  predicate WellFormed(ps: seq<Param>) {
    forall k :: 0 <= k < |ps| ==> '=' !in ps[k].name && '&' !in ps[k].name && '&' !in ps[k].value
  }

  /** The value of the first parameter called `name`, as `URLSearchParams.get` reports it. */
  function Lookup(ps: seq<Param>, name: string): (r: Option<string>)
    ensures r.Some? <==> exists k :: 0 <= k < |ps| && ps[k].name == name
    ensures r.Some? ==> exists k :: 0 <= k < |ps| && ps[k] == Param(name, r.value)
    decreases |ps|
  {
    if |ps| == 0 then None
    else if ps[0].name == name then Some(ps[0].value)
    else
      var r := Lookup(ps[1..], name);
      assert forall k :: 1 <= k < |ps| ==> ps[k] == ps[1..][k - 1];
      r
  }

  lemma ParseRenderParam(p: Param)
    requires '=' !in p.name
    ensures ParseParam(RenderParam(p)) == p
  {
    var s := RenderParam(p);
    assert s[..|p.name|] == p.name;
    assert s[|p.name|] == '=';
    assert '=' !in s[..|p.name|];
    assert s[|p.name| + 1..] == p.value;
  }

  /** Reading the parameters back from a built URL gives exactly the parameters it was built from. */
  lemma ParamsOfBuildUrl(endpoint: string, ps: seq<Param>)
    requires '?' !in endpoint
    requires |ps| >= 1
    requires WellFormed(ps)
    ensures Params(BuildUrl(endpoint, ps)) == ps
  {
    var pieces := seq(|ps|, k requires 0 <= k < |ps| => RenderParam(ps[k]));
    var query := Join(pieces, '&');
    var url := BuildUrl(endpoint, ps);
    assert url == endpoint + ("?" + query);
    assert url[..|endpoint|] == endpoint;
    assert url[|endpoint|] == '?';
    assert IndexOf(url, '?') == Some(|endpoint|);
    assert url[|endpoint| + 1..] == query;
    forall k | 0 <= k < |pieces| ensures '&' !in pieces[k] {
      assert pieces[k] == ps[k].name + "=" + ps[k].value;
    }
    SplitJoin(pieces, '&');
    forall k | 0 <= k < |ps| ensures ParseParam(pieces[k]) == ps[k] {
      ParseRenderParam(ps[k]);
    }
  }

  /** Adding a parameter to a built URL appends `&name=value`. */
  lemma BuildUrlAppend(endpoint: string, ps: seq<Param>, p: Param)
    requires |ps| >= 1
    ensures BuildUrl(endpoint, ps + [p]) == BuildUrl(endpoint, ps) + "&" + p.name + "=" + p.value
  {
    var pieces := seq(|ps|, k requires 0 <= k < |ps| => RenderParam(ps[k]));
    var qs := ps + [p];
    var pieces' := seq(|qs|, k requires 0 <= k < |qs| => RenderParam(qs[k]));
    assert pieces' == pieces + [RenderParam(p)];
    JoinAppend(pieces, RenderParam(p), '&');
  }

  /** A lookup in a concatenation finds the front part's parameter first. */
  lemma {:induction false} LookupConcat(a: seq<Param>, b: seq<Param>, name: string)
    ensures Lookup(a + b, name) == if Lookup(a, name).Some? then Lookup(a, name) else Lookup(b, name)
    decreases |a|
  {
    if |a| == 0 {
      assert a + b == b;
    } else {
      assert (a + b)[1..] == a[1..] + b;
      LookupConcat(a[1..], b, name);
    }
  }

  /** Parameters concatenated from well-formed parts are well formed. */
  lemma WellFormedConcat(a: seq<Param>, b: seq<Param>)
    requires WellFormed(a) && WellFormed(b)
    ensures WellFormed(a + b)
  {
    forall k | 0 <= k < |a + b|
      ensures '=' !in (a + b)[k].name && '&' !in (a + b)[k].name && '&' !in (a + b)[k].value
    {
      if k >= |a| {
        assert (a + b)[k] == b[k - |a|];
      }
    }
  }

  /** The URL of a single parameter. */
  lemma BuildUrlSingle(endpoint: string, p: Param)
    ensures BuildUrl(endpoint, [p]) == endpoint + "?" + p.name + "=" + p.value
  {
    assert seq(1, k requires 0 <= k < 1 => RenderParam([p][k])) == [RenderParam(p)];
  }
}
