/** The HTTP response the guard produces on rejection: a body, a status code
    and a header list. Headers are an ordered list of (name, value) pairs,
    the shape of the framework's header object; names compare as exact
    strings, as membership in its list of keys does. */
module Http {

  import opened Python

  type Headers = seq<(string, string)>

  datatype Response = Response(body: string, status: int, headers: Headers)

  /** `name in headers.keys()`: some header carries exactly this name. */
  function InKeys(headers: Headers, name: string): (r: bool)
    ensures r <==> exists i :: 0 <= i < |headers| && headers[i].0 == name
  {
    if |headers| == 0 then false
    else if headers[0].0 == name then true
    else
      var rest := InKeys(headers[1..], name);
      assert forall i :: 1 <= i < |headers| ==> headers[i] == headers[1..][i - 1];
      rest
  }

  /** The value of the first header with this name, if there is one. */
  function Lookup(headers: Headers, name: string): (r: Option<string>)
    ensures r.Some? <==> InKeys(headers, name)
    ensures r.Some? ==> exists i :: 0 <= i < |headers| && headers[i] == (name, r.value) &&
                                    (forall j :: 0 <= j < i ==> headers[j].0 != name)
  {
    if |headers| == 0 then None
    else if headers[0].0 == name then Some(headers[0].1)
    else
      var rest := Lookup(headers[1..], name);
      assert forall i :: 1 <= i < |headers| ==> headers[i] == headers[1..][i - 1];
      if rest.Some? then
        var k :| 0 <= k < |headers[1..]| && headers[1..][k] == (name, rest.value) &&
          forall j :: 0 <= j < k ==> headers[1..][j].0 != name;
        assert headers[k + 1] == (name, rest.value);
        assert forall j :: 0 <= j < k + 1 ==> headers[j].0 != name by {
          forall j | 0 <= j < k + 1
            ensures headers[j].0 != name
          {
            if j > 0 { assert headers[j] == headers[1..][j - 1]; }
          }
        }
        rest
      else rest
  }

  /** Looking a name up in a concatenation finds the first list's header
      when it has one, and the second list's otherwise. */
  lemma {:induction false} LookupConcat(headers: Headers, extra: Headers, name: string)
    ensures Lookup(headers + extra, name) ==
      if InKeys(headers, name) then Lookup(headers, name) else Lookup(extra, name)
  {
    if |headers| == 0 {
      assert headers + extra == extra;
    } else if headers[0].0 != name {
      assert (headers + extra)[1..] == headers[1..] + extra;
      LookupConcat(headers[1..], extra, name);
    }
  }

  /** The framework turning a plain string into a response: the string is
      the body and the status is 200. */
  function MakeResponse(body: string): Response
  {
    Response(body, 200, [])
  }
}
