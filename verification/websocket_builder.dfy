/**
 * The WebSocket builder of the incubating HTTP client: the checks its
 * constructor makes on the client, URI and listener it is given, and the
 * handshake settings (headers, subprotocols, connect timeout) it records.
 * Java's null is written as None wherever the source accepts or tests it.
 */
module WebSocketBuilder {
  import opened Wrappers
  import opened JavaText

  /**
   * The parts of a java.net.URI the builder looks at: scheme, host and
   * fragment, each absent (null) or present, and the URI's text.
   */
  datatype Uri = Uri(scheme: Option<string>, host: Option<string>, fragment: Option<string>, text: string)

  // Objects the builder only stores and hands on; they are told apart by an identity.
  datatype HttpClient = HttpClient(id: nat)
  datatype Listener = Listener(id: nat)
  datatype ProxySelector = ProxySelector(id: nat)

  /** java.time.Duration: seconds and nanoseconds of adjustment. */
  datatype Duration = Duration(seconds: int, nanos: nat)

  /** Why checkURI refuses a URI: the IllegalArgumentException it throws, with its format arguments. */
  datatype UriError =
    | UndefinedScheme              // "URI with undefined scheme"
    | InvalidScheme(scheme: string) // "invalid URI scheme %s", given the lower-cased scheme
    | MissingHost(uri: Uri)        // "URI must contain a host: %s"
    | FragmentPresent(uri: Uri)    // "URI must not contain a fragment: %s"

  /** What a builder operation throws. */
  datatype Failure =
    | NullArgument(name: string) // NullPointerException from requireNonNull(x, name)
    | NullElement(index: nat)    // NullPointerException "lesserPreferred[index]"
    | BadUri(cause: UriError)    // IllegalArgumentException from checkURI

  /** A WebSocket scheme: "ws" or "wss" in any letter case (section 3 of RFC 6455, section 3.1 of RFC 3986). */
  predicate IsWebSocketScheme(s: string)
  {
    EqualsIgnoreCase(s, "ws") || EqualsIgnoreCase(s, "wss")
  }

  /** The URIs a WebSocket may be opened on: a WebSocket scheme, a host and no fragment. */
  predicate IsWebSocketUri(u: Uri)
  {
    u.scheme.Some? && IsWebSocketScheme(u.scheme.value) && u.host.Some? && u.fragment.None?
  }

  /**
   * checkURI: accept exactly the WebSocket URIs and hand them back unchanged
   * (the scheme keeps its letter case); otherwise report the first problem in
   * the order scheme missing, scheme not ws/wss, host missing, fragment present.
   */
  function CheckUri(u: Uri): (r: Result<Uri, UriError>)
    ensures r.Ok? <==> IsWebSocketUri(u)
    ensures r.Ok? ==> r.value == u
    ensures r == Err(UndefinedScheme) <==> u.scheme.None?
    ensures (r.Err? && r.error.InvalidScheme?) <==> u.scheme.Some? && !IsWebSocketScheme(u.scheme.value)
    ensures r.Err? && r.error.InvalidScheme? ==> r.error.scheme == ToLowerAscii(u.scheme.value)
    ensures r == Err(MissingHost(u)) <==>
              u.scheme.Some? && IsWebSocketScheme(u.scheme.value) && u.host.None?
    ensures r == Err(FragmentPresent(u)) <==>
              u.scheme.Some? && IsWebSocketScheme(u.scheme.value) && u.host.Some? && u.fragment.Some?
  {
    match u.scheme
    case None => Err(UndefinedScheme)
    case Some(s) =>
      var lower := ToLowerAscii(s);
      assert ToLowerAscii("ws") == "ws" && ToLowerAscii("wss") == "wss";
      LowerEqualsIgnoreCase(s, "ws");
      LowerEqualsIgnoreCase(s, "wss");
      if !(lower == "ws" || lower == "wss") then Err(InvalidScheme(lower))
      else if u.host.None? then Err(MissingHost(u))
      else if u.fragment.Some? then Err(FragmentPresent(u))
      else Ok(u)
  }

  /** Changing only the letter case of the scheme does not change whether checkURI accepts. */
  lemma SchemeCaseIrrelevant(u: Uri, s: string)
    requires u.scheme.Some? && ToLowerAscii(s) == ToLowerAscii(u.scheme.value)
    ensures CheckUri(u.(scheme := Some(s))).Ok? <==> CheckUri(u).Ok?
  {
    var v := u.(scheme := Some(s));
    assert ToLowerAscii(v.scheme.value) == ToLowerAscii(u.scheme.value);
  }

  /** `i` is the position of the first null in `xs`. */
  predicate FirstNull(xs: seq<Option<string>>, i: nat)
  {
    i < |xs| && xs[i].None? && forall k :: 0 <= k < i ==> xs[k].Some?
  }

  /** No element of `xs` is null. */
  predicate AllPresent(xs: seq<Option<string>>)
  {
    forall k :: 0 <= k < |xs| ==> xs[k].Some?
  }

  /** `ys` is `most` followed by the elements of `xs`, in order. */
  predicate Listed(most: string, xs: seq<Option<string>>, ys: seq<string>)
  {
    && |ys| == |xs| + 1
    && ys[0] == most
    && forall k :: 0 <= k < |xs| ==> xs[k] == Some(ys[k + 1])
  }

  /** A sequence with a null in it has a first null, and only one. */
  lemma {:induction false} FirstNullExists(xs: seq<Option<string>>)
    requires !AllPresent(xs)
    ensures exists i :: FirstNull(xs, i)
    ensures forall i, j :: FirstNull(xs, i) && FirstNull(xs, j) ==> i == j
  {
    if xs[0].None? {
      assert FirstNull(xs, 0);
    } else {
      assert !AllPresent(xs[1..]) by {
        var k :| 0 <= k < |xs| && xs[k].None?;
        assert xs[1..][k - 1] == xs[k];
      }
      FirstNullExists(xs[1..]);
      var i: nat :| FirstNull(xs[1..], i);
      assert FirstNull(xs, i + 1) by {
        forall k | 0 <= k < i + 1
          ensures xs[k].Some?
        {
          if k > 0 { assert xs[k] == xs[1..][k - 1]; }
        }
      }
    }
  }

  /**
   * The loop of subprotocols: build a fresh list holding `most` and then each
   * element of `lesser`, stopping at the first null element.
   */
  method CollectSubprotocols(most: string, lesser: seq<Option<string>>) returns (r: Result<seq<string>, Failure>)
    ensures r.Ok? <==> AllPresent(lesser)
    ensures r.Ok? ==> Listed(most, lesser, r.value)
    ensures r.Err? ==> r.error.NullElement? && FirstNull(lesser, r.error.index)
  {
    var list := [most];
    for i := 0 to |lesser|
      invariant |list| == i + 1 && list[0] == most
      invariant forall k :: 0 <= k < i ==> lesser[k] == Some(list[k + 1])
    {
      match lesser[i]
      case None =>
        return Err(NullElement(i));
      case Some(p) =>
        list := list + [p];
    }
    return Ok(list);
  }

  /** The builder's state: what it was created with and the handshake settings recorded so far. */
  class Builder {
    const client: HttpClient
    const uri: Uri
    const listener: Listener
    const proxySelector: Option<ProxySelector>
    /** Extra handshake headers, in the order given, duplicates kept. */
    var headers: seq<(string, string)>
    /** Requested subprotocols, most preferred first. */
    var subprotocols: seq<string>
    /** The connect timeout; None until connectTimeout is called. */
    var timeout: Option<Duration>

    /** Field initialisation of the constructor; its argument checks are made by New. */
    constructor (client: HttpClient, uri: Uri, listener: Listener, proxySelector: Option<ProxySelector>)
      ensures this.client == client && this.uri == uri && this.listener == listener
      ensures this.proxySelector == proxySelector
      ensures headers == [] && subprotocols == [] && timeout.None?
    {
      this.client := client;
      this.uri := uri;
      this.listener := listener;
      this.proxySelector := proxySelector;
      headers := [];
      subprotocols := [];
      timeout := None;
    }

    /** header: append one (name, value) pair after the earlier ones; a null argument changes nothing. */
    method Header(name: Option<string>, value: Option<string>) returns (r: Result<Builder, Failure>)
      modifies this
      ensures name.None? ==> r == Err(NullArgument("name"))
      ensures name.Some? && value.None? ==> r == Err(NullArgument("value"))
      ensures r.Ok? <==> name.Some? && value.Some?
      ensures r.Ok? ==> r.value == this && headers == old(headers) + [(name.value, value.value)]
      ensures r.Err? ==> headers == old(headers)
      ensures subprotocols == old(subprotocols) && timeout == old(timeout)
    {
      if name.None? {
        return Err(NullArgument("name"));
      }
      if value.None? {
        return Err(NullArgument("value"));
      }
      headers := headers + [(name.value, value.value)];
      r := Ok(this);
    }

    /**
     * subprotocols: replace the list by `most` followed by `lesser`; any null
     * leaves the recorded list as it was, since the new list is built apart first.
     */
    method Subprotocols(most: Option<string>, lesser: Option<seq<Option<string>>>) returns (r: Result<Builder, Failure>)
      modifies this
      ensures most.None? ==> r == Err(NullArgument("mostPreferred"))
      ensures most.Some? && lesser.None? ==> r == Err(NullArgument("lesserPreferred"))
      ensures r.Ok? <==> most.Some? && lesser.Some? && AllPresent(lesser.value)
      ensures r.Ok? ==> r.value == this && Listed(most.value, lesser.value, subprotocols)
      ensures most.Some? && lesser.Some? && r.Err? ==> r.error.NullElement? && FirstNull(lesser.value, r.error.index)
      ensures r.Err? ==> subprotocols == old(subprotocols)
      ensures headers == old(headers) && timeout == old(timeout)
    {
      if most.None? {
        return Err(NullArgument("mostPreferred"));
      }
      if lesser.None? {
        return Err(NullArgument("lesserPreferred"));
      }
      var list := CollectSubprotocols(most.value, lesser.value);
      if list.Err? {
        return Err(list.error);
      }
      subprotocols := list.value;
      r := Ok(this);
    }

    /** connectTimeout: record the timeout, which getConnectTimeout then returns; null changes nothing. */
    method ConnectTimeout(t: Option<Duration>) returns (r: Result<Builder, Failure>)
      modifies this
      ensures t.None? ==> r == Err(NullArgument("timeout")) && timeout == old(timeout)
      ensures t.Some? ==> r == Ok(this) && timeout == t
      ensures headers == old(headers) && subprotocols == old(subprotocols)
    {
      if t.None? {
        return Err(NullArgument("timeout"));
      }
      timeout := t;
      r := Ok(this);
    }
  }

  /**
   * The public constructor: reject a null client, a null URI, a URI checkURI
   * refuses and a null listener, in that order; a null proxy selector is kept
   * as an empty Optional. The new builder has no headers, no subprotocols and
   * no timeout.
   */
  method New(client: Option<HttpClient>, uri: Option<Uri>, listener: Option<Listener>,
             proxySelector: Option<ProxySelector>) returns (r: Result<Builder, Failure>)
    ensures client.None? ==> r == Err(NullArgument("client"))
    ensures client.Some? && uri.None? ==> r == Err(NullArgument("uri"))
    ensures client.Some? && uri.Some? && !IsWebSocketUri(uri.value) ==>
              r == Err(BadUri(CheckUri(uri.value).error))
    ensures client.Some? && uri.Some? && IsWebSocketUri(uri.value) && listener.None? ==>
              r == Err(NullArgument("listener"))
    ensures r.Ok? <==> client.Some? && uri.Some? && IsWebSocketUri(uri.value) && listener.Some?
    ensures r.Ok? ==> fresh(r.value)
    ensures r.Ok? ==> r.value.client == client.value && r.value.uri == uri.value && r.value.listener == listener.value
    ensures r.Ok? ==> r.value.proxySelector == proxySelector
    ensures r.Ok? ==> r.value.headers == [] && r.value.subprotocols == [] && r.value.timeout.None?
  {
    if client.None? {
      return Err(NullArgument("client"));
    }
    if uri.None? {
      return Err(NullArgument("uri"));
    }
    var checked := CheckUri(uri.value);
    if checked.Err? {
      return Err(BadUri(checked.error));
    }
    if listener.None? {
      return Err(NullArgument("listener"));
    }
    var b := new Builder(client.value, checked.value, listener.value, proxySelector);
    r := Ok(b);
  }
}
