/** The control API (`TunnelHttpServer.serve`): the request path is split at
    '/', and the segment count, the second segment and the HTTP method decide
    between reading a token's port, allocating one, returning the host key,
    and 405 Method Not Allowed.

    Reading the host-key file is not modelled: `storedKey` stands for what
    deserialising that file would give (None when it fails), and a KeyPair
    carries the Base64 text of its public key. */
module HttpApi {
  import opened Wrappers
  import opened JavaText
  import opened Tunneling

  /** NanoHTTPD's request methods. */
  datatype Method = GET | PUT | POST | DELETE | HEAD | OPTIONS

  /** The response statuses `serve` produces: 200, 404, 405 and 500. */
  datatype Status = OK | NOT_FOUND | METHOD_NOT_ALLOWED | INTERNAL_ERROR

  const MIME_PLAINTEXT: string := "text/plain"
  const MIME_HTML: string := "text/html"

  datatype Response = Response(status: Status, mimeType: string, body: string)

  /** `new Response(msg)`: 200 with an HTML body. */
  function Text(msg: string): Response
  {
    Response(OK, MIME_HTML, msg)
  }

  const NotAllowed: Response := Response(METHOD_NOT_ALLOWED, MIME_PLAINTEXT, "")
  const PortNotFound: Response := Response(NOT_FOUND, MIME_PLAINTEXT, "404 Port Not Found")
  const InternalError: Response := Response(INTERNAL_ERROR, MIME_PLAINTEXT, "Internal error")

  /** A deserialised host key pair, reduced to the Base64 text of its public key. */
  datatype KeyPair = KeyPair(encodedPublicKey: string)

  /** What a request asks for, once its path and method have been examined. */
  datatype Route = Reject | LookupToken(tokenId: string) | AllocateToken(tokenId: string) | FetchHostKey

  /** The decision tree of `serve` over the split path and the method. */
  function RouteOf(httpMethod: Method, segments: seq<string>): (r: Route)
    ensures r.LookupToken? <==> |segments| == 3 && segments[1] == "token" && httpMethod == GET
    ensures r.AllocateToken? <==> |segments| == 3 && segments[1] == "token" && httpMethod == POST
    ensures (r.LookupToken? || r.AllocateToken?) ==> r.tokenId == segments[2]
    ensures r.FetchHostKey? <==> |segments| >= 2 && segments[1] == "hostkey" && httpMethod == GET
  {
    if |segments| < 2 then Reject
    else if segments[1] == "token" then
      if |segments| != 3 then Reject
      else if httpMethod == GET then LookupToken(segments[2])
      else if httpMethod == POST then AllocateToken(segments[2])
      else Reject
    else if segments[1] == "hostkey" then
      if httpMethod == GET then FetchHostKey else Reject
    else Reject
  }

  /** The response of one request and the state it leaves: the registry's map
      and the cached key pair. */
  datatype Exchange = Exchange(response: Response, tokens: Registry, kp: Option<KeyPair>)

  /** What `serve` does, as a function of the state before the request. */
  function Respond(lo: int, hi: int, tokens: Registry, kp: Option<KeyPair>, httpMethod: Method, uri: string,
                   forwardedPorts: set<int>, storedKey: Option<KeyPair>): (x: Exchange)
    ensures httpMethod != POST ==> x.tokens == tokens
    ensures kp.Some? ==> x.kp == kp
    ensures x.response.status == OK ==> x.response.mimeType == MIME_HTML
    ensures x.response.status != OK ==> x.response in {NotAllowed, PortNotFound, InternalError}
  {
    match RouteOf(httpMethod, Split(uri))
    case Reject => Exchange(NotAllowed, tokens, kp)
    case LookupToken(id) =>
      var port := Get(tokens, id);
      Exchange(if port.None? then PortNotFound else Text(IntToString(port.value)), tokens, kp)
    case AllocateToken(id) =>
      var port := LowestFree(lo, hi, tokens, forwardedPorts);
      Exchange(if port.None? then InternalError else Text(IntToString(port.value)), tokens[id := port], kp)
    case FetchHostKey =>
      var key := if kp.Some? then kp else storedKey;
      Exchange(if key.None? then InternalError else Text(key.value.encodedPublicKey), tokens, key)
  }

  /** Paths with fewer than two segments, `/token` paths without exactly
      three segments, methods other than GET and POST on `/token/{id}`, non-GET
      methods on `/hostkey` and every other second segment get an empty 405
      and change nothing. */
  lemma RejectedRequestsChangeNothing(lo: int, hi: int, tokens: Registry, kp: Option<KeyPair>, httpMethod: Method,
                                      uri: string, forwardedPorts: set<int>, storedKey: Option<KeyPair>)
    ensures var segments := Split(uri);
      (|segments| < 2
       || (segments[1] == "token" && (|segments| != 3 || (httpMethod != GET && httpMethod != POST)))
       || (segments[1] == "hostkey" && httpMethod != GET)
       || (segments[1] != "token" && segments[1] != "hostkey"))
      ==> Respond(lo, hi, tokens, kp, httpMethod, uri, forwardedPorts, storedKey) == Exchange(NotAllowed, tokens, kp)
  {
  }

  /** GET on `/token/{id}`: 200 whose body reads back as the recorded port,
      or 404 when there is none; the registry is not touched. */
  lemma LookupReadsRecordedPort(lo: int, hi: int, tokens: Registry, kp: Option<KeyPair>, uri: string,
                                forwardedPorts: set<int>, storedKey: Option<KeyPair>)
    requires var segments := Split(uri); |segments| == 3 && segments[1] == "token"
    ensures var x := Respond(lo, hi, tokens, kp, GET, uri, forwardedPorts, storedKey);
      var id := Split(uri)[2];
      && x.tokens == tokens && x.kp == kp
      && (x.response.status == OK <==> id in tokens && tokens[id].Some?)
      && (x.response.status == OK ==> x.response == Text(IntToString(tokens[id].value)))
      && (x.response.status == OK ==> ParseInt(x.response.body) == tokens[id].value)
      && (x.response.status != OK ==> x.response == PortNotFound)
  {
    var id := Split(uri)[2];
    if id in tokens && tokens[id].Some? {
      ParseIntToString(tokens[id].value);
    }
  }

  /** POST on `/token/{id}`: the token is given the lowest free port (or
      null) and nothing else in the registry changes; the answer is 200 whose
      body reads back as a free in-range port, or 500 exactly when the whole
      range is forwarded or recorded. */
  lemma AllocateRecordsLowestFreePort(lo: int, hi: int, tokens: Registry, kp: Option<KeyPair>, uri: string,
                                      forwardedPorts: set<int>, storedKey: Option<KeyPair>)
    requires var segments := Split(uri); |segments| == 3 && segments[1] == "token"
    ensures var x := Respond(lo, hi, tokens, kp, POST, uri, forwardedPorts, storedKey);
      var id := Split(uri)[2];
      && x.kp == kp
      && x.tokens == tokens[id := LowestFree(lo, hi, tokens, forwardedPorts)]
      && (x.response.status == INTERNAL_ERROR <==> forall q :: lo <= q <= hi ==> !IsFree(tokens, forwardedPorts, q))
      && (x.response.status != OK ==> x.response == InternalError)
      && (x.response.status == OK ==>
            var p := ParseInt(x.response.body);
            && x.response == Text(IntToString(p))
            && lo <= p <= hi && IsFree(tokens, forwardedPorts, p) && x.tokens[id] == Some(p))
  {
    var p := LowestFree(lo, hi, tokens, forwardedPorts);
    if p.Some? {
      ParseIntToString(p.value);
    }
  }

  /** A GET right after a POST on the same token path answers with the port
      the POST handed out, or 404 when the POST failed (it stored null). */
  lemma GetAfterPostAgrees(lo: int, hi: int, tokens: Registry, kp: Option<KeyPair>, uri: string,
                           forwardedPorts: set<int>, storedKey: Option<KeyPair>)
    requires var segments := Split(uri); |segments| == 3 && segments[1] == "token"
    ensures var post := Respond(lo, hi, tokens, kp, POST, uri, forwardedPorts, storedKey);
      var get := Respond(lo, hi, post.tokens, post.kp, GET, uri, forwardedPorts, storedKey);
      && get.tokens == post.tokens
      && get.response == (if post.response.status == OK then post.response else PortNotFound)
  {
  }

  /** On a fresh registry, POST `/token/{id}` hands out the lowest port of the
      range (unless a live session forwards it) and a following GET reports
      the same port. */
  lemma FirstPostThenGet(lo: int, hi: int, id: string, forwardedPorts: set<int>, storedKey: Option<KeyPair>)
    requires lo <= hi && lo !in forwardedPorts
    requires id != "" && '/' !in id
    ensures var post := Respond(lo, hi, map[], None, POST, "/token/" + id, forwardedPorts, storedKey);
      var get := Respond(lo, hi, post.tokens, post.kp, GET, "/token/" + id, forwardedPorts, storedKey);
      && post.response == Text(IntToString(lo))
      && get.response == Text(IntToString(lo))
  {
    SplitTokenPath(id);
    FirstAllocation(lo, hi, forwardedPorts);
  }

  /** GET `/hostkey`: a cached key pair is served without reading the file
      again; otherwise the stored key is loaded and cached, or 500 leaves the
      cache empty. */
  lemma HostKeyIsCached(lo: int, hi: int, tokens: Registry, kp: Option<KeyPair>, uri: string,
                        forwardedPorts: set<int>, storedKey: Option<KeyPair>)
    requires var segments := Split(uri); |segments| >= 2 && segments[1] == "hostkey"
    ensures var x := Respond(lo, hi, tokens, kp, GET, uri, forwardedPorts, storedKey);
      && x.tokens == tokens
      && (kp.Some? ==> x.kp == kp && x.response == Text(kp.value.encodedPublicKey))
      && (kp.None? && storedKey.Some? ==> x.kp == storedKey && x.response == Text(storedKey.value.encodedPublicKey))
      && (kp.None? && storedKey.None? ==> x.kp == None && x.response == InternalError)
  {
  }

  class TunnelHttpServer {
    const httpPort: int
    const hostKeyPath: string
    const tunneling: TunnelServer
    var kp: Option<KeyPair>

    ghost predicate Valid()
      reads this, tunneling
    {
      tunneling.Valid()
    }

    /** Builds the registry for the client port range; starting the SSH
        server is not modelled. */
    constructor (httpPort: int, sshTunnelPort: int, lowerPort: int, higherPort: int, hostKeyPath: string)
      ensures Valid() && fresh(tunneling) && kp == None
      ensures this.httpPort == httpPort && this.hostKeyPath == hostKeyPath
      ensures tunneling.tokens == map[] && tunneling.sshTunnelPort == sshTunnelPort
      ensures tunneling.lowerPort == lowerPort && tunneling.higherPort == higherPort
      ensures tunneling.hostKeyPath == hostKeyPath
    {
      this.httpPort := httpPort;
      this.hostKeyPath := hostKeyPath;
      tunneling := new TunnelServer(sshTunnelPort, lowerPort, higherPort, hostKeyPath);
      kp := None;
    }

    /** Handles one request; the response, the registry and the key cache
        afterwards are those `Respond` gives for the state before it. */
    method Serve(httpMethod: Method, uri: string, forwardedPorts: set<int>, storedKey: Option<KeyPair>)
      returns (response: Response)
      requires Valid()
      modifies this, tunneling
      ensures Valid()
      ensures Exchange(response, tunneling.tokens, kp)
           == Respond(tunneling.lowerPort, tunneling.higherPort, old(tunneling.tokens), old(kp),
                      httpMethod, uri, forwardedPorts, storedKey)
    {
      var splitUri := Split(uri);
      if |splitUri| < 2 {
        return NotAllowed;
      }
      if splitUri[1] == "token" {
        if |splitUri| != 3 {
          return NotAllowed;
        }
        var tokenId := splitUri[2];
        if httpMethod == GET {
          var port := tunneling.GetPort(tokenId);
          if port.None? {
            return PortNotFound;
          }
          return Text(IntToString(port.value));
        }
        if httpMethod == POST {
          var port := tunneling.CreatePort(tokenId, forwardedPorts);
          if port.None? {
            return InternalError;
          }
          return Text(IntToString(port.value));
        }
        return NotAllowed;
      } else if splitUri[1] == "hostkey" {
        if httpMethod == GET {
          if kp.None? {
            if storedKey.None? {
              return InternalError;
            }
            kp := storedKey;
          }
          return Text(kp.value.encodedPublicKey);
        }
        return NotAllowed;
      }
      return NotAllowed;
    }
  }
}
