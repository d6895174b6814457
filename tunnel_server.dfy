/** The per-server token registry (`TunnelServer`): the map from token to
    client port, the allocator `createPort` that scans the client port range
    for the lowest free port, and the handshake gates (authentication and the
    forwarding filter) that consult the map.

    The live SSH sessions are not modelled; `forwardedPorts` stands for the
    set of ports that some live session currently forwards, which the source
    finds by scanning the server's active sessions. */
module Tunneling {
  import opened Wrappers

  /** `tokens`: a Java HashMap<String, Integer> whose values may be null. */
  type Registry = map<string, Option<int>>

  /** `tokens.get(key)`: null both for a missing key and for a null value. */
  function Get(tokens: Registry, key: string): (r: Option<int>)
    ensures r.Some? <==> key in tokens && tokens[key].Some?
    ensures r.Some? ==> tokens[key] == r
  {
    if key in tokens then tokens[key] else None
  }

  /** `isTaken`: some token's recorded port is `port`. */
  predicate IsTaken(tokens: Registry, port: int)
    ensures IsTaken(tokens, port) <==> exists t :: t in tokens && tokens[t] == Some(port)
  {
    Some(port) in tokens.Values
  }

  /** `isActiveSession`: a live session forwards `port`. */
  predicate IsActiveSession(forwardedPorts: set<int>, port: int)
  {
    port in forwardedPorts
  }

  /** A port `createPort` may hand out: neither forwarded nor recorded. */
  predicate IsFree(tokens: Registry, forwardedPorts: set<int>, port: int)
  {
    !IsActiveSession(forwardedPorts, port) && !IsTaken(tokens, port)
  }

  /** The port `createPort` picks: the lowest free port of `[lo, hi]`, or
      none when every port of the range is forwarded or recorded. */
  function LowestFree(lo: int, hi: int, tokens: Registry, forwardedPorts: set<int>): (r: Option<int>)
    ensures r.Some? ==> lo <= r.value <= hi && IsFree(tokens, forwardedPorts, r.value)
    ensures r.Some? ==> forall q :: lo <= q < r.value ==> !IsFree(tokens, forwardedPorts, q)
    ensures r.None? <==> forall q :: lo <= q <= hi ==> !IsFree(tokens, forwardedPorts, q)
    decreases hi - lo
  {
    if lo > hi then None
    else if IsFree(tokens, forwardedPorts, lo) then Some(lo)
    else LowestFree(lo + 1, hi, tokens, forwardedPorts)
  }

  /** No two tokens hold the same (non-null) port. */
  ghost predicate DistinctPorts(tokens: Registry)
  {
    forall a, b :: a in tokens && b in tokens && a != b && tokens[a].Some? ==> tokens[a] != tokens[b]
  }

  /** Every recorded port lies in the client port range. */
  ghost predicate PortsWithin(tokens: Registry, lo: int, hi: int)
  {
    forall t :: t in tokens && tokens[t].Some? ==> lo <= tokens[t].value <= hi
  }

  /** What `createPort` keeps true of the registry. */
  ghost predicate RegistryInvariant(tokens: Registry, lo: int, hi: int)
  {
    DistinctPorts(tokens) && PortsWithin(tokens, lo, hi)
  }

  /** Recording the port `createPort` picks (or null) keeps the ports distinct
      and within range: the picked port is no current value, and the token's
      old entry is overwritten. */
  lemma AllocatePreservesInvariant(tokens: Registry, lo: int, hi: int, forwardedPorts: set<int>, token: string)
    requires RegistryInvariant(tokens, lo, hi)
    ensures RegistryInvariant(tokens[token := LowestFree(lo, hi, tokens, forwardedPorts)], lo, hi)
  {
  }

  /** Posting a token that already holds a port never hands it that port
      again: the token moves to another free port, or to null. */
  lemma RepostMovesToken(tokens: Registry, lo: int, hi: int, forwardedPorts: set<int>, token: string)
    requires token in tokens && tokens[token].Some?
    ensures LowestFree(lo, hi, tokens, forwardedPorts) != tokens[token]
  {
  }

  /** When every port of the range is recorded or forwarded, posting any
      token, including one that held a port, leaves it mapped to null. */
  lemma RepostOnFullRangeClears(tokens: Registry, lo: int, hi: int, forwardedPorts: set<int>, token: string)
    requires forall q :: lo <= q <= hi ==> !IsFree(tokens, forwardedPorts, q)
    ensures tokens[token := LowestFree(lo, hi, tokens, forwardedPorts)][token] == None
  {
  }

  /** On an empty registry the first port of the range is handed out unless a
      live session already forwards it. */
  lemma FirstAllocation(lo: int, hi: int, forwardedPorts: set<int>)
    requires lo <= hi && lo !in forwardedPorts
    ensures LowestFree(lo, hi, map[], forwardedPorts) == Some(lo)
  {
  }

  /** The session state the gates read and write: the TOKEN attribute and
      whether `session.close(true)` has been called. */
  datatype Session = Session(token: Option<string>, closed: bool)

  /** A gate's answer together with the session as the gate leaves it. */
  datatype Decision = Decision(allowed: bool, session: Session)

  /** `SshdSocketAddress`. */
  datatype SocketAddress = SocketAddress(host: string, port: int)

  /** The `auth` override: the username is the token; it is accepted exactly
      when the map has a non-null port for it. Success tags the session with
      the token, failure closes it. */
  function Authenticate(tokens: Registry, session: Session, username: string): (d: Decision)
    ensures d.allowed <==> username in tokens && tokens[username] != None
    ensures d.allowed ==> d.session == session.(token := Some(username))
    ensures !d.allowed ==> d.session == session.(closed := true)
  {
    match Get(tokens, username)
    case None => Decision(false, session.(closed := true))
    case Some(_) => Decision(true, session.(token := Some(username)))
  }

  /** `canListen`: a reverse forward is allowed exactly when the session is
      tagged with a token whose recorded port is the requested one. A refusal
      closes the session; an approval leaves it as it was. */
  function CanListen(tokens: Registry, address: SocketAddress, session: Session): (d: Decision)
    ensures d.allowed <==>
      session.token.Some? && session.token.value in tokens && tokens[session.token.value] == Some(address.port)
    ensures d.allowed ==> d.session == session
    ensures !d.allowed ==> d.session == session.(closed := true)
  {
    match session.token
    case None => Decision(false, session.(closed := true))
    case Some(username) =>
      var expectedPort := Get(tokens, username);
      if expectedPort.None? || expectedPort.value != address.port then
        Decision(false, session.(closed := true))
      else
        Decision(true, session)
  }

  /** `canForwardX11`: never. */
  function CanForwardX11(session: Session): (r: bool)
    ensures !r
  {
    false
  }

  /** `canForwardAgent`: always. */
  function CanForwardAgent(session: Session): (r: bool)
    ensures r
  {
    true
  }

  /** `canConnect`: always. */
  function CanConnect(address: SocketAddress, session: Session): (r: bool)
    ensures r
  {
    true
  }

  /** A session that has just authenticated may bind its own token's port and
      no other. */
  lemma AuthenticatedListensOnlyOnOwnPort(tokens: Registry, session: Session, username: string, address: SocketAddress)
    requires Authenticate(tokens, session, username).allowed
    ensures CanListen(tokens, address, Authenticate(tokens, session, username).session).allowed
        <==> Get(tokens, username) == Some(address.port)
  {
  }

  /** While ports are distinct, two sessions allowed to listen on one port
      carry the same token. */
  lemma ListenersOfOnePortShareToken(tokens: Registry, address: SocketAddress, s1: Session, s2: Session)
    requires DistinctPorts(tokens)
    requires CanListen(tokens, address, s1).allowed && CanListen(tokens, address, s2).allowed
    ensures s1.token == s2.token
  {
  }

  class TunnelServer {
    const sshTunnelPort: int
    const lowerPort: int
    const higherPort: int
    const hostKeyPath: string
    var tokens: Registry

    ghost predicate Valid()
      reads this
    {
      RegistryInvariant(tokens, lowerPort, higherPort)
    }

    constructor (sshTunnelPort: int, lowerPort: int, higherPort: int, hostKeyPath: string)
      ensures Valid() && tokens == map[]
      ensures this.sshTunnelPort == sshTunnelPort && this.hostKeyPath == hostKeyPath
      ensures this.lowerPort == lowerPort && this.higherPort == higherPort
    {
      this.sshTunnelPort := sshTunnelPort;
      this.lowerPort := lowerPort;
      this.higherPort := higherPort;
      this.hostKeyPath := hostKeyPath;
      tokens := map[];
    }

    /** Scans the range upwards for the first port that is neither forwarded
        nor recorded and records it (or null) for `token`, replacing whatever
        the token held; every other token keeps its entry. */
    method CreatePort(token: string, forwardedPorts: set<int>) returns (newPort: Option<int>)
      requires Valid()
      modifies this
      ensures Valid()
      ensures newPort == LowestFree(lowerPort, higherPort, old(tokens), forwardedPorts)
      ensures tokens == old(tokens)[token := newPort]
    {
      newPort := None;
      var port := lowerPort;
      while port <= higherPort
        invariant LowestFree(port, higherPort, tokens, forwardedPorts)
               == LowestFree(lowerPort, higherPort, tokens, forwardedPorts)
        invariant newPort == None
        decreases higherPort - port
      {
        if IsActiveSession(forwardedPorts, port) || IsTaken(tokens, port) {
          port := port + 1;
          continue;
        }
        newPort := Some(port);
        break;
      }
      AllocatePreservesInvariant(tokens, lowerPort, higherPort, forwardedPorts, token);
      tokens := tokens[token := newPort];
    }

    /** `getPort`: the recorded port, null when the token is unknown or holds
        null. */
    function GetPort(tokenId: string): (r: Option<int>)
      reads this
      ensures r.Some? <==> tokenId in tokens && tokens[tokenId].Some?
      ensures r.Some? ==> tokens[tokenId] == r
      ensures Valid() && r.Some? ==> lowerPort <= r.value <= higherPort
    {
      Get(tokens, tokenId)
    }
  }
}
