# Reverse-tunnel broker: token registry, handshake gates and control API

This project models the core of the fogbow reverse-tunnel broker in Dafny.

- `TunnelServer` keeps a map from token to client port. `createPort` hands out
  the lowest port of the configured client range that is neither recorded for
  some token nor forwarded by a live SSH session.
- The SSH handshake gates read that map. Authentication accepts a username
  only if it is a token with a port. A reverse forward is allowed only on the
  tagged token's own port. X11 is refused; agent forwarding and outbound
  connects are always allowed.
- `TunnelHttpServer.serve` is the HTTP control API. It splits the path at '/'
  and routes `GET`/`POST /token/{id}` to the registry and `GET /hostkey` to the
  cached host key. Everything else gets an empty 405.

Files:

- `wrappers.dfy`: `Option`, standing for Java's nullable references.
- `java_text.dfy` (module `JavaText`): Java's `String.split("\\/")` and
  `Integer.toString`, each with a partner. Splitting has `Join`. Decimal text
  has `ParseInt`.
- `tunnel_server.dfy` (module `Tunneling`): the pure specification of the
  allocator (`LowestFree`), the registry invariant, the gates, and the class
  `TunnelServer`. Its `CreatePort` is the source's loop, proved equal to
  `LowestFree`.
- `tunnel_http_server.dfy` (module `HttpApi`): the routing decision tree
  (`RouteOf`), the specification of one request (`Respond`), lemmas about it,
  and the class `TunnelHttpServer`. Its `Serve` is proved equal to `Respond`.

Two behaviours of the code are modelled as they are:

- Allocation is not idempotent. Re-posting a token does not return its
  current port: that port counts as taken, so the token moves to the next
  free port.
- When the range is exhausted, null is stored for the token. This overwrites
  its old port.

The code has one registry per server and no listener pool, per-address quota,
idle-token reaping, `DELETE` route or `GET /token/{id}/all` route. A POST
answers 200 with the client port alone, or 500 when no port is free. Every
route other than `GET`/`POST /token/{id}` and `GET /hostkey` gets 405.

## Model

| member | source | states |
|---|---|---|
| Tunneling.Get | src/main/java/org/fogbowcloud/ssh/TunnelServer.java:154-156 | `tokens.get` is non-null exactly when the token is a key whose value is non-null, and then equals that value |
| Tunneling.IsTaken | src/main/java/org/fogbowcloud/ssh/TunnelServer.java:57-59 | a port is taken exactly when some token's recorded value is that port |
| Tunneling.IsActiveSession | src/main/java/org/fogbowcloud/ssh/TunnelServer.java:61-73 | stands for the scan of live sessions' forwards: a port is active exactly when it is in the given set of forwarded ports (a definition, no ensures of its own) |
| Tunneling.LowestFree | src/main/java/org/fogbowcloud/ssh/TunnelServer.java:44-52 | the port chosen lies in `[lowerPort, higherPort]` and is neither forwarded nor recorded; every lower port of the range is forwarded or recorded; null exactly when every port of the range is |
| Tunneling.AllocatePreservesInvariant | src/main/java/org/fogbowcloud/ssh/TunnelServer.java:44-59 | recording the chosen port (or null) for a token keeps all recorded ports pairwise distinct and inside the range |
| Tunneling.RepostMovesToken | src/main/java/org/fogbowcloud/ssh/TunnelServer.java:47-59 | a token that already holds port p is never given p again: re-posting moves it or nulls it |
| Tunneling.RepostOnFullRangeClears | src/main/java/org/fogbowcloud/ssh/TunnelServer.java:45-53 | when every port of the range is recorded or forwarded, the posted token ends up mapped to null, whatever it held before |
| Tunneling.FirstAllocation | src/main/java/org/fogbowcloud/ssh/TunnelServer.java:44-53 | on an empty map the first allocation gets `lowerPort` unless a live session forwards it |
| Tunneling.Authenticate | src/main/java/org/fogbowcloud/ssh/TunnelServer.java:86-95 | authentication succeeds iff the username has a non-null port; success tags the session with the username, failure closes it |
| Tunneling.CanListen | src/main/java/org/fogbowcloud/ssh/TunnelServer.java:123-135 | a reverse forward is allowed iff the session carries a token whose recorded port equals the requested port; allowed leaves the session as it was, refused closes it |
| Tunneling.CanForwardX11 | src/main/java/org/fogbowcloud/ssh/TunnelServer.java:137-140 | X11 forwarding is always refused |
| Tunneling.CanForwardAgent | src/main/java/org/fogbowcloud/ssh/TunnelServer.java:142-145 | agent forwarding is always allowed |
| Tunneling.CanConnect | src/main/java/org/fogbowcloud/ssh/TunnelServer.java:147-150 | outbound connects are always allowed |
| Tunneling.AuthenticatedListensOnlyOnOwnPort | src/main/java/org/fogbowcloud/ssh/TunnelServer.java:86-135 | a session that just authenticated as token t may listen on port p iff t's recorded port is p |
| Tunneling.ListenersOfOnePortShareToken | src/main/java/org/fogbowcloud/ssh/TunnelServer.java:123-135 | while recorded ports are distinct, two sessions allowed to listen on the same port carry the same token |
| Tunneling.TunnelServer.constructor | src/main/java/org/fogbowcloud/ssh/TunnelServer.java:36-42 | a new server keeps its configuration and starts with an empty map, which satisfies the invariant |
| Tunneling.TunnelServer.CreatePort | src/main/java/org/fogbowcloud/ssh/TunnelServer.java:44-55 | the ascending scan returns `LowestFree` of the old map, stores it (or null) for the token, leaves every other entry unchanged, and keeps the invariant |
| Tunneling.TunnelServer.GetPort | src/main/java/org/fogbowcloud/ssh/TunnelServer.java:154-156 | non-null iff the token has a non-null entry, equal to it, and then inside the range when the invariant holds; only reads the map |
| JavaText.Pieces | src/main/java/org/fogbowcloud/ssh/TunnelHttpServer.java:37 | splitting at every '/' gives at least one piece and no piece contains '/' |
| JavaText.Split | src/main/java/org/fogbowcloud/ssh/TunnelHttpServer.java:37 | `uri.split("\\/")`: no segment contains '/'; a path without '/' comes back whole; otherwise the segments are the '/'-separated pieces with only trailing empty pieces dropped; further pinned down by `SplitTokenPath`, `SplitBareTokenPath` and `SplitRoot` |
| JavaText.DropTrailingEmpty | src/main/java/org/fogbowcloud/ssh/TunnelHttpServer.java:37 | Java's split result is a prefix of the pieces whose last element is non-empty, and only empty pieces are dropped |
| JavaText.JoinPieces | src/main/java/org/fogbowcloud/ssh/TunnelHttpServer.java:37 | joining the pieces with '/' gives back the path |
| JavaText.PiecesOfJoin | src/main/java/org/fogbowcloud/ssh/TunnelHttpServer.java:37 | splitting '/'-joined separator-free pieces gives back the pieces |
| JavaText.SplitTokenPath | src/main/java/org/fogbowcloud/ssh/TunnelHttpServer.java:37-47 | `/token/{id}` and `/token/{id}/` both split into `["", "token", id]` |
| JavaText.SplitBareTokenPath | src/main/java/org/fogbowcloud/ssh/TunnelHttpServer.java:37-45 | `/token/` splits into two segments only, so it is routed to 405 |
| JavaText.SplitRoot | src/main/java/org/fogbowcloud/ssh/TunnelHttpServer.java:37-40 | `/` splits into no segment, so it is routed to 405 |
| JavaText.NatToString | src/main/java/org/fogbowcloud/ssh/TunnelHttpServer.java:55 | the decimal text of a port is non-empty, all digits, without a leading zero |
| JavaText.IntToString | src/main/java/org/fogbowcloud/ssh/TunnelHttpServer.java:55 | `port.toString()`: non-empty, a leading '-' exactly for negative ports, digits otherwise, without a leading zero; `ParseIntToString` reads it back |
| JavaText.ParseIntToString | src/main/java/org/fogbowcloud/ssh/TunnelHttpServer.java:55 | `Integer.toString` text of a port parses back to the same number |
| HttpApi.RouteOf | src/main/java/org/fogbowcloud/ssh/TunnelHttpServer.java:38-100 | lookup iff three segments, second "token" and GET; allocation iff the same with POST; both act on segment 2; host key iff at least two segments, second "hostkey" and GET; anything else is rejected |
| HttpApi.Respond | src/main/java/org/fogbowcloud/ssh/TunnelHttpServer.java:34-101 | the effect of one `serve` call on the registry and key cache: only POST changes the map, a cached key pair is never replaced, every 200 is text/html, and every other answer is the empty 405, "404 Port Not Found" or "Internal error"; the per-route lemmas below pin down each branch |
| HttpApi.RejectedRequestsChangeNothing | src/main/java/org/fogbowcloud/ssh/TunnelHttpServer.java:38-100 | short paths, `/token` with a segment count other than 3, other methods on `/token/{id}`, non-GET on `/hostkey` and any other second segment get an empty 405 and change neither the registry nor the key cache |
| HttpApi.LookupReadsRecordedPort | src/main/java/org/fogbowcloud/ssh/TunnelHttpServer.java:49-56 | GET `/token/{id}` answers 200 with the recorded port's decimal text (`IntToString`, text/html, which `ParseInt` reads back as the port) iff one is recorded, else 404 "404 Port Not Found"; nothing changes |
| HttpApi.AllocateRecordsLowestFreePort | src/main/java/org/fogbowcloud/ssh/TunnelHttpServer.java:58-65 | POST `/token/{id}` stores `LowestFree` (or null) for the token and nothing else; 200 with the decimal text (`IntToString`, text/html) of that free in-range port, which `ParseInt` reads back, or 500 "Internal error" exactly when the range is full |
| HttpApi.GetAfterPostAgrees | src/main/java/org/fogbowcloud/ssh/TunnelHttpServer.java:49-65 | a GET right after a POST on the same path returns the POST's response if it succeeded, else 404, and changes nothing |
| HttpApi.FirstPostThenGet | src/main/java/org/fogbowcloud/ssh/TunnelHttpServer.java:49-65 | on a fresh registry POST `/token/{id}` returns `lowerPort` and a following GET returns the same port |
| HttpApi.HostKeyIsCached | src/main/java/org/fogbowcloud/ssh/TunnelHttpServer.java:69-95 | GET `/hostkey` serves a cached key pair without reading the file again; otherwise it loads and caches the stored key, or answers 500 with the cache still empty; the registry is untouched |
| HttpApi.TunnelHttpServer.constructor | src/main/java/org/fogbowcloud/ssh/TunnelHttpServer.java:20-31 | the control server owns a fresh registry with an empty map for the configured range and an empty key cache |
| HttpApi.TunnelHttpServer.Serve | src/main/java/org/fogbowcloud/ssh/TunnelHttpServer.java:34-101 | the response, the new map and the new key cache are exactly those `Respond` gives for the old state, and the registry invariant is kept |

## Left out

- The live-session scan in `isActiveSession` is not modelled. It reads the SSH
  library's active sessions and their forwards. The set of currently forwarded
  ports is a parameter (`forwardedPorts`) instead.
- `TunnelServer.start` and `createUnknownCommandFactory` are not modelled. They
  build the SSH server: key provider, command factory, filter and forwarder
  installation, binding. This is library wiring.
- `ReverseTunnelForwarderFactory` is not part of this model. It receives the
  same `tokens` map. The registry invariant assumes that only `createPort`
  writes the map.
- The `/hostkey` body is not modelled: reading the file, Java
  deserialisation and Base64. The result of reading the file is a parameter
  (`storedKey`, None when reading fails). A key pair carries its Base64 text.
  The UTF-8 encoding failure branch cannot happen and is not modelled.
- Starting the SSH server in the `TunnelHttpServer` constructor is not
  modelled. Its `IOException` is caught and printed, and the registry is still
  created. The HTTP server is started by `Main.java`, which is not modelled
  either: it loads properties and starts the process.
- Concurrency is not modelled. The map is an unsynchronised `HashMap` shared
  by HTTP and SSH threads. Every operation is modelled as one sequential step.
- `session.close(true)` is modelled as a `closed` flag in the returned
  session. Socket effects are not modelled.
- Tunneling.TunnelServer.CreatePort: uses unbounded integers. With
  `higherPort` equal to Java's largest `int`, the source's `port++` would
  overflow. Ports are at most 65535 in practice.
- The request methods are NanoHTTPD's six. Any further verb
  would behave like PUT, DELETE, HEAD and OPTIONS (405).
- The test class `TestTunnelHttpServer.java` is not modelled. It targets a
  newer API: a nine-argument constructor, a pool of servers, quotas and a
  "client:listener" response body.
