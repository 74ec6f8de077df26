# Greyproxy, modelled and proved

This project models the logic of Greyproxy that is hardest to get right by
reading, and proves what the code promises about it. Each file is one module,
except that a protocol or a table and the class that runs it are kept apart.

* **Middleware protocol** (`MiddlewareTypes`, `MiddlewareProtocol`,
  `MiddlewareClient`): any number of `Send` calls, the read and reconnect loop
  and `Close` as an interleaved step system over one mutex, the `pending` map
  and one-slot channels; the client's critical sections as methods of a class
  that are runs of those steps.
* **Cascades** (`Cascade`): request and response hooks as a fold that stops, and
  the header denylist.
* **SOCKS5** (`Streams`, `Socks5`): sections 3 to 7 of RFC 1928 and section 2 of
  RFC 1929, over a reader that hands out bytes in arbitrary chunks.
* **TLS hello dissection** (`TlsExtensions`, `TlsExtensionCodec`, `TlsMessages`,
  `TlsDissector`): sections 4.1.2, 4.1.3, 4.2 and 5.1 of RFC 8446, section 3 of
  RFC 6066 and section 3.1 of RFC 7301.
* **Globs and LIKE** (`Glob`, `EndpointRegistry`).
* **Streamed chat replies** (`ChatStreaming`).
* **Sessions, rules and policy** (`SessionTables`, `SessionStore`, `Sorting`,
  `RulePolicy`).
* **Credential cache** (`CredentialCache`, `CredentialStore`).
* **Conversation assembly** (`SessionKeys`, `Transactions`, `SessionInference`,
  `Runs`, `HeuristicGroups`, `SessionThreads`, `SubagentRemap`, `Grouping`,
  `Messages`, `Turns`, `ToolResults`, `Rounds`).

Code that changes things step by step is a method, over an object where the
source has one, and is proved against a function or a declarative predicate;
the main results are lemmas about those. A loop over a Go map visits the keys in
an arbitrary order, and a result is only proved when it holds for all of them.

What the program is given from outside are parameters: the clock (one reading
per operation), JSON, IP text conversion, time parsing, client detection and
classification, the test for a real user message, tool summaries, the pattern
matchers of rules and the middleware's answers. Secrets are modelled decrypted:
encryption is an inverse pair under one key.

## Where the code falls short of what is said about it

All but the last are lemmas below, with the condition under which the promise
holds.

* Two `Send` calls with one id can lose a decision: the registration of the
  newer cuts off the older while that is still pending, and the cleanup of the
  older cuts off the newer. A call cut off never receives a decision and can only
  return a fallback, one not cut off can still be served, and at most one decision
  per channel holds in any case.
* An ALPN list with nothing to write, such as the empty one, encodes to bytes on
  which the decoder panics, exactly when the length announced is 0. Every
  extension, ClientHello and ServerHello reads back if and only if it is within
  the wire limits.
* A URL with no slash behind the scheme separator can be accepted by a rule whose
  LIKE pattern does not match it: exactly when the path pattern has a slash and
  the host pattern does not match in the scheme.
* `INSERT OR IGNORE` lets a row of anyone else keep the key of a session's
  network rule, even when that row is not in force.
* A hand edit that takes and changes a session rule's expiry unlinks it from its
  session, and nothing else does; the next heartbeat or upsert links it again.
* A group of transactions filed under a heuristic key replaces the session whose
  id is that key. Threads of two sessions can be filed under one key, exactly when
  one has a main thread and its id is the key of an invocation of the other; then
  what is filed there first is replaced, and only then does the split lose
  anything. A session whose id has the form of a remapped child can be replaced by
  one. A session keeps all of its transactions when its id is no heuristic key of
  two transactions without id and has the form neither of an invocation key nor of
  a remapped child, and, besides, no other id is one of its own invocation keys.
* Two fingerprints that agree in their first eight characters share their growth
  keys, so their transactions can land in one session.
* "deny" from a response hook and "block" from a request hook are known actions,
  so nothing warns about them, but each cascade stops on its own word only and
  treats the other as no decision; the model follows the code.

## Model

| member | source | states |
|---|---|---|
| MiddlewareProtocol.AtMostOneDecision | internal/greyproxy/middleware/client.go:224-253 | In every interleaving of any number of calls, frames, reconnects and drains, even with reused ids: each one-slot channel is sent on at most once, no send on a channel can block (not the one made holding the mutex either), and every decision held or returned bears the call's id and, when it is a fallback, is exactly the one fixed by policy and kind |
| MiddlewareProtocol.RunKeepsInv | internal/greyproxy/middleware/client.go:324-440 | The global invariant behind it: entries point at untouched channels, the reader's decision is for a channel no longer in the map, and transport, lock and connection counters agree |
| MiddlewareProtocol.NoLostWakeup | internal/greyproxy/middleware/client.go:136-138 | With ids distinct among live calls: once a lost connection has been drained, every call still waiting that captured it can receive its own decision at once; likewise every waiting call whenever the map and the reader's hands are empty |
| MiddlewareProtocol.OnlyCutsOrphan | internal/greyproxy/middleware/client.go:339-350 | Of all steps, exactly two kinds put a call that nothing was sent to out of reach: while it is pending, a registration under its id, and a cleanup under its id |
| MiddlewareProtocol.CutOffForGood | internal/greyproxy/middleware/client.go:339-380 | A call cut off in this way never has a decision to receive and can only return a fallback, whatever happens afterwards |
| MiddlewareProtocol.ReusedIdLosesWakeup | internal/greyproxy/middleware/client.go:339-344 | A `Send` under the id of a call that is still pending cuts off the older call |
| MiddlewareProtocol.LateCleanupLosesWakeup | internal/greyproxy/middleware/client.go:346-350 | The cleanup of an older call with the same id cuts off the newer one |
| MiddlewareProtocol.CutOffNeedsReuse | internal/greyproxy/middleware/client.go:339-350 | While every registration so far was under an id no live call had, only a registration that reuses an id can cut off a call that listens |
| MiddlewareProtocol.NotOrphanedCanBeServed | internal/greyproxy/middleware/client.go:224-252 | A call that nothing was sent to and that is not out of reach can still be given a decision, so being out of reach is exactly that |
| MiddlewareProtocol.OrphanStaysOrphaned | internal/greyproxy/middleware/client.go:224-252 | No step of anyone ever brings an orphaned call back |
| MiddlewareProtocol.DrainReleasesMutex | internal/greyproxy/middleware/client.go:402-409 | A drainer holding the mutex gets through: one enabled step per entry and one to unlock, leaving the map empty and each drained call with exactly its fallback buffered |
| MiddlewareProtocol.DrainOneThenRest | internal/greyproxy/middleware/client.go:402-409 | Draining one entry and then the others leaves each call what draining all of them should |
| MiddlewareProtocol.OwnStepProgress | internal/greyproxy/middleware/client.go:346-380 | With the mutex free, a call that has not returned always has an enabled step of its own, and it brings the return strictly nearer |
| MiddlewareProtocol.SendCanFinish | internal/greyproxy/middleware/client.go:324-380 | With the mutex free, every call can return by its own steps alone, with a decision that is properly its own |
| MiddlewareProtocol.WhatSendReturns | internal/greyproxy/middleware/client.go:324-440 | After any interleaving from the start, whatever a Send returned bears its own id, and is either what the middleware sent or, for one of five reasons, a local decision that passes the exchange on untouched under "allow" and ends it with 403 or 502 otherwise |
| MiddlewareProtocol.TimeoutReturnsFallback | internal/greyproxy/middleware/client.go:346-380 | A waiting call whose timer fires returns by three steps of its own, with the local decision and the reason "timeout", and its entry gone from the map |
| MiddlewareTypes.FallbackDecision | internal/greyproxy/middleware/client.go:421-440 | The local decision bears id and reason and no body, headers or tags; under "allow" it is "allow" for a request and "passthrough" for a response, with status 0, and under any other policy "deny" with 403 and "block" with 502 |
| MiddlewareClient.Client.constructor | internal/greyproxy/middleware/client.go:75-112 | A new client is the initial state of the protocol, with "deny" for an empty policy |
| MiddlewareClient.Client.Register | internal/greyproxy/middleware/client.go:341-344 | The opening critical section of Send is exactly the protocol's registration step |
| MiddlewareClient.Client.Cleanup | internal/greyproxy/middleware/client.go:346-350 | The cleanup closure is exactly the protocol's cleanup step |
| MiddlewareClient.Client.Dispatch | internal/greyproxy/middleware/client.go:240-251 | A frame with a known id ends up, alone, in that entry's channel; an unknown id changes nothing; either way the method is a run of protocol steps |
| MiddlewareClient.Client.DrainEntry | internal/greyproxy/middleware/client.go:404-407 | One round of the drain is one protocol step and removes one entry |
| MiddlewareClient.Client.DrainEntries | internal/greyproxy/middleware/client.go:404-407 | The drain loop, as a run of protocol steps, empties the map and gives every entry its fallback |
| MiddlewareClient.Client.DrainPending | internal/greyproxy/middleware/client.go:402-409 | The whole drain after a lost connection is a run of protocol steps that ends with the map empty, every entry served and the connection counted as drained |
| Cascade.CanonicalIgnoresCase | internal/greyproxy/middleware/cascade.go:67-104 | Any two spellings of a header name that differ only in case have one canonical form, so no spelling slips past the denylist |
| Cascade.MergeRewriteHeaders | internal/greyproxy/middleware/cascade.go:93-104 | The merge leaves the fold of the allowed entries in the destination, and reports exactly the canonical names of the allowed and of the forbidden entries, in order |
| Cascade.EachReportedOnce | internal/greyproxy/middleware/cascade.go:93-104 | Every entry is reported once: a name is applied, or rejected, exactly as often as entries have it, and never both |
| Cascade.MergeAllowed | internal/greyproxy/middleware/cascade.go:93-104 | The same for any denylist |
| Cascade.MergeTouchesOnlyNamed | internal/greyproxy/middleware/cascade.go:93-104 | Protected headers and headers no entry names are untouched; any other named header gets the value of one of its entries |
| Cascade.RunRequestCascade | cmd/greyproxy/program.go:1369-1451 | The loop over request hooks computes the fold of the decisions: headers, body, events and verdict |
| Cascade.WalkRequestHooks | cmd/greyproxy/program.go:1369-1451 | The same for any denylist |
| Cascade.RunResponseCascade | cmd/greyproxy/program.go:1459-1564 | The loop over response hooks computes the fold of the decisions: status, headers, body, events and verdict |
| Cascade.WalkResponseHooks | cmd/greyproxy/program.go:1459-1564 | The same for any denylist |
| Cascade.RewriteResponse | cmd/greyproxy/program.go:1518-1541 | The rewrite branch: status, then the body with Content-Encoding stripped, then the headers |
| Cascade.StopIsFinal | cmd/greyproxy/program.go:1369-1451 | A hook that stops the cascade fixes the whole outcome; nothing after it counts |
| Cascade.StopHasCause | cmd/greyproxy/program.go:1369-1451 | A stopped cascade was stopped by one of the hooks it reached |
| Cascade.StopsAtFirstStop | cmd/greyproxy/program.go:1369-1451 | A cascade stops exactly when some reached hook stops it, and that hook is unique |
| Cascade.DenyPolicyFallbackStops | internal/greyproxy/middleware/client.go:421-440 | A reached hook whose middleware failed under any policy but "allow" denies, or blocks, the whole cascade |
| Cascade.AllowPolicyFallbackPasses | cmd/greyproxy/program.go:1399-1449 | A reached hook whose middleware failed under the policy "allow" changes nothing at all but the event counter |
| Cascade.AllFailOpen | cmd/greyproxy/program.go:1369-1564 | With every reached middleware failing under "allow", the exchange goes through with its headers, body and status, unreported |
| Cascade.FilteredOutSkipped | cmd/greyproxy/program.go:1385-1389 | A hook whose filter rejects the content type is skipped without a trace |
| Cascade.OnlyStopWordsStop | cmd/greyproxy/program.go:1409-1416 | A request is stopped by "deny" and a response by "block", each by nothing else, with the status and body of the decision, the headers as they were and one event |
| Cascade.RewriteGoesDownstream | cmd/greyproxy/program.go:1518-1541 | A rewrite puts its body, if any, and on a response its status, if not 0, downstream, and adds one event that names exactly the headers that differ and says whether the body does |
| Cascade.RewriteSetsHeaders | cmd/greyproxy/program.go:1518-1541 | A header a rewrite names, outside the denylist, has one of its values downstream; all others are as they were, but for Content-Encoding, which a new response body removes |
| Cascade.OtherActionsPass | cmd/greyproxy/program.go:1434-1449 | Any other action, unknown ones included, leaves the exchange alone, and is an event only if it has tags |
| Cascade.ProtectedInEverySpelling | internal/greyproxy/middleware/cascade.go:67-84 | Every spelling of each of the twelve protected names has that name as its canonical form and meets the denylist |
| Cascade.ProtectedHeadersUnchanged | internal/greyproxy/middleware/cascade.go:67-104 | No hook list and no sequence of decisions changes a protected header, and no event reports one as changed |
| Cascade.EventsWellNumbered | cmd/greyproxy/program.go:1369-1564 | Event numbers strictly increase, and a deny or block is only ever the last event |
| Cascade.BodyMatchesEncoding | cmd/greyproxy/program.go:1459-1564 | When no rewrite that takes place names Content-Encoding, the body going downstream is the upstream one or carries no Content-Encoding |
| Streams.Reader.ReadFull | internal/gosocks5/socks5.go:125-159 | What io.ReadFull returns and leaves behind is a function of the bytes alone, for every chunking |
| Streams.Reader.ReadAtLeast | internal/gosocks5/socks5.go:425-466 | What io.ReadAtLeast returns is a prefix of the stream with at least the minimum, however it arrives |
| Streams.Reader.ReadAll | internal/gosocks5/socks5.go:671-703 | A copy to a buffer returns everything that is left |
| Socks5.AddrRoundTrip | internal/gosocks5/socks5.go:273-398 | Length announces exactly the bytes Encode writes, and those bytes read back as the address in normal form, whatever follows, if and only if a domain fits its length byte |
| Socks5.NormalIsStable | internal/gosocks5/socks5.go:366-382 | Nothing is lost exactly when the type is set and an IP host is in canonical text; a second trip changes nothing |
| Socks5.UntypedIpArrives | internal/gosocks5/socks5.go:366-382 | An address whose type was never set and whose host is an IP arrives as the same IP with the same port: by its four bytes if it has an IPv4 form, else by its sixteen |
| Socks5.UntypedDomainArrives | internal/gosocks5/socks5.go:366-382 | An untyped host that is no IP arrives as itself, as a domain, if and only if it fits its length byte |
| Socks5.UntypedEmptyHost | internal/gosocks5/socks5.go:366-382 | No host at all is sent as 0.0.0.0 |
| Socks5.TypedArrives | internal/gosocks5/socks5.go:273-364 | A typed address arrives with its type and port, an IP host as the same IP and a domain as itself |
| Socks5.Addr.CheckType | internal/gosocks5/socks5.go:366-382 | A missing type is fixed from the host text, in place |
| Socks5.Addr.ComputeLength | internal/gosocks5/socks5.go:384-398 | The length is the one the wire form has, and the type is fixed in place |
| Socks5.Addr.CopyHost | internal/gosocks5/socks5.go:338-356 | The switch of Encode: the host bytes are copied behind the type as far as they fit, and only a missing length byte panics |
| Socks5.Addr.Encode | internal/gosocks5/socks5.go:333-364 | Into a buffer of any length: the wire form lands at the offset and nothing before it moves, or it panics, exactly when the bytes that Length announces do not fit |
| Socks5.Addr.ReadHost | internal/gosocks5/socks5.go:273-315 | Each address type's host is read from the bytes that belong to it |
| Socks5.Addr.ReadFrom | internal/gosocks5/socks5.go:273-315 | Address, byte count, error and what is left depend on the bytes alone, for every chunking |
| Socks5.CopyInto | internal/gosocks5/socks5.go:161-178 | A copy at a moving position writes as many of its bytes as fit and nothing before |
| Socks5.MessageRoundTrip | internal/gosocks5/socks5.go:425-485 | A request or reply at the front of any stream reads back as written, with its address in normal form |
| Socks5.MessageBytes | internal/gosocks5/socks5.go:468-485 | The bytes of requests and replies, as RFC 1928 lays them out: version 5, code, 0, type 1, 3 or 4, the address, and the port in big endian |
| Socks5.RefusedMessages | internal/gosocks5/socks5.go:425-466 | Another version, another address type and a message cut short are refused, each with its own error |
| Socks5.WriteMessage | internal/gosocks5/socks5.go:468-485 | The writer emits exactly the wire form, or panics exactly when the address cannot be encoded |
| Socks5.FetchMessage | internal/gosocks5/socks5.go:517-559 | The reading half holds the whole message when the stream does, and reports a short stream otherwise |
| Socks5.ReadMessage | internal/gosocks5/socks5.go:517-559 | Requests and replies are read as a function of the bytes alone, for every chunking, although the buffer may hold bytes beyond the message |
| Socks5.ParseAddr | internal/gosocks5/socks5.go:328-331 | Decoding a whole buffer agrees with the stream decoder |
| Socks5.UserPassRoundTrip | internal/gosocks5/socks5.go:125-178 | A credential message reads back as written, whatever follows, if and only if its version is 1 and both fields fit a length byte |
| Socks5.ShortUserPassBytes | internal/gosocks5/socks5.go:161-178 | The bytes of short credentials, as RFC 1929 lays them out, the user name first |
| Socks5.RefusedCredentials | internal/gosocks5/socks5.go:125-159 | Another version and credentials cut short are refused |
| Socks5.WriteUserPass | internal/gosocks5/socks5.go:161-178 | The writer fills its 513-byte buffer with exactly the wire form, or panics exactly when that does not fit |
| Socks5.ReadUserPass | internal/gosocks5/socks5.go:125-159 | Credentials are read as a function of the bytes alone, for every chunking, consuming exactly the message |
| Socks5.DatagramDecoded | internal/gosocks5/socks5.go:671-703 | What the decoder makes of any written datagram followed by anything: a zero reserved field swallows the rest, any other takes that many bytes |
| Socks5.DatagramBytes | internal/gosocks5/socks5.go:705-721 | The bytes of a datagram: the reserved field in big endian, the fragment, the address as in a request, the data |
| Socks5.SelfDelimiting | internal/gosocks5/socks5.go:671-721 | A datagram delimits itself in every stream if and only if its reserved field is its own non-zero data length |
| Socks5.FramingRoundTrip | internal/gosocks5/socks5.go:671-721 | The concatenation of any list of framed datagrams reads back as the same list, using up every byte |
| Socks5.WriteDatagram | internal/gosocks5/socks5.go:705-721 | The writer emits the wire form and reports its length |
| Socks5.ReadHeader | internal/gosocks5/socks5.go:612-634 | The header is read as a function of the bytes alone |
| Socks5.ReadDatagram | internal/gosocks5/socks5.go:671-703 | Datagram and reported byte count are functions of the bytes alone, for every chunking |
| Socks5.ReadDatagrams | internal/gosocks5/socks5.go:671-703 | Reading datagram after datagram until nothing is left gives, for every chunking, what the framing theorem is about |
| Socks5.ReadData | internal/gosocks5/socks5.go:671-703 | Both ways of finding the end of the data |
| TlsExtensions.ExtRoundTrip | internal/tlsdissector/extension.go:39-457 | An extension decodes back from its own encoding if and only if it is a wire extension: lengths fit their fields, ALPN is non-empty with names of 1 to 255 bytes, version lists have non-zero entries (a server list exactly one entry), and an unknown one has no known type |
| TlsExtensions.AlpnExtRoundTrip | internal/tlsdissector/extension.go:342-388 | An ALPN list survives exactly when it is non-empty, its names have 1 to 255 bytes and it fits its length field |
| TlsExtensions.AlpnExtPanics | internal/tlsdissector/extension.go:342-388 | The decoder panics on the encoding of a protocol list exactly when the length it announces is 0: a list without any byte to write, such as the empty one, or one whose length wraps |
| TlsExtensions.AlpnImage | internal/tlsdissector/extension.go:359-388 | Whatever the ALPN decoder returns is made of names of 1 to 255 bytes that fit what it read |
| TlsExtensions.VersionEntriesMeaning | internal/tlsdissector/extension.go:428-457 | The version loop succeeds exactly on a non-empty even number of bytes and then reads them all |
| TlsExtensions.GroupsRoundTrip | internal/tlsdissector/extension.go:210-233 | Group lists survive exactly when they have at most 32767 entries |
| TlsExtensions.AlgorithmsRoundTrip | internal/tlsdissector/extension.go:243-266 | The same for signature algorithms, whose decoder treats odd lengths differently |
| TlsExtensions.VersionsRoundTrip | internal/tlsdissector/extension.go:399-457 | Non-empty version lists survive exactly when they are wire lists, client and server form |
| TlsExtensions.ServerNameRoundTrip | internal/tlsdissector/extension.go:131-152 | Server names survive exactly when they fit 65535 bytes |
| TlsExtensions.Vec8RoundTrip | internal/tlsdissector/extension.go:180-200 | One-byte-length vectors survive exactly when they fit 255 bytes |
| TlsExtensionCodec.EncodeAlpnLoop | internal/tlsdissector/extension.go:342-357 | Appending entries and patching the length over its placeholder writes the ALPN wire form |
| TlsExtensionCodec.EncodeVersionsLoop | internal/tlsdissector/extension.go:399-426 | The version encoder's loop writes the wire form of its role |
| TlsExtensionCodec.EncodeU16List | internal/tlsdissector/extension.go:210-217 | The shared form of group and algorithm lists |
| TlsExtensionCodec.Encode | internal/tlsdissector/extension.go:131-426 | Every extension's encoder writes its wire form |
| TlsExtensionCodec.DecodeGroupsLoop | internal/tlsdissector/extension.go:219-233 | The group decoder's loop computes the declared reading |
| TlsExtensionCodec.DecodeAlgorithmsLoop | internal/tlsdissector/extension.go:252-266 | The algorithm decoder's loop computes the declared reading, panic included |
| TlsExtensionCodec.DecodeAlpnLoop | internal/tlsdissector/extension.go:359-388 | The ALPN decoder's loop computes the declared reading, panic included |
| TlsExtensionCodec.DecodeVersionsLoop | internal/tlsdissector/extension.go:428-457 | The version decoder's loop computes the declared reading |
| TlsExtensionCodec.DecodeServerNameSteps | internal/tlsdissector/extension.go:140-152 | The server name decoder computes the declared reading |
| TlsExtensionCodec.DecodeVec8Steps | internal/tlsdissector/extension.go:187-200 | The point format decoder, and the renegotiation decoder like it, computes the declared reading |
| TlsExtensionCodec.DecodeInto | internal/tlsdissector/extension.go:39-70 | The dispatch over extension types, each with its own decoder, computes the declared reading |
| TlsExtensionCodec.ExtsRoundTrip | internal/tlsdissector/extension.go:72-101 | Any list of wire extensions reads back as the same list |
| TlsExtensionCodec.ReadExtsNeeds | internal/tlsdissector/extension.go:72-101 | Only wire lists do: a block, cut off anywhere, that reads as the list it was written for was not cut off and the list is a wire list |
| TlsExtensionCodec.ExtensionNumbers | internal/tlsdissector/extension.go:15-26 | Each kind of extension has its registered number |
| TlsExtensionCodec.ExtensionHeader | internal/tlsdissector/extension.go:72-101 | An extension on the wire is its number, the length of its data in big endian, and its data |
| TlsExtensionCodec.SmallExtensions | internal/tlsdissector/extension.go:131-266 | Small extensions byte for byte: groups, algorithms, point formats, renegotiation, server name |
| TlsExtensionCodec.SmallListExtensions | internal/tlsdissector/extension.go:342-426 | Small extensions byte for byte: protocol lists and version lists, client and server form |
| TlsExtensionCodec.WireLimits | internal/tlsdissector/extension.go:131-457 | Exactly which extensions are wire extensions, kind by kind, in numbers |
| TlsExtensionCodec.ReadExtensions | internal/tlsdissector/extension.go:86-101 | The loop over a reader of the block computes the declared reading |
| TlsExtensionCodec.WriteExtensions | internal/tlsdissector/msg.go:216-229 | The extension loop appends the wire form of every extension and adds up its length |
| TlsMessages.HandshakeRoundTrip | internal/tlsdissector/msg.go:49-78 | A handshake body behind its back-patched 3-byte length is found again, whatever follows |
| TlsMessages.ClientRoundTrip | internal/tlsdissector/msg.go:49-239 | What is written for a ClientHello decodes back to it with every extension, whatever follows, if and only if it is within the wire limits: a known version, at most 255 bytes of session id and of compression methods, at most 32767 suites, and wire extensions of at most 65535 bytes |
| TlsMessages.ServerRoundTrip | internal/tlsdissector/msg.go:264-406 | What is written for a ServerHello decodes back to it with every extension, whatever follows, if and only if it is within the wire limits |
| TlsMessages.HelloLimits | internal/tlsdissector/msg.go:49-406 | Exactly which hellos are within the wire limits: versions 0x0301 to 0x0304, and what the length fields can say |
| TlsDissector.PatchHello | internal/tlsdissector/msg.go:231-234 | The 3-byte and 2-byte lengths land exactly on their placeholders and are right |
| TlsDissector.ReadHandshake | internal/tlsdissector/msg.go:49-72 | The handshake header and body are read as a function of the bytes alone |
| TlsDissector.ClientHelloMsg.WriteTo | internal/tlsdissector/msg.go:187-239 | Appending with placeholders and patching writes the ClientHello wire form |
| TlsDissector.ClientHelloMsg.ReadFrom | internal/tlsdissector/msg.go:49-111 | The fields stored are those of the decoded message, for every chunking |
| TlsDissector.ClientHelloMsg.TakeSession | internal/tlsdissector/msg.go:113-131 | The session id field and the position after it |
| TlsDissector.ClientHelloMsg.TakeCipherSuites | internal/tlsdissector/msg.go:133-150 | The suites appended to the field and the position after them |
| TlsDissector.ClientHelloMsg.TakeCompression | internal/tlsdissector/msg.go:152-167 | The compression methods and the position after them |
| TlsDissector.TakeExtensions | internal/tlsdissector/msg.go:169-185 | The extension block behind its length field |
| TlsDissector.ServerHelloMsg.WriteTo | internal/tlsdissector/msg.go:360-406 | Appending with placeholders and patching writes the ServerHello wire form |
| TlsDissector.ServerHelloMsg.ReadFrom | internal/tlsdissector/msg.go:264-320 | The fields stored are those of the decoded message, for every chunking |
| TlsDissector.RecordRoundTrip | internal/tlsdissector/record.go:44-67 | A record reads back, whatever follows, if and only if its data fits the two-byte length |
| TlsDissector.Record.WriteTo | internal/tlsdissector/record.go:60-67 | The writer emits the record's wire form |
| TlsDissector.Record.ReadFrom | internal/tlsdissector/record.go:44-58 | The record read and what is left are functions of the bytes alone, for every chunking |
| TlsDissector.ScanClient | internal/tlsdissector/dissector.go:38-50 | The extension loop reports the last value of each kind |
| TlsDissector.ParseClientHello | internal/tlsdissector/dissector.go:18-53 | The report is a function of the bytes alone, for every chunking |
| TlsDissector.ClientHelloReported | internal/tlsdissector/dissector.go:18-53 | End to end: a ClientHello within the wire limits in one handshake record is reported with its own SNI, ALPN and versions |
| TlsDissector.LastOfUnique | internal/tlsdissector/dissector.go:38-50 | With one extension of a kind, the reported value is exactly that extension's |
| TlsDissector.ClientReport | internal/tlsdissector/dissector.go:18-53 | The report of a wire ClientHello, field by field, without a word of how it is computed: Ok, with the message's own session id, suites and compression methods, and of server name, protocols and versions what the last extension of the kind says, or nothing where there is none |
| TlsDissector.SmallClientHelloBytes | internal/tlsdissector/msg.go:187-239 | The bytes of a ClientHello record with one suite and a server name, for any values of its fields |
| TlsDissector.ScanServer | internal/tlsdissector/dissector.go:93-106 | The extension loop reports the last chosen protocol and version |
| TlsDissector.ParseServerHello | internal/tlsdissector/dissector.go:63-109 | The report is a function of the bytes alone, for every chunking |
| TlsDissector.ServerHelloReported | internal/tlsdissector/dissector.go:63-109 | End to end for a ServerHello |
| TlsDissector.ServerReport | internal/tlsdissector/dissector.go:63-109 | The report of a wire ServerHello, field by field: Ok, with the message's own session id, suite and compression method, the first entry of the last non-empty protocol list, and that of the last non-empty version list or else TLS 1.2 |
| TlsDissector.OnlyHandshakesParsed | internal/tlsdissector/dissector.go:69-79 | Any record that is no handshake record, an alert included, is an error for both parsers |
| TlsDissector.SmallServerHelloBytes | internal/tlsdissector/msg.go:360-406 | The bytes of a ServerHello record without extensions |
| Glob.Find | internal/greyproxy/endpoint_registry.go:305-333 | strings.Index: the first occurrence, or -1 exactly when there is none |
| Glob.LeftmostSuffices | internal/greyproxy/endpoint_registry.go:322-329 | Taking the first occurrence of a piece never loses a match |
| Glob.MatchGlob | internal/greyproxy/endpoint_registry.go:305-333 | The greedy matcher answers exactly the meaning of the glob, for every pattern and text |
| Glob.MeansIsPieces | internal/greyproxy/endpoint_registry.go:305-333 | A glob means exactly that the literal pieces follow each other with gaps |
| Glob.MeansIsCut | internal/greyproxy/endpoint_registry.go:305-333 | A glob means exactly that the text can be cut into its literal pieces in order with any gap at each star |
| EndpointRegistry.EscapeIsPerCharacter | internal/greyproxy/conversation_assembler.go:1630-1635 | The three successive replacements equal one escape per character |
| EndpointRegistry.EscapedIsLiteral | internal/greyproxy/conversation_assembler.go:1630-1635 | Under LIKE with ESCAPE an escaped string matches itself and nothing else, up to LIKE's character comparison |
| EndpointRegistry.EscapedIsContained | internal/greyproxy/conversation_assembler.go:442-452 | Between two percent signs it matches exactly the texts that contain it |
| EndpointRegistry.Registry.Match | internal/greyproxy/endpoint_registry.go:119-139 | The decoder of the first accepting rule, and "" exactly when none accepts |
| EndpointRegistry.Registry.AllURLPatterns | internal/greyproxy/endpoint_registry.go:143-162 | Exactly the rules' patterns, each once |
| EndpointRegistry.GlobImpliesLike | internal/greyproxy/endpoint_registry.go:143-162 | A text matched by a glob is matched by its LIKE translation |
| EndpointRegistry.PathExtracted | internal/greyproxy/endpoint_registry.go:286-301 | The path of any URL of scheme, authority, path and optional query is found |
| EndpointRegistry.PrefilterNeverMisses | internal/greyproxy/endpoint_registry.go:119-162 | Whatever rule accepts such a URL whose authority contains the host, that rule's LIKE pattern matches it |
| EndpointRegistry.DecodedIsPrefiltered | internal/greyproxy/endpoint_registry.go:119-162 | End to end: when Match has a decoder for such a URL, one of the patterns of AllURLPatterns LIKE-matches it |
| EndpointRegistry.PrefilterWithoutSlash | internal/greyproxy/endpoint_registry.go:286-301 | For a URL with no slash behind the scheme separator, a rule that accepts it is found by its LIKE pattern if and only if its path pattern has no slash or its host pattern already matches in the scheme |
| EndpointRegistry.PrefilterMissesBareAuthority | internal/greyproxy/endpoint_registry.go:286-301 | When the host pattern has a literal character the scheme does not have, such a URL is found if and only if the path pattern has no slash |
| EndpointRegistry.BareAuthorityMissed | internal/greyproxy/endpoint_registry.go:119-162 | Such misses exist: the rule for "/" of a plain host accepts that host's bare URL, and its pattern does not match it |
| ChatStreaming.ExtractNonStreaming | internal/greyproxy/dissector/openai_chat.go:326-374 | The one-shot parser shows the one-shot reading of the message |
| ChatStreaming.AddCallDelta | internal/greyproxy/dissector/openai_chat.go:278-292 | One delta changes exactly its own call, growing the list to reach it |
| ChatStreaming.AddDelta | internal/greyproxy/dissector/openai_chat.go:278-292 | The loop over one chunk's call deltas continues the fold |
| ChatStreaming.FinishCalls | internal/greyproxy/dissector/openai_chat.go:299-313 | Summaries come from the full arguments, previews are cut afterwards |
| ChatStreaming.ExtractStreaming | internal/greyproxy/dissector/openai_chat.go:243-323 | The streaming assembler shows exactly what the one-shot parser shows of the assembled message |
| ChatStreaming.FoldByCall | internal/greyproxy/dissector/openai_chat.go:278-292 | Call by call, only that call's own deltas count, however they are interleaved |
| ChatStreaming.CuttingAssembles | internal/greyproxy/dissector/openai_chat.go:243-323 | However text and arguments are cut and calls interleaved, the stream assembles to the message |
| ChatStreaming.StreamingEqualsOneShot | internal/greyproxy/dissector/openai_chat.go:243-374 | Streaming equals one-shot for every cutting |
| ChatStreaming.OneShotShows | internal/greyproxy/dissector/openai_chat.go:326-374 | What a reply shows, in plain terms: nothing exactly for an empty message, else its text and each call in order, by its name and id, its first 200 bytes of arguments, and the summary of all of them |
| ChatStreaming.StreamShows | internal/greyproxy/dissector/openai_chat.go:243-323 | The same of any stream that cuts the message |
| ChatStreaming.ShowsDetermines | internal/greyproxy/dissector/openai_chat.go:243-374 | Nothing else can be shown: two replies that show a message in these terms are the same |
| ChatStreaming.ContentAppends | internal/greyproxy/dissector/openai_chat.go:262-276 | Content comes in arrival order, chunk after chunk |
| ChatStreaming.CallDeltasAppend | internal/greyproxy/dissector/openai_chat.go:278-292 | So do the call deltas |
| ChatStreaming.DeltasAppend | internal/greyproxy/dissector/openai_chat.go:278-292 | And the deltas and arguments of one call |
| SessionTables.RunKeepsOk | internal/greyproxy/credential_crud.go:26-240 | After any run of session and rule operations, every session-scoped rule refers to a stored session and the uniqueness constraints hold |
| SessionTables.OnlyMovesUnlink | internal/greyproxy/crud.go:181-229 | Of all operations, exactly a hand edit that reaches its row and gives a session rule another expiry breaks the link between session rules and their sessions |
| SessionTables.SyncedUnlessMoved | internal/greyproxy/credential_crud.go:63-142 | Along a run session rules expire with their sessions throughout if and only if the run holds no such edit |
| SessionTables.SameExpiryIsSameLife | internal/greyproxy/crud.go:324-338 | A rule is live at exactly the moments its session is if and only if it has the session's expiry |
| SessionTables.RulesExpireWithSession | internal/greyproxy/credential_crud.go:63-142 | Absent such an edit, session rules are live exactly as long as their session, at every moment |
| SessionTables.HeartbeatRelinks | internal/greyproxy/credential_crud.go:114-142 | A heartbeat of an unexpired session links its rules again, and leaves the rules of others as they are |
| SessionTables.UpsertRelinks | internal/greyproxy/credential_crud.go:26-110 | An upsert links its session's rules again, whatever they were |
| SessionTables.ExpiryEditUnlinks | internal/greyproxy/crud.go:181-229 | A run with such an edit: create a session with one rule, then clear the rule's expiry |
| SessionTables.NetworkRuleInstalled | internal/greyproxy/credential_crud.go:82-106 | After an upsert every well-formed network rule's key is present, and it is the session's own if and only if nobody else held the key |
| SessionTables.HeartbeatExtends | internal/greyproxy/credential_crud.go:114-142 | A heartbeat of an unexpired session sets its expiry, and that of its rules, to its lifetime from now and changes nothing else; any other heartbeat changes nothing |
| SessionTables.DeleteTakesOnly | internal/greyproxy/credential_crud.go:145-158 | Deleting a session takes its row and its rules and nothing else |
| SessionTables.SweepTakesOnlyExpired | internal/greyproxy/credential_crud.go:195-240 | The sweep keeps exactly the unexpired sessions and exactly the rules that are of no swept one, all unchanged |
| SessionTables.UpsertStores | internal/greyproxy/credential_crud.go:26-80 | The row of an upsert is what was asked for, expiring its lifetime, or 900 seconds, from now, and created now unless it was there; no other session and no rule of anyone else changes |
| SessionTables.UpsertInstalls | internal/greyproxy/credential_crud.go:82-106 | Every rule the session is left with is one of those asked for, with the defaults, signature and expiry of the session |
| SessionTables.RuleAdded | internal/greyproxy/crud.go:34-89 | A rule made by hand is added as asked if and only if its action is known and no live row holds its key; only expired rows under that key go |
| SessionTables.RuleEdited | internal/greyproxy/crud.go:181-229 | An edit changes exactly the columns it names of exactly its row, or nothing if and only if the action would be unknown or the key another row's |
| SessionTables.RuleRemoved | internal/greyproxy/crud.go:231-241 | Deleting a rule takes exactly its row |
| SessionStore.Store.constructor | internal/greyproxy/credential_crud.go:26-40 | The empty tables |
| SessionStore.Store.InsertIgnore | internal/greyproxy/credential_crud.go:96-105 | INSERT OR IGNORE, as the table function |
| SessionStore.Store.CreateSession | internal/greyproxy/credential_crud.go:26-110 | The statements of the upsert add up to the table function |
| SessionStore.Store.Heartbeat | internal/greyproxy/credential_crud.go:114-142 | The heartbeat moves the session's and its rules' expiry, and reports exactly whether the session was stored and unexpired |
| SessionStore.Store.Delete | internal/greyproxy/credential_crud.go:145-158 | Rules and row go together |
| SessionStore.Store.DeleteExpired | internal/greyproxy/credential_crud.go:195-240 | Exactly the sessions past the cutoff go, with their rules, and their ids are reported |
| SessionStore.Store.AddRule | internal/greyproxy/crud.go:34-89 | An expired row under the key is cleared; the row then under the key is reported, new or already there |
| SessionStore.Store.EditRuleRow | internal/greyproxy/crud.go:181-229 | An edit that breaks a constraint changes nothing |
| SessionStore.Store.RemoveRuleRow | internal/greyproxy/crud.go:231-241 | Exactly the row goes |
| RulePolicy.ScoreIsLexicographic | internal/greyproxy/patterns.go:115-140 | The numeric score orders rules exactly by layer, container, destination, port, deny before allow |
| RulePolicy.OrderIsWeak | internal/greyproxy/crud.go:393-405 | Being tied is transitive, and a tied rule stands in the same relation to every other rule |
| Sorting.SortSlice | internal/greyproxy/crud.go:393-405 | A sorted arrangement of the same elements, for any strict order |
| RulePolicy.NewestSession | internal/greyproxy/crud.go:340-346 | The subquery as written, sort and first row: a session of the container that no other unexpired one is newer than, or none exactly when none is unexpired |
| RulePolicy.FindMatchingRule | internal/greyproxy/crud.go:324-417 | For rows in any order: nil exactly when no rule in force matches, else one no other matching rule in force outranks |
| RulePolicy.WinnerApplies | internal/greyproxy/crud.go:332-378 | In the columns of the rows: nothing is returned exactly when no row applies; what is returned is a row that is unexpired, matches host or resolved name, and, if of a session, is of an unexpired one of the queried container that no other is younger than |
| RulePolicy.BestByLayer | internal/greyproxy/models.go:25-53 | Of a best rule and any other that applies: a builtin one wins only over builtin ones, one neither builtin nor of a session (an empty session id counts as none) loses only to such, and a session's beats builtin ones |
| RulePolicy.WinnerByLayer | internal/greyproxy/crud.go:391-407 | The same of the rule that is returned |
| RulePolicy.BestInLayer | internal/greyproxy/crud.go:391-405 | Within a layer, in the patterns' own characters: the container decides first, then the destination, then a named port, then deny; a plain pattern beats a wildcard, and any beats "*" |
| RulePolicy.PlainGlobalDenyWins | internal/greyproxy/crud.go:391-407 | A global deny with plain patterns and a port cannot be overruled by any rule |
| RulePolicy.VerdictIsUnique | internal/greyproxy/crud.go:391-416 | All best rules have the same action, layer and score, so no row order and no sort instability changes the verdict |
| RulePolicy.NewestExists | internal/greyproxy/crud.go:340-346 | A container has a newest session exactly when it has an unexpired one |
| RulePolicy.NewestIsUnique | internal/greyproxy/crud.go:340-346 | No container has two newest sessions |
| RulePolicy.CreatedIsNewest | internal/greyproxy/credential_crud.go:26-110 | A session created under a new id is its container's newest until it expires, the clock never having run backwards |
| RulePolicy.OnlyNewestCounts | internal/greyproxy/crud.go:325-331 | What a query may return is exactly what it may return with the rules of every session but the container's newest deleted: an older session's rules never count |
| RulePolicy.SessionRuleOfNewest | internal/greyproxy/crud.go:324-348 | After any run, when FindMatchingRule returns a session rule, its session is the one newest unexpired session of the queried container |
| CredentialCache.CacheAgrees | internal/greyproxy/credential_store.go:72-178 | After any run of completed create, upsert, heartbeat, delete, cleanup, global create and delete and restart steps, every placeholder of an unexpired session or global row resolves to its stored value and label, and nothing resolves without a stored row |
| CredentialCache.LookupAnswers | internal/greyproxy/credential_store.go:72-178 | After any run a lookup answers the stored value and label of every placeholder of an unexpired session and of every global one, and nothing that no stored row gives |
| CredentialCache.OpAgrees | internal/greyproxy/credential_store.go:72-178 | Each completed operation keeps agreement |
| CredentialCache.CreateSessionAgrees | internal/greyproxy/api/sessions.go:97-106 | Storing the upsert and then registering it keeps agreement |
| CredentialCache.DeleteAgrees | internal/greyproxy/api/sessions.go:158-166 | Deleting keeps agreement, and memory holds nothing of a session that was not stored |
| CredentialCache.CleanupAgrees | internal/greyproxy/credential_store.go:316-337 | Removing the expired ids from memory keeps agreement |
| CredentialCache.HeartbeatAgrees | internal/greyproxy/credential_crud.go:114-142 | A heartbeat needs no change in memory |
| CredentialCache.AddGlobalAgrees | internal/greyproxy/api/credentials.go:46-55 | Storing and registering a global credential keeps agreement |
| CredentialCache.DropGlobalAgrees | internal/greyproxy/api/credentials.go:79-87 | Deleting a global credential keeps agreement |
| CredentialCache.RestartAgrees | internal/greyproxy/credential_store.go:72-115 | A restart rebuilds agreement from the tables alone, in whatever order the rows come |
| CredentialCache.RemoveAllAt | internal/greyproxy/credential_store.go:153-162 | Removing a list of sessions keeps exactly what no listed session owns |
| CredentialStore.Store.LoadFromDb | internal/greyproxy/credential_store.go:72-115 | Loading runs the declared fold over sessions, then globals |
| CredentialStore.Store.AddAll | internal/greyproxy/credential_store.go:129-135 | The loop over the mappings adds exactly them, in any order |
| CredentialStore.Store.RemoveSessionLocked | internal/greyproxy/credential_store.go:153-162 | Deleting while ranging over the map removes exactly the session's placeholders |
| CredentialStore.Store.RegisterSession | internal/greyproxy/credential_store.go:118-138 | Old entries go, new ones come |
| CredentialStore.Store.RegisterGlobalCredential | internal/greyproxy/credential_store.go:165-170 | The global's value and label are set |
| CredentialStore.Store.UnregisterGlobalCredential | internal/greyproxy/credential_store.go:173-178 | The global's value and label go |
| CredentialStore.Store.RemoveExpired | internal/greyproxy/credential_store.go:316-337 | The cleanup loop removes every listed session |
| SessionKeys.ChildKeyInjective | internal/greyproxy/conversation_assembler.go:686-698 | Invocation keys tell session, thread and number apart, with slashes in session ids or without |
| SessionKeys.SharedKey | internal/greyproxy/conversation_assembler.go:686-698 | Two sessions share a key only when the id of one is an invocation key of the other |
| SessionKeys.RemapKeyNotChild | internal/greyproxy/conversation_assembler.go:781-784 | A remapped key is never an invocation key |
| SessionKeys.RemapKeyInjective | internal/greyproxy/conversation_assembler.go:781-784 | Remapped keys tell session and number apart |
| SessionKeys.FakeKeyInjective | internal/greyproxy/conversation_assembler.go:635-669 | Heuristic keys tell groups apart |
| SessionKeys.KeysSpelled | internal/greyproxy/conversation_assembler.go:635-698 | The keys, letter by letter |
| SessionInference.InferByTiming | internal/greyproxy/session_strategy.go:80-109 | Every entry gets the key of the entry that opened its run |
| SessionInference.TimingKeyShared | internal/greyproxy/session_strategy.go:80-109 | Two entries share a timing key if and only if no long pause lies between them |
| SessionInference.PauseOpens | internal/greyproxy/session_strategy.go:80-109 | A run opens exactly at an entry whose time is readable and more than the gap, five minutes unless set, after the last readable one, the zero time counting as none |
| SessionInference.ChainKeys | internal/greyproxy/session_strategy.go:142-158 | Along a chain each entry gets the key of its position |
| SessionInference.InferByGrowth | internal/greyproxy/session_strategy.go:121-162 | Every entry gets the key of its fingerprint and of the drops up to it among the entries that share it |
| SessionInference.ChainKeyShared | internal/greyproxy/session_strategy.go:142-158 | Two entries of a chain share a key if and only if the message count never drops between them |
| SessionInference.GrowthKeyShared | internal/greyproxy/session_strategy.go:142-158 | Any two entries share a key if and only if their fingerprints agree in the first eight characters and their message counts dropped equally often |
| SessionInference.DropsCounted | internal/greyproxy/session_strategy.go:142-158 | Drops are counted where a known message count is followed by one lower by more than one |
| SessionInference.InferredIdsSpelled | internal/greyproxy/session_strategy.go:80-158 | The inferred ids, letter by letter |
| SessionInference.InferSession | internal/greyproxy/session_strategy.go:195-203 | Any strategy, composites included: exactly what timing or growth give, a composite what its first strategy that infers anything does; only ids of listed entries, non-empty, slash-free and unlike heuristic keys; timing and growth infer one for every entry |
| Runs.CutIsRuns | internal/greyproxy/conversation_assembler.go:606-633 | The cut at breaks is into unbroken runs, each broken by the next, and loses nothing |
| Runs.RunsUnique | internal/greyproxy/conversation_assembler.go:606-633 | It is the only such cut |
| Transactions.TimeOrders | internal/greyproxy/conversation_assembler.go:677-682 | The order entries are sorted in: by the first character at which the timestamps differ, and by transaction id among equal ones |
| HeuristicGroups.CutByGap | internal/greyproxy/conversation_assembler.go:606-633 | The time-gap loop computes that cut for pauses of more than five minutes |
| HeuristicGroups.LongPause | internal/greyproxy/conversation_assembler.go:606-633 | A group ends exactly before an entry whose readable time is more than five minutes after that of the last one |
| HeuristicGroups.BestSession | internal/greyproxy/conversation_assembler.go:641-659 | In any map order: a session whose overlap is positive and not exceeded, and "" exactly when none overlaps |
| HeuristicGroups.OverlapIsShared | internal/greyproxy/conversation_assembler.go:641-659 | The overlap is the length of the stretch of moments that session and group share, each lasting five minutes longer, and 0 when at most one is shared |
| HeuristicGroups.PlaceGroup | internal/greyproxy/conversation_assembler.go:631-671 | A group joins a best session in time order, nothing else changing, or replaces what is under its heuristic key |
| HeuristicGroups.PlaceGroups | internal/greyproxy/conversation_assembler.go:631-671 | Group after group as PlaceGroup places one, and session by session: a key holds everything that was ever filed under it, unless a group's heuristic key was already the id of that session; what is lost had been filed under such an id, and something is lost if and only if there is one |
| HeuristicGroups.FellBackNext | internal/greyproxy/conversation_assembler.go:635-637 | A fresh heuristic key loses something exactly when an id of the start has it |
| HeuristicGroups.HeuristicKeyReplaces | internal/greyproxy/conversation_assembler.go:635-637 | The loss is real: an entry without session an hour after a session named like its heuristic key replaces that session |
| SessionThreads.SplitSessionIntoThreads | internal/greyproxy/conversation_assembler.go:836-858 | Each thread holds exactly its entries, in order |
| SessionThreads.ThreadTold | internal/greyproxy/conversation_assembler.go:836-858 | The thread of an entry from its classification: sub-agents by the length of their system prompt, four kinds hidden under their own names, everything else the main thread |
| SessionThreads.PreviousCount | internal/greyproxy/conversation_assembler.go:873-883 | The backward scan finds the last known count, else 999 |
| SessionThreads.CountDropTold | internal/greyproxy/conversation_assembler.go:868-889 | An invocation starts exactly at an entry whose message count is known and lower by more than one than the last known one before it, 999 standing for none |
| SessionThreads.SplitSubagentInvocations | internal/greyproxy/conversation_assembler.go:860-895 | The entries in time order, cut exactly where the message count falls by more than one |
| SessionThreads.SplitInvocations | internal/greyproxy/subagent_strategy.go:32-58 | Every strategy's invocations are non-empty and together the thread: the whole thread, or its entries in time order cut exactly where the message count falls |
| SessionThreads.ShownTotal | internal/greyproxy/conversation_assembler.go:686-698 | The threads shown hold exactly the entries whose thread is not hidden |
| SessionThreads.AddInvocations | internal/greyproxy/conversation_assembler.go:694-697 | Invocations are filed under consecutive numbers from 1 |
| SessionThreads.AddSession | internal/greyproxy/conversation_assembler.go:674-699 | The session's shown threads are put under distinct keys of its own, the main one under the id and the others as numbered invocations, in some order of the threads, whatever was there before |
| SessionThreads.OthersUntouched | internal/greyproxy/conversation_assembler.go:674-699 | Filing a session leaves every key alone that is not its own |
| SessionThreads.ThreadsFiled | internal/greyproxy/conversation_assembler.go:686-698 | Every shown thread ends up under its keys with exactly its entries |
| SessionThreads.NothingDoubled | internal/greyproxy/conversation_assembler.go:674-699 | Filing a session adds at most the entries it shows |
| SessionThreads.UnclaimedFiled | internal/greyproxy/conversation_assembler.go:674-699 | When none of its keys is in use, exactly the entries it shows are added, under its own keys, and nothing gives way |
| SessionThreads.FiledWithoutLoss | internal/greyproxy/conversation_assembler.go:674-699 | Filing loses nothing if and only if nothing was under the keys its threads are filed under |
| SessionThreads.CutIsInvocations | internal/greyproxy/conversation_assembler.go:860-895 | A thread in time order whose transactions have different ids is cut into invocations in one way only |
| SessionThreads.PutKeys | internal/greyproxy/conversation_assembler.go:674-699 | Those keys told from the session alone: its id when it has a main entry, and one numbered key for each invocation of a subagent thread |
| Transactions.AllPutsStay | internal/greyproxy/conversation_assembler.go:686-698 | Of non-empty lists put under keys one after the other all are still there if and only if no key was used twice |
| SessionThreads.SlashedIdReplaced | internal/greyproxy/conversation_assembler.go:674-699 | A session, with any entries, whose id is the first invocation key of another session is gone once that one is filed |
| SessionThreads.InvocationReplaced | internal/greyproxy/conversation_assembler.go:674-699 | The other way round: a session with an ordinary id loses an invocation once a session named like that invocation is filed |
| SubagentRemap.ScanTasks | internal/greyproxy/conversation_assembler.go:736-761 | The task ids named, in scan order |
| SubagentRemap.CollectMains | internal/greyproxy/conversation_assembler.go:712-765 | Exactly the OpenAI sessions without a slash that name tasks, once each, with their tasks |
| SubagentRemap.RemapTask | internal/greyproxy/conversation_assembler.go:770-786 | In whatever order, and however many keys added meanwhile are visited too: nothing is lost but what was under a child key already; when child numbers are still free, every session of the task moves to one and everything else stays |
| SubagentRemap.MoveTotal | internal/greyproxy/conversation_assembler.go:777-785 | Moving a session loses exactly what was under its new key |
| SubagentRemap.TaskEmptied | internal/greyproxy/conversation_assembler.go:770-786 | Nothing is left under the id of a task that is not the main session itself |
| SubagentRemap.RemapMain | internal/greyproxy/conversation_assembler.go:767-787 | After one main session only children of it are new; when no id has the form of a child, no session that its tasks name is left at its key, and every list is at its key or under a main above it |
| SubagentRemap.NamedTaskEmptied | internal/greyproxy/conversation_assembler.go:770-786 | After the remap no key has as its base a task that some main session names and that is no main session itself |
| SubagentRemap.DirectlyUnder | internal/greyproxy/conversation_assembler.go:770-786 | When no main session is named itself, the main session above a task is one that names it |
| SubagentRemap.TasksTold | internal/greyproxy/conversation_assembler.go:736-761 | The tasks a session names are exactly the non-empty ids found in non-empty tool results of its dissected entries |
| SubagentRemap.RemapOpenAISubagents | internal/greyproxy/conversation_assembler.go:712-788 | Whatever the remap loses was in a session whose id already had the form of a remapped child. Without such ids nothing is lost or doubled; a session whose base some main session names is gone from its key and stands, whole, under a numbered child key of a main session above it; every other stays as it was; and no other key comes up |
| Grouping.SplitBySession | internal/greyproxy/conversation_assembler.go:569-580 | Entries under their own id, the rest apart, in order |
| Grouping.AssignInferred | internal/greyproxy/conversation_assembler.go:586-602 | Entries under their inferred id, the rest apart, in order |
| Grouping.AssignUnnamed | internal/greyproxy/conversation_assembler.go:582-671 | In time order, the entries an id is inferred for go under that id and the rest, cut at long pauses, are placed; every entry and every session is kept, except sessions whose id a heuristic key is, and exactly what those keys replace is lost |
| Grouping.SplitAll | internal/greyproxy/conversation_assembler.go:674-699 | In whatever order sessions come: nothing is there twice, a session that shares no key with another has exactly what it shows under its own keys, thread by thread, and, transactions having different ids, nothing that the sorted sessions show is missing if and only if no two of them file a thread under one key |
| Grouping.CollideExactly | internal/greyproxy/conversation_assembler.go:686-698 | Two sessions file a thread under one key if and only if one has a main thread and its id is the key of an invocation of the other |
| Grouping.FileAll | internal/greyproxy/conversation_assembler.go:569-672 | Before threads are split every transaction is filed or was replaced by a heuristic key; a named one is under its own id unless that very id became a heuristic key, whatever happens to other sessions; and something is replaced if and only if a heuristic key used is a known id |
| Grouping.GroupBySession | internal/greyproxy/conversation_assembler.go:569-707 | No transaction appears twice; every transaction of a session whose id is no heuristic key of two nameless transactions, has not the form of an invocation or child key, and no other id is one of its invocation keys, appears exactly once unless its client hides its thread, whatever happens to other sessions; when no id clashes in these ways, that holds of all transactions; and the output holds all that the sessions show only if no two of them file a thread under one key, and also if, unless an id has the form of a remapped child. The output comes from the stages in turn: filing with inference, splitting into threads, the remap. When no id has the form of a key, a transaction whose session an OpenAI session's result names is no longer under its own id but under a numbered child of a main session, and one whose session no result names is filed for its thread under its own session |
| Grouping.SafeSessionKept | internal/greyproxy/conversation_assembler.go:569-707 | The per-session part of it |
| Grouping.StagesShow | internal/greyproxy/conversation_assembler.go:674-707 | What splitting and remapping do to a session that shares no key and whose id is no child key: each of its entries is shown exactly once in all, or not at all when its thread is hidden |
| Grouping.AllShownExactly | internal/greyproxy/conversation_assembler.go:674-707 | The output holds all that the sessions show if and only if no two of them file a thread under one key and the remap overwrote nothing |
| Grouping.ShownOnce | internal/greyproxy/conversation_assembler.go:686-698 | An entry of a session is shown exactly once in all, or not at all when its thread is hidden |
| Grouping.EveryTransactionOnce | internal/greyproxy/conversation_assembler.go:569-707 | With nothing replaced, every transaction appears in exactly one output session exactly once, or in none when its thread is hidden; one that no client hides appears once, one that all hide never |
| Turns.CountPrompts | internal/greyproxy/conversation_assembler.go:1440-1446 | The number of real prompts |
| Turns.PromptsCounted | internal/greyproxy/conversation_assembler.go:1440-1446 | The prompt count is the number of user messages that are real |
| Turns.CountKnown | internal/greyproxy/conversation_assembler.go:1437-1449 | An entry has a count of its own exactly when it was dissected and has messages |
| Turns.KnownTurns | internal/greyproxy/conversation_assembler.go:1437-1449 | Exactly the entries that could be parsed have a turn, their prompt count |
| Turns.FillGaps | internal/greyproxy/conversation_assembler.go:1452-1475 | Each gap gets the larger of the turn before it and the next known count |
| Turns.GapTurn | internal/greyproxy/conversation_assembler.go:1452-1475 | The turn of a gap is the least that is below neither the turn before it nor the next known count, the number of turns standing for none |
| Turns.TurnsRiseIffCountsDo | internal/greyproxy/conversation_assembler.go:1452-1475 | Gap filling gives a nondecreasing assignment if and only if the known counts are nondecreasing |
| Turns.TurnAtMost | internal/greyproxy/conversation_assembler.go:1452-1475 | With counts up to the number of turns, nothing lands beyond the last turn |
| Turns.MapRequestsToTurns | internal/greyproxy/conversation_assembler.go:1433-1485 | Each turn from 1 to N holds exactly its entries, in order, and no other key is present |
| Turns.ParsedEntryFiled | internal/greyproxy/conversation_assembler.go:1433-1485 | End to end: an entry that could be parsed is filed under the turn that is the number of real prompts in its messages, if there is one |
| Turns.FiledAreEntries | internal/greyproxy/conversation_assembler.go:1477-1484 | Whatever is filed is an entry of that turn, from 1 to N |
| Turns.TurnsConcatenate | internal/greyproxy/conversation_assembler.go:1477-1484 | For a nondecreasing assignment, turns 1 to N one after the other are the entries of those turns, in order |
| Turns.BetweenIsStretch | internal/greyproxy/conversation_assembler.go:1477-1484 | They are one contiguous stretch of the list |
| Turns.TurnsTile | internal/greyproxy/conversation_assembler.go:1433-1485 | With nondecreasing counts up to N, each turn is one stretch and the turns in order give every entry from the first of turn 1 to the end |
| ToolResults.Pending | internal/greyproxy/conversation_assembler.go:1010-1025 | What is pending under an id is the last call with it, and nothing under an empty id |
| ToolResults.CallsCarryLastResult | internal/greyproxy/conversation_assembler.go:992-1029 | Through the pending map each call ends up with the last result with its id after it and before the id is used again; a call without id has none |
| ToolResults.SlotOfCall | internal/greyproxy/conversation_assembler.go:992-1029 | Position by position: the call carries the outcome of the last result with its id before the id is called again, or nothing |
| ToolResults.PendingIsUnused | internal/greyproxy/conversation_assembler.go:1010-1025 | A call is pending if and only if its id was not used again |
| Rounds.Register | internal/greyproxy/conversation_assembler.go:1010-1014 | A new call object becomes pending under its id |
| Rounds.Attach | internal/greyproxy/conversation_assembler.go:1018-1025 | A result is written into the shared object that is pending, and no other object changes |
| Rounds.NewCalls | internal/greyproxy/conversation_assembler.go:901-950 | New objects showing the message's tool calls, none when it has raw content |
| Rounds.BlocksAppend | internal/greyproxy/conversation_assembler.go:901-965 | Tool calls and results are read block by block, in order |
| Rounds.OneBlock | internal/greyproxy/conversation_assembler.go:901-965 | A tool use is a call, a tool result a result under the id it names, and any other block neither |
| Rounds.EventsSnoc | internal/greyproxy/conversation_assembler.go:992-1029 | Calls come from assistant messages without raw content, results from user messages, in order, and nothing from others |
| Rounds.BuildSteps | internal/greyproxy/conversation_assembler.go:988-1029 | One step per assistant message showing it, and every shared call object carries its last result |
| Rounds.FindPrompts | internal/greyproxy/conversation_assembler.go:972-981 | Exactly the positions of the real prompts, ascending |
| Rounds.RoundPerPrompt | internal/greyproxy/conversation_assembler.go:972-981 | A round opens at every user message that is real and at no other message |
| Rounds.RoundsTile | internal/greyproxy/conversation_assembler.go:983-1036 | Rounds tile the messages from the first real prompt on |
| Rounds.OnePromptEach | internal/greyproxy/conversation_assembler.go:983-988 | A round holds exactly one real prompt, its first message |
| Rounds.ApiCallsAddUp | internal/greyproxy/conversation_assembler.go:993-999 | API calls add up to the assistant messages from the first real prompt on |
| Rounds.BuildRoundsFromMessages | internal/greyproxy/conversation_assembler.go:967-1037 | A round per real prompt, numbered from 1, each showing its own stretch with its calls' results, and the API calls of all rounds together |

## Left out

- MiddlewareProtocol: one `Close` at a time, so two concurrent calls of it are not modelled; `HookSpecs`, hello negotiation, backoff times, message marshalling and metrics; a timeout may fire at any moment, so no bound on waiting time is stated.
- Cascade: hook filters and message building are one function from hook and flow to the decision received, or none when the hook does not match; event timestamps and durations are not modelled.
- TlsMessages: decoding of malformed messages is modelled branch by branch, but nothing is claimed about it beyond agreement of loop and function.
- Streams: an early end of stream and an unexpected one are one error.
- Socks5: method negotiation, responses to authentication, `NewAddr` and the text forms; IP text conversion is an abstract pair with a canonical form.
- EndpointRegistry: `AutoDetectAndCreate`, rule storage and reload; LIKE compares ASCII letters without case.
- ExtractStreaming: tool-call indices are natural numbers, so a negative index is not modelled; the text of a summary of empty arguments must be absent, because empty text is not JSON.
- FindMatchingRule: session rows have distinct row ids, as the table gives them and every run keeps (RunKeepsOk); rules of a query are read at one moment.
- RulePolicy: the container, destination and port matchers are one arbitrary function of query and rule, so CIDR, wildcard and port-range syntax are not modelled.
- SessionTables: bulk ingestion, listing, pending requests and logs; statements succeed unless a constraint fails.
- CredentialCache: the rows of an operation and its memory step are one step, as completed requests leave them; substitution, its counters and purging unreadable rows are not modelled.
- CacheAgrees: placeholders of different owners are distinct, and a new global credential has a fresh id, as random generation makes them.
- Grouping: loading transactions, titles, linking and storing conversations; overlaps of more than 292 years, where Go's durations saturate.
- RemapOpenAISubagents: where each session ends up is stated when no session id has the form of a remapped child; otherwise only what can be lost is, because one move may then overwrite another.
- GroupBySession: whether the remap overwrites something is given for each move (MoveTotal), not for the whole run, where it depends on the order in which Go visits the map.
- StagesShow: of two sessions that file under one key the model does not say which entries are lost, because the one filed later wins and Go's map order decides which that is.
- Turns: request fields other than message count and messages.
- Rounds: the text and thinking preview of a step are one function of the message, so joining texts and cutting the preview at 500 bytes are not modelled.
- Dashboards, handlers, DNS and container caches, silent mode, settings, listeners and process plumbing are not part of this model: they are input and output, timing, or thin wrappers.
