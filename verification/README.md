# Verified models of Jreen's protocol machines

Jreen is an XMPP client library. This project models the parts of it that are protocol machines in
their own right, and proves what they are for. `dafny verify dfyconfig.toml` checks everything.

| files | what they model |
|---|---|
| `Bytes`, `Framer`, `Chunking`, `Printing`, `ParseLoop` | cutting the incoming byte stream into parts, in any chunks, with re-entrant events |
| `XmlTree`, `Dispatch`, `StanzaFactory`, `Stanzas`, `Replay` | routing the events of a part to sub-parsers, collecting payloads, recording and replaying the token tape |
| `Bosh` | the BOSH session of XEP-0124: keys, request ids, the data channel with its backlog, the long poll |
| `Negotiation` | the feature list and the negotiation of stream features (section 4.3 of RFC 6120) |
| `LangMap` | the copy-on-write map with its reference counts |
| `Jid`, `PrivacyQuery` | parsing and printing of JIDs and of privacy queries (section 2 of XEP-0016) |
| `Sessions`, `Roster` | the two session hashes, and the roster with its callbacks (section 2 of RFC 6121) |
| `HttpConnect`, `BufferedStream` | the proxy handshake and the two byte queues |

Code that changes things in place is a class whose methods have loops and invariants; each method is
proved against a function of its state (`Take`, `Step`, `Apply`, `Activate`, `Load`, ...), and the
properties are lemmas about those functions, over every input and every run.

Where the code does not meet the property one would expect of it, the model keeps the code, a lemma
gives an input, and another says exactly when the property holds:

- bytes behind the closing stream tag join the closing part or not, depending on the chunks
  (`ByteBehindClose`, `CloseSplits`, `ChunkingMattersOnlyAfterClose`);
- a stanza root outside `jabber:client` is taken to be inside it when its children are written
  (`ReplayCanMoveAChild`, `ReplayPreservesMeaning`);
- `completed` with `Connected` reports a connection that the activation asked for along with it has just
  closed, or one that lacks a forced feature (`ConnectedAfterDisconnect`, `ConnectedTooEarly`,
  `CompletionIsSafe`, `OnlyNegotiatedStreamsConnect`);
- an activation that fails before it returns leaves its used bit to the next connection
  (`BitOutlivesDisconnect`, `UsedBitsAreEarned`);
- the used bit of authorization is set before authorization is granted, so a server can have the
  connection reported without it (`ConnectedUnauthorized`, `OnlyAuthorizedStreamsConnect`);
- a stanza's handler that restarts the stream, by reconnecting in a nested event loop, makes the reset call
  the factory whose stanza has just been taken (`RestartedHandlerMissesItsStanza`);
- a feature registered twice makes the activation start again from its first place, and one
  advertisement lead to activations without end (`DuplicatesMoveBack`, `ActivationsMoveForward`,
  `TwiceRegisteredNeverEnds`, `OneAdvertisementTerminates`);
- a restart of a BOSH stream before the first reply loses the session id in that reply
  (`RestartLosesTheSessionId`, `RequestsCarryTheSessionId`);
- a JID without a node whose domain or resource has an `@` is read back differently, an empty
  active or default name becomes an absent one, and an order of 2^31 or more becomes 0 (`TextIsMistaken`,
  `EmptyNameIsLost`, `LargeOrderIsLost`, `FullTextRoundTrips`, `QueryRoundTrips`, `OrderRoundTrips`);
- a roster list that repeats an object, or lists one of the table, may not give its last data
  (`RepeatedObjectLosesItsData`, `LastOccurrenceWins`);
- a proxy reply whose first line is empty, or starts with NUL, makes the code take the first element of
  an empty list (`EmptyReplyHasNoStatusLine`, `StatusLineMissing`);
- a read with a count of 2^31 or more may drop bytes (`ReadCanDropBytes`, `ReadKeepsBytes`).

What comes from outside is a parameter and arbitrary: the chunks, what the XML reader makes of a part,
which start tags a parser accepts, the server's replies and features, whether an activation fails,
hashes and random seeds, the policies, the conversion of text to numbers in a status line. Stringprep is
arbitrary too, as long as it leaves prepared text alone and neither adds nor removes an `@` or a `/`. The
byte before the buffer, which `nextPart` looks at if a header starts with `>`, is the parameter `before`.

## Model

| member | source | states |
|---|---|---|
| `Framer.NextPart` | src/parser.cpp:156-207 | The scanning loop takes exactly the part that the declarative `Take` asks for and leaves exactly the rest; when more data is needed the buffer is unchanged and nothing is returned |
| `Framer.HeaderEndsAtBracket` | src/parser.cpp:160-177 | The header ends right behind the first `>`, or behind the next one if the first closes an XML declaration; none is found only if there is none |
| `Framer.CutIsShortest` | src/parser.cpp:179-206 | Against an independent reader that looks at one character at a time: a part is the shortest prefix after which the tag depth is back at zero, the stream is closed by the first end tag below zero, and otherwise more data is needed because neither has happened |
| `Chunking.DrainAppend` | src/parser.cpp:335-398 | Draining a prefix of a stream and then the rest takes the same parts as draining the whole, when nothing follows the closing tag |
| `Chunking.FeedAllIsDrain` | src/parser.cpp:327-398 | Any list of chunks leads to the state that the concatenated stream leads to at once |
| `Chunking.CloseSplits` | src/parser.cpp:198-201 | A stream with bytes behind its closing tag: cut right behind that tag it yields a shorter closing part than in one piece |
| `Chunking.ChunkingMattersOnlyAfterClose` | src/parser.cpp:327-398 | All ways of splitting a stream into chunks agree if and only if nothing follows its closing tag |
| `Chunking.ByteBehindClose` | src/parser.cpp:198-201 | A concrete stream with a byte behind its closing tag |
| `Chunking.BytesAreConserved` | src/parser.cpp:156-207 | For any chunks of any stream, the parts and the leftover buffer together are the received bytes, with the XML declaration in front exactly if the header was taken and had none |
| `Printing.ScanElement` | src/parser.cpp:179-206 | Scanning a printed element at depth zero ends exactly behind its end tag; inside another element it leaves no trace but its length |
| `Printing.FramerInvertsPrinter` | src/parser.cpp:156-207 | For any header with or without a declaration, any list of element trees and any tail, the loop takes exactly the header part, one part per tree, and the closing tag if there is one; an open tail stays in the buffer |
| `Printing.PrintedStreamInAnyChunks` | src/parser.cpp:327-398 | The same whatever chunks the printed stream arrives in |
| `ParseLoop.Parser.AppendData` | src/parser.cpp:327-333 | The bytes join the buffer. Inside the parse loop nothing else happens; otherwise a part that is complete by then is taken, and afterwards no complete part waits without a pending hook |
| `ParseLoop.Parser.ParseData` | src/parser.cpp:335-398 | With any events delivered while an element is handled: the run stays equal to draining the stream, a complete part in the buffer is taken, and afterwards no complete part waits without a pending hook; inside the loop the call changes nothing |
| `ParseLoop.Parser.HandleStanza` | src/parser.cpp:335-398 | New data, hooks and restarts that arrive while a level-1 element is being handled keep the invariant, and the guard against re-entry holds |
| `ParseLoop.Parser.DeliverHook` | src/parser.cpp:318-325 | A hook event takes a complete part if there is one, and afterwards no complete part waits without another hook |
| `ParseLoop.Parser.Reset` | src/parser.cpp:63-77 | A restart empties the buffer and expects a header again |
| `ParseLoop.OnTrackAppend` | src/parser.cpp:327-333 | Appending data keeps the run equal to draining the whole stream, for every continuation |
| `ParseLoop.OnTrackTake` | src/parser.cpp:368-395 | So does taking one part |
| `ParseLoop.Parser.CaughtUp` | src/parser.cpp:318-398 | Once the parser rests and no hook is pending, it has taken exactly the parts of its stream |
| `ParseLoop.RestingRunIsDrain` | src/parser.cpp:318-398 | A run at rest equals a single drain of all bytes since the last restart |
| `Replay.RecordElement` | src/stanzafactory.cpp:42-92 | The tokens appended for an element are the events of the element without the text of non-leaf elements, behind the tape without trailing text |
| `Replay.WhatPruningLeaves` | src/stanzafactory.cpp:42-92 | What the tape keeps of a tree: an element with text only stays as it is, one with child elements loses its text, one with child elements only keeps all of them |
| `Replay.Serialize` | src/stanzafactory.cpp:94-119 | The replay loop over tokens with its uri stack computes the specified operations and never pops an empty stack, for any balanced tape |
| `Replay.ReplayRoot` | src/stanzafactory.cpp:94-119 | Replaying a whole recorded element ends with an empty uri stack and writes each start tag with a namespace exactly where it differs from the enclosing one |
| `Replay.ReplayPreservesMeaning` | src/stanzafactory.cpp:94-119 | A reader that resolves default namespaces sees the same tree with the same namespace on every element if and only if the root is in `jabber:client` or has no child element in `jabber:client` |
| `Replay.RecordedStanzaReplays` | src/stanzafactory.cpp:42-119 | For every stanza received as events: recording and replaying yields the tree with the text of leaf elements only, under that same condition and no other |
| `Replay.ReplayCanMoveAChild` | src/stanzafactory.cpp:100-113 | A concrete stanza outside `jabber:client` whose child changes namespace when replayed |
| `StanzaFactory.Factory.HandleStartElement` | src/stanzafactory.cpp:42-64 | A start tag moves the state by `Step`: it is recorded, payload factories attach at level 2, and every attached one is shown the tag |
| `StanzaFactory.Factory.HandleEndElement` | src/stanzafactory.cpp:66-81 | The same for an end tag: attached factories see it, and at level 2 each gives its payload and is detached |
| `StanzaFactory.Factory.HandleCharacterData` | src/stanzafactory.cpp:83-92 | The same for text |
| `StanzaFactory.RunChild` | src/stanzafactory.cpp:42-92 | A child element of a stanza adds one payload per accepting factory, each made from exactly the events of that child |
| `StanzaFactory.StanzaIsCollected` | src/stanzafactory.cpp:42-92 | For every stanza tree there is exactly one payload per pair of level-2 child and accepting factory, in order, made from exactly the events of the child; the tape is that of the tree; sender, receiver and id are those attributes of the root, empty where missing; no factory stays attached and the depth is back at zero |
| `Dispatch.Parser.HandleStartElement` | src/parser.cpp:214-256 | A start tag pushes the count, chooses sub-parsers by level and mode, delivers the tag to all of them in order, and keeps the stack invariant |
| `Dispatch.Parser.HandleEndElement` | src/parser.cpp:258-309 | An end tag is delivered to every sub-parser, takes the stanza from its factory or activates a feature at level 1, and cuts the stack back; also when an end callback, the activation or the handler of the stanza restarts the stream |
| `Dispatch.Parser.HandleCharacterData` | src/parser.cpp:311-316 | Text goes to every sub-parser on the stack, once and in order |
| `Dispatch.Parser.Reset` | src/parser.cpp:63-77 | A restart sends every sub-parser a synthetic end event and empties the stack, but not the stack of counts |
| `Dispatch.StartKeepsNested` | src/parser.cpp:214-256 | The invariant over the top `depth` counts survives a start tag |
| `Dispatch.EndKeepsNested` | src/parser.cpp:258-309 | and an end tag |
| `Dispatch.RestartKeepsNested` | src/parser.cpp:63-77 | and an end tag during which a callback, an activation or a handler restarts the stream |
| `Dispatch.EndIsSeen` | src/parser.cpp:258-309 | Of an end tag each sub-parser on the stack sees one end; if the stream is restarted meanwhile it sees another one, made up by the restart, except those behind a sub-parser that restarts, which see only that one; the stack is empty then |
| `Dispatch.ElementIsDispatched` | src/parser.cpp:214-309 | For any level-1 element and any stale counts below it: the chosen sub-parsers get exactly its events, both stacks return to what they were, and one stanza is handled exactly if a stanza factory accepted it |
| `Dispatch.SeenBroadcast` | src/parser.cpp:249-268 | Of events sent to a stack of different sub-parsers, each sees exactly those events in order |
| `Dispatch.StanzaIsSeenByItsFactories` | src/parser.cpp:228-241 | For a stanza, each stanza factory sees the events of the tree if it accepts the start tag and nothing otherwise, no feature sees anything, and one stanza is handled, made by the last factory that accepts it |
| `Dispatch.OtherElementIsSeenByItsFeatures` | src/parser.cpp:235-241 | For an element that no stanza factory accepts, each feature sees its events if it accepts the start tag and nothing otherwise, and nothing is handled |
| `Dispatch.FeaturesAreSeen` | src/parser.cpp:214-309 | Of the features element each feature sees exactly the children that it accepts, and an activation follows |
| `Stanzas.ElementIsSeen` | src/parser.cpp:214-309 | Of any level-1 element, also the features element and those for features, a stanza factory sees exactly the events if the element is for it, and nothing otherwise |
| `Stanzas.ElementIsCollected` | src/stanzafactory.cpp:42-92 | Behind a level-1 element each ready factory is ready again, and holds the stanza of the element if it was for it, else what it held before |
| `Stanzas.OneStanzaWithItsPayloads` | src/parser.cpp:258-309 | An element that some stanza factory accepts leads to exactly one handled stanza, by an accepting factory, which at that time holds one payload for every pair of level-2 child and accepting payload factory, and the tape of the tree |
| `Stanzas.FactoriesAreReadyBetweenElements` | src/parser.cpp:214-309 | Behind any list of level-1 elements the parser is at depth 1 with an empty stack, and every stanza factory is at depth 0 with no payload factory attached |
| `Stanzas.FactoriesStartReady` | src/stanzafactory.cpp:33-36 | Before any delivery every factory meets what the two lemmas around this row ask for |
| `Stanzas.EveryCallbackFindsAStanza` | src/stanzafactory.cpp:42-92 | Behind any list of level-1 elements without a restart, every callback of every stanza factory has found a stanza to write to |
| `Stanzas.RestartedHandlerMissesItsStanza` | src/parser.cpp:280-309 | At the end tag of any stanza, every callback of every factory finds a stanza if and only if the handler of the stanza does not restart the stream |
| `Bosh.ConnectionBosh.GenerateKey` | src/connectionbosh.cpp:63-72 | The loop builds that chain for any seed and length, keeping the keys that are left |
| `Bosh.ConnectionBosh.NextKey` | src/connectionbosh.cpp:74-77 | The last key is taken off |
| `Bosh.ConnectionBosh.Send` | src/connectionbosh.cpp:82-95 | The request joins those sent, is in flight and takes the slot of its kind; the other slot stays |
| `Bosh.ConnectionBosh.SendHeader` | src/connectionbosh.cpp:97-122 | The header request of a fresh or restarted stream: it takes the next rid and starts a new key sequence; a restart also gives a key and the session id |
| `Bosh.ConnectionBosh.WriteData` | src/connectionbosh.cpp:223-249 | A write posts at once or joins the backlog, with a new key sequence when two keys are left |
| `Bosh.ConnectionBosh.OnRequestFinished` | src/connectionbosh.cpp:251-315 | A reply, the first of which gives the session id, with any calls its payload triggers: it frees its slot, flushes the backlog and re-arms the empty request |
| `Bosh.EveryKeyAuthenticatesItsPredecessor` | src/connectionbosh.cpp:63-122 | In every run of opens, writes, restarts and replies: the hash of each key is the newkey of the request before it, or its key if it has none; rids are consecutive; at least two keys remain after every send |
| `Bosh.PayloadIsSentOnceInOrder` | src/connectionbosh.cpp:223-249 | In every run: the bodies sent so far followed by the backlog are exactly the bytes written, in order, also across restarts; between replies a backlog exists only while a tracked data request is in flight |
| `Bosh.OneBodyAtATime` | src/connectionbosh.cpp:223-249 | In every run: behind a data request that is still in flight no body has been posted, unless a header request came between |
| `Bosh.ServerCanAlwaysPush` | src/connectionbosh.cpp:301-314 | In every run: after authorization and between replies the empty-poll slot is taken, and each taken slot refers to a request of its kind that is still in flight |
| `Bosh.RequestsCarryTheSessionId` | src/connectionbosh.cpp:251-315 | In every run: every request behind the openings carries the session id of the first reply since the last open, unless a restart came before that reply; then it carries, exactly, what the session before had |
| `Bosh.RestartLosesTheSessionId` | src/connectionbosh.cpp:97-122 | A concrete run: a restart before the first reply, whose session id is then never taken |
| `Bosh.RequestsShowTheRun` | src/connectionbosh.cpp:82-122 | In every run: there is one opening request for every open, the last one with its rid; bodies and backlog are the bytes that the events wrote; the requests in flight are those not answered; an authorized connection has an empty request waiting |
| `Negotiation.Client.RegisterStreamFeature` | src/client.cpp:450-463 | The binary search inserts the feature in front of the first one that does not go before it; the list stays sorted by kind ascending and priority descending |
| `Negotiation.Client.RemoveStreamFeature` | src/client.cpp:465-470 | Every occurrence of the feature goes |
| `Negotiation.RegisteringKeepsSorted` | src/client.cpp:450-463 | For any two places the one in front has the smaller kind, or the same kind and no smaller priority; the list is a permutation of the old list and the new feature |
| `Negotiation.NewFeatureStandsInFront` | src/client.cpp:450-463 | A new feature stands behind those of smaller kind, or of its kind and higher priority, and in front of all others, also of those with its kind and priority |
| `Negotiation.RemovingKeepsSorted` | src/client.cpp:465-470 | It stays sorted, and exactly the other features remain |
| `Negotiation.Client.CheckFeature` | src/parser.cpp:108-116 | The check holds unless the feature is forced and unused; then the stream is disconnected with the reason that belongs to it |
| `Negotiation.Client.ActivateFeature` | src/parser.cpp:118-151 | The loop and its checks compute `Activate`, for an activation that fails before it returns as for one that does not |
| `Negotiation.NextFeatureGetsItsDue` | src/parser.cpp:108-151 | Of the features from the current one on, the first that is advertised and not disabled is activated, or the stream is disconnected with the reason of the first forced category it lacks: encryption for SASL and simple authorization, all three in order for custom features, none for encryption and compression; without such a feature the reason is that none is supported |
| `Negotiation.Client.ReportCompleted` | src/client_p.h:342-365 | A completion with any flags moves the state by `Completed` |
| `Negotiation.Client.EmitDisconnected` | src/client_p.h:259-296 | A disconnect clears the used bits, the authorization, the connection and the current feature, and reports its reason |
| `Negotiation.ActivateKeepsInv` | src/parser.cpp:118-151 | Each call ends in one activation or one disconnect, and in both if the activation fails before it returns; an authorization feature is activated only with forced encryption used, a custom feature only with every forced feature used, a disabled one never |
| `Negotiation.CompletionIsSafe` | src/client_p.h:342-365 | A report with any flags from any feature leaves a negotiated stream negotiated if and only if it may report the connection: without a further activation the forced bits must be set, with one they must be set together with the bit of the feature chosen next and not be lost by its failure, and with one that does not take place nothing may be forced |
| `Negotiation.ConnectedAfterDisconnect` | src/client_p.h:358-364 | A concrete completion that leaves the client connected without its forced authorization |
| `Negotiation.ConnectedTooEarly` | src/client_p.h:342-365 | A concrete run in which an authorization feature reports the connection along with its success, without the forced compression |
| `Negotiation.OnlyNegotiatedStreamsConnect` | src/client_p.h:342-365 | In every run with fixed policies: at every moment the connection is reported only with every forced bit set, if and only if every report of the run may be one in the state it finds |
| `Negotiation.OnlyPermittedFeaturesActivate` | src/parser.cpp:118-151 | In every run, whatever the features report: the list stays sorted and every activation found the bits it needs |
| `Negotiation.CustomFeaturesConnectSafely` | src/sessionfeature.cpp:142-156 | What a custom feature activated on this connection reports, without asking for a successor, may be the connection |
| `Negotiation.SessionFeaturesConnectNegotiatedStreams` | src/sessionfeature.cpp:142-156 | A run whose connected reports all come from custom features activated on their connection, without asking for a successor, reports the connection only with every forced bit set, at every moment |
| `Negotiation.UsedBitsAreEarned` | src/parser.cpp:142-147 | In every run, at every moment each used bit belongs to a feature activated since the last disconnect, if and only if no activation that sets a bit fails before it returns |
| `Negotiation.BitOutlivesDisconnect` | src/saslfeature.cpp:318-323 | A concrete run: SASL fails while it is activated, and on the next connection the session is reported with the forced authorization neither granted nor tried |
| `Negotiation.OnlyAuthorizedStreamsConnect` | src/client_p.h:342-365 | In every run with fixed policies and authorization forced: at every moment the connection is reported only once authorization has been granted on it, if and only if every report of a connection comes with authorization granted and does not lose it to the activation it asks for |
| `Negotiation.ConnectedUnauthorized` | src/parser.cpp:142-147 | A concrete run in which every used bit is earned and every forced bit set, and the connection is reported without the forced authorization, since the used bit records the activation of SASL and not its success |
| `Negotiation.ActivationsMoveForward` | src/parser.cpp:118-128 | Along ActivateNext the activated position strictly increases if and only if no eligible feature is registered twice |
| `Negotiation.DuplicatesMoveBack` | src/parser.cpp:121-128 | With an eligible duplicate, some activation moves back or stays |
| `Negotiation.OneAdvertisementTerminates` | src/parser.cpp:118-151 | Under any policies one advertisement causes at most as many activations as there are features, if and only if no eligible feature stands a second time at a position that the checks, with the bits of the eligible features below, let the chain reach; otherwise the activations never end |
| `Negotiation.TerminationWithoutChecks` | src/parser.cpp:118-151 | It terminates if no eligible feature is registered twice, and with nothing forced only then |
| `Negotiation.TerminatesOrNeverEnds` | src/parser.cpp:118-151 | Once more activations than there are features have succeeded, all further ones do, and some eligible feature is registered twice |
| `Negotiation.DuplicateNeverEnds` | src/parser.cpp:121-128 | From the first second place of an eligible feature, if no check stops the chain before, every number of activations succeeds |
| `Negotiation.TwiceRegisteredNeverEnds` | src/parser.cpp:121-128 | A concrete list, with the default policies: a custom feature registered twice is activated over and over |
| `LangMap.LangMap.Null` | src/langmap.h:64 | A new handle to the shared null means the empty map |
| `LangMap.LangMap.FromValue` | src/langmap.h:65 | A new handle with a block of its own means the base text |
| `LangMap.LangMap.Copy` | src/langmap.h:66 | A copy shares the block and means the same |
| `LangMap.LangMap.Destroy` | src/langmap.h:67 | The block is freed exactly when its last owner goes, the shared null never; every other handle keeps its block and meaning |
| `LangMap.LangMap.Assign` | src/langmap.h:69-79 | An assignment leaves the counts equal to the handles, also for a self-assignment, and frees the old block only without owners |
| `LangMap.LangMap.Detach` | src/langmap.h:105-119 | Afterwards this handle is the only owner of its block, with the same contents |
| `LangMap.LangMap.Insert` | src/langmap.h:137-140 | The entry is written through this handle only: every other handle and the shared null mean what they meant |
| `LangMap.LangMap.At` | src/langmap.h:162-165 | The mutable access makes the handle the only owner of its block and a missing entry empty, and touches no other handle |
| `LangMap.LangMap.WriteThrough` | src/langmap.h:162-165 | A later write through the returned reference to the base text is seen by exactly the handles that point to the block by then |
| `LangMap.LangMap.WritesThroughArePrivate` | src/langmap.h:162-165 | Such a write stays private to the handle if and only if its block has the count 1 by then |
| `LangMap.LangMap.Clear` | src/langmap.h:127-130 | The handle means the empty map, through a temporary that leaves no trace in the counts |
| `LangMap.LangMap.Contains` | src/langmap.h:132-135 | A language is contained if and only if the handle means an entry for it |
| `LangMap.LangMap.Langs` | src/langmap.h:172-175 | Exactly the languages of the entries, each once |
| `LangMap.LangMap.Size` | src/langmap.h:197-200 | The number of entries that the handle means |
| `LangMap.LangMap.Lookup` | src/langmap.cpp:50-59 | The text for the language, else the base text |
| `LangMap.LangMap.Equals` | src/langmap.h:122-125 | Handles are equal if and only if they mean the same |
| `LangMap.BalanceAdopt` | src/langmap.h:66 | The counting invariant survives a new handle to a block with owners |
| `LangMap.BalanceCreate` | src/langmap.h:65 | and a new handle with a block of its own |
| `LangMap.BalanceDrop` | src/langmap.h:67 | and a handle that goes, whose block goes if and only if nobody else owns it |
| `LangMap.BalanceMove` | src/langmap.h:69-79 | and a handle redirected from one block to another |
| `LangMap.BalanceDetach` | src/langmap.h:111-119 | and a handle detached to a copy |
| `LangMap.EntriesAreInjective` | src/langmap.h:122-125 | Base text and language table are determined by what a handle means |
| `Jid.JidData.SetJid` | src/jid.cpp:113-142 | On a JID with any contents the parser computes `Reparse`: no text changes nothing, a refused part leaves the cached strings as they were, and success leaves what a fresh JID would hold |
| `Jid.TextIsTakenApart` | src/jid.cpp:113-142 | Any text with a node up to its first `@`, or without `@`, a domain up to the first `/` behind that, and perhaps a resource is accepted if and only if each part can be prepared; the parts and the texts of the JID are then made from the prepared ones, also where preparation changes them |
| `Jid.FullTextRoundTrips` | src/jid.cpp:113-142 | Parsing the full text of a canonical JID gives it back if and only if it has a node or no `@` in domain and resource |
| `Jid.TextIsMistaken` | src/jid.cpp:113-142 | A concrete JID without a node, parsed from text, whose own text is read as another JID |
| `Jid.ParsedIsCanonical` | src/jid.cpp:113-142 | Whatever parses is canonical |
| `Jid.BareJidDropsResource` | src/jid.cpp:169-184 | The bare JID is the JID without its resource |
| `PrivacyQuery.PrivacyQueryFactory.HandleStartElement` | src/privacyqueryfactory.cpp:64-116 | A start tag moves the parser state by `StartElement`, new items starting as a copy of the last |
| `PrivacyQuery.PrivacyQueryFactory.HandleEndElement` | src/privacyqueryfactory.cpp:118-131 | An end tag moves it by `EndElement` |
| `PrivacyQuery.PrivacyQueryFactory.Serialize` | src/privacyqueryfactory.cpp:138-191 | The nested loops write the events of `Print` |
| `PrivacyQuery.ItemOnTheWire` | src/privacyqueryfactory.cpp:150-188 | The events and attributes of a printed item name by name: types, actions, subscriptions, stanza kinds |
| `PrivacyQuery.ItemOffTheWire` | src/privacyqueryfactory.cpp:82-108 | What a received item becomes, name by name: with no type of its own but a value it takes the type of the item before, with neither it matches everything |
| `PrivacyQuery.OrderRoundTrips` | src/privacyqueryfactory.cpp:105-107 | An order survives printing and parsing if and only if it is below 2^31 |
| `PrivacyQuery.OrderFromText` | src/privacyqueryfactory.cpp:105-107 | A received order with white space and a sign: signed 32-bit numbers wrap to unsigned ones, all others count as 0 |
| `PrivacyQuery.EnumRoundTrips` | src/jstrings.h:33-53 | Different, non-empty names are looked up again |
| `PrivacyQuery.ItemReread` | src/privacyqueryfactory.cpp:82-108 | The attributes of a printed item are read back whatever item it was copied from |
| `PrivacyQuery.RunTypes` | src/privacyqueryfactory.cpp:109-115 | The stanza-type elements of an item OR exactly their bits into it |
| `PrivacyQuery.ParseOfPrint` | src/privacyqueryfactory.cpp:64-191 | Parsing the printed events of any query gives the re-read query from any idle state and ends idle |
| `PrivacyQuery.QueryRoundTrips` | src/privacyqueryfactory.cpp:64-191 | A query with canonical JIDs comes back unchanged if and only if no active or default name is empty, every order is below 2^31 and every JID is unambiguous |
| `PrivacyQuery.EmptyNameIsLost` | src/privacyqueryfactory.cpp:144-148 | A concrete query whose empty active name comes back as none |
| `PrivacyQuery.LargeOrderIsLost` | src/privacyqueryfactory.cpp:105-107 | A concrete query whose order of 2^31 comes back as 0 |
| `Sessions.FiledInsert` | src/messagesession.cpp:180-181 | Filing a session, also a second time, keeps every session under its address and nothing else; a first filing keeps every session in the hash once |
| `Sessions.FiledMove` | src/messagesession.cpp:144-147 | Removing a session under its old address and inserting it under the new one files it under the new one only, also if it was not filed before |
| `Sessions.FiledDrop` | src/messagesession.cpp:85-86 | Removing a session under its address takes it out altogether and touches no other |
| `Sessions.ValuesAreFiled` | src/messagesession.cpp:230 | The values of a key are exactly the sessions filed under it |
| `Sessions.NewestFirst` | src/messagesession.cpp:180-181 | An inserted session comes first under its key, other keys keep their order, and so they do when a session is removed |
| `Sessions.MessageSession.constructor` | src/messagesession.cpp:73-80 | A session with a valid address is filed under its full and bare address, one without is not filed |
| `Sessions.MessageSession.Destroy` | src/messagesession.cpp:82-87 | Both hashes forget the session |
| `Sessions.MessageSession.SetJid` | src/messagesession.cpp:136-151 | Both hashes follow the address; an address with the same full text changes nothing |
| `Sessions.MessageSession.ResetResource` | src/messagesession.cpp:89-95 | The session is filed under its bare address and waits for an upgrade |
| `Sessions.MessageSession.HandleMessage` | src/messagesession.cpp:113-128 | The address is upgraded exactly if the session waits and the message is from a resource of its address, and the hashes follow, also for a session that was not filed; an empty thread is taken from the message or the random hash |
| `Sessions.MessageSessionManager.RegisterMessageSession` | src/messagesession.cpp:175-182 | Only valid addresses are filed, under both keys; also a session that is filed already keeps the hashes right |
| `Sessions.MessageSessionManager.Find` | src/messagesession.cpp:230-243 | The newest session under a key that has the thread of the message, or ignores threads, if the message has one; none only if no session under the key does; the session of every entry is alive, so the clean-up branch is never taken |
| `Sessions.MessageSessionManager.Route` | src/messagesession.cpp:230-257 | A recipient by full address, else by bare address, with the thread of the message if that has one and the session does not ignore threads; none only if no registered session with either address is like that |
| `Sessions.MessageSessionManager.HandleMessage` | src/messagesession.cpp:227-268 | The message is delivered if some registered session with the full or bare address of the sender has its thread, ignores threads, or it has none, and then to such a session; that one alone changes, and the hashes follow its address. Otherwise a session with the address and thread of the message is created and filed if there is a handler, beside all the others; else the message stays unhandled |
| `Sessions.MessageSessionManager.Session` | src/messagesession.cpp:201-225 | A registered session with this full address if there is one, else a new one, which is filed under that address when the address is canonical and unambiguous |
| `Roster.RosterItem.SetData` | src/abstractroster.cpp:171-179 | Everything but the address is copied |
| `Roster.AbstractRoster.Take` | src/abstractroster.cpp:371-379 | One listed item is added or updated with its callback; the callbacks still replay to the table, and every key is the address of its item |
| `Roster.AbstractRoster.HandleIq` | src/abstractroster.cpp:285-309 | A push of any items, also repeated ones, moves the table by `Push` for the items as the loop finds them; for items made by the parser these are the items as they came. There is one callback for each item, and callbacks fit the table: additions of absent addresses, updates of present ones |
| `Roster.PushIsAsListed` | src/abstractroster.cpp:285-309 | Behind a push of new objects an address whose last entry is a removal is absent, any other listed one has the data of its last entry, and one that is not listed is as before |
| `Roster.AbstractRoster.Unlisted` | src/abstractroster.cpp:362-369 | The loop leaves exactly the addresses that are not listed |
| `Roster.AbstractRoster.OnLoaded` | src/abstractroster.cpp:359-387 | A full load moves the table by `FullLoad` for any list, also one that repeats objects or lists objects of the table; callbacks and keys stay right |
| `Roster.FullLoadKeepsTheListed` | src/abstractroster.cpp:359-387 | After a full load the keys are exactly the listed addresses |
| `Roster.LoadYields` | src/abstractroster.cpp:370-380 | An address gets the data of the last listed object other than the one in the table, else keeps the data of that one |
| `Roster.LastOccurrenceWins` | src/abstractroster.cpp:370-380 | It gets the data of its last occurrence if and only if that is not the object already in the table, or no other object is listed, or the last other one has the same data |
| `Roster.NewRosterIsAsListed` | src/abstractroster.cpp:359-387 | For objects fresh from the parser: the keys are the listed addresses, each with the data of its last occurrence |
| `Roster.RepeatedObjectLosesItsData` | src/abstractroster.cpp:370-380 | A concrete list with a repeated object for which it does not |
| `Roster.AbstractRoster.ListingIsSnapshot` | src/abstractroster.cpp:359-387 | Every list meets what the lemmas about loads ask for |
| `HttpConnect.FindLine` | 3rdparty/icesupport/httpconnect.cpp:55-74 | The position of the first CR LF, -1 only without one |
| `HttpConnect.TakeLinesAppend` | 3rdparty/icesupport/httpconnect.cpp:263-275 | Cutting lines off a prefix and then off what is left cuts the same lines as in one go |
| `HttpConnect.ByteQueue.Append` | 3rdparty/icesupport/bytestream.cpp:202-207 | Bytes join the end |
| `HttpConnect.ByteQueue.Take` | 3rdparty/icesupport/bytestream.cpp:213-234 | A prefix of the wanted size, all of it for size 0, removed exactly if asked |
| `HttpConnect.Connection.GrabLines` | 3rdparty/icesupport/httpconnect.cpp:263-275 | The line loop takes the lines up to the first one with an empty text and stops |
| `HttpConnect.Connection.OnReadyRead` | 3rdparty/icesupport/httpconnect.cpp:256-354 | A block moves the state by `ReadyRead`, whose outcome for whole replies the lemmas below give |
| `HttpConnect.Connection.Read` | 3rdparty/icesupport/httpconnect.cpp:193-196 | Bytes are read in the order they were delivered |
| `HttpConnect.Connection.OnBytesWritten` | 3rdparty/icesupport/httpconnect.cpp:356-368 | In total the bytes reported upward are the acknowledged ones minus the CONNECT request |
| `HttpConnect.BlocksDoNotMatter` | 3rdparty/icesupport/httpconnect.cpp:256-354 | For any split of a reply into blocks the outcome and the delivered bytes are those of the whole reply |
| `HttpConnect.HeaderEndsAtEmptyLine` | 3rdparty/icesupport/httpconnect.cpp:263-275 | The header of a reply ends at its first empty line: a line start followed at once by CR LF or by NUL |
| `HttpConnect.OutcomeOfReply` | 3rdparty/icesupport/httpconnect.cpp:256-354 | For any split of any reply: nothing is decided before the first empty line; behind it the text of the first line alone decides, and on success exactly the bytes behind the empty line have been delivered; if the empty line is the first, the code takes the first element of an empty list |
| `HttpConnect.CodeDecides` | 3rdparty/icesupport/httpconnect.cpp:277-343 | For any split of any reply whose first line is a protocol word, a code word and a text: connected if and only if the code is 200; 407, 404 and 503 each lead to an error of their own, any other code to a failed negotiation |
| `HttpConnect.TooFewWords` | 3rdparty/icesupport/httpconnect.cpp:76-93 | A complete header whose first line has fewer than two blanks leads to a failed negotiation |
| `HttpConnect.ShortReply` | 3rdparty/icesupport/httpconnect.cpp:256-354 | A reply of a status line, an empty line and anything behind, cut anywhere: connected if and only if the code is 200, and then exactly what is behind has been delivered |
| `HttpConnect.StatusLineMissing` | 3rdparty/icesupport/httpconnect.cpp:277-280 | The code takes the first element of an empty list if and only if the first line of the reply is complete and is empty or starts with NUL |
| `HttpConnect.EmptyReplyHasNoStatusLine` | 3rdparty/icesupport/httpconnect.cpp:277-280 | A concrete reply, of one empty line, that makes it do so |
| `BufferedStream.BufferedDataStream.EnsureSize` | src/buffereddatastream.cpp:43-47 | The buffer grows to what is needed and no further, and keeps its window |
| `BufferedStream.BufferedDataStream.IncomingDataReady` | src/buffereddatastream.cpp:90-99 | The bytes join the window; bytes read and window together are the bytes received, within the space bound |
| `BufferedStream.BufferedDataStream.ReadData` | src/buffereddatastream.cpp:122-139 | As many bytes are returned as the low half of the count asks for, and the window loses as many as the whole count; FIFO order and space bound stay, and no byte is lost exactly if the count is below 2^31 or its low half covers the window |
| `BufferedStream.BufferedDataStream.WriteData` | src/buffereddatastream.cpp:101-110 | The bytes join the output buffer; a non-empty one has its timer armed |
| `BufferedStream.BufferedDataStream.Flush` | src/buffereddatastream.cpp:112-120 | Exactly the bytes written since the last flush go to the device |
| `BufferedStream.BufferedDataStream.TimerEvent` | src/buffereddatastream.cpp:80-88 | The timer flushes and stops |
| `BufferedStream.ReadKeepsBytes` | src/buffereddatastream.cpp:122-139 | A read keeps every byte if and only if its count is below 2^31 or its low half still covers the window |
| `BufferedStream.ReadCanDropBytes` | src/buffereddatastream.cpp:125-137 | A read with a count of 2^32 returns nothing and empties the window |

## Left out

- Framer.NextPart: positions and depths are unbounded, so `int` wrap-around in buffers of 2^31 bytes is not modelled.
- Printing.FramerInvertsPrinter: printed tags hold no `>` besides their own and there are no comments, processing instructions or CDATA sections, as section 11.1 of RFC 6120 demands of senders; for other input `CutIsShortest` still says what is cut.
- ParseLoop.Parser.ParseData: the stream is restarted only finitely often, from some part on no more; the two XML readers are an arbitrary answer for each part; the repair after a broken part and the reader's own buffering are not modelled.
- Dispatch.Parser.HandleEndElement: features restart the stream only at the end of a level-1 element, as the built-in ones do; where the reset calls a factory without a stanza the model goes on, while the source writes through a null pointer.
- Dispatch.Parser.Reset: `reset()` of the stream features, which clears their own advertisement flags, is part of Negotiation only.
- StanzaFactory.Factory.HandleStartElement: the depth counter lives in the subclasses (src/iqfactory.cpp:86-112) and is moved along with the base class here; subtypes of IQ, message and presence are left out.
- StanzaFactory.StanzaIsCollected: a payload is what its factory has seen; the order of equal keys in the multi-map is not modelled.
- Replay.Serialize: prefixed attributes and the escaping of text are the XML writer's part.
- Bosh.ConnectionBosh.OnRequestFinished: replies with a network error, whose handling the source leaves to do, and replies that arrive while another one is being parsed are not modelled; attributes other than rid, sid, key and newkey are left out.
- Bosh.EveryKeyAuthenticatesItsPredecessor: the hash is any function from text to text; nothing is said about its strength.
- Negotiation.Client.ActivateFeature: of what an activation can report before it returns only the failed authorization is modelled, not a success or a request for the next feature; the used bit records the activation, not its completion.
- Negotiation.OnlyNegotiatedStreamsConnect: the policies do not change during a connection.
- Negotiation.OneAdvertisementTerminates: counts activations that are asked for by the one before and do not fail at once.
- LangMap.LangMap.At: references to the texts of other languages are not modelled: they point into a hash table that two blocks may share behind the map's back.
- LangMap: the atomicity of the counter, reverse look-up of a language, `values` and `fillNode`.
- Jid.JidData.SetJid: setting single parts of a JID, and the constructor from three parts, are left out.
- PrivacyQuery.PrivacyQueryFactory.HandleStartElement: the white space around an order is that of ASCII.
- PrivacyQuery.PrivacyQueryFactory.Serialize: the events that a reader sees of the written text, not the text.
- Sessions.MessageSession.SetJid: a slot on `jidChanged` that changes the address again, sessions without a manager, filters and subclasses are left out.
- Sessions.MessageSessionManager.RegisterMessageSession: for sessions of this manager.
- Sessions.MessageSessionManager.HandleMessage: the new session's handler only looks at it; destroying the manager before its sessions is left out.
- Sessions.Blank: the white space of a thread is that of ASCII.
- Roster.AbstractRoster.HandleIq: `add`, `remove` and `synchronize` only send requests.
- Roster.AbstractRoster.Take: changes made locally with `setName` and `setGroups` cause no callback and are left out.
- HttpConnect.Connection.OnReadyRead: errors and the end of the socket, the delayed close, and the request text, of which only the length matters.
- HttpConnect.ByteQueue.Append: the queue is a string; moving bytes within the array is left out.
- BufferedStream.BufferedDataStream.IncomingDataReady: the buffer stays below 2^31 bytes, where the positions of the source end.
- BufferedStream.BufferedDataStream.ReadData: counts whose conversion to `int` is negative, for which the source would copy a negative length.
- BufferedStream.BufferedDataStream.Flush: writes by a stream handler during the flush.
- Sockets, DNS, TLS, SASL, compression, stringprep, time stamps, service discovery, Jingle, and the payload factories that only read and write attributes.
- Data forms, multi-user chat and vCards, whose printing and parsing are not symmetric in several fields.
