# Routr, modelled and verified in Dafny

Routr is a SIP proxy made of services: edge ports that speak SIP, a dispatcher that sends each message through
middlewares and one processor, a location service that knows where endpoints are registered, a registry that keeps
the proxy registered with trunks, and data services that hold agents, domains, numbers, trunks and peers. This
project models the parts of it that hold state machines, protocols and arithmetic, and proves what they keep.

`dafny verify dfyconfig.toml` checks all of it.

## Parts

- **Location service.** `BindingStore`, `LocationMemoryStore`: the binding store with lazy expiry and cleanup;
  `StoreRefinement`: it answers as a store that never discards anything. `LocationSteps`, `LocationService`: the
  service on top, as steps on values and as a class. Over whole runs: `ContactLimit`, `ContactRace`, `Stickiness`,
  `ConcurrentQueries`, `Provenance`, `Balancing`, `PoisonedKeys`; `QueryEffects` is what they share. `Expiry` and
  `LocationRules` say in the fields of routes and requests what is answered and when.
- **Message alterations and forwarding.** `Sip`, `Text`, `EdgeInterface`, `Alterations` on values,
  `MessageAlterations` on objects that are deep-copied and assigned. Across functions and hops: `OwnRoutes`,
  `HopConservation`, `HeaderRewriting`, `HandOver`, `ContactsAndVias`; `PipelineResults`: whole messages.
- **Outbound registration.** `RegistrationStore`, `RegistryService`: the store and the periodic tick;
  `RegistrationTiming`: when the next REGISTER goes out, over every run; `OverlappingTicks`: what is left of it when
  answers come after later ticks.
- **Protocols.** `Dispatcher`: the chain of middlewares around a processor; `DispatchOrder`: the calls of a run, by
  place in the configuration. `Requester`: the rendezvous between gRPC threads, pool tasks and SIP events, as an
  interleaving of single accesses; `RequesterSteps`: which of them can come next; `RequesterPool`: who gets a thread.
  `TransactionTable`: the edge port's table of active transactions; `TransactionReads`: what each operation makes of a
  call's transactions.
- **Data services.** `Resources`, `ReferenceCycles`, `SimpleData`: loading configuration files and resolving their
  references; `LoadedResources`: what a loaded resource holds. `Pagination`: the server's page together with the
  client's loop.
- **Authentication.** `NonceCount`: a digest response and its nonce count field.

Time is a number of milliseconds that never goes backwards along a run. Errors are values of `Result`. Services that
are called are parameters: what they answer is any function, so a theorem holds for every behaviour of theirs.

## Where the code differs from what it says

The model follows the code. These differences are theorems here.

- Neither in-memory store ever gives its cleanup counter a value (mods/location/src/memory_store.ts:30,
  mods/registry/src/memory_store.ts:33), so the promised clean-up "every so often" never starts:
  `LocationMemoryStore.MemoryStore.Get`. Both stores are also verified with a counter that counts.
- `removeXEdgePortRef` removes nothing: `HeaderRewriting.RemoveXEdgePortRefRemovesNothing`.
- "Makes sure we send register before the last register expires" (mods/registry/src/service.ts:102) holds exactly
  under the condition of `RegistrationTiming.RenewedInTime`. The shipped defaults do not meet it: they send at the
  very moment of expiry, `RegistrationTiming.DefaultsRenewAtExpiry`; `RegistrationTiming.LateRenewal` is a run that
  sends 30 seconds after it.
- A query for an address of record without bindings stores `undefined` and breaks the rest of its call:
  `PoisonedKeys.UnknownAddressBreaksItsCall`.
- A round-robin counter beyond a list that has shrunk answers one call with nothing:
  `Balancing.EmptyAnswerIffBeyondTheList`, `Balancing.ShrinkingListSkipsACall`.
- "A request traversing a second EdgePort would have updated the requestUri" (mods/location/src/helper.ts:70): the
  pipeline towards the peer does not, nor does it apply the headers the router asked for: `HandOver.ThroughThePeer`.
  The rebuilt route is the right one exactly under the condition of `HandOver.PeerRouteLeadsToTheEndpointIff`.
- Two queries of one call that overlap can be answered differently: `ConcurrentQueries.OverlappingFirstQueriesDiffer`.
- The contact limit can be exceeded by calls that interleave at the await, by up to one less than their number:
  `ContactLimit.RaceBound`, `ContactRace.RaceBoundIsMet`.
- `removeSelfRoutes` raises for a foreign Route entry whose transport the edge port does not listen on:
  `OwnRoutes.StrippingSucceedsIff`.
- In the dispatcher the error checks after the first one look at the original request and never fire, so an error
  response of a middleware still goes to a processor: `Dispatcher.DispatchTrace`.
- The requester sends before it inserts the slot an answer is looked up by, so an early answer is lost and the send
  never returns: `Requester.AnswerBeforeTheInsertionIsLost`; two sends that stay
  unanswered block all that come after both: `RequesterPool.TwoUnansweredSendsBlockTheRest`, and exactly then an
  answered send is stuck until another answer comes: `RequesterPool.CompletesIffAThreadGetsThrough`.
- References are resolved without looking at kinds, so a cycle never ends: `ReferenceCycles.NeverEndsIffCycle`,
  `ReferenceCycles.SelfReferenceNeverEnds`.

## Model

| member | source | states |
|---|---|---|
| BindingStore.LiveOfLater | mods/location/src/utils.ts:28-29 | Filtering expired routes now and again later is the same as filtering later: expiry is never undone |
| BindingStore.LookupLater | mods/location/src/memory_store.ts:62-72 | A later look-up answers exactly the part of an earlier answer that is still live, and raises exactly when the earlier one does |
| BindingStore.LookupAfterStore | mods/location/src/memory_store.ts:44-59 | After a put the key answers the new route first and then the live routes with another host, port or transport, at every later time; other keys are untouched |
| BindingStore.LookupAfterPrune | mods/location/src/memory_store.ts:86-96 | A cleanup, complete or cut short by an error, changes no later answer |
| LocationMemoryStore.MemoryStore.constructor | mods/location/src/memory_store.ts:38-41 | An empty store whose cleanup counter has no value |
| LocationMemoryStore.MemoryStore.Put | mods/location/src/memory_store.ts:44-59 | The whole new contents, or the type error with nothing changed |
| LocationMemoryStore.MemoryStore.Get | mods/location/src/memory_store.ts:62-72 | Answers exactly the stored routes whose `registeredOn` plus 1000 times `expires` is still to come; as constructed it never cleans up, and with a counter that counts a cleanup it starts does not change the answer |
| LocationMemoryStore.MemoryStore.Remove | mods/location/src/memory_store.ts:75-78 | Forgets the key and nothing else |
| BindingStore.SizeAfterCleanup | mods/location/src/memory_store.ts:81-96 | After a complete cleanup the number of keys is the number of keys that answer some route |
| LocationMemoryStore.MemoryStore.Cleanup | mods/location/src/memory_store.ts:86-96 | The loop over all keys ends normally if and only if no key holds `undefined`; then every key holds its live routes or is gone |
| StoreRefinement.CurrentAfterAppend | mods/location/src/memory_store.ts:44-59 | In a log that keeps every put, a new put hides the older puts of its binding and no others |
| StoreRefinement.StepAgrees | mods/location/src/memory_store.ts:44-96 | Each operation keeps the pruning store and the log that never prunes indistinguishable from then on, and answers alike |
| StoreRefinement.LazyStoreRefinesLog | mods/location/src/memory_store.ts:44-96 | For every sequence of puts, gets, deletes and cleanups at non-decreasing times, all answers and errors are those of a store that never discards anything |
| LocationService.Location.AddRoute | mods/location/src/location.ts:54-81 | Refuses unknown schemes and contacts over the limit, else stores the route; the whole new state |
| LocationService.Location.FindRoutes | mods/location/src/location.ts:84-135 | The whole new state and the answer, with every error path; no answer at or after 1000 times `expires` ms from its `registeredOn` |
| LocationService.Location.RemoveRoutes | mods/location/src/location.ts:138-140 | Forgets the address of record |
| LocationService.Location.Next | mods/location/src/location.ts:142-164 | The balanced choice and the advanced counter |
| LocationService.Location.NextWithAffinity | mods/location/src/location.ts:167-181 | Reuses the affinity reference's route or gives it the least loaded one |
| QueryEffects.ChooseEffect | mods/location/src/location.ts:123-127 | Choosing changes at most an empty affinity key, and what it chooses comes from the address of record or the affinity reference |
| QueryEffects.FindEffect | mods/location/src/location.ts:84-135 | A query leaves each key alone, or writes one of its source routes, or `undefined`, to a key of its own that had no live route; the one exception is a labelled query without a backend |
| QueryEffects.BalancedAnswer | mods/location/src/location.ts:123-135 | What a query with a backend answers is what its call key then holds |
| QueryEffects.UntouchedByQuery | mods/location/src/location.ts:84-181 | Keys that a query does not write are stored as before, in the same order |
| QueryEffects.SortMembers | mods/location/src/location.ts:149-149 | The sort by session count is a permutation |
| Stickiness.RunKeeps | mods/location/src/location.ts:97-135 | A key with a live first route keeps answering its live routes through any run that does not overwrite that key |
| Stickiness.CallSticksToItsRoute | mods/location/src/location.ts:97-135 | Once a query with a backend has answered, every later query with its call key answers the same until the route expires, whatever other calls, registrations, removals and cleanups come between |
| Stickiness.CallWithoutBackendSticksToTheFirst | mods/location/src/location.ts:118-121 | Without a backend the first answer lists all bindings and later ones only the first of them |
| Stickiness.LabelledQueryDisplacesTheCallsRoute | mods/location/src/location.ts:118-121 | The case the stickiness theorem excludes: a labelled query without a backend puts its own first candidate in front of the route of its call |
| Stickiness.AffinityKeepsItsRoute | mods/location/src/location.ts:167-181 | A choice by affinity leaves its route first under the affinity reference |
| Stickiness.AffinitySharesOneRoute | mods/location/src/location.ts:167-181 | All fresh calls with one affinity reference get the same route until it expires |
| ConcurrentQueries.AloneIsOneStep | mods/location/src/location.ts:84-181 | A query cut at its awaits and resumed undisturbed is the query as one step |
| ConcurrentQueries.OneWrite | mods/location/src/location.ts:84-181 | Between two awaits a query writes at most one key, and one of its own |
| ConcurrentQueries.SoleChoiceSticks | mods/location/src/location.ts:97-135 | Over all interleavings: when a query has chosen and no other of its call is in flight, every query of the call answered later answers that route until it expires |
| ConcurrentQueries.AnotherInFlightMayDiffer | mods/location/src/location.ts:97-135 | Without that condition: an unlabelled query of the call without affinity that has read nothing can still be answered another route or none, though the call key is untouched |
| ConcurrentQueries.ChosenRouteIsNotLost | mods/location/src/location.ts:97-135 | However queries overlap, a route that a call key answers stays among its answers until it expires or another route of the same binding replaces it |
| ConcurrentQueries.OverlappingFirstQueriesDiffer | mods/location/src/location.ts:97-164 | With any two or more bindings and the counter anywhere among them, two overlapping first queries of one call get the route at the counter and the one after it, cyclically, and the call key then answers both |
| ConcurrentQueries.NewServiceGetsThere | mods/location/src/location.ts:54-81 | Two adds bring a new service into that situation, for every round-robin query |
| ContactLimit.AddAtTheLimit | mods/location/src/location.ts:62-80 | At the limit an add is accepted, without raising the count, if and only if that very contact is live already; a refused add changes nothing |
| ContactLimit.StepStaysWithin | mods/location/src/location.ts:54-81 | No operation takes the live bindings of an address of record over its limit |
| ContactLimit.LimitHoldsThroughout | mods/location/src/location.ts:54-81 | Over every run of whole calls the live bindings never exceed the limit |
| ContactLimit.ReservingStaysWithin | mods/location/src/location.ts:62-80 | With the call cut at its await: live bindings and those admitted but not yet written stay within limit + K - 1 |
| ContactLimit.FinishStaysWithin | mods/location/src/location.ts:71-80 | Writing turns an admitted binding into a live one and adds no other |
| ContactLimit.RaceBound | mods/location/src/location.ts:54-81 | Over every interleaving with at most K calls in flight, live bindings never exceed limit + K - 1 |
| ContactRace.RaceBoundIsMet | mods/location/src/location.ts:62-80 | For every limit and every K there is an interleaving with at most K calls in flight that ends with limit + K - 1 live bindings: the bound cannot be lowered |
| Provenance.StepOrigin | mods/location/src/location.ts:54-135 | Every route on a key was there before, was added to it, or was copied to it by a query from one of its sources |
| Provenance.RunRegisters | mods/location/src/location.ts:54-181 | In every reachable state each live route on a key was registered for the address of record the key belongs to |
| Provenance.AnswersWereRegistered | mods/location/src/location.ts:84-135 | Each route a query answers is live and was registered by an accepted add for that address of record, if affinity references are not shared |
| Provenance.SharedAffinityReferenceCrossesAddresses | mods/location/src/location.ts:167-181 | A shared affinity reference answers one address of record with a route registered for another |
| Balancing.OneTurn | mods/location/src/location.ts:142-164 | A query that has to choose by round-robin answers the route at its counter, or nothing when there is none there, and moves the counter one place on or back to the start |
| Balancing.RoundRobinOrder | mods/location/src/location.ts:142-164 | In any run, with whatever other calls between, as long as the turns of a counter choose from the same n routes: with counter c < n the turn after k turns answers route (c + k) mod n |
| Balancing.RoundRobinIsFair | mods/location/src/location.ts:142-164 | Of m turns of that order each route has m/n, rounded down or up, and exactly which |
| Balancing.TurnsAreSharedEvenly | mods/location/src/location.ts:142-164 | In any such run each of n different routes answers 1/n of the turns, rounded down or up |
| Balancing.EmptyAnswerIffBeyondTheList | mods/location/src/location.ts:153-163 | In any run a turn that has routes to choose from is answered with none if and only if the counter stands beyond the end of the list; then nothing is remembered and the counter starts over |
| Balancing.ShrinkingListSkipsACall | mods/location/src/location.ts:153-163 | A new service gets there: two adds, one call, a removal, one add, and the next call is answered with nothing though there is a route |
| Balancing.LeastSessionsIsFirstOfFewest | mods/location/src/location.ts:146-150 | The stable sort puts the earliest of the routes with fewest sessions first |
| Balancing.LeastSessionsAnswer | mods/location/src/location.ts:146-150 | A fresh least-sessions call answers that route and leaves the stored list in its order |
| PoisonedKeys.StoringNothingPoisons | mods/location/src/location.ts:118-121 | A query that chooses from no candidates stores `undefined` under its key behind an empty answer |
| PoisonedKeys.PoisonLasts | mods/location/src/memory_store.ts:44-96 | Such a key stays so until it is removed like an address of record |
| PoisonedKeys.UnknownAddressBreaksItsCall | mods/location/src/location.ts:84-135 | After a first query for an address of record without bindings every later query of that call raises, even once the address has registered |
| PoisonedKeys.RunStaysClean | mods/location/src/location.ts:54-181 | Without such a query no key is ever poisoned and no call raises a type error |
| PoisonedKeys.CleanIffNoneStoresNothing | mods/location/src/location.ts:118-121 | A run is free of poisoned keys and type errors if and only if no query in it chooses from no candidates and stores its choice |
| Expiry.RegisteredIsAnsweredIffInTime | mods/location/src/utils.ts:28-29 | Over every run: a route that an accepted add registered is among the answers of a later look-up of its address of record if and only if the look-up comes less than 1000 times `expires` ms after `registeredOn`, as long as nothing removes it or registers its host, port and transport again |
| Expiry.RegisteredIsACandidateIffInTime | mods/location/src/location.ts:103-114 | The same for what an unlabelled query may choose from |
| Expiry.FirstQueryAnswersItIffInTime | mods/location/src/location.ts:97-121 | The same for the answer of a call's first query without a backend |
| Expiry.SoleBindingIsAnsweredIffInTime | mods/location/src/location.ts:97-164 | The same for a balanced query: the one binding of an address is what the first query answers if it comes in time, and else it answers none |
| Expiry.EveryAnswerIsInTime | mods/location/src/location.ts:84-135 | No query of any kind answers a route at or after 1000 times `expires` ms from its `registeredOn` |
| Expiry.AddAnswersTheNewAndKeepsTheOthers | mods/location/src/memory_store.ts:44-59 | After an accepted add the address answers the new route while in time, and those it answered before except one with the same host, port and transport |
| Expiry.RemovedIsNotAnswered | mods/location/src/location.ts:138-140 | A removed address of record answers nothing, and every other key what it did |
| LocationRules.AddIsRefusedIff | mods/location/src/location.ts:55-80 | Exactly when an add is refused, and as what, in the scheme, the limit and the user, host, port and transport of the live contacts; a refused add changes nothing |
| LocationRules.CallsAreToldApart | mods/location/src/location.ts:92-97 | Two calls to an address share what is remembered if and only if they have one call id |
| LocationRules.LabelsAreToldApart | mods/location/src/location.ts:92-97 | Labelled queries of one call share what is remembered if and only if their labels read the same, and never with an unlabelled one |
| LocationRules.OnlyItsOwnCounterMoves | mods/location/src/location.ts:142-163 | A query moves no counter but that of its backend, or of its address when the backend has no reference, and only when it balances by round-robin |
| LocationRules.ChoosesInTurnIff | mods/location/src/location.ts:123-152 | A fresh query takes its turn at the counter if and only if its backend neither balances by sessions nor has affinity with a reference given |
| LocationRules.FilteredByLabels | mods/location/src/utils.ts:34-44 | The routes with the asked labels, one by one and in order |
| LocationRules.LabelledCandidatesIff | mods/location/src/location.ts:103-111 | A labelled query chooses from exactly the live routes with as many labels as asked for, each with the key and value, written together, of an asked one |
| LocationRules.HeldRouteIsReused | mods/location/src/location.ts:167-175 | A fresh query with affinity answers the first route that its reference holds |
| LocationRules.AffinityGivesTheLeastLoaded | mods/location/src/location.ts:177-180 | A reference that holds none gets the earliest of the routes with fewest sessions, and that is the answer |
| EdgeInterface.InterfaceIsOwn | mods/processor/src/helper.ts:35-63 | The interface chosen towards an address carries a local or external address of the edge port and the port of its listening point for that transport; which ones these are is in `InterfaceFaces` |
| EdgeInterface.FirstForFound | mods/common/src/helper.ts:59-74 | A listening point is found if and only if one has the transport, in any letter case |
| EdgeInterface.InterfaceFaces | mods/processor/src/helper.ts:35-63 | The interface found has the address part of the first local network that contains the target, or the first external address when none does, and port and transport of the first listening point for the transport |
| EdgeInterface.OneInterfaceFaces | mods/processor/src/helper.ts:35-63 | An edge port has at most one such interface, so the one found is it |
| EdgeInterface.FindingRaisesIff | mods/processor/src/helper.ts:42-56 | Finding it raises if and only if no listening point has the transport, or no network with an address part contains the target and there is no external address, or the listening point is bound to another address than that network's |
| EdgeInterface.FindsTheFirstNetwork | mods/common/src/ip_utils.ts:49-50 | The local address is the text before the first slash of the first network that contains the target; there is one if and only if some network does |
| EdgeInterface.ListeningPointIsTheFirst | mods/common/src/helper.ts:59-74 | The first listening point whose transport reads like the one asked for in any letter case, or like UDP when none is asked for |
| MessageAlterations.FixRequestURI | mods/processor/src/alterations.ts:33-41 | Host, port and transport of the request URI become the route's; on a fresh copy, the input untouched |
| MessageAlterations.AddSelfVia | mods/processor/src/alterations.ts:43-65 | Puts a Via of the facing interface on top, or the error of finding it; on a fresh copy, the input untouched |
| MessageAlterations.AddSelfViaUsingTheRouteHeaders | mods/processor/src/alterations.ts:67-97 | The Via names the only Route entry, or the second; on a fresh copy, the input untouched |
| MessageAlterations.AddSelfViaUsingExternalAddrs | mods/processor/src/alterations.ts:100-123 | The Via names the interface facing the request URI; on a fresh copy, the input untouched |
| MessageAlterations.RemoveTopVia | mods/processor/src/alterations.ts:318-322 | Takes the top Via off, if there is one; on a fresh copy, the input untouched |
| MessageAlterations.AddRouteToNextHop | mods/processor/src/alterations.ts:125-145 | Adds a Route entry only when the request URI names another host; the one alteration that may hand back its input; on a fresh copy, the input untouched |
| MessageAlterations.AddRouteToPeerEdgePort | mods/processor/src/alterations.ts:147-169 | Adds the Route entry of the peer edge port; on a fresh copy, the input untouched |
| MessageAlterations.AddSelfRecordRoute | mods/processor/src/alterations.ts:199-268 | One Record-Route entry in front, or two marked r2=on; on a fresh copy, the input untouched |
| MessageAlterations.RemoveSelfRoutes | mods/processor/src/alterations.ts:297-316 | Drops exactly the own Route entries, or the error of an entry whose transport has no listening point; on a fresh copy, the input untouched |
| MessageAlterations.ApplyXHeaders | mods/processor/src/alterations.ts:171-197 | All removals, then all additions at the end; on a fresh copy, the input untouched |
| MessageAlterations.AddXEdgePortRef | mods/processor/src/alterations.ts:270-278 | Marks the request with the edge port; on a fresh copy, the input untouched |
| MessageAlterations.RemoveXEdgePortRef | mods/processor/src/alterations.ts:280-287 | The filter as written, which compares a lower-cased name with a mixed-case one; on a fresh copy, the input untouched |
| MessageAlterations.RemoveAuthorization | mods/processor/src/alterations.ts:289-295 | Drops the Authorization; on a fresh copy, the input untouched |
| MessageAlterations.DecreaseMaxForwards | mods/processor/src/alterations.ts:324-331 | One less where the message counts, below zero too; on a fresh copy, the input untouched |
| MessageAlterations.FixInvalidContact | mods/processor/src/alterations.ts:333-346 | A contact in .invalid gets the address of the top Via; without a Via it raises; on a fresh copy, the input untouched |
| MessageAlterations.OverwriteContactWithSenderInfo | mods/processor/src/alterations.ts:348-358 | The contact, if any, becomes the sender; on a fresh copy, the input untouched |
| MessageAlterations.DeepCopy | mods/common/src/helper.ts:30-50 | A request with the same value and none of the source's objects: request, message, request URI, Max-Forwards and contact are all fresh, and the request URI is not the contact, whatever the source shares |
| MessageAlterations.Tailor | mods/connect/src/tailor.ts:24-39 | The local pipeline on objects gives what the composition gives on values |
| MessageAlterations.ToPeerEdgePort | mods/connect/src/handlers/request.ts:81-93 | The peer edge port pipeline likewise |
| MessageAlterations.RegisterOut | mods/connect/src/handlers/registry.ts:24-36 | The outbound REGISTER pipeline likewise |
| MessageAlterations.ByeOrAck | mods/connect/src/service.ts:82-92 | The BYE and ACK pipeline likewise, and the Route list it leaves is the one it was given without the edge port's own entries |
| MessageAlterations.Forward | mods/connect/src/handlers/request.ts:53-99 | The handler on objects makes the choice that the following rows are about |
| HandOver.HandedOverOnce | mods/connect/src/handlers/request.ts:53-99 | A request that was handed over is never handed over again: wherever it arrives and whatever the router would find, it goes through the local pipeline to where its request URI says |
| HandOver.PeerRouteLeadsToTheEndpointIff | mods/location/src/helper.ts:69-79 | The route that the peer makes of a handed-over request leads to the endpoint if and only if the request was addressed to its host when it arrived |
| HandOver.UnnamedEdgePortIsNotRemembered | mods/connect/src/handlers/request.ts:53-94 | Unless the first edge port has an empty reference: then its mark does not read, and the request is routed and may be handed over again |
| HandOver.ThroughThePeer | mods/connect/src/handlers/request.ts:53-99 | Both hops together: two Vias more, two forwards less, the foreign Route entries behind the next hop, the same request URI host, none of the headers the router asked for, and the mark still on |
| OwnRoutes.StrippingSucceedsIff | mods/processor/src/alterations.ts:297-316 | Stripping raises if and only if some Route entry, own or foreign, has a transport without a listening point |
| OwnRoutes.StrippingConcat | mods/processor/src/alterations.ts:297-316 | Stripping works on each part of a Route list by itself, so survivors keep their order |
| OwnRoutes.SurvivorsAreForeign | mods/processor/src/alterations.ts:301-314 | An entry survives if and only if it was there and is not the edge port's own |
| OwnRoutes.OwnEntriesAreStripped | mods/processor/src/alterations.ts:297-316 | Own entries anywhere in a Route list make no difference to what is left |
| OwnRoutes.RecordRouteEntries | mods/processor/src/alterations.ts:199-268 | Each inserted Record-Route entry names the edge port; there are two, marked r2=on, if and only if sender and target are faced by different interfaces (RFC 5658, section 5) |
| OwnRoutes.OwnEntriesAnywhere | mods/processor/src/alterations.ts:297-316 | Own entries interspersed in a Route list in any way make no difference to what is left, or to whether stripping raises |
| OwnRoutes.RecordRouteRoundTrip | mods/processor/src/alterations.ts:199-316 | A later request with the recorded entries in its Route list, in any order and anywhere among others, is stripped as if they were not there, at any edge port with the same listening points and networks (RFC 3261, section 16.4) |
| OwnRoutes.PeerRouteRoundTrip | mods/processor/src/alterations.ts:147-169 | The entry for the peer edge port comes off at an edge port configured as the route says |
| OwnRoutes.HandedOverRoutes | mods/connect/src/handlers/request.ts:81-93 | The Route list of a handed-over request: next hop if not already named, peer edge port, then the old entries |
| OwnRoutes.ThroughThePeerEdgePort | mods/connect/src/handlers/request.ts:81-99 | Handed over and tailored at the peer, a request leaves with the foreign part of what it arrived with and of the named next hop; nothing else is lost or added |
| OwnRoutes.TailoredRoutes | mods/connect/src/tailor.ts:24-39 | The local pipeline leaves exactly the foreign Route entries |
| HopConservation.EveryPipelineIsOneHop | mods/connect/src/tailor.ts:24-39 | Each of the four pipelines pushes one Via of an own interface on the unchanged others and lowers a present Max-Forwards by one (RFC 3261, section 16.6 steps 3 and 8) |
| HopConservation.PeerIsOneHop | mods/connect/src/handlers/request.ts:81-93 | The same for the peer edge port pipeline |
| HopConservation.TravelAddsOneViaPerHop | mods/connect/src/service.ts:82-92 | Along any chain of hops through any pipelines: one Via more and one forward less for each hop |
| HopConservation.ViasAndForwardsAreConserved | mods/processor/src/alterations.ts:324-331 | Along any chain the number of Vias plus Max-Forwards is constant |
| HopConservation.ReturnRestoresTheCallersVias | mods/connect/src/service.ts:56-63 | Taking one Via off at each hop back restores the caller's Via list (RFC 3261, section 16.7 step 3) |
| HeaderRewriting.ApplyXHeadersByName | mods/processor/src/alterations.ts:171-197 | What is left under any name: what arrived, unless it is to be removed, then what is added, whatever the order in the route |
| HeaderRewriting.RemoveXEdgePortRefRemovesNothing | mods/processor/src/alterations.ts:280-287 | This alteration is the identity, for every request |
| HeaderRewriting.HeaderValueIsFirst | mods/processor/src/extensions.ts:21-25 | Reads the first extension of the name in any letter case; an empty value reads as none |
| HeaderRewriting.TailorResult | mods/connect/src/tailor.ts:24-39 | Request URI, extensions, authorization and body after the local pipeline |
| HeaderRewriting.PrivacyIsReplaced | mods/connect/src/router.ts:329-346 | However many Privacy headers arrive, in whatever letter case, exactly one leaves, it reads the route's value, and no next hop is added to the Route list |
| HeaderRewriting.SurvivorsKeepTheirOrder | mods/processor/src/alterations.ts:187-194 | Extensions the route does not name survive, all of them and in order, before the added ones |
| ContactsAndVias.ViaIsOwnIffItsEntryIs | mods/processor/src/alterations.ts:67-97 | The Via taken from the Route list is one of the edge port's own if and only if the entry it is taken from is |
| ContactsAndVias.DialogViaFacesTheOtherSide | mods/processor/src/alterations.ts:78-94 | With double record-routing that Via is of the interface facing the other side, for requests from either side of the dialog |
| ContactsAndVias.FixedContact | mods/processor/src/alterations.ts:333-346 | Raises if and only if the contact is invalid and there is no Via; a valid contact is kept, an invalid one becomes the address the top Via shows, and fixing once is enough |
| ContactsAndVias.OverwritingAbsorbsFixing | mods/processor/src/alterations.ts:348-358 | Overwriting with the sender undoes any fix before it and needs doing only once |
| ContactsAndVias.ViaOfTheRouteList | mods/processor/src/alterations.ts:67-97 | Host, port and transport, in capitals and UDP for none, of the only or the second Route entry; no Via without Route entries; nothing else changes |
| ContactsAndVias.RouteNamedByTheMessage | mods/location/src/helper.ts:76-79 | The route a message names: its request URI, its top Via as the advertised address, the edge port it is at and no headers; there is one if and only if it has a Via |
| ContactsAndVias.OverwrittenContact | mods/processor/src/alterations.ts:348-358 | A contact, where there is one, gets host, port and transport of the sender and keeps its user; nothing else changes |
| HeaderRewriting.RemovedIff | mods/processor/src/alterations.ts:176-190 | A name is removed if and only if some modifier removes it, in any letter case |
| HeaderRewriting.AddedOneByOne | mods/processor/src/alterations.ts:183-194 | Each modifier that adds adds its name and value at the end, and no other adds any |
| PipelineResults.ByeOrAckResult | mods/connect/src/service.ts:82-92 | A BYE or ACK leaves with exactly the entries of its Route list that do not name an address of the edge port with the port of its listening point, in order; one Via more, of the interface facing its request URI, one forward less, and nothing else changed |
| PipelineResults.ByeOrAckRaisesIff | mods/connect/src/service.ts:82-92 | That pipeline raises if and only if no interface faces the request URI or stripping raises |
| PipelineResults.ByeLeavesWithoutTheRecorded | mods/connect/src/service.ts:82-92 | A BYE or ACK that carries the entries recorded for its dialog leaves without them |
| PipelineResults.RegisterOutResult | mods/connect/src/handlers/registry.ts:24-36 | An outbound REGISTER leaves with the foreign part of its Route list, without its Authorization, with one Via more, of the interface facing its request URI, one forward less, and nothing else changed |
| PipelineResults.TailorLeavesTheRest | mods/connect/src/tailor.ts:24-39 | Every part of what the local pipeline leaves that the other rows do not mention: which interfaces its Via and its recorded entries are of, the foreign Route entries, the fixed contact, and the body untouched |
| PipelineResults.LocalCallStatesItsDirection | mods/connect/src/handlers/request.ts:69-99 | A call to an endpoint of the same edge port leaves to its host with `X-Call-Direction` as its last extension |
| PipelineResults.HandingOverLeavesTheRest | mods/connect/src/handlers/request.ts:81-93 | Which interface Via and recorded entries of a handed-over request are of, and that request URI, contact, Authorization and body are untouched |
| PipelineResults.PeerEntryFaces | mods/processor/src/alterations.ts:147-169 | The Route entry for the peer is of the peer's interface that faces the endpoint |
| PipelineResults.RecordedFace | mods/processor/src/alterations.ts:199-268 | What is recorded first is of the interface facing the advertised target, what is recorded last of the one facing the sender |
| PipelineResults.RecordedAreMarked | mods/processor/src/alterations.ts:199-268 | Recorded entries ask for loose routing, and two of them carry `r2=on` |
| PipelineResults.NoOwnIsLeft | mods/processor/src/alterations.ts:297-316 | In a list that is another without its own entries, exactly the foreign ones are left |
| RegistryService.MemoryStore.Put | mods/registry/src/memory_store.ts:47-58 | Replaces the entry of its trunk; a cleanup that may follow changes no later answer |
| RegistryService.MemoryStore.List | mods/registry/src/memory_store.ts:61-65 | Exactly the entries that have not expired |
| RegistryService.MemoryStore.Get | mods/registry/src/memory_store.ts:68-74 | The entry if it has not expired |
| RegistryService.MemoryStore.Delete | mods/registry/src/memory_store.ts:77-80 | Forgets the trunk |
| RegistryService.MemoryStore.Cleanup | mods/registry/src/memory_store.ts:83-90 | The loop drops exactly the expired entries |
| RegistryService.Registry.Tick | mods/registry/src/service.ts:59-128 | Sends to exactly the listed trunks without a current entry, and stores for each answer the entry that its contact's expiry, else the message's, else 600 seconds asks for; nothing when the trunks cannot be read |
| RegistrationStore.RecordedEntry | mods/registry/src/service.ts:87-127 | After a tick an answered trunk has the entry of its answer and every other trunk what it had |
| RegistrationStore.WhatATickStores | mods/registry/src/service.ts:71-127 | A trunk gets a REGISTER if and only if it is listed and has no entry younger than its retention time; an answer leaves an entry retained for the contact's expiry, else the message's, else 600 seconds, less the interval, REGISTERED exactly when the answer is OK; nothing else changes |
| RegistrationTiming.ContactDecidesTheWindow | mods/registry/src/service.ts:103-106 | When an answer carries both expiries, the contact's decides when the next REGISTER goes out, whatever the message says |
| RegistrationTiming.SentWhenRetentionIsOver | mods/registry/src/service.ts:71-127 | As long as no REGISTER of the trunk has been answered since, however many were rejected: a listed trunk gets one at a tick if and only if more than expiry minus interval has passed since the last answer was stored |
| RegistrationTiming.RepeatedUntilAnswered | mods/registry/src/service.ts:71-99 | From the end of the retention time a listed trunk is sent a REGISTER at every tick until one is answered, and at no tick before |
| RegistrationTiming.SentUntilFirstAnswered | mods/registry/src/service.ts:71-99 | A listed trunk without an entry is sent a REGISTER at every tick until one is answered |
| RegistrationTiming.NextRegisterWindow | mods/registry/src/service.ts:58-128 | The next REGISTER goes out more than E - P and at most E seconds after the last answer was stored |
| RegistrationTiming.NextRegisterComes | mods/registry/src/service.ts:58-128 | A trunk that stays listed does get that REGISTER |
| RegistrationTiming.RenewalGap | mods/registry/src/service.ts:103-126 | The number of ticks between two REGISTERs, from the granted time and the delay of the answer |
| RegistrationTiming.RenewedBeforeExpiry | mods/registry/src/service.ts:102-106 | The next REGISTER goes out before the registration expires, counted from any moment between sending and storing the answer, if and only if the delay after that moment is less than expiry plus delay modulo the interval |
| RegistrationTiming.RenewedInTime | mods/registry/src/service.ts:102-106 | Counted from sending: before the expiry if and only if the expiry is no multiple of the interval, and the delay of the answer and the rest of the expiry fit into one interval |
| RegistrationTiming.ShortGrantRenewsAtTheNextTick | mods/registry/src/service.ts:103-106 | A granted time shorter than the interval is always over before the next tick, which does send |
| RegistrationTiming.DefaultsRenewAtExpiry | mods/registry/src/service.ts:41-41 | With the shipped 60 and 600 seconds the next REGISTER goes out at the very moment of expiry counted from sending, not before it |
| RegistrationTiming.LateRenewal | mods/registry/src/service.ts:102-106 | A run that is 30 seconds late: an interval of 60 seconds, grants of 90, answers after 40 |
| OverlappingTicks.SentIffTheLastIsOver | mods/registry/src/service.ts:59-128 | With answers stored in any order and after any later ticks: a listed trunk gets a REGISTER at a tick if and only if the retention time of the answer stored last is over |
| OverlappingTicks.WindowAfterTheLast | mods/registry/src/service.ts:58-128 | The first REGISTER after the answer stored last still goes out more than E - P and at most E seconds after it |
| OverlappingTicks.SentAgainUntilStored | mods/registry/src/service.ts:71-99 | Until the answer to a REGISTER is stored every tick that lists the trunk sends another one |
| OverlappingTicks.OlderAnswerReplacesNewer | mods/registry/src/service.ts:85-127 | A run in which an older answer, stored last, replaces a newer one, and the trunk registers again after 59 seconds though it was granted ten minutes |
| Dispatcher.RunMiddlewares | mods/dispatcher/src/run_middlewares.ts:50-98 | The loop equals the short-circuiting chain over the middlewares of its phase, and whatever it calls is configured with the flag it was given |
| Dispatcher.Dispatch | mods/dispatcher/src/processor.ts:46-93 | The handler equals pre-phase, processor, post-phase; its later error checks, which look at the original request, never fire; which calls a run makes is in `DispatchOrder.RunsAsConfigured` |
| Dispatcher.FindsTheFirstMatch | mods/dispatcher/src/find_processor.ts:22-33 | The processor found is the first that matches; none is found if and only if none matches |
| Dispatcher.ChainTrace | mods/dispatcher/src/run_middlewares.ts:63-96 | A phase calls the middlewares in order, each with what the one before answered, up to the first response or failure, and ends with the answer of the last call |
| Dispatcher.DispatchTrace | mods/dispatcher/src/processor.ts:46-93 | The complete sequence of calls and the outcome for every message that is not an error response, whatever the services answer |
| Dispatcher.ExactlyOneProcessor | mods/dispatcher/src/run_processor.ts:35-70 | No run calls two processors, a run that ends well calls exactly one, and an error response causes no other call |
| Dispatcher.ChainKeepsRef | mods/dispatcher/src/run_middlewares.ts:79-80 | Middlewares replace the message and never the reference or the method, so they cannot redirect the choice by method |
| DispatchOrder.RunsAsConfigured | mods/dispatcher/src/processor.ts:46-93 | The calls of a run, by place in the configuration: the middlewares with the flag unset in order, the first processor that serves the request, those with the flag set in order; a phase ends early exactly at a middleware that does not answer with a request |
| DispatchOrder.EachPhaseOnItsSide | mods/dispatcher/src/run_middlewares.ts:72-72 | Whatever is called before the processor is configured for before it, and whatever is called after it for after it |
| DispatchOrder.NothingIsLeftOut | mods/dispatcher/src/run_middlewares.ts:63-96 | When no middleware responds or fails, a run that ends well has called every configured middleware once, in order, on its side of the processor |
| DispatchOrder.HandsOnWhatWasAnswered | mods/dispatcher/src/run_middlewares.ts:79-80 | Each service gets the request with the message that the one before answered |
| DispatchOrder.EndsAsTheLastAnswered | mods/dispatcher/src/run_processor.ts:50-67 | A run ends as its last call was answered, with the failure naming that service when it was unavailable, or for want of a processor |
| DispatchOrder.ErrorResponsesGoToTheProcessorOnly | mods/dispatcher/src/processor.ts:49-59 | A response that is neither OK nor RINGING goes to the first processor that serves it and to no middleware |
| Requester.MapHolds | mods/requester/src/main/java/io/routr/requester/RequesterService.java:58-58 | In every interleaving the map sends a call id to a slot if and only if that slot was inserted and its call id neither inserted nor dropped since |
| Requester.FoundWhatTheMapHeld | mods/requester/src/main/java/io/routr/requester/RequesterService.java:80-87 | An event fills the slot that the map held when it looked, even if the map has changed since |
| Requester.SlotIsFed | mods/requester/src/main/java/io/routr/requester/ResponseCallable.java:25-40 | The value of a slot, and the result that is handed on, come from an event with the call id of its sender that found it in the map |
| Requester.ReturnsItsOwnMessage | mods/requester/src/main/java/io/routr/requester/RequesterService.java:50-72 | A sendMessage that returns answers with the message of an event carrying its own call id, over all interleavings |
| Requester.FilledIffFoundInTheMap | mods/requester/src/main/java/io/routr/requester/RequesterService.java:80-106 | A slot is filled if and only if an event with a message looked at the map while the slot was in it |
| Requester.NoEventAfterTheInsertion | mods/requester/src/main/java/io/routr/requester/RequesterService.java:52-64 | A send whose call id no event looks up after the insertion waits for ever |
| Requester.AnsweredIffFoundInTime | mods/requester/src/main/java/io/routr/requester/RequesterService.java:50-106 | A send is answered if and only if an event with a message looks at the map between its insertion and the next insertion or drop of its call id |
| Requester.LosingTheSlotIsFinal | mods/requester/src/main/java/io/routr/requester/RequesterService.java:86-86 | A send whose call id is dropped or inserted again before an event has found its slot waits for ever |
| Requester.AnswerBeforeTheInsertionIsLost | mods/requester/src/main/java/io/routr/requester/RequesterService.java:52-58 | The answer to a request can come before the insertion; it is lost, the slot is dropped, and the send waits for ever, whatever happens next |
| Requester.SecondAnswerIsLostToo | mods/requester/src/main/java/io/routr/requester/RequesterService.java:52-87 | Not even a second answer with the call id is received after that |
| Requester.RaceHappens | mods/requester/src/main/java/io/routr/requester/RequesterService.java:52-87 | That race is a possible run |
| Requester.FirstEventAfterTheInsertionFills | mods/requester/src/main/java/io/routr/requester/RequesterService.java:50-106 | With its call id to itself and no event of it under way at the insertion, a send is filled by the first event after |
| RequesterSteps.EnabledByWhatHasHappened | mods/requester/src/main/java/io/routr/requester/RequesterService.java:50-106 | What a thread can do next depends on its own steps alone, and on its task being finished before it returns: each once and in the order of its method |
| RequesterPool.PoolInvariantHolds | mods/requester/src/main/java/io/routr/requester/RequesterService.java:41-56 | At most two tasks run, tasks queue only while two run, and every submitted task is in exactly one place until it is done |
| RequesterPool.TwoRunAtMost | mods/requester/src/main/java/io/routr/requester/RequesterService.java:41-41 | Two tasks run at most, and while any waits two do |
| RequesterPool.TwoUnansweredSendsBlockTheRest | mods/requester/src/main/java/io/routr/requester/RequesterService.java:41-64 | Two sends that stay without an answer, running or still queued, block every send that comes after both, in the queue or submitted later, in every continuation |
| RequesterPool.CompletesIffAThreadGetsThrough | mods/requester/src/main/java/io/routr/requester/RequesterService.java:41-64 | An answered send in the queue can complete without further answers if and only if fewer than two sends are unanswered among those that run and those before it in the queue |
| TransactionTable.TransactionManager.PutTransactions | mods/edgeport/src/main/java/io/routr/utils/TransactionManager.java:44-48 | Stores both transactions of a call |
| TransactionTable.TransactionManager.GetClientTransaction | mods/edgeport/src/main/java/io/routr/utils/TransactionManager.java:56-58 | The client transaction, none, or a failed cast |
| TransactionTable.TransactionManager.GetServerTransaction | mods/edgeport/src/main/java/io/routr/utils/TransactionManager.java:66-68 | The server transaction, none, or a failed cast |
| TransactionTable.TransactionManager.RemoveTransactions | mods/edgeport/src/main/java/io/routr/utils/TransactionManager.java:75-78 | Removes both entries of a call |
| TransactionTable.TransactionManager.UpdateClientTransaction | mods/edgeport/src/main/java/io/routr/utils/TransactionManager.java:86-88 | Replaces the client transaction of a call |
| TransactionTable.TransactionManager.RemoveTransactionsByTransport | mods/edgeport/src/main/java/io/routr/utils/TransactionManager.java:99-122 | The two loops remove exactly the entries that match, return exactly their transactions, each once, and leave the rest |
| TransactionTable.KeysNeverCollide | mods/edgeport/src/main/java/io/routr/utils/TransactionManager.java:46-47 | No two call ids share a key, in one role or across roles |
| TransactionTable.OneMapRefinesTwo | mods/edgeport/src/main/java/io/routr/utils/TransactionManager.java:34-122 | After any operations the one map holds what separate client and server maps would, each role key only its role's transactions, and nothing else |
| TransactionTable.ReadsItsOwnMap | mods/edgeport/src/main/java/io/routr/utils/TransactionManager.java:56-68 | Every read answers what the map of its role holds; no cast ever fails |
| TransactionTable.PutIsReadBack | mods/edgeport/src/main/java/io/routr/utils/TransactionManager.java:44-122 | What was put for a call is read back until an operation on that call or a removal that matches it |
| TransactionReads.NothingAtFirst | mods/edgeport/src/main/java/io/routr/utils/TransactionManager.java:34-68 | A new table has no transaction of any call |
| TransactionReads.ClientAfter | mods/edgeport/src/main/java/io/routr/utils/TransactionManager.java:44-122 | What any operation makes of a call's client transaction: what was put or updated, nothing after a removal or when its topmost Via has the transport, in any letter case, and the host and port that went away, and what it was otherwise |
| TransactionReads.ServerAfter | mods/edgeport/src/main/java/io/routr/utils/TransactionManager.java:44-122 | The same for its server transaction, which an update leaves alone |
| Resources.ResolvesToWhatItNames | mods/simpledata/src/loaders/find.ts:25-35 | A reference resolves to an object, given stack enough, if and only if the object is the tree that the references name |
| Resources.NamedCarriesItsReference | mods/simpledata/src/loaders/find.ts:25-35 | Every nested object carries the reference that its parent names |
| Resources.FindsWhatIsNamed | mods/simpledata/src/loaders/find.ts:25-35 | What is resolved is what is named |
| Resources.NamedIsFound | mods/simpledata/src/loaders/find.ts:25-35 | What is named is resolved |
| ReferenceCycles.FieldsRankLower | mods/simpledata/src/loaders/loader.ts:28-45 | Agent, domain, number, trunk, credentials and access list: each field expects a lower kind; peer is above credentials |
| ReferenceCycles.WellKindedLoads | mods/simpledata/src/loaders/find.ts:25-35 | With references of the right kind every resource loads, nesting no deeper than its kind's rank |
| ReferenceCycles.LoadsUnlessChainIsLonger | mods/simpledata/src/loaders/find.ts:25-35 | When all references exist, loading overflows a stack if and only if some chain of references is longer than it |
| ReferenceCycles.NeverEndsIffCycle | mods/simpledata/src/loaders/find.ts:25-35 | When all references exist, loading a resource overflows every stack if and only if its references lead into a cycle; else a stack as deep as the list is enough |
| ReferenceCycles.WellKindedHasNoCycle | mods/simpledata/src/loaders/find.ts:25-35 | References of the right kind lead into no cycle |
| ReferenceCycles.KindsAreAsReferenced | mods/simpledata/src/loaders/find.ts:34-34 | No kind is checked: the nested objects have the kinds of their fields if and only if the references do |
| ReferenceCycles.SelfReferenceNeverEnds | mods/simpledata/src/loaders/agents.ts:31-31 | An agent that names itself as its domain passes the checks and never loads |
| SimpleData.FindRef | mods/simpledata/src/loaders/find.ts:25-35 | The look-up by reference, with the exit for a missing one |
| SimpleData.LoaderOf | mods/simpledata/src/loaders/loader.ts:28-45 | The loader is that of the resource's own kind |
| SimpleData.AgentsLoader | mods/simpledata/src/loaders/agents.ts:23-41 | Domain, then credentials; no limit reads as -1 |
| SimpleData.PeersLoader | mods/simpledata/src/loaders/peers.ts:26-50 | Credentials; no limit reads as -1 |
| SimpleData.NumbersLoader | mods/simpledata/src/loaders/numbers.ts:23-34 | The trunk |
| SimpleData.TrunksLoader | mods/simpledata/src/loaders/trunks.ts:23-50 | Both credentials, then the access list |
| SimpleData.DomainsLoader | mods/simpledata/src/loaders/domains.ts:23-48 | The number of each egress policy in order, then the access list |
| SimpleData.CredentialsLoader | mods/simpledata/src/loaders/credentials.ts:22-27 | No references |
| SimpleData.AclLoader | mods/simpledata/src/loaders/acl.ts:21-26 | No references |
| SimpleData.CheckReferences | mods/simpledata/src/utils.ts:32-43 | Accepts if and only if all references differ; else reports each repetition |
| SimpleData.LoadResources | mods/simpledata/src/utils.ts:52-87 | Ends at the first reference with a space, or at repeated references, or with what loading the resources of the wanted kind gives |
| SimpleData.GoodFilesLoad | mods/simpledata/src/utils.ts:52-87 | Files whose references have no spaces, differ and are of the right kind load: one object for each resource of the wanted kind, in order, each the tree its references name |
| SimpleData.KindsGoByTheirNames | mods/simpledata/src/utils.ts:62-63 | A resource is of the kind its file names, in any letter case |
| SimpleData.EndsAtTheFirstSpace | mods/simpledata/src/utils.ts:66-71 | Loading ends with the first reference that has a space in it |
| SimpleData.RepeatedIff | mods/simpledata/src/utils.ts:34-37 | Reported as repeated is exactly what two resources have for their reference |
| SimpleData.SelectedInOrder | mods/simpledata/src/utils.ts:81-83 | The resources of the wanted kind, one by one and in order |
| LoadedResources.LoadedHoldsItsReferences | mods/simpledata/src/loaders/loader.ts:28-45 | Kind by kind, each field of a loaded resource holds what that very reference of its specification names: agent, domain, peer, number and trunk; and its contact limit, with -1 for none or zero |
| SimpleData.DistinctRefsFindTheirOwn | mods/simpledata/src/loaders/find.ts:26-26 | With distinct references a reference finds the one resource that has it |
| Pagination.PageIsNext | mods/pgdata/src/api/list.ts:34-67 | The token of a page asks for the page right after it, whatever rows have come in front in between |
| Pagination.ShowPaginatedList | mods/ctl/src/utils.ts:103-131 | The loop ends, with the first pages of the table shown in order: all of them unless a question for more was declined, though rows are created meanwhile |
| Pagination.PagesMakeUpTheTable | mods/pgdata/src/api/list.ts:34-67 | For a page size of at least one the pages together are the table, each row once and in order |
| Pagination.FirstPages | mods/ctl/src/utils.ts:103-131 | The first k pages are the first k times page size rows |
| Pagination.EverythingIsShownIff | mods/ctl/src/utils.ts:103-131 | Every row is shown once and in order if and only if there is none, or the page size is at least one and no question is declined |
| Pagination.DeletedCursorEndsTheListing | mods/pgdata/src/api/list.ts:34-47 | When the row of the token has been deleted the next page is empty, which ends the listing |
| Pagination.PageByRowNumber | mods/pgdata/src/api/list.ts:34-67 | The page after row i is the rows from i + 1 on, as many as fit, and its token is the reference of its last row |
| Pagination.PageHoldsItsRows | mods/pgdata/src/api/list.ts:34-67 | Page k is the rows from k times the page size on |
| Pagination.ShownByRowNumber | mods/ctl/src/utils.ts:103-131 | The j-th list shown is the rows from j times the page size on |
| Pagination.StopsWhereDeclined | mods/ctl/src/utils.ts:103-131 | The first question declined is followed by no more lists |
| NonceCount.FieldReadsTheCount | mods/common/src/auth.ts:27-27 | Exactly eight lower-case hexadecimal digits whose value is the count modulo two to the 32 (RFC 2617, section 3.2.2) |
| NonceCount.SameFieldIffCongruent | mods/common/src/auth.ts:27-27 | Two counts give the same field if and only if they are equal modulo two to the 32, so the field is one to one below that |
| NonceCount.ResponseIsOfTheseParts | mods/common/src/auth.ts:38-49 | What is digested, part by part and in order (RFC 2617, section 3.2.2.1) |
| NonceCount.CountsAreToldApart | mods/common/src/auth.ts:43-49 | With qop "auth" the digested text differs for two counts exactly when they differ modulo two to the 32 |
| NonceCount.SameResponseIff | mods/common/src/auth.ts:32-50 | The response to a challenge is the same for another count if and only if the counts agree modulo two to the 32, there are no credentials, or the digest collides |

## Left out

- gRPC, tracing, logging, environment and configuration file reading, and the Redis stores: input and output, or server behaviour that is not in the repository.
- The JAIN-SIP converters and message sender, MD5, JWT, base64 and schema validation are libraries; MD5 is any function here, and configurations are taken as their schema accepts them.
- Whether a network contains an address (`hasIp`) is a parameter, any function of the two texts.
- `enforceE164` and the choice of the Privacy value: decided by a library, or one branch.
- Letter case is that of ASCII letters; texts are sequences of characters without Unicode case rules.
- SIP messages carry the fields the alterations read or write; other fields, and the request's metadata, are copied unchanged by the original and are not part of the model. A contact, Route or Record-Route entry is its URI and parameters.
- Numeric fields of a route that reach the services over gRPC are present, with the defaults of the transport.
- `addRoute` is cut at its await in `ContactLimit`, `findRoutes` and `nextWithAffinity` at theirs in `ConcurrentQueries`; the other theorems about runs take each public operation as one step.
- The sorted text of a query's labels is part of the query; the order that `localeCompare` gives the labels is not modelled.
- The gRPC handler for removing routes calls `findRoutes` (mods/location/src/utils.ts:79-87); the model is of `removeRoutes` itself, and its handler adds nothing but that call.
- LocationService.Location.FindRoutes: the built-in sort is a function that sorts a copy; that the original sorts its own filtered list in place is invisible, since the store never holds that list.
- Stickiness.CallSticksToItsRoute: requires that nothing between the two queries adds or removes under the call key itself and that no labelled query without a backend belongs to the call; `Stickiness.LabelledQueryDisplacesTheCallsRoute` shows why.
- ConcurrentQueries.SoleChoiceSticks: the key is the call's own, not also an affinity reference or another call's key; `addRoute` is one step there, since it writes no call key.
- MessageAlterations.DeepCopy: the objects are those that alterations assign to; elements of Via, Route, Record-Route and extension lists are values, since no alteration assigns to one in place, and a list is a field of its message.
- Provenance.AnswersWereRegistered: requires that every key belongs to one address of record; `Provenance.SharedAffinityReferenceCrossesAddresses` shows why.
- RegistryService.Registry.Tick: all answers of a tick are stored before the method returns; ticks that overlap are modelled on values, in `OverlappingTicks`, where each answer is stored by itself.
- Dispatcher.DispatchTrace: a processor's answer replaces the message; other fields it may carry are not modelled, and the callback that follows every run is its result.
- Requester.ReturnsItsOwnMessage: single accesses to the map and to slots are atomic and seen at once; the memory model of unsynchronised Java fields and the internals of `HashMap` are not modelled. The requester is a state machine on values, since its steps interleave.
- TransactionTable.TransactionManager.RemoveTransactionsByTransport: transport and host are not null; a transaction's request does not change while it is in the table.
- SimpleData.LoadResources: fields of a resource other than references and the contact limit are copied and not modelled; the objects under construction are values, since no one else can see them.
- Pagination.ShowPaginatedList: the page size is not negative; what the database client makes of a negative one is up to its library. Rows may be created between requests, not deleted, save as `Pagination.DeletedCursorEndsTheListing` says.
- NonceCount.FieldReadsTheCount: counts are exact integers; beyond two to the 53 the original's numbers are not.
- Routing and RTP direction tables, response codes, command-line commands, mappers and validators: case tables and field copying that a reading settles.
