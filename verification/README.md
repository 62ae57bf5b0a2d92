# Verification of certview's hard core

certview analyses X.509 certificates: it builds the chain of a certificate from
what it was given, a store and the network, decides the revocation of every
certificate of the chain, and keeps certificates, CRLs and OCSP responses for
later analyses. This project models five parts of it and how they compose.

| file | what it models |
|---|---|
| `CRLGate.dfy` | admission of analyses and the CRL memory gate: slots, gate and queue as counters, every analysis a program counter |
| `SharedDownloads.dfy`, `URLs.dfy` | `fetchFlight`: one shared download per key, reference-counted waiters, failure memory, budget |
| `CRLStore.dfy` (`CRLStore`, `OCSPStore`) | the CRL and OCSP tables against a plain log of saves |
| `PKI.dfy`, `CertStore.dfy`, `PEM.dfy`, `TrustBundle.dfy`, `PoolHistory.dfy` | the certificate table, candidate issuers, reading and importing bundles, trust over restarts, what is in the pool |
| `RespCache.dfy` | the response cache with its per-entry gates, expiry, purge and cleanup |
| `DER.dfy`, `IDP.dfy` | DER lengths (section 8.1.3 of X.690), the issuingDistributionPoint parser (section 5.2.5 of RFC 5280) and CRL scope (section 6.3.3 of RFC 5280) |
| `Chain.dfy` | issuer resolution, the chain loop, the candidates for the verifier |
| `Revocation.dfy` | which CRL or OCSP response decides each certificate, and the overall verdict |
| `Provenance.dfy`, `IssuerWalk.dfy`, `HandlerSpec.dfy`, `Handler.dfy` | the composition: every operation of the handler on its store, and why everything stored is justified |
| `Samples.dfy`, `ExpiryRuns.dfy`, `SiteRun.dfy` | runs of the handler that store a CRL without nextUpdate and one that expires meanwhile, and one whose final ok rests on a path outside the chain it checked |
| `HostPort.dfy` | the printer and the parser of site names |

Code that changes objects is a class whose methods are proved equal to
specification functions (`Entering`, `Saved`, `Imported`, `LookedUp`, ...); the
properties are lemmas about those functions and about every run of their steps,
stated of what goes in and what comes out.
Goroutines that block on channels are step systems: a run is a sequence of
states in which each follows from the one before by one atomic step of some
participant, cancellation included.

SHA-256 is an injective function into strings without lower-case letters. The C
library (parsing, path verification at a time, CRL and OCSP signatures), the
network, IDNA, address parsing, the clock and the context are parameters:
functions that may answer anything their stated assumptions allow. One of these
is that no DER is both a certificate and a CRL; another that a verified path
leads from the certificate verified to one of the anchors, over certificates the
verifier was given. A name that is missing is the
empty one; it is stored and looked up as NULL and so matches no row.

## Where the code does less than one would say

Each of these is proved as an exact condition, with an input that fails.

- A CRL that is not fresh itself, such as one without nextUpdate, still deletes
  older CRLs of its issuer. The issuer keeps an answer exactly when, before the
  save, it has a fresh CRL that is no older or is mapped by another URL
  (`CRLStore.StaleSaveKeepsAnswerIff`; a failing run in `CRLStore.StaleSaveForgets`).
- A CRL without nextUpdate passes the expiry check and is stored as of the year
  1: "every CRL row was unexpired when it was checked" holds of a row exactly
  when its CRL has a nextUpdate (`Provenance.CRLProvenance`; a failing run in
  `ExpiryRuns.StoresUndatedCRL`).
- A CRL can expire between its check and its insert. A row was unexpired when
  inserted exactly when its CRL has a nextUpdate that had not passed by then
  (`Provenance.CRLProvenance`; a failing run in
  `ExpiryRuns.StoresCRLExpiredMeanwhile`).
- A final ok says that the resolved chain is unrevoked; the path the verifier
  accepted may use other certificates of the bag or the pool. Whatever path may
  be accepted lies within the checked chain exactly when the candidates do, or no
  candidate is a root (`HandlerSpec.PathsStayInChainIff`; a failing run of the
  handler in `SiteRun.OkLeavesChain`).
- An administrator's untrust of a bundled root survives a restart exactly when
  the root is in at most one bundle and was already imported from that one
  (`TrustBundle.UntrustSurvivesIff`; a failing run in `TrustBundle.UntrustIsUndone`).
- Leaving its bundle untrusts a root exactly when the bundle still holds some
  root (`TrustBundle.DroppedIsUntrustedIff`; an empty bundle in
  `TrustBundle.EmptyBundleWithdrawsNothing`).
- Malformed flags of an issuingDistributionPoint do not fail closed: of the
  fields with a flag's tag the last counts, and it counts as set exactly when it
  is a single non-zero octet. For every field list the extension leaves a
  certificate out exactly when a fullName is malformed or the fields, so read,
  shut it out (`IDP.FlagFailsClosedIff`; failing inputs in `IDP.UnsaidFlagCovers`
  and `IDP.LongFlagCovers`).
- Computations of one key can overlap in the response cache. Without a purge, a
  second one can start before a caller's ends exactly when that caller computes
  outside the map, or another caller is on its way to a computation of the key
  other than by waiting at the same entry (`RespCache.OverlapIff`; a failing run
  in `RespCache.OverlapHappens`).
- A text before a PEM block that holds no begin mark can still end like one. The
  block is found at its place exactly when the text and five dashes hold no
  begin mark (`PEM.BeginMarkIff`; a failing text in `PEM.TextCanEndLikeAMark`).
- A site name re-parses from its printed form exactly when its host is not empty
  (`HostPort.ParseThenPrint`; every name IDNA maps to nothing fails, by
  `HostPort.MappedToNothing`).

## Model

| member | source | states |
|---|---|---|
| CRLGate.StepKeepsInv | cmd/certview/guard.go:105-185 | every step of any analysis, in-between states around `held` included, keeps channel counts equal to the tokens owned and within capacity |
| CRLGate.RunKeepsInv | cmd/certview/guard.go:105-185 | token conservation over every run, whatever is cancelled and when |
| CRLGate.CallsOwnSlot | cmd/certview/handler.go:329-337 | whenever the analysis asks for the gate it owns its slot and neither gate nor queue token; a failed acquire means the context is done |
| CRLGate.ReleaseFindsToken | cmd/certview/guard.go:134-185 | every receive that gives a token back finds one, so no release blocks |
| CRLGate.OneBigCRL | cmd/certview/guard.go:134-153 | at most one big CRL is in memory in every reachable state |
| CRLGate.AdmissionBound | cmd/certview/guard.go:100-132 | uncancelled admitted analyses never exceed the slots plus the queue |
| CRLGate.AllReturned | cmd/certview/guard.go:105-185 | with every analysis returned all three channels are empty |
| CRLGate.NoDeadlock | cmd/certview/guard.go:134-185 | for any N >= 1 and any number of analyses, while one has not returned a step that is neither timeout nor cancellation is enabled |
| CRLGate.RunIsBounded | cmd/certview/guard.go:134-185 | every step, cancellations included, lowers a measure: with finitely many loop iterations ahead no schedule livelocks |
| CRLGate.StuckMeansFinished | cmd/certview/guard.go:134-185 | a run that cannot go on has every analysis returned and every channel empty |
| CRLGate.QueuesWithoutSlot | cmd/certview/guard.go:143-153 | over every run: whoever queues for the gate owns no slot when it takes the gate for the first time since |
| CRLGate.AsksForGate | cmd/certview/guard.go:134-149 | a free gate is taken at once; with the gate taken an analysis queues while there is room, and else waits with its slot |
| URLs.UsableURLs | cmd/certview/guard.go:270-282 | the loop keeps exactly the first max http(s) URLs |
| URLs.FirstUsableIsPrefix | cmd/certview/guard.go:270-282 | those are a prefix of all http(s) URLs in order |
| URLs.EndpointSplits | cmd/certview/handler.go:1516-1528 | the endpoint of every usable URL splits at its scheme |
| URLs.SameEndpoint | cmd/certview/handler.go:1516-1528 | URLs of one scheme, host and port, in any case and with or without the default port, have one endpoint |
| SharedDownloads.FetchFlight.Enter | cmd/certview/guard.go:409-437 | recall, budget, join or new call: the whole new state |
| SharedDownloads.FetchFlight.Finish | cmd/certview/guard.go:438-464 | the goroutine's critical section: identity-checked removal, failure memory, sweep; what is remembered, from the downloads themselves, is in RefusedByDownload and NotRemembered |
| SharedDownloads.FetchFlight.Leave | cmd/certview/guard.go:468-481 | a departing waiter; the last one cancels and unlinks |
| SharedDownloads.OneDownloadPerKey | cmd/certview/guard.go:430-481 | in every run at most one non-cancelled download per key exists |
| SharedDownloads.JoinsLiveCall | cmd/certview/guard.go:430-437 | what a waiter joins is neither cancelled nor published and has waiters |
| SharedDownloads.LateFinishKeepsSuccessor | cmd/certview/guard.go:438-464 | an abandoned download that finishes late never removes its successor |
| SharedDownloads.WaiterGetsItsCall | cmd/certview/guard.go:466-481 | a waiter returns its own context error or exactly the result of the one fetch it joined |
| SharedDownloads.DeparturesCancelOnlyTheDeserted | cmd/certview/guard.go:468-481 | while a caller waits, no departure has cancelled its download, and the call's waiters are joined minus left, at least one |
| SharedDownloads.WaitersAreJoinedMinusLeft | cmd/certview/guard.go:436-481 | a call's waiters are always those that joined minus those that left; a cancelled one has none |
| SharedDownloads.RefusedIff | cmd/certview/guard.go:415-425 | a fetch is refused exactly when a failure of the key or a connection failure of its endpoint is less than the TTL old in the whole history |
| SharedDownloads.RefusedByDownload | cmd/certview/guard.go:409-464 | over every run, from the downloads and not from the history: a fetch is refused exactly when a download nobody had abandoned failed less than the TTL ago, of the same key, or of the same endpoint and unable to connect to that host:port |
| SharedDownloads.NotRemembered | cmd/certview/guard.go:446-461 | the failure of an abandoned download, like a success, leaves the memory as it was |
| SharedDownloads.AbandonedIff | cmd/certview/guard.go:438-442 | a download counts as abandoned exactly when all its callers have left and its own timeout did not end it first |
| SharedDownloads.DesertedIsCancelled | cmd/certview/guard.go:468-481 | once all its callers have left a download is cancelled and no longer joined |
| SharedDownloads.JoinsOrStarts | cmd/certview/guard.go:421-437 | whoever is not refused is over its budget exactly after 20 joins, and else joins the download of its key under way, or starts one when there is none |
| SharedDownloads.SweepDropsExpired | cmd/certview/guard.go:448-456 | a failure recorded over a full memory drops what has expired, at most every 10 seconds, and never what has not |
| SharedDownloads.FinishKeepsMemory | cmd/certview/guard.go:446-461 | recording a failure, lazy deletion and the sweep keep memory and history in agreement |
| SharedDownloads.FetchBudget | cmd/certview/guard.go:263-268 | downloads joined by an analysis never exceed its budget |
| SharedDownloads.RunKeepsInv | cmd/certview/guard.go:383-482 | the sharing, memory and budget invariants hold over every interleaving |
| CRLStore.Store.SaveCRL | internal/store/store.go:409-438 | the statements of SaveCRL compute `Saved` and keep agreement with the save log |
| CRLStore.Store.FindFreshCRL | internal/store/store.go:380-390 | the answer is the DER last saved under the URL if still fresh, else none |
| CRLStore.Store.FindFreshCRLByIssuer | internal/store/store.go:392-407 | a fresh row of maximal thisUpdate; a still fresh newest-saved CRL is never lost |
| CRLStore.SaveRefines | internal/store/store.go:411-438 | one save keeps the deduplicated tables in agreement with the log, and no URL maps to a missing row |
| CRLStore.SavedRowsIff | internal/store/store.go:411-438 | besides its own row a save leaves exactly the unexpired rows that are of another issuer, no older, or mapped by a URL |
| CRLStore.ReplayFindsLog | internal/store/store.go:380-438 | after any run of saves FindFreshCRL answers as the plain log |
| CRLStore.SaveRaisesAnswer | internal/store/store.go:394-438 | saving a fresh CRL makes the issuer's answer the later of the old one and it |
| CRLStore.SaveKeepsOtherIssuers | internal/store/store.go:411-438 | other issuers' fresh rows are untouched |
| CRLStore.NewestIsNeverLost | internal/store/store.go:394-438 | in every agreeing state a still fresh newest CRL of an issuer is its answer |
| CRLStore.StaleSaveKeepsAnswerIff | internal/store/store.go:411-438 | saving a CRL that is not fresh leaves the issuer an answer exactly when, before it, a fresh row is no older or is mapped by another URL |
| CRLStore.StaleSaveForgets | internal/store/store.go:411-438 | a concrete run in which a fresh CRL is forgotten |
| OCSPStore.Store.SaveOCSP | internal/store/store.go:593-616 | one response per certificate, the last saved; expired ones dropped |
| OCSPStore.Store.FindFreshOCSP | internal/store/store.go:575-591 | the certificate's last saved response if unexpired, else none |
| CertStore.Store.ImportTrustedCert | internal/store/store.go:440-462 | the new table, and whether the certificate was added or newly trusted |
| CertStore.Store.WithdrawBundleRoots | internal/store/store.go:464-481 | exactly the dropped self-signed rows of the source are untrusted and relabelled |
| CertStore.Store.SavePoolCert | internal/store/store.go:532-545 | insert as candidate issuer or set pool, nothing else |
| PoolHistory.SavedPoolIs | internal/store/store.go:532-545 | after SavePoolCert the row of the certificate is in the pool; a row it had keeps all else, and every other row is as it was |
| PoolHistory.SavedCertIs | internal/store/store.go:333-344 | after SaveCert the certificate has a row, a new one untrusted and outside the pool; every row there was is as it was |
| CertStore.Store.SaveCert | internal/store/store.go:333-344 | insert untrusted outside the pool, or leave the row alone |
| CertStore.Store.SetTrusted | internal/store/store.go:547-561 | trust of one row changes, an unknown hash is an error |
| CertStore.Store.IsCertTrusted | internal/store/store.go:563-573 | trust of a row, false for an unknown hash |
| CertStore.Store.FindIssuers | internal/store/store.go:489-530 | the loop with its seen set returns the query's rows once each |
| CertStore.IssuerKeysAgree | internal/store/store.go:489-530 | results match, are distinct, pool matches first in rank order, at most pool + 2 archive of them |
| CertStore.IssuerKeysComplete | internal/store/store.go:489-530 | a pool match is present when all fit; an archived one when there are at most 2 archive of them |
| CertStore.FindIssuersOrder | internal/store/store.go:489-530 | pool matches in the order of the query, one left out being outranked by as many as the limit; of the archived ones exactly the oldest and the newest |
| PEM.IndexIsFirst | internal/trustbundle/trustbundle.go:71-88 | the index of a mark is its first occurrence |
| PEM.SplitPEM | internal/trustbundle/trustbundle.go:71-88 | the loop computes the blocks |
| PEM.SplitWritten | internal/trustbundle/trustbundle.go:71-88 | for any marks that are unambiguous, splitting gives back the certificates a bundle was written from |
| PEM.BeginMarkIff | internal/trustbundle/trustbundle.go:73-78 | whatever follows, the begin mark after a text is the first one exactly when the text and five dashes hold none |
| PEM.EndMarkIff | internal/trustbundle/trustbundle.go:74-82 | in a block whose body has no dash the end mark is the first one exactly when the body is not the mark's own text |
| PEM.SplitPEMBundle | internal/trustbundle/trustbundle.go:71-88 | a bundle with the real marks splits into exactly its certificates |
| PEM.TextCanEndLikeAMark | internal/trustbundle/trustbundle.go:76-82 | a text without a begin mark that moves the block |
| TrustBundle.ImportBundle | internal/trustbundle/trustbundle.go:28-69 | roots imported, intermediates pooled, the dropped roots withdrawn unless there are none |
| TrustBundle.ImportDefaults | internal/trustbundle/trustbundle.go:18-26 | both bundles in order: one restart |
| TrustBundle.TrustFollowsAutomaton | internal/store/store.go:442-481 | every restart, admin action and analysis moves a root of one bundle as the trust automaton does |
| TrustBundle.TrustOverTime | internal/trustbundle/trustbundle.go:28-69 | so does every run from an empty database |
| TrustBundle.UntrustSurvivesIff | internal/store/store.go:440-462 | exactly when an administrator's untrust survives a restart |
| TrustBundle.UntrustIsUndone | internal/trustbundle/trustbundle.go:18-26 | a root in both bundles, untrusted by the administrator, is trusted after the next start |
| TrustBundle.DroppedIsUntrustedIff | internal/trustbundle/trustbundle.go:58-66 | leaving its bundle untrusts a root exactly when the bundle still holds some root |
| TrustBundle.EmptyBundleWithdrawsNothing | internal/trustbundle/trustbundle.go:58-66 | a run in which a root stays trusted because its bundle came back empty |
| RespCache.Store.Lookup | cmd/certview/respcache.go:36-48 | the part of get under the mutex |
| RespCache.Store.Check | cmd/certview/respcache.go:50-58 | with the gate: answer from the entry or begin to compute |
| RespCache.Store.Finish | cmd/certview/respcache.go:59-63 | a computed response is stored with its expiry, an error is not |
| RespCache.Store.CleanUp | cmd/certview/respcache.go:74-92 | drops exactly expired entries with a free gate |
| RespCache.RunKeepsInv | cmd/certview/respcache.go:34-92 | the invariant over every interleaving of callers, purges and cleanups |
| RespCache.NothingStaleAfterPurge | cmd/certview/respcache.go:34-72 | a get that looks up after a purge never returns a response computed from before it |
| RespCache.AnswersFollowPurge | cmd/certview/respcache.go:34-72 | over any run: a get that looks up after the purge at step m is answered with a computation of its key that began at or after step m |
| RespCache.HitIsUnexpired | cmd/certview/respcache.go:50-58 | every hit is a genuine response of that key less than the TTL old |
| RespCache.AnsweredUnlessPurged | cmd/certview/respcache.go:34-92 | over every run: once a computation has ended without error, whoever looks its key up later with no purge in between and gets the gate before the TTL is over is answered from the entry, with the last response stored in it, and does not compute |
| RespCache.AnsweredFromCache | cmd/certview/respcache.go:34-72 | the same for any entry still linked at the lookup |
| RespCache.ComputationsApart | cmd/certview/respcache.go:50-63 | on one entry no computation starts within the TTL of one that ended without error |
| RespCache.HolderAnswers | cmd/certview/respcache.go:50-58 | with the gate: a response younger than the TTL is answered, and exactly without one is computed |
| RespCache.LookupLinks | cmd/certview/respcache.go:36-48 | a lookup waits at the entry linked under its key, else links a new one, and goes without exactly when the cache is full |
| RespCache.LinkStays | cmd/certview/respcache.go:74-92 | only a purge unlinks an entry whose response is younger than the TTL |
| RespCache.OneComputationPerEntry | cmd/certview/respcache.go:34-65 | two callers never compute on one entry at a time |
| RespCache.OverlapNeedsDetached | cmd/certview/respcache.go:34-92 | two computations of one key: one caller found the cache full or points at an entry the map no longer holds |
| RespCache.NoDetachNoOverlap | cmd/certview/respcache.go:34-92 | in runs where no cleanup or purge detaches an entry from a caller on its way through it, computations of the key through entries never overlap |
| RespCache.OverlapIff | cmd/certview/respcache.go:34-92 | in every reachable state, exactly when a second computation of a caller's key can start before the caller's ends, without a purge |
| RespCache.OverlapHappens | cmd/certview/respcache.go:74-92 | a run with two computations of one key: a cleanup between a lookup and its gate |
| RespCache.SizeIsBounded | cmd/certview/respcache.go:30-48 | the map never exceeds its capacity |
| RespCache.ReleaseFindsToken | cmd/certview/respcache.go:46-65 | giving a gate back never blocks |
| DER.ReadEncoded | internal/pki/idp.go:43-81 | what is encoded in DER is read back whatever follows |
| DER.ReadIsEncoded | internal/pki/idp.go:43-81 | only the DER encoding of an element reads as it: the reader is canonical |
| DER.CheckObjectStart | cmd/certview/guard.go:355-381 | the bytes peeked at decide PEM, too large, or not an object |
| DER.StartOfEncoded | cmd/certview/guard.go:355-381 | a DER SEQUENCE passes exactly when its full size is within the limit |
| DER.StartOfOthers | cmd/certview/guard.go:358-364 | what starts as PEM is let through; what starts neither as PEM nor as a SEQUENCE is not an object |
| IDP.ParseIDP | internal/pki/idp.go:43-81 | the loops compute `Parse` on all bytes |
| IDP.ParseIDPValue | internal/pki/idp.go:83-127 | the loop computes `Value` on all bytes |
| IDP.ValueRoundTrip | internal/pki/idp.go:83-127 | parsing the DER of any IssuingDistributionPoint gives its scope back |
| IDP.ParseEncoded | internal/pki/idp.go:43-81 | on any DER CRL the parser reads what its extensions say, whatever else it holds |
| IDP.CRLRoundTrip | internal/pki/idp.go:43-127 | for every scope and every CRL with arbitrary other fields, entries and extensions the scope comes back |
| IDP.Covers | internal/pki/pki.go:176-189 | true exactly for the CRL of the certificate's issuer, no delta, that has no IDP or one that parses and has the certificate in scope; false when the IDP does not parse |
| IDP.CoversIsScope | internal/pki/idp.go:22-39 | on an encoded CRL Covers is the scope written into it |
| IDP.ValueMeans | internal/pki/idp.go:83-127 | whatever bytes parse are the encoding of a field list and mean what the list means: the last field of each flag, every URI, any reasons |
| IDP.FlagFailsClosedIff | internal/pki/idp.go:83-127 | for any field list, repeated and malformed fields included, exactly when the extension leaves a certificate out |
| IDP.CoversIffNotShutOut | internal/pki/pki.go:176-189 | the same of a whole CRL around any field list |
| IDP.UnsaidFlagCovers | internal/pki/idp.go:83-127 | onlyContainsUserCerts said and then malformed covers a CA |
| IDP.LongFlagCovers | internal/pki/idp.go:83-127 | two-octet onlyContainsCACerts, indirectCRL or onlyContainsAttributeCerts cover an end entity |
| Chain.PickAIAPrefersKey | cmd/certview/handler.go:1206-1233 | the AIA pick matches by key whenever some certificate does, self-signed preferred |
| Chain.FirstObjectIsFirst | cmd/certview/handler.go:1168-1204 | the certificates come from the object of one URL, parsed and within the size limit, and no URL before it gave any |
| Chain.Analysis.FetchIssuer | cmd/certview/handler.go:1168-1234 | exactly that object's certificates join the bag, the pick is made among them, and each fetch but a refused one costs the budget |
| Chain.Analysis.ArchiveIssuer | cmd/certview/handler.go:1239-1257 | the archived candidates join the bag; the first valid one, else the oldest, is taken |
| Chain.Analysis.ResolveIssuer | cmd/certview/handler.go:1119-1237 | the loops compute `Resolve`, with the bag, fetches and budget it leaves; what that is, source by source, is in the six rows that follow |
| Chain.FoundInBag | cmd/certview/handler.go:1121-1127 | the first match of the bag is the issuer, and nothing is fetched |
| Chain.FoundInPool | cmd/certview/handler.go:1129-1149 | without one, the first pool candidate valid at that moment is the issuer, and bag, fetches and budget stay |
| Chain.FoundByAIA | cmd/certview/handler.go:1168-1234 | without one, the certificates of the first followed URL whose object gives any join the bag, exactly those, and the issuer is picked from them: the first self-signed key match, else the first key match, else the first |
| Chain.FoundExpired | cmd/certview/handler.go:1155-1161 | when no object gives any, the first pool candidate that parses is the issuer |
| Chain.FoundArchived | cmd/certview/handler.go:1239-1257 | without one, the first valid archived candidate, else the first; exactly the archived candidates join the bag |
| Chain.NotFound | cmd/certview/handler.go:1155-1257 | without any candidate that parses there is no issuer |
| Chain.CandidatesAreGood | internal/store/store.go:489-530 | what FindIssuers gives meets the chain builder's assumptions |
| Chain.BuildChain | cmd/certview/handler.go:380-410 | the loop computes `Built`: at most 10 distinct certificates, only the last self-signed, linked unless fetched; unless the context is done it stops only at a self-signed certificate, at depth 10, or where the last one's issuer does not resolve or is in the chain already; the bag within its initial size + 32*20 + 32*9 |
| Chain.BuiltStops | cmd/certview/handler.go:380-410 | a chain that ends early ends because its last certificate's issuer, resolved with what was held then, is none or one of its own |
| Chain.BuiltThreads | cmd/certview/handler.go:380-410 | every certificate of the chain is what its predecessor resolved to, with what was held after that; there is no chain only when the context is done |
| Chain.Candidates.Collect | cmd/certview/handler.go:436-486 | roots and intermediates are exactly what chain, bag and pool offer, each once, split by self-signed |
| Revocation.FindCRLIssuer | cmd/certview/handler.go:532-551 | the first chain certificate of the CRL's name and key, else the next CA |
| Revocation.ProcessCRL | cmd/certview/handler.go:553-668 | the verdict of one CRL, and the exact condition under which it is offered to the store; what a CRL counts for is in VerdictIff |
| Revocation.VerdictIff | cmd/certview/handler.go:553-621 | a verified fresh CRL that could be searched shows a certificate it lists revoked, one it omits good exactly when it covers it, and is otherwise silent; any other CRL is not authoritative. The signer is spelled out: the first chain certificate of the CRL's name and key, else the next CA |
| Revocation.DecideOne | cmd/certview/handler.go:507-792 | the loops compute the decision and the offers of one certificate |
| Revocation.Aggregate | cmd/certview/handler.go:817-863 | revoked, na, checked or incomplete exactly by the per-certificate results |
| Revocation.ResolveOCSP | cmd/certview/handler.go:1414-1460 | the stored response if it parses, else the first one fetched that parses |
| Revocation.OCSPForIs | cmd/certview/handler.go:1414-1460 | the answer settled on is the stored response if it parses, and else, if a request can be made, that of the first responder whose response parses |
| Revocation.RevocationPhase | cmd/certview/handler.go:507-792 | the decision of every certificate; exactly the CRLs and OCSP responses offered to the store, each justified; no answer exactly when the context is done where the loop looks |
| Revocation.SavedIff | cmd/certview/handler.go:622-631 | a CRL is offered to the store exactly when it was fetched, nothing before it showing anything, is authoritative and its signer verifies to trust |
| Revocation.KeptIff | cmd/certview/handler.go:721-740 | a response is offered exactly when no CRL shows anything and the answer settled on was fetched and is verified and dated |
| Revocation.Conclude | cmd/certview/handler.go:800-863 | the decisions are justified, the overall status follows, and a final ok shows every relevant certificate unrevoked |
| Revocation.DecisionJustified | cmd/certview/handler.go:553-786 | not_revoked takes a verified fresh covering CRL without the certificate, from a source the analysis consulted, or a verified good response; likewise revoked |
| Revocation.DecisionHasDecider | cmd/certview/handler.go:670-786 | a decision is that of the first source that shows the certificate good or revoked; when none does, of the OCSP fallback |
| Revocation.FirstDeciderWins | cmd/certview/handler.go:670-719 | over cached copies, fetched CRLs and the store's CRL in their order: the first that shows the certificate revoked makes it revoked, the first that shows it good makes it not revoked, whatever comes later |
| Revocation.OCSPOnlyAsFallback | cmd/certview/handler.go:721-786 | when no CRL shows anything, a verified revoked or good answer of OCSP is the decision, and exactly without one there is none; when one does, the decision is a CRL's |
| HandlerSpec.OkChecksPath | cmd/certview/handler.go:799-863 | after a final ok, every certificate of the path the verifier returned is one the bag or the pool offered outside the chain, or was shown unrevoked unless it is self-signed or names no CRL and no OCSP URL |
| HandlerSpec.PathsStayInChainIff | cmd/certview/handler.go:436-486 | inclusion of the candidates: every path from the leaf to a root over them lies within the checked chain exactly when they do, or none of them is a root |
| HandlerSpec.OkPathUnrevoked | cmd/certview/handler.go:799-863 | then a final ok shows every certificate of the path the verifier returned unrevoked, but self-signed ones and those without CRL and OCSP URLs |
| SiteRun.OkPathCanLeaveChain | cmd/certview/handler.go:380-486 | whenever this root is what the store has for the leaf's issuer, the chain loop goes from the leaf to the root and, whatever the order of the candidates, the verifier accepts a path over a presented cross certificate that is not in the chain |
| SiteRun.OkLeavesChain | cmd/certview/handler.go:356-870 | a run of the handler: the answer to what a site presents is a final ok, its chain is leaf and root, and the path verified goes over a cross certificate with a CRL URL of whose revocation nothing was checked |
| Provenance.EventGrows | internal/store/store.go:333-561 | rows enter the pool or gain trust only by a bundle, the administrator or a verified path |
| Provenance.TrustProvenance | cmd/certview/handler.go:1373-1412 | every trusted certificate was a bundled root or trusted by the administrator; no analysis grants trust |
| Provenance.PoolProvenance | cmd/certview/handler.go:1027-1050 | every pool certificate of every reachable table was bundled, trusted, or a CA on a path verified to then trusted anchors |
| PoolHistory.PoolIff | internal/store/store.go:333-545 | over every history: a certificate has a row exactly when it was bundled, on a verified path or archived, and is a candidate issuer exactly when it was bundled or on a verified path or is trusted now; so nothing that enters is ever lost |
| PoolHistory.PathIsPooled | cmd/certview/handler.go:1038-1048 | once a verified path is recorded all its CAs that are not transient are in the pool |
| Provenance.PathIsRooted | cmd/certview/handler.go:1027-1050 | the trust of a path's anchors itself comes from a bundle or the administrator |
| Provenance.CRLProvenance | cmd/certview/handler.go:622-631 | every CRL row was saved, and every save of its content was verified by a CRL-signing CA that was trusted or verified to trust; unexpired at a save's check exactly if the CRL has a nextUpdate, at its insert exactly if that had not passed by then |
| ExpiryRuns.StoresUndatedCRL | cmd/certview/handler.go:978-989 | a run of the handler: an uploaded CRL without nextUpdate is saved at time 10 with a row that expired in the year 1 |
| ExpiryRuns.StoresCRLExpiredMeanwhile | cmd/certview/handler.go:978-989 | a run of the handler: an uploaded CRL checked at time 10 expires at time 20 and is inserted at time 30 |
| Provenance.OCSPProvenance | cmd/certview/handler.go:728-740 | every stored OCSP response was verified for its certificate, has a nextUpdate, and its issuer verified to anchors trusted by a bundle or the administrator |
| Provenance.AnalysisKeeps | cmd/certview/handler.go:415-426 | an analysis changes the trust of nothing and leaves transient certificates' rows alone |
| Provenance.HandlerTrust | internal/trustbundle/trustbundle.go:28-69 | the trust automaton holds over every run of the handler |
| Provenance.ChainEnvIsGood | cmd/certview/handler.go:1119-1237 | the chain builder's assumptions hold of every reachable table |
| Provenance.PoolDERsArePooled | cmd/certview/handler.go:1052-1060 | poolIssuers gives at most 8 distinct pool certificates of the name |
| Provenance.PoolDERsComplete | cmd/certview/handler.go:1052-1060 | poolIssuers gives every pool certificate of the name when at most 8 match |
| Handler.Handler.TrustedPath | cmd/certview/handler.go:1023-1050 | exactly when a path to the trusted roots verifies, its anchor; exactly its CAs that are not transient join the pool, and are in it afterwards |
| IssuerWalk.CandidatesArePooled | cmd/certview/handler.go:1070-1100 | what chainsToTrust offers the verifier is in the pool, split by self-signed, at most 80 certificates |
| IssuerWalk.CandidatesAreClosed | cmd/certview/handler.go:1070-1100 | when the walk ends before its depth, it has the pool certificates of the issuer and of every issuer of what it found |
| IssuerWalk.CandidatesEnd | cmd/certview/handler.go:1070-1100 | the walk ends, and so misses nothing, whenever it finds fewer than 10 intermediates |
| Handler.Handler.StoredCandidates | cmd/certview/handler.go:1070-1100 | the loop computes the walk over names |
| Handler.Handler.ChainsToTrust | cmd/certview/handler.go:1070-1102 | true exactly for a trusted certificate or one verified through the walk's pool certificates to the trusted ones |
| Handler.Handler.AnalyzeCRL | cmd/certview/handler.go:900-1021 | an uploaded CRL is saved exactly when the first fitting pool CA verifies it and chains to trust and it is not expired |
| HandlerSpec.UploadIsVouchedFor | cmd/certview/handler.go:900-1021 | saved exactly when the first pool certificate of the issuer that may sign it did, is trusted or verifies over the walk's candidates to trusted ones, and the CRL is not expired |
| HandlerSpec.UploadNeedsSigner | cmd/certview/handler.go:935-960 | an uploaded CRL that no pool certificate of its issuer may sign is not saved |
| HandlerSpec.FirstSignerIs | cmd/certview/handler.go:935-960 | the signer is the first certificate that parses, may sign CRLs and has no other key identifier |
| Handler.Handler.SaveFetched | cmd/certview/handler.go:622-631 | a fetched CRL is saved exactly when its issuer verifies to a trusted root; it is then what FindFreshCRL gives under its URL until it expires |
| Handler.Handler.KeepOCSP | cmd/certview/handler.go:728-740 | a fetched, verified response with a nextUpdate is kept exactly when its issuer verifies to a trusted root |
| Handler.Handler.SaveOffers | cmd/certview/handler.go:622-740 | the CRLs and responses an analysis stores, exactly and in order |
| Handler.Handler.ArchiveChain | cmd/certview/handler.go:415-426 | exactly the chain certificates that are not transient are archived |
| Handler.Handler.ArchiveSite | cmd/certview/handler.go:415-426 | exactly the first 10 certificates a site presented are archived |
| HandlerSpec.ArchivesAreKept | cmd/certview/handler.go:415-426 | what was archived has a row in every later table: the chain but for transient certificates, and the first 10 certificates a site presented |
| Handler.Handler.Judge | cmd/certview/handler.go:436-870 | over exactly the candidates offered: a final ok takes a verified chain and checked or inapplicable revocation; the leaf is trusted exactly when it verifies over all candidates and then over the trusted roots alone; exactly the CRLs and responses whose issuers verify to those are stored; a final ok means of the path verified what OkChecksPath and OkPathUnrevoked say; no answer exactly when the context is done where the revocation loop looks |
| Handler.Handler.AnalyzeParsed | cmd/certview/handler.go:356-426 | the leaf unless a link's, then the chain, then what the site presented are archived, before anything joins the pool; afterwards all of them have a row |
| Handler.Handler.AnalyzeLeaf | cmd/certview/handler.go:380-870 | no answer exactly when the context is done first; else the chain is the one `Built`, and verdict and trust are those over the candidates of chain, bag and the table after archiving |
| Handler.Handler.AnalyzeData | cmd/certview/handler.go:323-898 | what parses as a CRL is handled as an upload: the CRL table gains exactly that CRL when it is saved, the OCSP table stays; else refused exactly for oversized or unparsable input, with the certificate, CRL and OCSP logs as they were; else no answer exactly when the context is done first, and otherwise the chain is the one `Built` over the table, judged over exactly the candidates the table then offers; no trust changes and a link's certificates are untouched |
| Handler.Handler.AnalyzeLink | cmd/certview/link.go:19-60 | accepted exactly for 1 to 10 values that decode; no row of a link's certificates is added or changed; the analysis of the first certificate is sound; a refused link leaves the certificate, CRL and OCSP logs as they were |
| Handler.ParseLink | cmd/certview/link.go:62-86 | accepted exactly for 1 to 10 values that each decode to a certificate within the limit |
| Handler.Handler.ToggleTrust | cmd/certview/handler.go:1373-1412 | with the hash in either case, only the named certificate's trust changes; on success the decision is the last entry of the history and the listener's response caches are purged |
| Handler.GetAfterToggle | cmd/certview/handler.go:1401-1411 | after a toggle, while the handler neither restarts nor toggles that certificate again: a get on the administrator's listener that looks up after the purge is a computation begun after it, and from the purge on the table of the handler's history has the new trust |
| Provenance.TrustLasts | internal/store/store.go:547-561 | what the administrator decided last of a certificate holds through everything but a restart and the next decision on it |
| Handler.StoreIsJustified | cmd/certview/handler.go:978-1050 | in every state the handler reaches, every pool row, trusted row, CRL row and OCSP row is justified |
| HostPort.PrintThenParse | cmd/certview/site.go:280-322 | for every normalised host and port 1 to 65535 parsing undoes printing |
| HostPort.PrintIsInjective | web/index.html:716-721 | different sites have different printed forms |
| HostPort.MappedToNothing | cmd/certview/site.go:307-321 | a name IDNA maps to nothing is accepted with an empty host, whose printed form is refused |
| HostPort.AcceptedIff | cmd/certview/site.go:280-322 | exactly what is accepted, and as which site: "[address]" or a host, with a port from 1 to 65535 or none for 443; any other port is refused |
| HostPort.PrintedForm | web/index.html:716-721 | the port of https is left out, any other is printed in decimal |
| HostPort.ParseThenPrint | cmd/certview/site.go:280-322 | what was parsed re-parses from its printed form exactly when its host is not empty |

## Left out

- Blocking protocols (`CRLGate`, and the waits of `SharedDownloads` and `RespCache`) are step systems on values: a Dafny method cannot wait for a channel. What runs under a mutex is a class method proved equal to the step.
- CRLGate: the number of loop iterations an analysis still has ahead is a finite but arbitrary number of its state.
- CRLStore.Store.SaveCRL: calls are serialised; the source runs several statements without a transaction.
- Provenance and Handler: the handler's operations are serialised; an administrator's action between the trust checks of one path and its saves is not modelled, and what one analysis offers is stored after its revocation loop instead of inside it (what later reads of the store answer is arbitrary either way).
- Handler.Handler.AnalyzeData: cached CRLs, CRLs by issuer and stored OCSP responses are arbitrary answers of the store.
- Handler.Handler.AnalyzeData: an error of the verifier call is a status other than ok; the source then also skips the revocation summary.
- Handler.Handler.ToggleTrust: the caches of the other listeners are not part of the model, as the source purges only those of the administrator's own.
- HostPort: IDNA, address parsing and case folding are functions assumed to print what parses back, to give names without colons and brackets, and to be idempotent; an integer too large for strconv.Atoi is out of range instead of a syntax error, an error either way.
- Reading DER elements follows section 8.1.3 of X.690 up to 32-bit lengths; golang.org/x/crypto/cryptobyte is not part of this model.
- HandlerSpec.OkChecksPath: the wrapper of the verifier leaves out certificates of a path whose fields it cannot read; here a path is complete, as everything given to the verifier was parsed before.
- CertStore.Store.FindIssuers: the query returns the pool part before the archive parts, as SQLite evaluates UNION ALL; ties in ORDER BY are by id.
- The reasons shown for an undetermined revocation, warnings, JSON shapes and logging.
- Migrations, indexes, the HTTP handlers and the web page beyond canonicalSiteString.
- `acquireBig`, the watchdog, the idle-timeout transport and TLS probing: input and output plumbing.
- Key usage and reason names, thumbprint formatting, the SSRF prefix tables: tables with only easy properties.
