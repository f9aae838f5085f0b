# CUSTOS evidence machinery, verified

CUSTOS decides what an agent may do and leaves evidence of every decision. This project models the
part that produces and checks the evidence, and proves what every run of it keeps:

- **Audit chain** (`AuditRecords`, `AuditChain`, `Writers`): versioned hash preimages, one tenant's
  hash chain, and any number of processes appending over one store whose unique index on
  (tenant, previous hash) is their only coordination.
- **External custody** (`Custody`, `Sinks`, `Anchoring`, `CustodyRuns`, `MemorySinkRuns`, `SinkRuns`): the
  six-verdict re-walk, anchors with outage gaps and policy commits emitted into any number of sinks, and
  whole honest runs of both. A sink either persists everything as it takes it, as the interface says, or
  keeps the latest file per tenant and epoch, as the git sink does, or keeps the anchor objects, as the
  in-memory sink does.
- **Retention** (`Retention`, `RetentionRuns`): bodies, purges, attestations, and what comparing a
  chain and a store from different restore points reports.
- **Policy** (`Luhn`, `PolicyEngine`, `Strings`, `PolicyCitation`): the regex, OPA and hybrid engines as
  meets of opinions, and the canonical digest a record cites.
- **Action gate** (`Gate`, `GateRuns`, `GateVerdicts`): the decision, its cached citation, the commitment made
  before the citation, and runs of the gate, under any outages, against the P5 and P6 verdicts.
- **Mediated calls** (`Proxy`, `ProxyRuns`): the circuit breaker, and proxy, gate workers, timeouts,
  exceptions, cancellations and corrective records interleaved in any order.
- **Rate limiting, replay, timestamps** (`RateLimiter`, `Replay`, `Der`).

`Base` holds the shared vocabulary. Hashing and JSON serialization are parameters (`Base.Hashing`): no
result assumes that collisions do not exist. Where one could break a result, the conclusion names the
two values, taken from the evidence at hand, that would have to collide. JSON objects are maps, which is
what `sort_keys=True` makes of them. `re.search` is an uninterpreted function from pattern and content to
an optional match. Clocks, salts, trace identifiers, sink availability and store faults are inputs; OPA
is any function from what a query tells it to an answer. Objects the source updates in place are classes;
each method is proved against a function or relation on values, and the runs are runs of those values.

## What the proofs found

These are places where the code does less than its comments or documentation suggest. The model follows
the code; each is stated exactly in the member named.

- An anchor refused by one of several sinks is offered again under the same epoch. A sink that persists
  everything then holds two anchors of one epoch and reports CONTRADICTION with nobody having tampered
  (`CustodyRuns.HonestRunVerdicts`, `CustodyRuns.TwoSinksBreakTheAnchorChain`). The git sink overwrites the
  refused one and is not harmed by any outage (`CustodyRuns.ReplacingSinkVerdicts`).
- The in-memory sink keeps the anchor object, whose gap is the manager's own dictionary. An anchor it takes
  during an outage while another sink refuses it is changed after it was sealed, and P3 fails with no
  epoch reused (`MemorySinkRuns.MemorySinkVerdicts`, `MemorySinkRuns.RefusedElsewhereIsRewritten`).
- The git sink stores a head anchor and a policy commit of one tenant and epoch in one file, and both
  count their epochs from one. A first anchor taken after a first commitment erases it, and P6 fails; a
  first commitment taken after a first anchor erases that, and P3 fails once a second anchor lands
  (`SinkRuns.AnchorOverwritesCommit`, `SinkRuns.CommitOverwritesAnchor`; exactly when, in
  `SinkRuns.ReplacingSinkRun` and `SinkRuns.CitationVerdicts`).
- An anchor of the empty chain, which a forced attempt can offer, makes P2 fail for as long as it is shown
  (`CustodyRuns.EmptyAnchorFailsP2`, `CustodyRuns.HonestRunVerdicts`, `SinkRuns.ReplacingSinkRun`).
- Hybrid mode tells OPA what the regex engine found. An appended AUDIT rule that hits where nothing did can
  therefore loosen a decision (`PolicyEngine.AddedRuleTightensHybridIff`, `PolicyEngine.AuditRuleLoosensHybrid`),
  and two policies with one digest can be told apart by the order of their AUDIT rules
  (`GateRuns.SameDigestSameAction`, `GateRuns.OrderIsHeard`).
- A probe that raises, or whose caller is cancelled, with nothing else in flight shuts the proxy for ever
  (`ProxyRuns.WedgedIffNeverAskedAgain`); the comment only considers a probe that answers or times out.
- `reconciled=True` is reported whether or not the corrective record was written
  (`ProxyRuns.ReconciledFlagSaysNothing`).
- An allowed call that brings nothing to forward with is reported as forwarded (`Proxy.McpProxy.CallTool`).
- With a pinned OPA or hybrid engine the cited digest goes stale when a rule is added
  (`GateRuns.PinnedCitationGoesStale`). Whatever fills the cache without committing, a reconciled refusal, a
  call of `cited_policy_digest` as at every startup, or an evaluation some sink refuses, followed by a new
  rule and an evaluation makes the log fail P5 (`GateVerdicts.CacheThenChange`; exactly when, in
  `GateVerdicts.GateRunVerdicts`).
- A reconciled refusal cites a digest without committing it, and so does every content decision, rate limit
  and purge, which cite the policy over no tools at all: P6 fails exactly when nothing commits the digest
  all the same (`GateVerdicts.GateRunVerdicts`, `GateVerdicts.ReconciliationFailsP6`,
  `GateVerdicts.ContentDecisionIsUncommitted`).
- Importing a purged body through the legacy path resurrects it, and it can never be purged again
  (`RetentionRuns.ResurrectedIff`, `RetentionRuns.ResurrectionIsPermanent`).
- An unscoped writer leaves a store in which the rows it wrote do not start at GENESIS
  (`Writers.UnscopedWriterLeavesNoChain`).
- `evaluate_with_metadata` drops OPA's audit flag (`PolicyEngine.MetadataDropsAuditFlag`), and the two OPA
  readings of `allow` differ (`PolicyEngine.HybridAdmitsMore`).
- The timestamp nonce is read back negative whenever its bit length is a positive multiple of eight
  (`Der.NonceAsInteger`).
- A request that asks for more tokens than the quota is told to wait for ever
  (`RateLimiter.UnsatisfiableNeverAdmitted`).

## Model

| member | source | states |
|---|---|---|
| AuditRecords.PreimageBindsExactly | custos/audit.py:492-538 | two records of implemented versions have equal preimages if and only if they agree on the version class and on every field that version binds (absent and empty citation, tenant and trace being one value) |
| AuditRecords.RelabellingNeedsCollision | custos/audit.py:492-544 | moving a record between versions, or editing any bound field, while keeping its hash takes a collision between the two preimages |
| AuditChain.ChainExtend | custos/audit.py:612-646 | a record that names the head and hashes to itself extends a chain that verifies |
| AuditChain.HashesDistinct | custos/audit.py:689-713 | in a chain that verifies no two record hashes are equal and none is GENESIS, unless two of its own records collide or one is a preimage of GENESIS |
| AuditChain.AuditStore.Save | custos/audit.py:250-279 | a row is inserted exactly when the store is healthy and no row of that tenant names the same predecessor; a full store, another fault and a fork each give their own error and change nothing; the unique index survives |
| AuditChain.AuditStore.LoadAll | custos/audit.py:281-305 | a scoped backend loads exactly its tenant's rows in insertion order, an unscoped one loads all |
| AuditChain.EntryExtends | custos/audit.py:582-651 | what `record` builds over the head of a chain that verifies makes a chain that verifies |
| AuditChain.EntryReads | custos/audit.py:612-646 | the record of a draft field by field: the time of writing, binding version 2, the draft's own values, the chain's tenant where none is given |
| AuditChain.HashBindsDraft | custos/audit.py:492-646 | two records that `record` writes have one hash only if predecessor, time, client, action, rule, reason, content digest, citation, tenant, trace and retention form all agree, or their preimages collide |
| AuditChain.RefusalReads | custos/audit.py:582-651 | each refusal happens under exactly its own condition, in the source's order: unknown form, other tenant, missing citation or trace where they are required, full store, other fault, predecessor already named |
| AuditChain.Chain.constructor | custos/audit.py:550-580 | a chain starts from the records it loaded |
| AuditChain.Chain.Record | custos/audit.py:582-651 | refused as above, with neither store nor memory changed; otherwise the same record is appended to both: version 2, at the time given, naming the last record's hash or the genesis value, hashing to itself, and with citation and trace where they are required |
| AuditChain.Chain.AppendReconciliation | custos/audit.py:653-687 | trace and rule are required; the appended record is a DENY with that trace, rule, tenant and citation, commitment `none`, sealed over the head |
| AuditChain.Chain.Verify | custos/audit.py:689-713 | accepts exactly the chains; otherwise reports the first bad record, all before it forming a chain, and never reports an unimplemented version as an invalid hash |
| AuditChain.Open | custos/audit.py:216-222 | opening is refused exactly for a store that already forks, or for an unscoped chain over several tenants; otherwise memory holds the tenant's rows |
| Writers.RunsKeepOneChainPerTenant | custos/audit.py:550-651 | over every run of any number of writers opening, appending, being refused or meeting a full store, each tenant's rows are one unforked chain from GENESIS and each writer's list is a prefix of its tenant's rows |
| Writers.ForkRefusalMeansStale | custos/audit.py:250-279 | in every reachable state a well-formed append to a healthy store is refused as a fork if and only if the writer lags its tenant's rows, or the chain exhibits a collision or a preimage of GENESIS |
| Writers.HeadIsFresh | custos/audit.py:216-222 | no row of a tenant names the tenant's current head, unless the chain exhibits a collision or a preimage of GENESIS |
| Writers.ReopenRestoresProgress | custos/audit.py:582-651 | a writer that reopens its chain has its next well-formed append accepted as the tenant's next row |
| Writers.UnscopedWriterLeavesNoChain | custos/audit.py:550-580 | an unscoped writer over one tenant's rows leaves a chain under the empty tenant if and only if that tenant's head happened to be GENESIS |
| Custody.WalkRecords | custos/custody.py:605-622 | the P1 loop computes the recomputed digests, raises exactly when an unimplemented version is met on a linked record, and answers ESTABLISHED exactly for a chain |
| Custody.WalkAnchors | custos/custody.py:624-646 | P3 is ESTABLISHED exactly when epochs ascend strictly and every anchor links to the one before and hashes to itself |
| Custody.MatchHeads | custos/custody.py:648-669 | P2 is ESTABLISHED exactly when every anchor's head is the recomputed digest at its length |
| Custody.LongestAnchor | custos/custody.py:671-688 | the greatest anchored length, attained and not exceeded |
| Custody.CheckCommits | custos/custody.py:690-714 | P5 is ESTABLISHED exactly when every policy commit hashes to itself and its canonical text hashes to its digest |
| Custody.CheckCitations | custos/custody.py:716-734 | P6 is absent when nothing is cited, and otherwise ESTABLISHED exactly when every citation is committed for the citing tenant |
| Custody.VerifyCustody | custos/custody.py:574-745 | the whole report equals the declarative verdicts, for every copy and every log |
| Custody.RecomputedReads | custos/custody.py:605-622 | each recomputed digest is what the record hashes to, or, where it does not name the digest before it, what the copy claims |
| Custody.RaisesIff | custos/custody.py:605-622 | the re-walk raises exactly when it meets a record of a version above 2 that names the digest before it |
| Custody.HeadVerdictsRead | custos/custody.py:605-688 | without a head anchor P2, P3 and P4 are CANNOT_ESTABLISH; with one, P2 is ESTABLISHED exactly when every anchored head is the recomputed digest at its length, and P4 CONTRADICTION exactly when some anchored length exceeds the copy |
| Custody.AnchorVerdictReads | custos/custody.py:624-646 | P3 is ESTABLISHED exactly when the anchors in ascending order climb strictly from at least one, each names the hash of the one before or the genesis value, and each hashes to itself |
| Custody.CommitVerdictReads | custos/custody.py:690-714 | P5 is absent exactly without a commitment, and CONTRADICTION exactly when one does not hash to itself or its text does not hash to its digest |
| Custody.CitationVerdictReads | custos/custody.py:716-734 | P6 is absent exactly when nothing is cited, and CONTRADICTION exactly when some record cites a digest with no commitment for its tenant, or its client where it names no tenant |
| Custody.OverallReads | custos/custody.py:736-741 | overall is CONTRADICTION exactly when some reported verdict is, and ESTABLISHED exactly when every one is, so never without a head anchor |
| Custody.AnchorHashBinds | custos/custody.py:71-84 | two anchors with one hash agree on every other field, the gap included, or collide |
| Custody.CommitHashBinds | custos/custody.py:117-130 | so do two commitments; and no commitment and anchor are ever hashed from one value |
| Custody.ExternalAgreesWithInternal | custos/custody.py:605-622 | external P1 is ESTABLISHED if and only if the chain's own `verify` accepts, for records of any version |
| Custody.MatchingHeadsMeanComplete | custos/custody.py:648-688 | P2 ESTABLISHED implies P4 ESTABLISHED, across the separate loops |
| Custody.AgreeDownFrom | custos/custody.py:605-622 | from an equal digest at one place two chains agree on digests and bound fields all the way down, or collide at some place |
| Custody.EstablishedMeansUntampered | custos/custody.py:574-688 | P1 and P2 ESTABLISHED against an anchor of an honest chain at length L imply agreement with it on every bound field of the first L records, or a collision between records in the same place |
| Custody.TamperingContradicts | custos/custody.py:574-745 | any copy that differs below L gets overall CONTRADICTION, or the walk refuses an unimplemented version, or there is such a collision |
| Sinks.KeepsAllHoldsAll | custos/custody.py:156-172 | a sink that persists what it is handed, as the interface describes it, holds everything it took, in order |
| Sinks.HeldMembers | custos/custody.py:226-246 | a sink holds exactly the entries it took whose file no later entry of the same tenant and epoch was written to; a sink that persists everything replaces none |
| Sinks.LatestIsOnePerPath | custos/custody.py:257-268 | reading the git sink back gives one entry per tenant and epoch |
| Anchoring.AnchorManager.constructor | custos/custody.py:352-369 | a new manager has no state, an empty queue and sinks that have taken nothing |
| Anchoring.OfferReads | custos/custody.py:480-486 | a sink has the entry exactly when it returned normally, or writes files and failed only afterwards; an offer lands exactly when every sink returned normally |
| Anchoring.NextAnchorReads | custos/custody.py:467-478 | the anchor offered, field by field, the pending gap's members included |
| Anchoring.AfterAttemptReads | custos/custody.py:487-504 | a landed attempt sets epoch, length, hash and time and clears the gap; a refused one changes only the gap, by one attempt more |
| Anchoring.TurnReads | custos/custody.py:389-395 | one tenant's head is offered exactly when forced or advanced by at least anchor_n, and counts as anchored exactly when that landed everywhere |
| Anchoring.RoundReads | custos/custody.py:386-395 | after a round no tenant whose sinks were all up lags by anchor_n or more; a forced or sufficiently advanced head added exactly one anchor of its length and hash to every sink that was up; any other added nothing and left its state alone |
| Anchoring.DrainAddedReads | custos/custody.py:411-430 | a drain hands each sink each queued commit at most once, in the queue's order |
| Anchoring.AnchorManager.Offer | custos/custody.py:480-486 | every sink that takes the entry stores it the way its kind does, a git sink even when it then raises; no other sink changes; landing means every sink returned normally |
| Anchoring.AnchorManager.Emit | custos/custody.py:467-504 | one anchor of the next epoch is offered to every sink; the tenant's state advances exactly when all took it, otherwise only its gap grows |
| Anchoring.AnchorManager.EmitPolicyCommit | custos/custody.py:432-465 | one commit, the next of its tenant's commit chain, is offered; when it lands every sink has taken a sound commitment of that digest and the chain advances, otherwise no state does |
| Anchoring.AnchorManager.QueuePolicyCommit | custos/custody.py:397-409 | the commit joins the end of the queue |
| Anchoring.AnchorManager.DrainPolicyCommits | custos/custody.py:411-430 | each queued commit is offered exactly once, in order, on its tenant's commit chain; the refused stay queued in order, every sink has taken the others; what each sink takes is exactly that; clean means nothing is left |
| Anchoring.AnchorManager.AnchorIfDue | custos/custody.py:386-395 | one tenant is anchored exactly when forced or when its chain has advanced far enough since its last landed anchor |
| Anchoring.AnchorManager.AnchorDue | custos/custody.py:386-395 | a round drains the commits first, then gives every tenant exactly its own turn: states and what every sink takes are those turns' and nothing else; afterwards no tenant whose sinks were all up lags by anchor_n or more |
| CustodyRuns.ManagerState | custos/custody.py:467-504 | over every run into any number of sinks the epoch counts the attempts that landed everywhere and the pending gap describes exactly the failures since the last of them |
| CustodyRuns.AnchorsCover | custos/custody.py:467-504 | every anchor a sink takes names the head the chain had at that length; the empty chain is anchored exactly when an attempt is taken before the first append |
| CustodyRuns.RepeatBreaksAnchorChain | custos/custody.py:624-646 | however a log is sorted, two anchors of one epoch make P3 fail |
| CustodyRuns.ReusedRepeats | custos/custody.py:476-504 | a sink that takes an anchor after one that some other sink refused has taken one epoch twice |
| CustodyRuns.HonestRunVerdicts | custos/custody.py:574-688 | at a sink that persists everything as it takes it, over every run of appends and attempts into n sinks of either kind, any of them down at any attempt: P1 holds, P4 holds once an anchor was taken, P3 is ESTABLISHED if no epoch was reused at that sink and CONTRADICTION otherwise, and P2 likewise by whether the empty chain was anchored |
| CustodyRuns.SingleSinkRun | custos/custody.py:386-504 | with one sink that persists everything and no anchor of the empty chain P1 to P4 are ESTABLISHED, the epochs are exactly 1..k in order, and the attempts in the landed gaps and the pending one add up to the failed attempts |
| CustodyRuns.TwoSinksBreakTheAnchorChain | custos/custody.py:476-497 | a three-event run after which the untampered log of a sink that persists everything fails P3 |
| CustodyRuns.EmptyAnchorFailsP2 | custos/custody.py:386-395 | a forced anchor of the empty chain makes P2 CONTRADICTION at such a sink, whatever is appended and anchored afterwards |
| MemorySinkRuns.StaysRemembered | custos/custody.py:467-504 | over every run the in-memory sink's list is what it took, each anchor sealed over the gap it refers to as that read then, and some anchor has aged if and only if the sink took one that another sink refused while a gap was pending |
| MemorySinkRuns.ShowsWhatItTookIff | custos/custody.py:184-188 | what the in-memory sink shows is what it took if and only if that did not happen |
| MemorySinkRuns.MemorySinkVerdicts | custos/custody.py:574-688 | at the in-memory sink, with any commits among the anchors: P1, P2 and P4 as at a sink that persists everything, P3 ESTABLISHED if no epoch was reused and no gap rewritten and CONTRADICTION otherwise, unless an anchor as sealed and as it reads now collide |
| MemorySinkRuns.RefusedElsewhereIsRewritten | custos/custody.py:476-497 | two sinks, an attempt both refuse, an attempt the in-memory sink alone takes: no epoch reused, and P3 CONTRADICTION, unless the two readings of the anchor collide |
| CustodyRuns.LadderStaysOk | custos/custody.py:467-504 | whatever was refused, the last anchors a sink took of each epoch form an anchor chain of epochs 1..k, at most one ahead of the manager, and account for every failed attempt |
| CustodyRuns.FilesAreTheLadder | custos/custody.py:226-268 | a file-per-epoch sink handed only head anchors shows exactly those |
| CustodyRuns.ReplacingSinkVerdicts | custos/custody.py:226-268 | so at such a sink no outage, and no git failure after the file is written, breaks P1, P3 or P4; its epochs are exactly 1..k and its gaps with the pending one add up to the failed attempts |
| SinkRuns.StaysInStep | custos/custody.py:432-504 | with policy commits mixed in, the head anchors are those of the run without them, and each epoch counter is the number of its landed entries |
| SinkRuns.CommitsChain | custos/custody.py:432-465 | the commitments form a chain of their own: each names the hash of the last one that landed, or the genesis value, and carries the next epoch |
| SinkRuns.ShownIsSurvivors | custos/custody.py:226-268 | after any run a sink shows exactly the entries it took that no later entry of the same epoch, of either kind, replaced |
| SinkRuns.ShownStaysOnLadder | custos/custody.py:226-268 | an anchor still shown is the last one taken of its epoch |
| SinkRuns.ReplacingSinkRun | custos/custody.py:574-688 | at a file-per-epoch sink after any run of appends, anchors and commits under any outages: P1 and P4 hold, P2 is ESTABLISHED if no anchor of the empty chain survives and CONTRADICTION otherwise, P3 likewise by whether under every surviving anchor one of each lower epoch survives, unless anchors collide |
| SinkRuns.CitationVerdicts | custos/custody.py:690-734 | at either kind of sink P5 holds if and only if every surviving commitment's text hashes to its digest, and P6 if and only if every citation's digest was committed by an entry that survives |
| SinkRuns.SeparateEpochsAreSafe | custos/custody.py:432-504 | while no head anchor and commit taken by a sink share an epoch, its anchor chain has no holes and every landed commitment survives |
| SinkRuns.AnchorOverwritesCommit | custos/custody.py:226-246 | commit a policy, cite it, anchor the chain: one healthy git sink, P6 CONTRADICTION |
| SinkRuns.CommitOverwritesAnchor | custos/custody.py:226-246 | anchor, commit, anchor again: one healthy git sink, P3 CONTRADICTION, unless anchors collide |
| SinkRuns.KeepingSinkRun | custos/custody.py:574-688 | at a sink that persists everything commits change none of the four head-anchor verdicts |
| SinkRuns.EmitIsAttempt | custos/custody.py:467-504 | what the manager's emission method promises is one step of these runs |
| SinkRuns.EmitPolicyCommitIsCommitting | custos/custody.py:432-465 | what its commit emission promises is one step of these runs |
| SinkRuns.OtherTenantsUnseen | custos/custody.py:226-246 | what the manager offers for other tenants changes nothing in the books of this one |
| SinkRuns.PathsStayApart | custos/custody.py:226-246 | what a sink holds of one tenant depends only on what it took of that tenant |
| Retention.MarkersSeparateForms | custos/retention.py:399-415 | a salted commitment is never digested from the text of an unsalted one |
| Retention.CommitmentTextBinds | custos/retention.py:399-412 | under salts of at least 32 bytes two salted commitments digest one text if and only if salt prefixes and bodies agree, two unsalted ones if and only if the bodies do |
| Retention.FormReads | custos/retention.py:177-210 | the form bound for a digest is the stored one, `purged-v1` if deleted, `none` if never held |
| Retention.ContentStore.Put | custos/retention.py:138-175 | a held body is kept as it was, a purged one refused, any other stored under the given salt with the salted commitment to it; exactly that and nothing else |
| Retention.ContentStore.PutLegacy | custos/retention.py:212-234 | an unheld body is stored unsalted without consulting the purges |
| Retention.ContentStore.PutAndRecord | custos/retention.py:177-210 | the record binds the digest of a body the store holds and the form it is held in; a refused record leaves the body |
| Retention.ContentStore.Purge | custos/retention.py:236-302 | the body is deleted and a purge row written exactly when the body is held and no purge row stands in the way, whether or not the chain accepts the attestation; exactly when it does, the row names the attesting record |
| Retention.RecordDecision | custos/retention.py:567-680 | recorded exactly when the chain accepts the draft, whatever the form; the record's commitment is the form the store holds the content in, or `none` when retention is off or the content was purged |
| Retention.Reconcile | custos/retention.py:475-564 | the findings are exactly the digests on which records and store disagree, each with its kind and the indexes of the claiming records, and no digest twice |
| Retention.FindingReads | custos/retention.py:475-564 | which finding a digest gets, by what the store holds and the records claim and attest, and that it lists exactly the claiming records |
| Retention.ClaimIndexesRead | custos/retention.py:508-522 | the indexes listed are exactly those of the records that claim a stored form for the digest, in ascending order |
| RetentionRuns.DeletedOnce | custos/retention.py:236-302 | over any run of decisions, legacy imports and purges a digest is deleted at most once |
| RetentionRuns.SplitRestore | custos/retention.py:475-564 | over any run, chain restored to time i and store to time j: body-missing exactly for digests claimed by i and first stored in [j, i); unattested-purge exactly for digests claimed by i, not held at j and deleted before j, at or after i or unattested; uneffected-purge exactly for digests held at j whose deletion before i was attested |
| RetentionRuns.SplitRestoreWindows | custos/retention.py:475-564 | for a digest no legacy import brought back, those are the windows between the two times |
| RetentionRuns.SameTimeReport | custos/retention.py:475-564 | at i = j exactly two things are reported: an unattested deletion of a claimed digest that was not brought back, and an attested deletion of one that was |
| RetentionRuns.ResurrectedIff | custos/retention.py:212-234 | after any run a digest is both held and purged if and only if it was imported through the legacy path after it was deleted |
| RetentionRuns.ResurrectionIsPermanent | custos/retention.py:236-302 | no later operation removes a resurrected body, and an attested purge of it is reported uneffected at every later time |
| RetentionRuns.ChainStillVerifies | custos/retention.py:177-302 | through any run of decisions, imports and purges the chain verifies |
| RetentionRuns.RecordDecisionIsDecision | custos/retention.py:567-680 | what recording a decision with a store promises is one step of these runs |
| RetentionRuns.PutAndRecordIsLegacy | custos/retention.py:177-234 | what a legacy import promises is one step of these runs |
| RetentionRuns.PurgeIsPurgeOf | custos/retention.py:236-302 | what a purge promises, refused, attested or not, is one step of these runs |
| Luhn.LuhnValid | custos/policy_engine.py:40-53 | the loop accepts exactly the strings of 13 to 19 digits whose checksum is a multiple of ten |
| Luhn.ChecksumFromRight | custos/policy_engine.py:44-52 | counted from the right, the last digit weighs itself and the one before it twice itself with the digits added, and so on alternately |
| Luhn.CheckDigitCompletes | custos/policy_engine.py:40-53 | a number of 12 to 18 digits is accepted with exactly one digit appended, its check digit, and no number outside 13 to 19 digits is |
| Luhn.SingleDigitErrorCaught | custos/policy_engine.py:40-53 | changing any one digit of an accepted number makes it rejected |
| Luhn.NeighbourSwap | custos/policy_engine.py:40-53 | swapping two distinct neighbours of an accepted number is missed if and only if they are 0 and 9 |
| PolicyEngine.EvaluateIsMeet | custos/policy_engine.py:142-185 | the regex engine decides the meet (DENY below AUDIT below ALLOW) of all rules that hit, and a restriction names a rule of that action that did hit |
| PolicyEngine.EvaluateNamesFirst | custos/policy_engine.py:142-185 | the rule named, with its reason, is the first DENY rule that hits, or, where none does, the first AUDIT rule that does |
| PolicyEngine.HitsReads | custos/policy_engine.py:150-162 | a rule hits when its pattern is found, and the card-number rule, alone, only if the digits found pass the check |
| PolicyEngine.OrderIrrelevant | custos/policy_engine.py:142-185 | the action depends on which rules are in force, not on their order or number |
| PolicyEngine.AddedRuleTightens | custos/policy_engine.py:142-189 | appending a rule changes the action to its meet with that rule's opinion |
| PolicyEngine.OpaIsMeet | custos/opa_engine.py:46-131 | OPA mode is the meet of the local rules and OPA, silence counting as DENY; a local DENY is returned untouched and every other restriction names its cause |
| PolicyEngine.HybridIsMeet | custos/hybrid_engine.py:49-139 | hybrid mode is the meet of the regex engine and OPA, silence counting as ALLOW; where OPA adds nothing the regex result is returned untouched |
| PolicyEngine.AnswerReads | custos/opa_engine.py:80-116 | OPA mode authorizes on the literal true, hybrid mode on anything Python holds true, and only the literal true flags for audit |
| PolicyEngine.OpaNames | custos/opa_engine.py:86-131 | the rule and reason OPA mode gives in every ending |
| PolicyEngine.HybridNames | custos/hybrid_engine.py:90-139 | the rule and reason hybrid mode gives wherever it does not return the regex result |
| PolicyEngine.AddedRuleTightensRegexAndOpa | custos/opa_engine.py:46-170 | appending a rule loosens neither the regex engine nor, whatever OPA answers to a query that does not carry the local result, OPA mode |
| PolicyEngine.HybridStricterIff | custos/hybrid_engine.py:69-139 | for one regex result hybrid mode is at least as strict as for another under every OPA policy if and only if they are the same result or the first is a denial |
| PolicyEngine.AddedRuleTightensHybridIff | custos/hybrid_engine.py:69-139 | appending a rule loosens hybrid mode under no OPA policy if and only if it is not an AUDIT rule that hits where no rule did |
| PolicyEngine.AuditRuleLoosensHybrid | custos/hybrid_engine.py:69-139 | the failing input: DENY before, AUDIT after |
| PolicyEngine.DeafServerTightens | custos/hybrid_engine.py:69-139 | an OPA policy whose opinion does not weaken with the regex result is never loosened by an appended rule |
| PolicyEngine.MetadataDropsAuditFlag | custos/opa_engine.py:172-247 | the two OPA entry points disagree on the action if and only if OPA authorizes with its audit flag set and no local rule restricts, and differ at all only if OPA authorizes with its audit flag set |
| PolicyEngine.HybridAdmitsMore | custos/hybrid_engine.py:49-139 | hybrid mode admits what OPA mode refuses if and only if OPA is silent or unreadable, or `allow` is truthy without being true |
| Strings.SortCanonical | custos/policy_citation.py:38-50 | two lists sort to one list if and only if they hold the same strings equally often |
| Strings.SortSetCanonical | custos/policy_citation.py:38-50 | two sets sort to one list if and only if they are equal |
| Strings.LeReads | custos/policy_citation.py:38-50 | the order sorted by: at the first place where two strings differ the smaller character decides, and a prefix comes first |
| PolicyCitation.RulesJsonCanonical | custos/policy_citation.py:53-62 | two rule lists have one canonical value if and only if they have the same rule texts equally often |
| PolicyCitation.CitationCanonical | custos/policy_citation.py:72-98 | two policies have one canonical value if and only if tools, rule texts, engine and, beyond the regex engine, pin agree |
| PolicyCitation.CitationReads | custos/policy_citation.py:72-98 | the canonical value member by member |
| PolicyCitation.RuleReads | custos/policy_citation.py:29-35 | the value serialized for a rule member by member |
| PolicyCitation.CitesNothingIff | custos/policy_citation.py:125-143 | no digest is cited exactly when the engine is not the regex engine and the pin is absent or empty; otherwise it is the hash of the canonical text |
| PolicyCitation.NoClash | custos/policy_citation.py:29-35 | serialization that tells JSON values apart tells rules apart |
| PolicyCitation.DigestDeterminesPolicy | custos/policy_citation.py:125-143 | equal digests mean equal tools, equal rules, equal engine and pin, or a collision of the two canonical values, or two rules with one text |
| PolicyCitation.RuleSet.constructor | custos/policy_engine.py:138-140 | the engine starts with its rules and an empty digest cache |
| PolicyCitation.RuleSet.AddRule | custos/policy_engine.py:187-189 | the rule is appended and the cached digest stays valid |
| PolicyCitation.RuleSet.CurrentDigest | custos/policy_engine.py:207-217 | the digest returned is always that of the rules in force |
| PolicyCitation.RuleSet.EvaluateContent | custos/policy_engine.py:142-185 | the loop computes the first DENY hit, else the first AUDIT hit, else ALLOW |
| Gate.AdmittedIff | custos/action_gate.py:358-445 | an action is admitted if and only if its tool is allowlisted, no dangerous-command row matches and the engine admits it; otherwise the first of the three to refuse names the reason |
| Gate.FirstDangerIsFirst | custos/action_gate.py:407-409 | the dangerous-command row that decides is one that matches with none before it matching |
| Gate.FewerToolsTighten | custos/action_gate.py:378-431 | removing tools never loosens the gate's answer to any request |
| Gate.AddedRuleTightensGateIff | custos/action_gate.py:378-431 | appending a rule loosens the gate's answer to a request under no OPA policy if and only if it is not the case that a hybrid engine is reached and an AUDIT rule hits where no rule did |
| Gate.DecisionIsCoherent | custos/action_gate.py:378-431 | a decision is allowed exactly when its action is not DENY, with every engine and any OPA answer |
| Gate.ActionGate.constructor | custos/action_gate.py:140-151 | a new gate allowlists nothing and remembers nothing |
| Gate.ActionGate.RegisterTools | custos/action_gate.py:153-156 | the tenant's tools are replaced and its cached digest dropped; other tenants are untouched |
| Gate.ActionGate.CitedPolicyDigest | custos/action_gate.py:181-198 | the digest returned is the cached one exactly when the key matches, otherwise the recomputed one, and the cache then holds it under the current key |
| Gate.ActionGate.DigestInForce | custos/action_gate.py:200-210 | the digest an evaluation would cite now, None for an unknown tenant; the cache is filled and nothing is committed or recorded |
| Gate.ActionGate.MaybeAnchorPolicyCommit | custos/action_gate.py:212-239 | nothing happens without custody, without a digest or for the digest last landed; otherwise its commitment is queued and the queue offered to every sink, the refused commits stay queued, and the digest is remembered exactly when none was refused, in which case every sink holds the commitment |
| Gate.ActionGate.CiteAndCommit | custos/action_gate.py:369-376 | citation and commitment together change the cache, the queue, the logs and the remembered digest as those two steps say and nothing else |
| Gate.ActionGate.RecordOutcome | custos/action_gate.py:304-356 | a sealed record of exactly this draft is appended when the chain accepts it, and nothing otherwise |
| Gate.ActionGate.Judge | custos/action_gate.py:385-431 | allowlist, dangerous commands and engine are consulted in that order |
| Gate.ActionGate.EvaluateFor | custos/action_gate.py:369-445 | for a known tenant the policy's decision is recorded, with its citation, exactly when the chain accepts it, and answered with the record's hash; unrecorded, an allow becomes a denial and a denial stands; cache, queue and logs change as citation and commitment say |
| Gate.ActionGate.EvaluateAction | custos/action_gate.py:358-445 | an unknown tenant is denied under action_gate_unknown_tenant and nothing changes; an allow is only ever answered for a known tenant and with the one record appended for it; otherwise as for a known tenant |
| Gate.AnswersRead | custos/action_gate.py:304-445 | recorded, the answer is the policy's and the record binds the request's text, client, trace, tenant, citation, decision in words, rule and reason; unrecorded, an allow becomes a denial under action_gate_record_unwritable and a denial stands |
| Gate.ActionGate.FindDanger | custos/action_gate.py:407-409 | the first matching row of the table |
| Gate.ActionGate.RecordReconciliation | custos/action_gate.py:261-302 | true is returned exactly when trace and rule are given and the chain accepts the record, and then a DENY with them, the reason, the content digest and the cited policy was appended; nothing is committed either way |
| GateRuns.CacheStaysOk | custos/action_gate.py:181-198 | over every run the cached entry is what some earlier prefix of the rules would have filled it with |
| GateRuns.RegexCitationIsFresh | custos/action_gate.py:181-198 | with the regex engine, after any run, the digest the gate cites equals a fresh computation, or an earlier rule list and the present one collide |
| GateRuns.PinnedCitationGoesStale | custos/action_gate.py:189-198 | with a pinned OPA or hybrid engine the cited digest is the current policy's if and only if no rule was added since the cache was filled, or the two canonical policies collide |
| GateRuns.GateCitesNothingIff | custos/action_gate.py:181-198 | over every run, cached or not, a gate cites no digest exactly when its engine is not the regex engine and the pin is absent or empty |
| GateRuns.SameDigestSameAction | custos/action_gate.py:358-445 | two tenants whose policies have one digest take the same action on a request under every OPA policy if and only if no hybrid engine flags it under different first rules, or the canonical policies collide, or two rules share a text |
| GateRuns.OrderIsHeard | custos/hybrid_engine.py:69-139 | two AUDIT rules in two orders: one digest, two actions |
| GateRuns.EveryRecordIsItsPolicysDecision | custos/action_gate.py:358-445 | with the regex engine every record an evaluation appends keeps its place, states the decision of the policy then in force and cites that policy's digest, or rule lists collide |
| GateRuns.DrainPolicyCommitsIsDraining | custos/custody.py:411-430 | what draining the queue promises is one act of these runs |
| GateRuns.OtherTenantsCommitIsOthers | custos/action_gate.py:212-239 | what another tenant's evaluation does to the queue and the sinks is one of the others' acts, if what it commits is honest |
| GateRuns.HeadAnchorIsOthers | custos/custody.py:467-504 | so is a head anchor |
| GateVerdicts.CitedIsQueuedOrTaken | custos/action_gate.py:212-239 | whatever the sinks refuse, a digest an evaluation cited with custody attached is from then on queued or taken by every sink; so once nothing is queued every sink has it |
| GateVerdicts.NextSoundIff | custos/action_gate.py:212-239 | one act under any outage leaves what a sink has taken and may yet take sound if and only if it was so before and the act does not commit a stale digest not committed before |
| GateVerdicts.SoundIffNeverStale | custos/action_gate.py:181-239 | over every run, whatever was refused, what a sink has taken and may yet take is sound if and only if no evaluation did so |
| GateVerdicts.CoveredIffAllCommitted | custos/action_gate.py:212-302 | over every run, against a log that has what each evaluation cited, every citation is committed if and only if every digest recorded without committing it is |
| GateVerdicts.GateRunVerdicts | custos/action_gate.py:181-302 | hence after any run of any engine under any outages, once nothing is queued, at a sink that persists everything: P1 is ESTABLISHED, P5 fails if and only if something was committed stale, P6 if and only if a digest recorded without committing it (reconciliation, evaluation without custody, another component) was not committed all the same |
| GateVerdicts.RegexNeverStale | custos/action_gate.py:181-198 | the regex engine never commits stale, unless an earlier rule list collides with the present one |
| GateVerdicts.HealthyRunsAreEstablished | custos/action_gate.py:181-239 | where only evaluations cite, `cited_policy_digest` is not called, and every evaluation finds the sinks up, P5 and P6 are ESTABLISHED (where there is anything to judge), for every engine, with no collision assumed away |
| GateVerdicts.GateRunAtReplacingSink | custos/action_gate.py:212-302 | at a file-per-epoch sink P5 fails if and only if an unsound commitment was not replaced, and P6 if and only if some citation was never committed, or was and every commitment of it was replaced |
| GateVerdicts.CacheThenChange | custos/action_gate.py:181-239 | a reconciliation, a call of `cited_policy_digest` or an evaluation some sink refuses; a new rule; an evaluation: P5 CONTRADICTION with a pinned OPA or hybrid engine, unless the two canonical policies collide |
| GateVerdicts.UncommittedFailsP6 | custos/custody.py:716-734 | a digest recorded without committing it makes P6 CONTRADICTION until something commits it |
| GateVerdicts.ReconciliationFailsP6 | custos/action_gate.py:261-302 | reconcile a refusal before anything is evaluated: P6 CONTRADICTION |
| GateVerdicts.ContentCitesTheGatesPolicyIff | custos/policy_citation.py:101-122 | what a content decision cites is what the gate cites if and only if no tool is allowlisted, or the two canonical policies collide |
| GateVerdicts.ContentDecisionIsUncommitted | main.py:733-742 | allowlist a tool, evaluate an action, decide on content, over healthy sinks: P6 CONTRADICTION, unless the two canonical policies collide |
| Proxy.McpProxy.constructor | custos/mcp_proxy.py:158-189 | a proxy with a limit of at least one and a non-negative cooldown starts with its breaker closed |
| Proxy.McpProxy.RecordAnswer | custos/mcp_proxy.py:289-299 | an answer closes the breaker; a timeout counts, and opens it for a cooldown at the limit; the probe flag is cleared |
| Proxy.McpProxy.BreakerDenies | custos/mcp_proxy.py:301-322 | denies while a probe is out or the cooldown runs; the first caller after it becomes the probe |
| Proxy.AfterAnswerReads | custos/mcp_proxy.py:289-299 | an answer forgets every timeout and closes the breaker; a timeout is one more and from the limit on opens it for one cooldown; either ends a probe |
| Proxy.AskingReads | custos/mcp_proxy.py:301-322 | a call is denied exactly while a probe is out or the cooldown runs; the first after it becomes the probe, one timeout short of the limit |
| Proxy.McpProxy.CallTool | custos/mcp_proxy.py:199-286 | the gate is asked unless the breaker denies; the call is forwarded, once, exactly on a literal true and if there is something to forward with; the outcome of every ending in full; and what each does to the breaker, an exception leaving it as the asking did |
| Proxy.StalledGateIsAskedRarely | custos/mcp_proxy.py:289-322 | against a gate that never answers one caller reaches it at most limit + floor(elapsed since first opening / cooldown) times |
| ProxyRuns.MediationIsRecorded | custos/mcp_proxy.py:199-286 | over every interleaving: a forwarded call's trace has exactly one gate record, an allow hashing to itself whose hash the caller got, and no corrective deny; a trace with a corrective deny was not forwarded; never two gate records or two corrective denies; no gate record for a call the breaker denied; the chain verifies |
| ProxyRuns.OnlyRecordedAllowIsForwarded | custos/mcp_gate_adapter.py:65-88 | through the adapter a decision leads to forwarding if and only if it is ALLOW and was recorded; AUDIT, which the engine allows, is refused |
| ProxyRuns.ReconciledFlagSaysNothing | custos/mcp_proxy.py:325-345 | the caller's outcome is the same whether the corrective record was written or lost |
| ProxyRuns.BreakerOverRuns | custos/mcp_proxy.py:289-322 | under any interleaving the breaker is open if and only if consecutive timeouts reached the limit, and a probe runs with it shut and one timeout short |
| ProxyRuns.BreakerTallies | custos/mcp_proxy.py:289-322 | read off the events of any interleaving: the breaker is open or probing exactly when the timeouts since the last answer have reached the limit, below that it has counted every one, and it is open for one cooldown from the last |
| ProxyRuns.CallReachesGateIff | custos/mcp_proxy.py:219-322 | so a call is kept from the gate exactly when the timeouts since the last answer have reached the limit and a probe is out or the cooldown after the last still runs; after an answer it always gets through |
| ProxyRuns.ProbeIsAlone | custos/mcp_proxy.py:301-322 | once a probe is admitted no other call reaches the gate until an answer or a timeout is recorded, whatever else happens |
| ProxyRuns.WedgedIffNeverAskedAgain | custos/mcp_proxy.py:265-271 | no continuation ever reaches the gate again if and only if a probe is out and nothing is waiting |
| ProxyRuns.UnansweredProbeWedges | custos/mcp_proxy.py:265-271 | a probe that raises or whose caller is cancelled, alone, leaves exactly that state |
| ProxyRuns.FreshProxyCanWedge | custos/mcp_proxy.py:289-322 | a four-event run from a new proxy with limit 1 that does so |
| ProxyRuns.EvaluateActionIsDecide | custos/mcp_gate_adapter.py:65-88 | what the gate's evaluation promises, passed through the adapter, is one step of these runs |
| ProxyRuns.RecordReconciliationIsReconcile | custos/mcp_gate_adapter.py:91-118 | what the gate's reconciliation promises is one step of these runs |
| ProxyRuns.BreakerMethodsAreSteps | custos/mcp_proxy.py:289-322 | what the breaker's methods promise is what starting, receiving and timing out do |
| RateLimiter.Limiter.constructor | custos/rate_limiter.py:36-39 | no client is registered at first |
| RateLimiter.Limiter.Register | custos/rate_limiter.py:41-44 | the client gets the quota and fresh windows, replacing what it had; others are untouched |
| RateLimiter.Limiter.Unregister | custos/rate_limiter.py:147-153 | quota and counters are removed together, and the answer says whether there were any |
| RateLimiter.Limiter.CheckAndConsume | custos/rate_limiter.py:46-78 | windows roll, then the first exceeded limit in order refuses without consuming, otherwise exactly one request and its tokens are consumed |
| RateLimiter.Limiter.RetryAfterSeconds | custos/rate_limiter.py:80-116 | nothing is consumed, and None is returned for a registered client if and only if a check at that instant would admit |
| RateLimiter.DecisionReads | custos/rate_limiter.py:46-78 | over windows of 60 and 3600 seconds: which exhausted counter gives which refusal, in order, and what an admission consumes |
| RateLimiter.WaitIsBoundedAndSufficient | custos/rate_limiter.py:80-116 | the wait is in 1..60 or 1..3600 by window, waiting it clears that window, and no smaller whole number of seconds, from one, does |
| RateLimiter.TwoWaitsSuffice | custos/rate_limiter.py:46-116 | refused, waiting as told, refused again and waiting again, each refused check leaving its windows rolled, a caller is then admitted |
| RateLimiter.UnsatisfiableNeverAdmitted | custos/rate_limiter.py:46-116 | a request above the token quota or under a non-positive quota is refused at every instant and still told to wait |
| RateLimiter.MeterIsAWindow | custos/rate_limiter.py:46-78 | each of the three counters, over any run, is a fixed window fed with what was admitted |
| RateLimiter.TwiceTheQuota | custos/rate_limiter.py:55-62 | a fixed window admits at most twice its quota in any half-open interval one window wide |
| RateLimiter.HorizonBound | custos/rate_limiter.py:55-62 | over a horizon ending at the last spend, at most quota times (floor(elapsed / width) + 1) |
| RateLimiter.AtMostTwiceTheQuota | custos/rate_limiter.py:46-78 | over any run without re-registration at most twice the quota is admitted per 60 s (requests, tokens) and per 3600 s (requests) |
| RateLimiter.AdmittedOverHorizon | custos/rate_limiter.py:46-78 | from registration to the last request at most quota times (floor(elapsed / width) + 1) is admitted |
| Replay.FindRecord | custos/replay.py:110-116 | a record found has the hash asked for and is in the chain; none is found exactly when no record has it |
| Replay.ReplayReads | custos/replay.py:59-108 | not found exactly when no record has the hash; otherwise action in words, rule and reason are what the engine now decides, and a match is agreement on action and rule |
| Replay.HashNamesOneRecord | custos/replay.py:110-116 | in a chain that verifies the search by a record's hash finds that record, unless records collide or one is a preimage of GENESIS |
| Replay.ReplayReproduces | custos/replay.py:59-108 | replaying under the same rules matches in full; under reordered rules the action agrees and the replay matches if and only if the rule named is the same |
| Replay.OnlyTheContentReplays | custos/replay.py:74-89 | supplied content is accepted if and only if its digest is that of the content decided, and refused as a mismatch otherwise |
| Replay.CitedPolicyReplays | custos/replay.py:59-108 | under any policy with the digest a record cites, replay reproduces the recorded action, or canonical policies collide, or two rules share a text |
| Replay.MatchMeansSameDecision | custos/replay.py:91-97 | a replay matches if and only if the engine now decides the action and names the rule it did then |
| Der.ByteCount | custos/custody.py:279-294 | the byte count computed from bit_length is the encoding's length, and the top bit is set exactly when the bit length is a positive multiple of eight |
| Der.LengthRoundTrips | custos/custody.py:276-280 | a length survives encoding and decoding (section 8.1.3 of ITU-T X.690), whatever follows, if and only if it is below 256^126 |
| Der.LengthIsCanonical | custos/custody.py:276-280 | the decoder of section 10.1 accepts no other octets for a length: the encoding is the minimal one |
| Der.TlvRoundTrips | custos/custody.py:283-284 | tag and value are read back with the trailing bytes untouched |
| Der.AlgorithmParses | custos/custody.py:290-291 | the hexadecimal literal is the encoding of id-sha256 with NULL parameters |
| Der.IdSha256Is | custos/custody.py:290-290 | the object identifier is the encoding of 2.16.840.1.101.3.4.2.1 (sections 8.19.2 and 8.19.4 of ITU-T X.690) |
| Der.BuildWrapsBody | custos/custody.py:287-296 | the source's concatenations are that body inside one sequence |
| Der.RequestParses | custos/custody.py:287-296 | a request whose body is below 256^126 bytes parses (section 2.4.1 of RFC 3161) to version 1, id-sha256, the digest, the nonce bytes and certReq TRUE |
| Der.SinkRequestParses | custos/custody.py:314-320 | a 32-byte digest and a 64-bit nonce always do |
| Der.RequestReads | custos/custody.py:287-296 | for every 32-byte digest and 64-bit nonce, the request octet by octet |
| Der.NonceAsInteger | custos/custody.py:294-294 | read as the signed INTEGER of section 8.3.3 of ITU-T X.690 the nonce bytes give the nonce if and only if it is zero or its bit length is not a multiple of eight, and a negative number otherwise |

## Left out

- SQL, file, git, TSA and OPA network input and output: the store is a table that may be full or faulty,
  a sink takes or refuses what it is offered, OPA's answer is an input.
- Regular expressions, SHA-256, JSON text and base64 or hexadecimal forms: uninterpreted functions. That
  `json.dumps` is called with different separators in different places is not modelled.
- Floating-point clocks are reals; NaN and infinite timestamps are not modelled.
- The in-memory and PostgreSQL audit backends, store migration, and `schema_lock_key`.
- Tenant names that the file system maps to one directory, and git history (the files are what is read back).
- Anchoring.AnchorManager.Emit: holds the pending gap as a value; that the source shares one dictionary with the
  anchors in memory is modelled in `MemorySinkRuns`.
- A tenant removed and registered again under its old name, whose gate keeps the old cache: the rules in
  `GateRuns` only grow.
- A restarted anchor manager, which counts epochs from one again over the files already there: the runs
  here have one manager throughout.
- The anchor manager's background thread, health report and environment configuration; the gate's and
  proxy's environment parsing, and the constructors' ValueErrors (they are preconditions here).
- All but the first sentence of the reason texts of the gate and the proxy, the human-readable detail strings
  of `verify_custody`, and anchors or records that lack a required key.
- OPA responses malformed enough to raise, and invalid regular expressions.
- Data races inside one gate object: a worker's record is one atomic step, as the chain's lock makes it, but
  `_digest_cache` and `_last_anchored_digest` are updated by one evaluation at a time.
- Retention's environment-driven choice of store per tenant, `open_body`, `verify_commitment` and
  `purge_record`.
- HTTP routes, metrics, tenants, policy packs, authentication, the content firewall, execution and deployment
  binding.
- GateVerdicts.GateRunVerdicts: speaks of moments when nothing is queued, as a citation whose commitment some sink
  refused is uncommitted by design until it is taken; and of a tenant with a non-empty name, because the
  re-walk reads the client name of a record whose tenant is empty. Other tenants are taken to commit only text
  that hashes to its digest; for each of them that is this result with the tenants exchanged.
- GateVerdicts.GateRunAtReplacingSink: says which commitments were replaced by the entries the sink took; by the
  epochs of the offers themselves that is `SinkRuns.CitationVerdicts`.
- Proxy.StalledGateIsAskedRarely: one caller at a time, as the bound is false for calls already in flight when the
  breaker opens.
- Der.RequestParses: digests and nonces so long that the body reaches 256^126 bytes are excluded, as their length
  has no definite form.
