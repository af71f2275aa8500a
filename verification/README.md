# A verified model of the modulr anchors core

Anchors are nodes that each build their own chain of blocks per epoch. A quorum of anchors votes on
every block; a majority of votes is a finalization certificate (AFP). When an anchor stalls, the
quorum signs the index at which it stops; a majority of those signatures is a rotation certificate
(AARP), which later anchors include in their blocks. This project models those protocols and the
loops around them, and proves what they guarantee over every run, over every input and in every
interleaving.

`dafny verify dfyconfig.toml` checks everything.

## What is modelled

| file | part of the system |
|---|---|
| `Text`, `Structures`, `Payloads` | numerals and `:`-separated texts, records, block hash, the two signed payloads |
| `Certificates` | majority arithmetic and the two certificate verifiers, as counting loops |
| `Voter` | a node's durable state and its four writers: voting, signing a rotation, the collector's upgrade, the health checker's pull and ban |
| `AnchorNode` | the same handlers and threads as methods of a class that updates the databases in place |
| `Maker`, `CreatorThreads` | the creator's generator and grabber, as a machine of single critical sections and durable writes with restarts, and as the two loop bodies over a class |
| `Network` | all nodes together: honest nodes run the code, everyone else sends anything that forges no honest signature; the inductive invariant |
| `Safety`, `StoredProofs` | the theorems over whole runs |
| `Rounds` | rounds of voting and rotating in which every member running the code answers |
| `Walk`, `Presence` | alignment data, the hop loop, and the bookkeeping that writes the records it reads |
| `Records`, `RecordRuns` | all writers of one node's records interleaved, and the network together with these records |
| `Reachable`, `FourAnchors`, `SharpBounds`, `RecordLoss` | runs that attain the bounds and show which hypotheses are needed: of one anchor, of four anchors one of which is faulty, and of those with their records |
| `AarpStore` | accepting rotation certificates, their store, the lazily loaded cache |
| `Receipts` | inclusion receipts, built by the receiver and checked by the sender |
| `Waiter` | waiting for a majority of validated replies |
| `EpochWindow` | genesis, epoch rotation, trimming, restarts |
| `ExtraDataCodec` | the two-shape JSON form of a block's extra data |
| `Keys` | the string keys of the voting-stats database |

A handler's critical section under the per-(epoch, creator) mutex is one step of a run; a crash may
cut it off after any durable write. The unlocked ban flag and each single write of the creator loops
are steps of their own.

## Assumptions

- The surroundings are a parameter `World`: the network name, signature verification, Blake3 and the
  JSON text of extra data. `Sound` says that Blake3 is injective, prints lower-case hex and never
  yields the fixed initial hash, and that no JSON object text is a proper prefix of another.
  `SoundWorldsExist` shows that this can be met.
- Unforgeability: whatever arrives from outside carries a valid signature of an honest node only for
  a text that node has issued before (`Unforged`, required of inputs in `InputOk`, and of the replies
  a grabber has gathered at the moment it stores a certificate).
- Registry keys hold no `:` and are not decimal numerals, honest keys hold no `:`. At most a third of
  a quorum, (n-1)/3 counted with multiplicity, is not honest; quorums are not empty.
- Database reads and writes succeed. An epoch stays in the window while a handler for it runs.
- Where records and receipts are concerned, quorum members are registered anchors, as the code makes
  them, and the voter's bookkeeping may run for any correctly signed, unforged block of a tracked
  epoch, which allows more runs than the blocks votes were actually given on.
- `honestReplies` (voting stats come from nodes that run this code) is used only where the theorem
  names it. `crashes` allows restarts; a restart is modelled per epoch, which allows more runs than
  restarting all epochs of a node at once.

## What the proofs brought to light

- The finalization verifier does not check the shape of the two hashes it is given. A run reaches a
  certificate whose PrevBlockHash holds `:` (`SharpBounds.ColonCertificateReached`).
  `Safety.TopsChainIff` and `RecordRuns.HonestReceiptAcceptedIff` give the exact condition under
  which that matters, `Network.Ground` shows that such texts certify no new vote, and
  `Safety.NoColonsUnderHonestReplies` that they need a stat reply from a node not running this code.
- A voter remembers the certified predecessor of the block it votes for, not the block, so a creator
  not running this code can get two blocks certified at any index (`SharpBounds.ForkReached`). The
  rotation cut holds for it all the same.
- The collector does not check whose certificate an upgrade carries. One faulty quorum member can so
  have an anchor rotated at any index, with nothing certified there (`SharpBounds.AnyPointReached`).
- A collector whose local stat is the initial template stores and broadcasts a rotation certificate
  that no verifier accepts (`Reachable.TemplateRotationReached`,
  `StoredProofs.CollectedProofVerifiesIff`), and from then on `HasAggregatedAnchorRotationProof` keeps
  it from trying again.
- The rotation verifier ignores the id of the epoch it is asked about, so a certificate of one epoch
  verifies in every other epoch with the same registry (`Presence.RotationProofIgnoresHandlerEpoch`),
  and a vote's bookkeeping can put a block id of one epoch under a record of another
  (`RecordLoss.ForeignEpochRecorded`). No finished receipt comes of it
  (`Receipts.OwnAfpFitsOneEpoch`).
- The collector takes the creator's mutex at the first upgrade it receives and holds it until it
  returns. If that upgrade is not above the stored stat, a second one, newer or not, leaves it waiting
  for itself; this needs the stored stat to have moved since the collector read it
  (`AnchorNodes.BlockingNeedsMovedStat`, `AnchorNodes.BlockingInput`).
- The sender stores the block id of an accepted receipt unread. A late receipt can so replace a good
  record by a text that names no block, and the current anchor moves back (`RecordLoss.LosingRun`);
  only an anchor not running this code sends such a receipt (`RecordRuns.InclusionLostIff`). And a
  negative index can be listed that no certificate covers (`Walk.NegativeIndexIsListed`).
- The hash of the first epoch runs the network name and the start together without a separator, so
  "net1" starting at 2 and "net" starting at 12 share it (`EpochWindow.NamesRunTogether`).
- A missing rotation certificate counts as index 0 in the accepting path, so one for index 0 or below
  is never stored there (`AarpStore.AcceptKeepsMaximum`).
- The comment on the cache calls it populated by one scan; a scan that ends after its epoch was
  dropped marks the epoch loaded again, without what was stored since it began
  (`AarpStore.TornDropReached`).

## Model

| member | source | states |
|---|---|---|
| `Safety.RotationCut` | http_pack/routes/request_anchor_rotation_proof.go:55-83 | Over every run: once a rotation certificate for (epoch, anchor, k) verifies at any moment, no finalization certificate of that anchor above k + 1 verifies at any moment, earlier or later, whatever the creator and up to (n-1)/3 quorum members do |
| `SharpBounds.CutIsSharp` | http_pack/routes/request_anchor_rotation_proof.go:55-83 | The bound is attained at every index: for every k from 0 on, a run of four anchors, one of them not running this code, with a rotation certificate at k and a finalization certificate at k + 1 of the same anchor, both with genuine signatures |
| `Safety.RotationPointIsCertified` | http_pack/routes/request_anchor_rotation_proof.go:95-171 | With stat replies from nodes running this code, a rotation certificate at k >= 0 is backed by a finalization certificate for the same anchor, index and hash |
| `Safety.RotationPointsAgree` | threads/anchor_rotation_collector.go:198-250 | With such replies any two rotation certificates of one anchor in one epoch differ by at most one index |
| `SharpBounds.PointsDiffer` | threads/anchor_rotation_collector.go:198-250 | The one index of difference is attained at every k, with all stat replies from nodes running this code: the same voters sign at k and, after their collectors have learned that block k + 1 is approved, at k + 1 |
| `SharpBounds.AnyPointReached` | threads/anchor_rotation_collector.go:198-205 | Without that assumption both theorems fail by any distance: a run with rotation certificates of an honest anchor at 0 and at any j, in which nothing of that anchor is certified but block 0, because an upgrade may carry the certificate of somebody else's block j |
| `Safety.CertificateChain` | websocket_pack/routes.go:85-98 | Every certificate for index i has certificates for all of 0..i below it, each naming the BlockHash one below and index 0 the fixed initial hash; the top one has the same BlockHash, and is the certificate itself when its PrevBlockHash holds no ':' |
| `Safety.TopsChainIff` | utils/proofs_verification.go:11-41 | A certificate itself tops such a chain if and only if its PrevBlockHash holds no ':' (the verifier accepts other texts) |
| `SharpBounds.ColonCertificateReached` | threads/health_checker.go:157-253 | Such a text is reached with one faulty member in a quorum of four: its reply spells the signatures of a block of an honest creator under a shorter block id, two honest members take that stat, ban the creator and sign its rotation, and these signatures certify block 0 with a PrevBlockHash that holds ':' |
| `Safety.NoColonsUnderHonestReplies` | threads/health_checker.go:209-245 | With stat replies from nodes running this code no certificate has a ':' in its PrevBlockHash |
| `Safety.EveryCertificateTopsAChain` | websocket_pack/routes.go:85-98 | So with such replies every certificate itself tops a complete chain down to the fixed initial hash |
| `Safety.NoFork` | threads/block_generation.go:101-162 | Two certificates for one slot of a creator running this code have one BlockHash, that of the block its generator wrote there, whose PrevHash is the hash of its predecessor |
| `SharpBounds.ForkReached` | websocket_pack/routes.go:85-126 | For a creator not running this code the theorem fails at every index: a run that certifies two blocks with different hashes at index k, because a voter remembers k - 1 after voting for k |
| `Safety.NoForkNamesPredecessor` | threads/block_generation.go:101-162 | With stat replies from nodes running this code they also name that predecessor hash themselves |
| `Safety.RotationPointsOfOwnBlock` | http_pack/routes/request_anchor_rotation_proof.go:95-132 | With such replies two rotation certificates of a creator running this code at one index >= 0 carry one hash, that of its block there |
| `Safety.VoterInvariant` | websocket_pack/routes.go:58-160 | At every moment of a run, on every honest node: each vote signed is at most one above the stat, each rotation signed belongs to a disabled creator, and no vote lies more than one above any rotation point signed |
| `Safety.VoterOverRun` | utils/health_checker.go:23-49 | Between any two moments: a stat index never falls, a ban is never lifted, and after signing a rotation of a creator a node never signs another vote for it in that epoch |
| `Safety.NextMovesForward` | threads/health_checker.go:224-252 | Each step of a run moves every lane forward only: a rotation newly signed is at or above the stat, and for a disabled creator nothing but rotations is newly signed |
| `Rounds.VotingRoundCertifies` | threads/share_block_and_get_proofs.go:121-229 | A round in which every member running this code answers is enough: with their validated votes among the replies, a grabber pass stores a certificate for the block hunted that verifies, moves on and saves its progress |
| `Rounds.ReadyVotes` | websocket_pack/routes.go:85-160 | What the grabber sends for its next block is voted for by every node that has not banned the creator, finished the epoch or moved past the block, and the vote is over exactly the text the grabber checks |
| `Rounds.RotationRoundSucceeds` | threads/anchor_rotation_collector.go:89-121 | The same for rotations: with the signatures of every member running this code among the answers, what the collector keeps is a majority, and the proof assembled verifies if and only if the local stat names its certified block |
| `Rounds.SamePointSigns` | http_pack/routes/request_anchor_rotation_proof.go:95-104 | A node that has banned the anchor and stands at the collector's index and hash signs exactly the text the collector checks |
| `Safety.CreatorWindow` | threads/share_block_and_get_proofs.go:78-229 | In every interleaving A + 1 <= N <= A + 3 in memory and on disk, N <= A + 2 without restarts; the accepted hash is the hash of stored block A, and blocks and certificates 0..A are stored |
| `Reachable.WidestWindowReached` | entrypoint.go:241-266 | N = A + 3 is attained: a run in which block 1 is written on an accepted index that a restart takes back |
| `Network.ActionKeepsInv` | websocket_pack/routes.go:20-180 | Every action of every node, with any input that forges no honest signature, keeps the network invariant and takes nothing signed or published back |
| `Network.ConfigsExist` | entrypoint.go:85-149 | The assumptions can be met and such a network can start from empty databases |
| `Network.RunKeepsInv` | websocket_pack/routes.go:20-180 | Hence the invariant holds at every moment of every run from empty databases |
| `Network.HonestBlock` | block_pack/block.go:63-67 | A correctly signed block of an honest creator that names a tracked epoch is one its generator wrote for that epoch at exactly that index |
| `Network.CertifiedIsGenuine` | utils/proofs_verification.go:11-41 | Any verified certificate for a registry key's slot, even with arbitrary hash texts, implies one whose two hashes are hashes and that carries the same BlockHash |
| `Network.Ground` | utils/proofs_verification.go:13-15 | Whatever vote the end of a certified text can be read as is itself a certified vote; so re-labelled texts certify nothing new |
| `Network.ProposalIsGenuine` | http_pack/routes/request_anchor_rotation_proof.go:134-171 | A proposal ahead of the local stat is signed only if a certificate for this creator, index and hash exists, however the numerals of its block id are spelled |
| `StoredProofs.RunStoresFit` | threads/share_block_and_get_proofs.go:196-201 | At every moment of a run each certificate an honest node stores verifies for exactly the slot it is stored under, and each stored block carries its own creator, index and epoch |
| `StoredProofs.VoteIsBacked` | websocket_pack/routes.go:109-150 | At every moment of a run, behind each vote a node has signed it stores the block and, above index 0, a certificate for the predecessor; for a creator running this code they carry exactly the hash voted for and the hash named |
| `StoredProofs.AttachedAfpProvesListedBlocks` | http_pack/routes/sequence_alignment_data.go:176-182 | The certificate attached to alignment data tops a chain that certifies a listed FoundInBlock if and only if that index is not negative |
| `Walk.NegativeIndexIsListed` | http_pack/routes/sequence_alignment_data.go:188-198 | A record may name a negative index: it is listed, and the certificate looked up for the answer is the one at index 0 |
| `StoredProofs.CollectedProofVerifiesIff` | threads/anchor_rotation_collector.go:89-121 | With honest stat replies, the rotation certificate a collector assembles from a majority and stores passes the verifier if and only if the local stat index is at least 0 |
| `Reachable.TemplateRotationReached` | threads/anchor_rotation_collector.go:89-121 | The other case is reached: a run in which a majority signs the initial template, and the certificate assembled from these genuine signatures is refused by the verifier |
| `Certificates.MajoritiesIntersect` | utils/epoch_related_logic.go:11-24 | Two sets of distinct members that reach the majority share more than a third of the quorum and hence a node running this code, also when the quorum lists keys several times |
| `Certificates.MajorityIsLeast` | utils/epoch_related_logic.go:11-24 | The majority is the least number of members of which any two sets share more than a third, for every size of quorum |
| `Certificates.HonestReachMajority` | utils/epoch_related_logic.go:11-24 | In a quorum without repeated keys and with at most (n-1)/3 faulty members the others reach it alone |
| `Certificates.VerifyAggregatedFinalizationProof` | utils/proofs_verification.go:11-41 | Accepts exactly when the number of distinct quorum keys with a valid signature reaches the majority, in whatever order the proof map is walked |
| `Certificates.VerifyAggregatedAnchorRotationProof` | utils/anchor_rotation_verification.go:18-73 | Accepts exactly the proofs with a matching block id, hash and index, a registered anchor and enough distinct valid signers; each other verdict is given exactly when its check is the first to fail |
| `Certificates.EmptySignaturesNeverCount` | utils/anchor_rotation_verification.go:50-66 | Its signers are those the finalization verifier would count after all empty signatures are removed |
| `Certificates.IndexCheckIff` | utils/anchor_rotation_verification.go:24-40 | The verifier's own reading of the index out of the block id refuses nothing but an index that does not fit 64 bits |
| `Certificates.HasValidAggregatedAnchorRotationProof` | utils/anchor_rotation_verification.go:75-88 | True exactly when some listed proof for the anchor verifies; never for the empty anchor |
| `Certificates.CheckedProofsCertify` | threads/share_block_and_get_proofs.go:145-185 | Proofs that were each checked on arrival form a valid certificate if and only if they have a majority of distinct voters |
| `Payloads.FpDecodes` | utils/proofs_verification.go:13-15 | A finalization payload over a three-part id and ':'-free hashes determines all its fields, against any other claimed reading |
| `Payloads.ArpDecodes` | utils/anchor_rotation_verification.go:13-16 | A rotation payload determines all its fields, the hash being any text |
| `Payloads.FpIsNotArp` | utils/anchor_rotation_verification.go:13-39 | No finalization payload whose first field is a hash is a rotation payload |
| `Payloads.BlockIdRoundTrip` | http_pack/routes/sequence_alignment_data.go:188-198 | Building a block id and splitting it gives back epoch, creator and index |
| `Payloads.BlockIdFixed` | websocket_pack/routes.go:85 | A block id over a ':'-free key is no other slot's id, whatever that slot's key contains |
| `Payloads.FpEndsWithItsVote` | websocket_pack/routes.go:154 | A finalization payload over ':'-free fields can be read, from its end, only as its own vote |
| `Structures.HashFixesContent` | block_pack/block.go:36-55 | Two blocks have one hash if and only if they agree on every hashed field, whatever PrevHash and extra data contain, for ':'-free creators and epochs |
| `Structures.NetworksDiffer` | block_pack/block.go:36-55 | A block has one hash in two networks if and only if they have one name |
| `Structures.SoundWorldsExist` | utils/other.go:75-81 | The assumptions on Blake3 and the JSON text can be met |
| `Text.AtoiOfItoa` | http_pack/routes/sequence_alignment_data.go:188-198 | Reading a printed number gives it back exactly within 64 bits |
| `Text.OtherSpellings` | http_pack/routes/sequence_alignment_data.go:188-198 | Numbers are read from other spellings too: with a sign, with zeros in front |
| `Text.JoinOfSplit` | http_pack/routes/sequence_alignment_data.go:188-198 | Splitting at ':' loses nothing |
| `Voter.VoteKeepsOrder` | websocket_pack/routes.go:81-160 | A vote, cut off by a crash after any of its durable writes, keeps votes within one of the stat and moves the lane forward |
| `Voter.RotationKeepsOrder` | http_pack/routes/request_anchor_rotation_proof.go:55-83 | Signing a rotation keeps every vote at most one above it |
| `Voter.RaiseKeepsOrder` | threads/anchor_rotation_collector.go:229-249 | Raising a stat from a reply, whoever sent it, keeps the lane's order |
| `AnchorNodes.AnchorNode.GetFinalizationProof` | websocket_pack/routes.go:30-180 | A vote is given, uncut, if and only if the block is a registered, not banned creator's, signed, of an epoch tracked and not finished, with a certified predecessor, and above the stat or the very block the stat names; it leaves the block, the predecessor's certificate and a stat naming it, and nothing else changes; otherwise nothing does |
| `Voter.CutVoteIsRepeated` | websocket_pack/routes.go:115-150 | A vote cut off by a crash after any durable write is given again on the same request, and ends where an uninterrupted one would have |
| `Voter.WritesInOrder` | websocket_pack/routes.go:115-150 | No certificate becomes durable before the block, no stat before the certificate it names, no signature before all three |
| `Voter.ApprovedBlockVotedAgain` | websocket_pack/routes.go:91 | After a vote for block i, an earlier block gets a vote again if and only if it is block i - 1 and the one the certificate names |
| `AnchorNodes.AnchorNode.RequestAnchorRotationProof` | http_pack/routes/request_anchor_rotation_proof.go:36-132 | Each answer is given exactly when it should: for a banned registered anchor of a tracked epoch a proposal below the stat gets the stat back, one at its index and hash is signed, one at its index with another hash is refused, one ahead is signed if and only if it validates; what is signed is the proposal's point, and only the signature is added |
| `Voter.NextProposalIsSigned` | http_pack/routes/request_anchor_rotation_proof.go:134-171 | A proposal ahead that spells its own block id, verifies and names the local hash as its predecessor validates |
| `AnchorNodes.BehindCatchesUp` | http_pack/routes/request_anchor_rotation_proof.go:73-93 | A collector behind a member that has banned the anchor catches up: the member answers with its stat, which passes the collector's checks if it names its certified block, and it is the upgrade stored, whatever answers follow |
| `Voter.UpgradeIff` | threads/anchor_rotation_collector.go:198-212 | An upgrade is taken if and only if it is ahead, its hash is its certificate's, the certificate verifies, and its id has exactly three fields the last of which spells its index |
| `AnchorNodes.AnchorNode.CollectRotationSignatures` | threads/anchor_rotation_collector.go:123-262 | With at most one answer per quorum member: a newer stat is stored exactly when the first upgrade to arrive is above the stored one; the thread waits on the mutex it holds exactly when a second upgrade follows one that is not; otherwise it returns the signatures of the first members to make a majority, or of all there are |
| `AnchorNodes.BlockingNeedsMovedStat` | threads/anchor_rotation_collector.go:226-250 | It can wait on itself only if another writer has raised the stored stat above the one it started from |
| `AnchorNodes.BlockingInput` | threads/anchor_rotation_collector.go:226-250 | An input on which it does, in a quorum of four: two members answer with stats certified by a majority, and the second upgrade blocks although it is newer than everything stored |
| `AnchorNodes.KeptSignaturesAreChecked` | threads/anchor_rotation_collector.go:213-217 | The signatures it returns are quorum members' valid ones over the rotation of the stat it started from |
| `AnchorNodes.AnchorNode.ProcessAnchorRotation` | threads/anchor_rotation_collector.go:89-121 | With the stat free to move between the read and the collection: a proof is assembled exactly for a disabled creator without a stored proof, when no upgrade wins or blocks and a majority of distinct members signed; it carries the stat first read and their signatures |
| `AnchorNodes.AssembledVerifiesIff` | threads/anchor_rotation_collector.go:102-121 | A proof assembled from checked signatures verifies if and only if the stat's certificate names this anchor, index and hash |
| `AnchorNodes.AnchorNode.BestReply` | threads/health_checker.go:199-218 | The fold returns the largest acceptable stat among the replies, whatever their order |
| `AnchorNodes.AheadIsPulled` | threads/health_checker.go:199-218 | A reply that is ahead and names its certified block is acceptable, so the result is at or above it |
| `AnchorNodes.AnchorNode.TryPullVotingStatFromQuorum` | threads/health_checker.go:157-253 | With an acceptable reply the stat is raised to the best of them, otherwise left alone, and success is reported exactly when it is now ahead of the one the check started from |
| `AnchorNodes.AnchorNode.EvaluateAnchorProgressWithPull` | threads/health_checker.go:108-148 | A creator is banned if and only if its stat equals the last snapshot and no pull brings a newer one; the snapshot becomes the stat pulled, the current one, or none |
| `Maker.EventKeepsInv` | threads/share_block_and_get_proofs.go:78-229 | Every event of the generator and the grabber, in any interleaving and with restarts, keeps the creator's invariant and only appends to its chain |
| `Maker.HuntCertifies` | threads/share_block_and_get_proofs.go:189-201 | A certificate the grabber is about to store passes the verifier and names the predecessor's hash |
| `Maker.CollectKeepsInv` | threads/share_block_and_get_proofs.go:166-183 | Cached proofs always belong to the block being hunted |
| `Maker.CrashKeepsInv` | entrypoint.go:241-266 | A restart from the durable snapshots is a good state again, possibly one slot wider |
| `CreatorThreads.Creator.GenerateBlock` | threads/block_generation.go:70-164 | An uncut pass with NextIndex <= AcceptedIndex + 1 stores exactly one block under the next index, with the extra data, time and signature given, naming the last hash, and moves the metadata on; any other pass stores nothing; cut off anywhere it is a prefix of the machine's events |
| `CreatorThreads.DrainedProofIsCarried` | threads/block_generation.go:109-126 | A verifying rotation certificate drained into a pass that stores a block is found in that block by the verifier |
| `CreatorThreads.Creator.RunFinalizationProofsGrabbing` | threads/share_block_and_get_proofs.go:78-229 | A grabber pass does exactly the machine's events, up to where it is cut off; progress means the index moved by one and was persisted |
| `CreatorThreads.WholeGrabPass` | threads/share_block_and_get_proofs.go:78-229 | A whole pass certifies the next block, if there is one, exactly when the proofs kept so far and those of this round are a majority, and then empties the cache and saves the new index; otherwise it keeps all proofs and changes nothing else |
| `CreatorThreads.PointerIsHunted` | threads/share_block_and_get_proofs.go:94-121 | The block kept in memory is hunted without a look at the databases |
| `CreatorThreads.OneBlockOnly` | threads/share_block_and_get_proofs.go:145-166 | A validated reply counts for one block hash only |
| `CreatorThreads.Creator.HuntForProofs` | threads/share_block_and_get_proofs.go:83-183 | The block hunted is the next one, and proofs are merged into the cache only after a successful wait |
| `CreatorThreads.Creator.StoreCertificate` | threads/share_block_and_get_proofs.go:185-229 | Certificate, then memory, then snapshot, in this order |
| `CreatorThreads.Creator.Restart` | threads/share_block_and_get_proofs.go:287-315 | A restart keeps the databases and snapshots and puts memory back to exactly the snapshots, with no pointer, no cached proofs and nothing under way |
| `CreatorThreads.GeneratePassKeepsInv` | threads/block_generation.go:80-162 | A generator pass cut off anywhere keeps the creator's invariant |
| `CreatorThreads.GrabPassKeepsInv` | threads/share_block_and_get_proofs.go:83-229 | A grabber pass cut off anywhere keeps the creator's invariant |
| `Walk.ComputeSequenceAlignmentData` | http_pack/routes/sequence_alignment_data.go:92-186 | The answer is the nearest later anchor with a readable record and a stored certificate for every anchor from the given one up to it; it lists exactly those and attaches the certificate above the highest listed index; no answer means there is no such anchor |
| `Walk.ScanCandidate` | http_pack/routes/sequence_alignment_data.go:112-165 | A candidate is taken exactly when every required anchor has a readable record and a stored certificate; entries and maximum are exact |
| `Walk.AlignmentIsExact` | http_pack/routes/sequence_alignment_data.go:134-152 | For a registry without repeated keys the listed positions are exactly the interval passed over, each with its own data |
| `Walk.ReadableIff` | http_pack/routes/sequence_alignment_data.go:188-198 | A record reads as a block index if and only if it has exactly three fields and the last is a number |
| `Walk.DeadEndIsFarthest` | http_pack/routes/current_anchor_assumption.go:54-77 | A walk that cannot hop on ends at the greatest anchor that any sequence of valid hops reaches |
| `Walk.CurrentAnchorAssumption` | http_pack/routes/current_anchor_assumption.go:54-84 | The hop loop terminates and returns that greatest anchor; its proof is the full alignment answer for the last hop, from an anchor that is itself reached: every anchor passed over with its data, and the certificate above the highest block; an error exactly for a negative epoch or an empty registry |
| `Walk.KeepsIncludedIff` | utils/anchor_rotation_storage.go:24-38 | A write keeps every recorded inclusion if and only if it does not put an unreadable block id over a valid one |
| `Walk.AssumptionNeverMovesBack` | http_pack/routes/current_anchor_assumption.go:54-77 | Over any list of such writes, whoever makes them, the current anchor of an epoch never moves back |
| `Records.StepLosesIff` | threads/aarp_delivery.go:91-151 | Among all writers of one node a step loses an inclusion if and only if it is the sender putting a text that names no block over a readable record whose certificate is stored |
| `Records.RunLosesIff` | threads/aarp_delivery.go:91-151 | So throughout every run of voter, creator, certificate store and sender, inclusions are lost exactly there |
| `Records.CurrentAnchorNeverMovesBack` | http_pack/routes/current_anchor_assumption.go:54-77 | Between two moments of such a run without such a write the current anchor of an epoch never moves back |
| `Records.SpoilingWriteIsLate` | threads/aarp_delivery.go:91-151 | Such a write is a late one: the sender had found the record missing, and a vote on the receiver's block filled it while the request was under way |
| `RecordLoss.LosingRun` | threads/aarp_delivery.go:91-151 | A run of a network of four anchors, one of them not running this code, in which that happens, with every certificate and signature in it genuine: the current anchor moves back from the second to the first |
| `RecordLoss.ForeignEpochRecorded` | websocket_pack/routes.go:304-323 | A run of such a network in which a vote's bookkeeping puts a block id of epoch 1 under a record of epoch 0, for a genuine certificate of epoch 0 |
| `RecordRuns.RecordMeaning` | websocket_pack/routes.go:304-323 | At every moment of every run each record rests on a correctly signed block of the recorded creator that holds a verifying certificate for the rotated anchor; a creator's own record names it, approved, in the record's epoch; a vote's record does so if and only if the certificate is of the block's epoch; a sender's rests on a certified block of that epoch, and names it if the receiver runs this code |
| `RecordRuns.OwnRecordShape` | threads/share_block_and_get_proofs.go:255-285 | A node's own record always names a slot of the node itself, in some epoch |
| `RecordRuns.RecordRunKeepsInv` | threads/share_block_and_get_proofs.go:255-285 | The network invariant and the meaning of every record, receipt sent and stat read hold at every moment of every run that includes their writers |
| `RecordRuns.InclusionLostIff` | threads/aarp_delivery.go:91-151 | At any step of any run of the whole network a node loses an inclusion if and only if it takes a receipt, naming no block, of an anchor not running this code over a readable record whose certificate is stored |
| `RecordRuns.CurrentAnchorOverRun` | http_pack/routes/current_anchor_assumption.go:54-77 | So as long as a node takes no such receipt, its answer for the current anchor of an epoch never moves back between two moments of a run |
| `RecordRuns.StoredVerifiesIff` | threads/anchor_rotation_collector.go:89-121 | In every run with honest stat replies, a rotation certificate stored by a node, whether accepted or collected, verifies if and only if its index is at least 0 |
| `RecordRuns.ListedCertificatesVerifyIff` | http_pack/routes/sequence_alignment_data.go:112-165 | So all certificates handed out in alignment data verify if and only if none listed is for an anchor without an approved block |
| `Presence.PresenceBook.ProcessAnchorRotationProofs` | websocket_pack/routes.go:304-323 | Exactly the certificates in the block that verify are recorded, each under its own epoch, and their anchors marked as under rotation |
| `Presence.PresenceBook.MarkAarpPresenceFromApprovedBlock` | threads/share_block_and_get_proofs.go:255-285 | Exactly the certificates that verify in the creator's own signed block are recorded, under the epoch given; otherwise nothing changes |
| `Presence.NotingKeepsIncluded` | websocket_pack/routes.go:304-323 | Records with a real block id lose no inclusion and add one for every stored certificate recorded |
| `Presence.RotationProofIgnoresHandlerEpoch` | utils/anchor_rotation_verification.go:18-73 | The verifier never looks at the handler's id or hash: under an unchanged registry a certificate of one epoch verifies in every other |
| `AarpStore.AcceptKeepsMaximum` | http_pack/routes/accept_aggregated_anchor_rotation.go:143-182 | After any requests through the accepting path alone, an anchor has a stored certificate if and only if one with index >= 1 was accepted, and it is the first of the highest index accepted |
| `AarpStore.AcceptableIff` | http_pack/routes/accept_aggregated_anchor_rotation.go:143-165 | The checks before the verifier refuse nothing more: accepted are exactly the certificates that verify in the epoch they name, if it is tracked |
| `AarpStore.AarpKeeper.StoreAggregatedRotationProofFromRequest` | http_pack/routes/accept_aggregated_anchor_rotation.go:143-182 | Success exactly for a verified certificate of a tracked epoch; it is stored, cached and its anchor marked exactly when it exceeds what is stored |
| `AarpStore.AarpKeeper.AcceptAggregatedAnchorRotationProofs` | http_pack/routes/accept_aggregated_anchor_rotation.go:41-54 | Certificates are taken in order up to the first one refused |
| `AarpStore.AarpKeeper.GetAggregatedAnchorRotationProofs` | utils/anchor_rotation_storage.go:105-161 | A loaded epoch is answered from the cache; otherwise exactly the stored certificates that verify are returned and merged |
| `AarpStore.LoadedCacheIsComplete` | utils/anchor_rotation_storage.go:94-161 | Once an epoch is loaded, every stored certificate that verifies is matched in the cache by epoch, anchor and index, in every interleaving of scans, stores, drops and restarts in which no scan of the epoch was open when it was dropped |
| `AarpStore.TornDropLoses` | utils/anchor_rotation_storage.go:105-172 | From any state with a scan open a drop can lose: the scan ends later and marks the epoch loaded without a certificate stored meanwhile |
| `AarpStore.TornDropReached` | utils/anchor_rotation_storage.go:105-172 | A run from an empty store that does so |
| `AarpStore.EventKeepsCacheInv` | utils/anchor_rotation_storage.go:94-172 | Every step of a scan, a store, a drop or a restart keeps the cache invariant |
| `AarpStore.CacheKeyIsExact` | utils/anchor_rotation_storage.go:90-92 | Two cache keys are equal if and only if epoch, anchor and index are |
| `Receipts.AcceptedReceiptIsProof` | threads/aarp_delivery.go:115-151 | In every state the network invariant allows, an accepted receipt means that the receiver itself has a certified block of this epoch with the hash of the block shown, which holds a valid certificate for the rotated anchor; the block shown has that block's content if and only if its epoch text holds no ':' |
| `Receipts.OtherReadingAccepted` | threads/aarp_delivery.go:115-151 | The other case is real: a receipt that shows, in place of a block it passes with, another reading of the hashed text, whose epoch text holds ':', passes every check too |
| `RecordRuns.HonestReceiptAcceptedIff` | http_pack/routes/accept_aggregated_anchor_rotation.go:70-141 | In every run, whatever its own records name, a finished receipt built by a node running this code for an epoch it is registered in is accepted if and only if the stored certificate above the block has a ':'-free PrevBlockHash; always, with stat replies from nodes running this code |
| `Receipts.OwnReceiptAcceptedIff` | http_pack/routes/accept_aggregated_anchor_rotation.go:70-141 | A finished receipt from a record that names a block of any epoch is for a block of the epoch asked about, and accepted under that condition |
| `Receipts.ReceiptIs` | http_pack/routes/accept_aggregated_anchor_rotation.go:70-141 | What a receiver answers from a record naming an own block: nothing unless the block is stored, its own, signed and holds a verifying certificate; then that it is pending while no certificate above it is stored, and with one that verifies that block and that certificate |
| `Receipts.OwnAfpFitsOneEpoch` | utils/proofs_verification.go:11-41 | A certificate a creator running this code stores for its own block verifies in no other epoch in which it is registered |
| `Receipts.RecordInclusion` | threads/aarp_delivery.go:115-151 | The sender records the block id of the first receipt that passes all checks, or nothing |
| `Receipts.FirstAcceptedIs` | threads/aarp_delivery.go:115-151 | That receipt passes every check, and none before it does |
| `Receipts.OneRequestOnly` | threads/aarp_delivery.go:117-125 | A receipt answers one epoch, receiver and rotated anchor only; a pending one or one that names no block answers none |
| `Receipts.PredecessorIsGenuine` | threads/aarp_delivery.go:128-135 | A certificate naming a block hash as predecessor implies that a block with that hash is itself certified |
| `Waiter.SendAndWaitValidated` | utils/websocket_interaction.go:200-358 | For every order of replies, stale replies, validations, wake-ups, resends and the deadline: it returns at the first event where it should, true exactly with a majority of validated ids, every returned reply validated and received; a majority is never missed for want of a wake-up |
| `Waiter.ValidatedRepliesCertify` | threads/share_block_and_get_proofs.go:145-185 | Validated replies certify the block if and only if they come from a majority of distinct voters; one voter behind many connections counts once |
| `EpochWindow.EpochThread.CatchUp` | threads/epoch_rotation.go:17-141 | Catching up terminates in the one epoch the clock is in: last.start <= now < last.start + duration and last.id = (now - genesis) / duration |
| `EpochWindow.EpochThread.RotateOnce` | threads/epoch_rotation.go:21-139 | One round either changes nothing, exactly when the last epoch is fresh, or appends the next epoch, drops and marks the first if there are too many and persists; a crash between its writes leaves databases that can be started from |
| `EpochWindow.RotationKeepsWindow` | threads/epoch_rotation.go:61-129 | After a rotation the window is again a slice of the one sequence of epochs, within the limit, with everything before it marked finished |
| `EpochWindow.WindowShape` | threads/epoch_rotation.go:77-89 | Ids in a window are consecutive, registry and quorum are those of genesis, each hash is Blake3 of the one before, all ids below are finished |
| `EpochWindow.EpochStart` | threads/epoch_rotation.go:88 | Epoch n starts at genesis + n * duration, for positive durations without overflow |
| `EpochWindow.WindowLookup` | structures/threads_metadata_handlers.go:37-45 | Every epoch of a window is found again by its id and by its full id |
| `EpochWindow.EpochThread.Start` | entrypoint.go:114-142 | A start, first or after a crash at any point, yields a full window: the persisted one or genesis |
| `EpochWindow.EpochThread.EnsureEpochWindow` | entrypoint.go:211-239 | A senseless limit becomes 1, an empty window the current epoch, surplus epochs are dropped from the front and marked finished |
| `EpochWindow.EpochThread.LoadGenesis` | entrypoint.go:151-209 | The first epoch: id 0, hash over the network name and start, registry and quorum in genesis order |
| `EpochWindow.TrimmingSplits` | entrypoint.go:211-239 | What is dropped and what stays are together the window there was; epochs are dropped only from the front, and only as many as exceed the limit |
| `EpochWindow.FirstHashIff` | entrypoint.go:185-187 | Two networks share the first epoch's hash if and only if network name and start run together to the same text |
| `EpochWindow.StartsDiffer` | entrypoint.go:185-187 | Networks of one name share it if and only if they start at the same time |
| `EpochWindow.NamesRunTogether` | entrypoint.go:185-187 | Differently named networks can share it, the digits of the start completing a name |
| `ExtraDataCodec.ExtraDataRoundTrip` | block_pack/extra_data_to_block.go:22-54 | Decoding what was encoded gives the same extra data up to nil against empty, also when the plain map has keys named like the proof fields |
| `ExtraDataCodec.SameExtraSameText` | block_pack/extra_data_to_block.go:22-34 | Extra data equal up to nil against empty is written identically |
| `ExtraDataCodec.WireForm` | block_pack/extra_data_to_block.go:22-34 | Without proofs the text is exactly the plain string map in the order of its keys; with proofs it is the struct, and no empty field is written |
| `ExtraDataCodec.DecodedSurvivesStorage` | block_pack/extra_data_to_block.go:36-54 | Whatever tree was decoded, writing it and reading it back changes nothing more |
| `ExtraDataCodec.TransportKeepsHash` | block_pack/block.go:36-67 | A block's hash and the validity of its signature survive sending and storing |
| `ExtraDataCodec.PlainIsNoStruct` | block_pack/extra_data_to_block.go:41-48 | The struct reading of a plain string map fails or finds nothing, whatever its keys, so the fallback is always taken |
| `ExtraDataCodec.ProofRoundTrip` | structures/proofs.go:52-123 | A rotation or leader proof reads back as written |
| `Keys.KeyTextInjective` | utils/voting_stats.go:14-18 | Voting stats, grabber snapshots, health flags, certificates, presence records, disabled markers and outbox entries never share a key text |
| `Keys.GrabberCollidesIff` | threads/share_block_and_get_proofs.go:222-227 | A voting stat key equals a grabber key if and only if the epoch matches and the creator is called PROOFS_GRABBER |
| `Keys.PrefixSelects` | utils/anchor_rotation_storage.go:126-127 | The scan prefix of an epoch matches that epoch's certificates and nothing else |
| `Keys.StatsStore.Put` | utils/voting_stats.go:45-55 | Writing one key changes that entry of that kind only |
| `Keys.StatsStore.Get` | utils/voting_stats.go:20-43 | Reading returns exactly what is stored under that kind and key |
| `Keys.StatsStore.ScanAarps` | utils/anchor_rotation_storage.go:126-141 | The scan returns exactly the certificates of that epoch |

## Left out

- AnchorNodes.AnchorNode.CollectRotationSignatures: takes the answers as a sequence of arriving results; HTTP, worker concurrency and cancellation only decide which answers arrive and in what order.
- AnchorNodes.AnchorNode.ProcessAnchorRotation: returns the assembled proof; its store is AarpStore, its broadcast and the mempool are not modelled, and the unlocked store racing the accepting handler is excluded; the other writers' effect on the stats while it runs is an input.
- CreatorThreads.Creator.GenerateBlock: takes the drained extra data, the time and the signature as inputs; the block signature of a block that is lost in a crash before the write is not counted as published.
- CreatorThreads.Creator.RunFinalizationProofsGrabbing: does not keep the two hunting markers of the grabber, which nothing reads back.
- ExtraDataCodec.ExtraDataRoundTrip: works on values; UnmarshalJSON assigning through its receiver and the bytes of JSON texts, such as the replacement of invalid UTF-8, are not captured.
- Maker.EventKeepsInv: the branch that resets generation metadata of another epoch cannot be taken, since metadata is kept per epoch id, and is left out.
- Safety.RotationPointsAgree: needs stat replies from nodes running this code, because the upgrade path does not check the creator of a reply's block id and the pull checks neither creator nor index (SharpBounds.AnyPointReached).
- Safety.NoFork: holds for creators that run this code; a voter remembers index i - 1 after voting for i and so may vote for two blocks of another creator at one index (SharpBounds.ForkReached).
- EpochWindow.EpochThread.CatchUp: assumes a positive duration and no overflow of 64-bit milliseconds.
- AarpStore.LoadedCacheIsComplete: says nothing about an epoch dropped while a scan of it was open, because the claim is false there (AarpStore.TornDropReached).
- Voters do not compare a block's PrevHash with the certificate sent along; nothing about PrevHash is claimed for creators that do not run this code.
- The rotation verifier does not verify the finalization certificate inside a rotation certificate; no claim rests on it.
- Ed25519, base58, key derivation and Blake3 itself: uninterpreted functions.
- Websocket and HTTP servers, dialing, reconnects, status codes, timers and logging: replies and schedules are arbitrary inputs.
- The point-of-distribution connection and its outbox: best-effort delivery; only the outbox keys appear.
- LevelDB internals and JSON bytes: total maps and value trees; string keys are kept where the encoding is the point.
- Leader finalization proofs, mempool add and drain, the mutex registry: easy members; the mutex appears as step atomicity.
- Handlers in flight for an epoch that is being dropped.
- Liveness, for example that a block is eventually finalized: it depends on time-outs and the network.
