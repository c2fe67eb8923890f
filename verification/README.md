# Verified models of ultima_cluster

This project models, in Dafny 4.11, two halves of the ultima_cluster repository and proves properties of every
run and every input of the models.

**The consensus core** (`uc_consensus/src`). `Protocol.dfy` states elections, term adoption, streaming under the
data-plane gate, reconciling against the leader's history, cuts and their later acknowledgment, attested durable
reports, the leader's commit rule, commit gossip and restarts as one step relation over a fixed membership.
`ProtocolShape`, `ProtocolSteps`, `ProtocolSafety` and `ProtocolTheorems` prove election safety, log matching, leader
completeness and durability of committed positions over all runs; `ProtocolFollowers` proves what nodes apply,
`ProtocolProgress` that no run is ever stuck, and `ProtocolGap` and `ProtocolLateCut` are two runs in which a node
applies what it should not. `Reconcile`, `TermMaps` and `LogMaps` model the term-map kernel and prove that it carries
out the protocol's reconcile step. `CommitTracker` and `Ranking` model the quorum rank, `ClusterConfig` the
single-server membership transition.

**The decision algorithms around the cluster** (`bench-infra/scripts`, `scripts`, `proofs-veil/scripts`, `fuzz`). The
metrics reader, its round trip and what it skips (`PromText`, `PromRoundTrip`, `PromTolerant`), the bucketed quantile
(`Histogram`), the paired A/B verdict (`AbVerdict`), the stall and recovery detectors (`CommitStall`, `CommitSampler`,
`Detectors`), the paced append/apply harness (`Pacing`, `PacingLimits`, `PacingExact`, `PacingBound`), the membership
orchestration (`Membership`) and the verdicts of its gate (`GateOutcomes`), the model slicer (`Slicer`,
`SlicerExact`), the slug rules and the emphasis scan (`Slugs`, `Emphasis`), the jumbo-frame adjudication (`RowB`), the
edge-saturation ladder (`Knee`) and the fuzz splitter (`Splitter`).

Conventions: rates, times and statistics are exact reals and standard errors are compared by their squares; text is
`seq<char>`; scrapes, polls, clocks and network answers are inputs. In the protocol a frame stands for a stretch of log
bytes, and a message once sent may be taken at any later time, in any order and any number of times, so that loss,
delay, reordering and repetition are all covered.

## What the proofs found

- The latch that holds commit gossip until a reconcile is open too early in two ways, and a node then takes a newer
  leader's commit position while its validated frontier still belongs to an older term. A node that loses its own
  election steps down without re-arming it (`step_down_to_follower`): `ProtocolGap.LoserAppliesStaleFrame` is a complete
  run of three nodes. A cut decided in an older term releases it when its acknowledgment arrives after a newer term was
  adopted through a vote request (`finish_validation`): `ProtocolLateCut.LateCutAppliesStaleFrame` is a complete run of
  five nodes in which the node never stood. In both, it applies a frame the committed history does not have.
- Call a node unjudged when it stood, or had a cut of an older term acknowledged, in its current term and has not
  reconciled since. Among nodes that may take gossip, these are exactly the ones their own term's leader has not
  vouched for (`ProtocolFollowers.JudgedIffVouched`), and in every run in which no unjudged node takes gossip all nodes
  apply the same frames (`ProtocolFollowers.JudgedRunsAgree`). One intake is safe exactly when it stays within what a
  reconcile against the gossiping leader would keep (`ProtocolFollowers.IntakeIsSafeIff`).
- Safety is not bought by standing still: from every state of every run the cluster can elect a leader and commit any
  payload on every node (`ProtocolProgress.CanAlwaysCommit`), and from there it goes on committing with no election,
  reconcile or restart (`ProtocolProgress.StreamingCommits`).
- Reconciling against the last 64 entries of a longer leader map can keep bytes that diverge below the window, and the
  next reconcile then finds nothing wrong (`TermMaps.WindowHidesDivergence`). `Reconcile.ReconcileIsExact` says when the
  cut is exact for one leader map; `TermMaps.WindowSettlesIff` says, from the follower's own map and the window alone,
  when it is exact for every leader map that could have shipped the window.
- The metrics reader gives back a printed map exactly when no label value has a backslash directly followed by the
  letter n, because it undoes escapes by three replacements in turn, and no line boundary other than the line feed,
  because it splits lines at characters the format does not escape (`PromRoundTrip.RoundTrip`).
- The pacing bound of window plus batch times frame bytes, and the equation between frame counts and positions, hold
  for every setting exactly when whole frames tile the log buffer (`PacingLimits.BoundIffTiles`,
  `PacingLimits.CountIffTiles`); the harness's own defaults do not tile (`PacingLimits.DefaultsDoNotTile`). For one
  setting a finite table decides whether the bound holds in every run (`PacingBound.BoundIff`). The driver can come to
  wait for buffer space until it is stopped exactly when the batch is zero or does not fit the buffer
  (`PacingExact.OverrunIff`).
- An exception can escape the resize scenario instead of a verdict: when its leader poll sees several leaders, when the
  measuring around a transition raises, or when it runs out of hosts (`GateOutcomes.ResizeRaisesIff`, and
  `GateOutcomes.GateRaisesIff` from the inputs of the whole gate). Where nothing of the first two kinds happens, it runs
  out of hosts exactly when the replacement before it had its promotion accepted but not seen or not measured, which
  leaves the new voter in the map beside all the old ones, and its own first growth then goes through
  (`GateOutcomes.CalmGateRaisesIff`, `Membership.UnseenPromotionRaises`). A refused removal is no cause, because the
  victim was already killed and nothing converges after it (`Membership.RefusedRemovalFails`).
- The two slug rules also part on white space other than the space, which the GitHub rule keeps and md-tui splits at;
  the warning then gives its catch-all cause (`Slugs.SlugsAgreeIff`, `Slugs.CatchAllIff`, `Slugs.TabHeading`).
- A fence line inside a star paragraph is skipped by the emphasis scan, so a later block can be reported from inside a
  code fence. A block is reported outside every fence exactly when the star paragraphs before it hide an even number of
  fence lines (`Emphasis.OutsideFenceIff`, `Emphasis.StrandedBlockIsInsideAFence`).
- Losing answers on a commit sample changes no stall, whatever follows, exactly when the highest answer was kept or the
  full sample would have set no new high (`CommitSampler.PartialTickIsInertIff`); otherwise a stall can look shorter
  (`CommitSampler.PartialTickCanHideAStall`).

## Model

| member | source | states |
|---|---|---|
| `ProtocolSteps.WinIsFirst` | uc_consensus/src/election.rs:858-887 | a candidate with a quorum of grants is the first to win its term, since a voter grants one candidate a term and quorums meet |
| `ProtocolSteps.QuorumNamesLeader` | uc_consensus/src/election.rs:1679-1725 | any quorum of grants in a term that has a leader names that leader, who no longer stands for it |
| `ProtocolSteps.AgreedIs` | uc_consensus/src/election.rs:1498-1605 | comparing terms alone finds exactly the longest common history with the leader |
| `ProtocolSteps.CommitIsHeld` | uc_consensus/src/election.rs:739-792 | the quorum a commit above the leader's base is ranked from has reported, in the leader's own term, holding it: the content attestation lets no other report count |
| `ProtocolSteps.StepKeepsShape` | uc_consensus/src/election.rs:661-1010 | every step keeps the structural invariant: one elected leader a term, every log on the histories of the leaders whose terms it carries, votes and terms in order |
| `ProtocolSafety.AckOrigin` | uc_consensus/src/election.rs:739-792 | an acknowledgment is old, or is made by the stepping node while it streams that term and holds that history |
| `ProtocolSafety.ChoosableBefore` | uc_consensus/src/election.rs:1324-1358 | what may still be committed only narrows from step to step, across votes, candidacies that keep their stream, and restarts that lose an adopted term |
| `ProtocolSafety.VoterAcked` | uc_consensus/src/election.rs:1679-1725 | what an earlier term may still commit was acknowledged by one of any later leader's voters |
| `ProtocolSafety.WinnerHolds` | uc_consensus/src/election.rs:1361-1431 | a candidate about to win holds everything one of its voters acknowledged and that may still be committed |
| `ProtocolSafety.StepKeepsComplete` | uc_consensus/src/election.rs:1361-1431 | after every step, every later leader has all that may still be committed in an earlier term |
| `ProtocolTheorems.FreshHolds` | uc_consensus/src/election.rs:474-481 | a voter that holds such a history votes, by the (last term, length) order, only for a log that has it |
| `ProtocolSteps.CutParts` | uc_consensus/src/election.rs:1538-1580 | where a cut is decided the log has neither the leader's frame nor any frame of the leader's term, so it stays a disagreement as the leader appends |
| `ProtocolTheorems.TruncatedHolds` | uc_consensus/src/election.rs:923-949 | a cut, in whatever later term it is acknowledged, spares everything that may still be committed |
| `ProtocolTheorems.StepKeepsSafe` | uc_consensus/src/election.rs:661-1010 | every step of the protocol keeps the whole safety invariant |
| `ProtocolTheorems.RunIsSafe` | uc_consensus/src/election.rs:487-605 | every state of every run from a fresh cluster satisfies it, restarts from durable state included |
| `ProtocolTheorems.OneLeaderPerTerm` | uc_consensus/src/election.rs:858-887 | election safety: in every run no two nodes lead the same term |
| `ProtocolTheorems.LogsMatch` | uc_consensus/src/election.rs:1132-1146 | log matching: two nodes with the same term at a position hold the same frames up to it |
| `ProtocolTheorems.LeadersAreComplete` | uc_consensus/src/election.rs:1910-1984 | leader completeness: every leader of a later term has every frame of every committed position |
| `ProtocolTheorems.CommittedIsDurable` | uc_consensus/src/commit.rs:4-13 | in every state of every run, a quorum holds every committed position durably |
| `ProtocolTheorems.CommitsAgree` | uc_consensus/src/election.rs:1910-1984 | any two committed positions lie on one history |
| `ProtocolFollowers.StepKeepsFollowers` | uc_consensus/src/election.rs:682-713 | every step keeps the validated frontier a prefix of the history of the leader that validated it |
| `ProtocolFollowers.ReconcileKeepsApplied` | uc_consensus/src/election.rs:1498-1605 | a reconcile never decides on a cut below what the node has taken as committed |
| `ProtocolFollowers.StepKeepsApplied` | uc_consensus/src/election.rs:1483-1493 | every step whose gossip is vouched for keeps what nodes apply on the committed history |
| `ProtocolFollowers.AppliedAgree` | uc_consensus/src/election.rs:374-392 | state-machine agreement: in every vouched run any two nodes have applied the same frames as far as both have applied |
| `ProtocolFollowers.JudgedIffVouched` | uc_consensus/src/election.rs:1433-1493 | in every run, a node that may take gossip is vouched for by its own term's leader if and only if it has reconciled since it last stood, or had an older cut acknowledged, in that term |
| `ProtocolFollowers.JudgedRunsAgree` | uc_consensus/src/election.rs:1469-1493 | state-machine agreement in every run in which only such nodes take gossip |
| `ProtocolFollowers.IntakeIsSafeIff` | uc_consensus/src/election.rs:1483-1493 | taking gossip keeps a node on the committed history if and only if it does not move past what a reconcile against that leader would keep |
| `ProtocolProgress.CommitNeverFalls` | uc_consensus/src/election.rs:1483-1493 | along every path of steps no node's commit position falls but in its own restart, however late a gossip arrives |
| `ProtocolProgress.IntakeMoves` | uc_consensus/src/election.rs:1483-1493 | an intake takes a node to the gossiped position as far as its log is validated, unless it is there already, and moves nothing and nobody else |
| `ProtocolProgress.FrontierWaits` | uc_consensus/src/election.rs:682-713 | a frame that opens a newer term is unconfirmed, and until a reconcile or a restart the validated frontier does not rise |
| `ProtocolProgress.CandidateTakesGossip` | uc_consensus/src/election.rs:1483-1493 | a candidate judged by its own term's leader may take that leader's gossip without stepping down |
| `ProtocolProgress.CanAlwaysCommit` | uc_consensus/src/election.rs:487-1010 | from every state of every run some continuation elects a leader of a new term under which all nodes hold, and know to be committed, one log that ends in any payload asked for |
| `ProtocolProgress.StreamingCommits` | uc_consensus/src/election.rs:739-792 | from such a state any further payloads are committed on every node with no election, reconcile or restart |
| `ProtocolProgress.RestartResumes` | uc_consensus/src/election.rs:487-605 | a follower of such a state that restarts is back in it once it hears the commit position, without a reconcile |
| `ProtocolGap.LoserAppliesStaleFrame` | uc_consensus/src/election.rs:1615-1625 | a run in which the loser of an election applies its own frame where a quorum holds the winner's |
| `ProtocolLateCut.LateCutAppliesStaleFrame` | uc_consensus/src/election.rs:671-678 | a run in which a node that never stood adopts a newer term while a cut is in flight and, once that is acknowledged, applies its own frame where a quorum holds the newer leader's |
| `Reconcile.ReconcileMaps` | uc_consensus/src/reconcile.rs:93-204 | the kernel with its alignment search, run match and filters computes the specified outcome |
| `Reconcile.ReconcileIsExact` | uc_consensus/src/reconcile.rs:93-204 | a cut always falls on a contradicted byte; the surviving length is the first difference exactly when both maps have the same last entry below it, which a whole map or a held window start guarantees; when the outcome is no common prefix |
| `Reconcile.KeptMapIsOurs` | uc_consensus/src/reconcile.rs:169-203 | the surviving map is a prefix of our own and gives every kept byte the term it had |
| `Reconcile.NothingToJudge` | uc_consensus/src/reconcile.rs:93-113 | without a leader map, or without an own one, nothing is cut |
| `Reconcile.LastBelowDecides` | uc_consensus/src/reconcile.rs:10-12 | two matching maps agree on every byte below a cut exactly when their last entries below it are equal |
| `TermMaps.OpenTerm` | uc_consensus/src/election.rs:1380-1417 | opening a term drops the whole chain of byte-less entries at the durable position, makes the map strict and changes the term of no position below the new base |
| `TermMaps.WindowSettlesIff` | uc_consensus/src/reconcile.rs:93-151 | what survives is exact for every leader map that could have shipped the window if and only if the follower holds its start, it is a whole map, only one history can precede it, or nothing survives |
| `TermMaps.ReconcileSettles` | uc_consensus/src/reconcile.rs:93-204 | reconciling what survived against the same window changes nothing, except that a window starting above it, whose start we lack, then has no common prefix |
| `TermMaps.WindowHidesDivergence` | uc_consensus/src/reconcile.rs:114-151 | a 64-entry window over a 66-term map that keeps, and later blesses, bytes of another term |
| `LogMaps.KernelIsTheStepInRuns` | uc_consensus/src/reconcile.rs:93-204 | in every run, given the leader's whole map, the kernel keeps exactly the frames the protocol's reconcile step keeps once its cut is acknowledged, and leaves exactly that node's map |
| `LogMaps.KeptMapIs` | uc_consensus/src/reconcile.rs:176-198 | a byte-less frontier entry survives exactly when the leader's map shares it; otherwise the map is cut at the surviving length |
| `LogMaps.MapTerms` | uc_consensus/src/election.rs:1132-1146 | the term the map gives a position is the term of the frame there |
| `CommitTracker.RankIsQuorumHeld` | uc_consensus/src/commit.rs:98-111 | the quorum-th highest position is the greatest one a quorum holds |
| `CommitTracker.CommitTracker.constructor` | uc_consensus/src/commit.rs:50-70 | a fresh tracker has no reports, no commit, and the smallest majority as its quorum |
| `CommitTracker.CommitTracker.OnDurable` | uc_consensus/src/commit.rs:72-77 | a report replaces its slot as given, even when lower, and commit stays |
| `CommitTracker.CommitTracker.ResetReports` | uc_consensus/src/commit.rs:89-95 | all reports go to zero and commit stays |
| `CommitTracker.CommitTracker.Advance` | uc_consensus/src/commit.rs:97-111 | commit moves to the greatest position a quorum and the leader hold when that is higher, never back, and the move is reported exactly when it happens |
| `Ranking.RankEnablesCommit` | uc_consensus/src/election.rs:1910-1950 | when the rank over slots filled from attested reports reaches a position above the term's base, the protocol's commit step is enabled there with exactly those holders |
| `ClusterConfig.ApplyMovesOne` | uc_consensus/src/config.rs:85-148 | an accepted change moves exactly one id as its name says, tombstones what it removes, keeps the member lists well formed and bumps the version |
| `ClusterConfig.AddressesAreKept` | uc_consensus/src/config.rs:85-148 | an accepted addition reaches its id at the address asked for and nowhere else, and every other change leaves every remaining member, the promoted or demoted one included, where it was |
| `ClusterConfig.OthersKeepOrder` | uc_consensus/src/config.rs:85-148 | the others keep their order, the moved id comes last in the list it enters, and a removed id is the newest tombstone |
| `ClusterConfig.RefusedIff` | uc_consensus/src/config.rs:87-148 | when each of the six refusals is given, and so when a change is accepted |
| `ClusterConfig.OneAddressForLife` | uc_consensus/src/config.rs:85-148 | along every history an id has one address, whatever roles it passes through |
| `ClusterConfig.MajoritiesMeet` | uc_consensus/src/config.rs:85-148 | voter sets that differ in at most one id have only overlapping majorities |
| `ClusterConfig.ConsecutiveMajoritiesMeet` | uc_consensus/src/config.rs:85-148 | along every history, every majority of a configuration meets every majority of the next |
| `ClusterConfig.HistoryWellFormed` | uc_consensus/src/config.rs:85-148 | every configuration of a history is well formed and never without a voter |
| `ClusterConfig.DeadStayDead` | uc_consensus/src/config.rs:87-91 | a removed id is never a member again |
| `ClusterConfig.KnownStayKnown` | uc_consensus/src/config.rs:85-148 | an id once known is for ever a member or removed |
| `PromText.SplitLabels` | bench-infra/scripts/tt_fleet_gate.py:82-104 | the character loop splits label text at commas outside quotes, as the scanner specification says |
| `PromText.ReadLabels` | bench-infra/scripts/tt_fleet_gate.py:137-146 | the label parts read into a dictionary, or refused on a part without an equals sign |
| `PromText.ReadLine` | bench-infra/scripts/tt_fleet_gate.py:129-158 | one line read to its key and value, or skipped |
| `PromText.ParseProm` | bench-infra/scripts/tt_fleet_gate.py:114-159 | the whole text read line by line, a later sample replacing an earlier one of the same key |
| `PromRoundTrip.UnquoteQuoted` | bench-infra/scripts/tt_fleet_gate.py:107-111 | unquoting a printed label value gives its reading, whatever characters it holds |
| `PromRoundTrip.ReadingExact` | bench-infra/scripts/tt_fleet_gate.py:107-111 | a value reads as itself exactly when it has no backslash directly followed by n |
| `PromRoundTrip.SplitBack` | bench-infra/scripts/tt_fleet_gate.py:82-104 | the splitter gives back exactly the printed labels although values hold commas, braces, quotes, equals signs and line feeds |
| `PromRoundTrip.LineBack` | bench-infra/scripts/tt_fleet_gate.py:129-158 | a printed sample line is read as its own key and value |
| `PromRoundTrip.LinesBack` | bench-infra/scripts/tt_fleet_gate.py:128-131 | the printed text splits into exactly the printed lines |
| `PromRoundTrip.ReaderKeepsToOneLine` | bench-infra/scripts/tt_fleet_gate.py:114-159 | whatever the text, no label value the reader returns has a line boundary other than the line feed |
| `PromRoundTrip.RoundTrip` | bench-infra/scripts/tt_fleet_gate.py:82-159 | printing any map of samples and reading it back gives that map if and only if no label value has a backslash directly followed by n or a line boundary other than the line feed |
| `PromRoundTrip.CarriageReturnSplitsTheLine` | bench-infra/scripts/tt_fleet_gate.py:128-129 | a carriage return in a label value splits its line in two |
| `PromRoundTrip.BackslashNIsLost` | bench-infra/scripts/tt_fleet_gate.py:107-111 | such a value comes back changed |
| `PromTolerant.DressedLine` | bench-infra/scripts/tt_fleet_gate.py:129-158 | white space around a sample line and a timestamp or other text after its value change nothing, and a value that is no number drops the line |
| `PromTolerant.NoiseIsSkipped` | bench-infra/scripts/tt_fleet_gate.py:129-158 | comments, blank lines, lines with an unclosed brace and lines without a value give nothing |
| `PromTolerant.AbandonedIff` | bench-infra/scripts/tt_fleet_gate.py:137-146 | a line is abandoned exactly when one of its label parts has no equals sign |
| `PromTolerant.LastLabelWins` | bench-infra/scripts/tt_fleet_gate.py:137-146 | of label parts with one name the last counts |
| `PromTolerant.ScrapeIsRead` | bench-infra/scripts/tt_fleet_gate.py:114-159 | a scrape of such sample lines among such other lines is read as exactly the samples whose number can be read, the last line of a key counting |
| `PromTolerant.CrLfIsOneBreak` | bench-infra/scripts/tt_fleet_gate.py:128-128 | a carriage return and a line feed end one line |
| `PromTolerant.BreaksAre` | bench-infra/scripts/tt_fleet_gate.py:128-128 | the line boundaries, one by one |
| `PromTolerant.UnterminatedLine` | bench-infra/scripts/tt_fleet_gate.py:128-128 | a last line without a line feed is a line all the same |
| `PromTolerant.TrailingComma` | bench-infra/scripts/tt_fleet_gate.py:82-104 | a comma after the last label adds nothing |
| `Histogram.HistQuantile` | bench-infra/scripts/tt_fleet_gate.py:208-233 | the scan over buckets computes the quantile specification |
| `Histogram.QuantileIsLeastCover` | bench-infra/scripts/tt_fleet_gate.py:208-233 | on any ascending ladder ending in infinity the answer is the least bound that covers the exact ceil(q n)-th smallest sample |
| `Histogram.QuantileMonotone` | bench-infra/scripts/tt_fleet_gate.py:208-233 | a larger q never reads a lower bound |
| `Histogram.RankIs` | bench-infra/scripts/tt_fleet_gate.py:227-229 | the rank is the least one from 1 on that is not below q times the number of samples |
| `Histogram.QuantileOfAny` | bench-infra/scripts/tt_fleet_gate.py:208-233 | on any buckets whatever: no answer exactly when none counted a sample, else the first bound that reaches the rank, else the last |
| `Histogram.CountReaches` | bench-infra/scripts/tt_fleet_gate.py:208-233 | at least k samples lie under a bound exactly when the k-th smallest does |
| `AbVerdict.AbStats` | bench-infra/scripts/tt_fleet_gate.py:304-359 | the per-arm loop computes every arm's paired statistics |
| `AbVerdict.SemSqIsPairwise` | bench-infra/scripts/tt_fleet_gate.py:345-357 | the squared standard error measures how far the paired deltas lie from one another: the squared distances of all pairs add up to n times n times n - 1 times it |
| `AbVerdict.MeanBalances` | bench-infra/scripts/tt_fleet_gate.py:345-350 | the mean is the one number the others balance around |
| `AbVerdict.DeltaMeans` | bench-infra/scripts/tt_fleet_gate.py:345-350 | a head rate is the base rate changed by its delta in percent, and by no other percentage |
| `AbVerdict.DeltasByRepetition` | bench-infra/scripts/tt_fleet_gate.py:345-350 | each repetition with both readings gives its own delta, one with a missing reading gives none |
| `AbVerdict.ReadingsByRepetition` | bench-infra/scripts/tt_fleet_gate.py:317-320 | a repetition has a reading exactly when its rate is not zero |
| `AbVerdict.RowDeltaMeans` | bench-infra/scripts/tt_fleet_gate.py:316-332 | the row's own delta relates the two means, and exists exactly when both do and the base mean is not zero |
| `AbVerdict.AbReading` | bench-infra/scripts/tt_fleet_gate.py:362-414 | the reading loop with its early exits computes the verdict specification |
| `AbVerdict.PassIffEveryArmIsWithin` | bench-infra/scripts/tt_fleet_gate.py:304-414 | within resolution exactly when the resolution is positive, there is an arm, and every arm is complete and inside it |
| `AbVerdict.ReadingIs` | bench-infra/scripts/tt_fleet_gate.py:362-414 | once all arms can be judged: no resolution, noisy as soon as one arm scatters more than it, outside as soon as none does and one mean is, within otherwise |
| `AbVerdict.WhyIs` | bench-infra/scripts/tt_fleet_gate.py:390-402 | which defect of an arm is named: a missing side or base mean, a side with one reading, or too few pairs |
| `AbVerdict.IncompleteReads` | bench-infra/scripts/tt_fleet_gate.py:390-402 | the first arm that cannot be judged decides the reading |
| `AbVerdict.WorstIs` | bench-infra/scripts/tt_fleet_gate.py:403-414 | the quoted numbers are the first arm mean of largest magnitude and the largest scatter |
| `AbVerdict.CommonModeCancels` | bench-infra/scripts/tt_fleet_gate.py:345-357 | scaling both rates of any repetition by a common positive factor changes no paired delta, mean, standard error or verdict |
| `CommitStall.LongestStall` | bench-infra/scripts/wire_roll_gate.py:87-109 | the one-pass detector computes the stall specification |
| `CommitStall.StallIsLongest` | bench-infra/scripts/wire_roll_gate.py:87-109 | the answer is the maximum of t_j - t_i over all i up to j with no sample strictly between above the high seen by i |
| `CommitStall.RunningMaxIsInert` | bench-infra/scripts/wire_roll_gate.py:87-109 | replacing positions by their running maxima changes nothing |
| `CommitStall.DipIsInert` | bench-infra/scripts/wire_roll_gate.py:87-109 | inserting or deleting an interior sample that sets no new high changes nothing |
| `CommitStall.GapsPassMeansMovement` | bench-infra/scripts/wire_roll_gate.py:43-51 | the gap clause passes exactly when every restart was observed and commit rose above its mark within every stretch longer than the bar |
| `CommitStall.RollPassesIff` | bench-infra/scripts/wire_roll_gate.py:43-51 | the row passes exactly when every node ended at level 13, every restart was observed with commit moving, and the state machines agree |
| `CommitSampler.FoldIsHighest` | bench-infra/scripts/wire_roll_gate.py:195-200 | a tick yields a sample exactly when somebody answered, and it is the highest answer |
| `CommitSampler.CommitSampler.constructor` | bench-infra/scripts/wire_roll_gate.py:189-193 | a new sampler has no samples and zero counts |
| `CommitSampler.CommitSampler.Tick` | bench-infra/scripts/wire_roll_gate.py:202-214 | every tick is recorded or counted as skipped, a partly answered one also as partial |
| `CommitSampler.PartialTickIsInert` | bench-infra/scripts/wire_roll_gate.py:177-187 | losing answers on an interior tick that set no new high changes no stall |
| `CommitSampler.PartialTickIsInertIff` | bench-infra/scripts/wire_roll_gate.py:177-187 | whatever is sampled after it, losing answers on a tick changes no stall if and only if the highest answer was kept or the full sample set no new high |
| `CommitSampler.PartialTickCanHideAStall` | bench-infra/scripts/wire_roll_gate.py:177-187 | a stall of five seconds read as three |
| `Detectors.TwoWindowRecovery` | bench-infra/scripts/m9_fleet_gate.py:371-383 | the automaton reports the end of the first window of the earliest pair of consecutive qualifying windows, or nothing when there is none |
| `Detectors.Serving` | bench-infra/scripts/m10_fleet_gate.py:127-134 | a poll collects exactly the nodes that answered as serving leader |
| `Detectors.WaitSingleLeader` | bench-infra/scripts/m10_fleet_gate.py:124-142 | a leader is returned only at the earliest two consecutive polls that both saw exactly it |
| `Detectors.MeasureWindows` | bench-infra/scripts/m14_fleet_gate.py:261-266 | the sliding loop measures every window of the ticks after the event |
| `Detectors.FirstRecovered` | bench-infra/scripts/m14_fleet_gate.py:267-273 | the earliest window confirmed by the disjoint next one is reported |
| `Detectors.RecoveryTime` | bench-infra/scripts/m14_fleet_gate.py:253-274 | baseline, windows and the earliest confirmed recovery, together |
| `Detectors.BaselineIs` | bench-infra/scripts/m14_fleet_gate.py:258-259 | the baseline is the responses per bucket of its window |
| `Detectors.RecoveryIsEarliest` | bench-infra/scripts/m14_fleet_gate.py:253-274 | on a timeline without gaps the reported time is the end of the first two seconds after the event that carry four fifths of the baseline and are followed by two more that do, and none is reported exactly when there are none |
| `Detectors.CutKeepsAnswer` | bench-infra/scripts/m14_fleet_gate.py:820-826 | an answer found on a timeline cut after the baseline window is the answer of the full timeline |
| `Pacing.PaddedOnce` | uc_log/src/reader.rs:128-154 | a reader that has stepped over padding stands where no padding follows, and its next frame ends where it would have |
| `Pacing.InvStep` | scripts/harness/apply_bench_17d5c6b_pace_stalls.rs:312-341 | every step of the driver and of any machine, over padding or a frame, keeps the position, batch and window invariant |
| `Pacing.PacingSafety` | scripts/harness/apply_bench_17d5c6b_pace_stalls.rs:312-341 | in every interleaving append is at most the window plus one batch ahead of the slowest machine, nobody passes commit, and the pacing subtraction never underflows |
| `Pacing.ScannedMinimumIsBracketed` | scripts/harness/apply_bench_17d5c6b_pace_stalls.rs:185-190 | the minimum read slot by slot lies between the true minimum at scan start and at scan end |
| `Pacing.FloorIsMinimumAtStart` | scripts/harness/apply_bench_17d5c6b_pace_stalls.rs:185-190 | the lower bracket is the true minimum when the scan began |
| `Pacing.TiledAccounting` | scripts/harness/apply_bench_17d5c6b_pace_stalls.rs:402-411 | when frames tile the buffer every machine's frame count times the frame size is its applied position and the bound is window plus batch times frame |
| `Pacing.StallsCountWaits` | scripts/harness/apply_bench_17d5c6b_pace_stalls.rs:322-340 | in every run the reported stalls are the decisions that found the slowest machine further behind than the window |
| `Pacing.FinishStep` | scripts/harness/apply_bench_17d5c6b_pace_stalls.rs:312-340 | the driver leaves its loop only when stopped, and ends only with the second of its final stores |
| `Pacing.FinishesStopped` | scripts/harness/apply_bench_17d5c6b_pace_stalls.rs:312-340 | in every run a finishing driver has been stopped |
| `PacingLimits.BoundIffTiles` | uc_log/src/buffer.rs:655-674 | that bound holds for every window, batch and number of machines exactly when whole frames tile the buffer |
| `PacingLimits.CountIffTiles` | scripts/harness/apply_bench_17d5c6b_pace_stalls.rs:402-411 | the tally of frame counts against positions comes out for every setting exactly when whole frames tile the buffer |
| `PacingLimits.PaddingExceedsTheBound` | uc_log/src/buffer.rs:655-674 | a run with end-of-buffer padding that exceeds the bound |
| `PacingLimits.PaddingBreaksTheCount` | scripts/harness/apply_bench_17d5c6b_pace_stalls.rs:402-411 | a run in which padding breaks the equation between count and position |
| `PacingLimits.DefaultsDoNotTile` | scripts/harness/apply_bench_17d5c6b_pace_stalls.rs:101-107 | a 64 MiB buffer and the default 96-byte frame do not tile |
| `PacingLimits.ZeroBatchIsUnpaced` | scripts/harness/apply_bench_17d5c6b_pace_stalls.rs:312-335 | with a batch of zero the driver publishes and waits for nothing |
| `PacingLimits.ZeroBatchBoundIff` | scripts/harness/apply_bench_17d5c6b_pace_stalls.rs:312-335 | with a batch of zero the bound holds in every run exactly when the window is at least the whole frames the buffer holds |
| `PacingBound.BoundIff` | scripts/harness/apply_bench_17d5c6b_pace_stalls.rs:312-335 | for one setting, the bound holds in every run if and only if its numbers pass a finite test: the window covers the buffer's whole frames when the batch is zero; else the batch does not fit the buffer, or a table over one lap of batches has no place out of the bound |
| `PacingBound.ReachRest` | scripts/harness/apply_bench_17d5c6b_pace_stalls.rs:312-330 | every place the window allows when a batch is passed is reached by all machines at once in some run |
| `PacingBound.TableDecides` | uc_log/src/buffer.rs:655-674 | positions repeat lap by lap, so the table over one lap behind the window stands for all batches and all places |
| `PacingExact.LapEnd` | uc_log/src/buffer.rs:655-674 | where the i-th frame of any lap of the buffer ends, padding included |
| `PacingLimits.WaitIsReleased` | scripts/harness/apply_bench_17d5c6b_pace_stalls.rs:322-330 | while the driver waits in the pace loop the slowest machine has a committed frame, every machine step, over padding or a frame, lowers the outstanding bytes, and with none outstanding the wait is over |
| `PacingExact.OverrunIff` | scripts/harness/apply_bench_17d5c6b_pace_stalls.rs:312-335 | some run brings the driver to wait for buffer space if and only if the batch is zero or a whole batch does not fit the buffer |
| `PacingExact.OverrunEndsByStop` | scripts/harness/apply_bench_17d5c6b_pace_stalls.rs:312-332 | in every run that wait lasts exactly until the stop flag is set, whatever the machines do |
| `Membership.Fleet.constructor` | bench-infra/scripts/m6_fleet_gate.py:1176-1200 | the fleet starts at its genesis configuration with a one-element history |
| `Membership.Fleet.Ctl` | bench-infra/scripts/m6_fleet_gate.py:877-901 | a control command either leaves the configuration or moves it by the single-server transition, also when its answer is lost |
| `Membership.Orchestrator.constructor` | bench-infra/scripts/m6_fleet_gate.py:768-772 | voters 0, 1, 2 on hosts 0, 1, 2 and no id issued |
| `Membership.Orchestrator.FreshId` | bench-infra/scripts/m6_fleet_gate.py:777-780 | an issued id never repeats, is never an original id, and is unknown to the fleet and to the voter map |
| `Membership.Orchestrator.FreeHostIndex` | bench-infra/scripts/m6_fleet_gate.py:782-787 | the least free host, found exactly when there are fewer voters than hosts |
| `Membership.Orchestrator.Converge` | bench-infra/scripts/m6_fleet_gate.py:847-871 | the version waited for is bumped by one, and the wait ends well exactly when every polled host that is up reports it in time and none is down |
| `Membership.Orchestrator.WaitLeader` | bench-infra/scripts/m6_fleet_gate.py:544-561 | a voter of the map is returned exactly when one leads, and the poll raises exactly when several do, which takes several voters |
| `Membership.Orchestrator.Admit` | bench-infra/scripts/m6_fleet_gate.py:919-936 | adding a learner keeps the orchestrator consistent with the fleet on every exit, its address book and the version it waits for included, and passes exactly when the reply, the convergence, the catch-up and the reading are there, there is room, and no voter's node is down |
| `Membership.Orchestrator.Promote` | bench-infra/scripts/m6_fleet_gate.py:943-949 | a promotion that is begun and accepted enters the id under its host, seen in time or not; otherwise the map stays |
| `Membership.Orchestrator.Remove` | bench-infra/scripts/m6_fleet_gate.py:1057-1064 | a removal deletes exactly the id or leaves the map, and for a learner of a healthy fleet passes exactly when the reply settles and the measuring gives a reading |
| `Membership.Orchestrator.Demote` | bench-infra/scripts/m6_fleet_gate.py:1045-1050 | a demoted id stays in the voter map until it is removed; which replies demote a voter beside which another remains |
| `Membership.Orchestrator.CrashAndRemove` | bench-infra/scripts/m6_fleet_gate.py:961-974 | the victim's node is killed before its removal is asked for, so a removal that is not accepted leaves a dead voter in the map |
| `Membership.Orchestrator.AddAndPromote` | bench-infra/scripts/m6_fleet_gate.py:919-949 | the verdict of adding and promoting a learner as a function of the replies, and exactly which of them leave it in the voter map although the step failed or raised |
| `Membership.Orchestrator.Grow` | bench-infra/scripts/m6_fleet_gate.py:911-949 | one growth: it raises without a free host or when its measuring does, and adds at most one fresh id on a free host, exactly when the promotion was accepted |
| `Membership.Orchestrator.RemoveOther` | bench-infra/scripts/m6_fleet_gate.py:955-974 | the victim is a voter other than the leader and the new node, found unless the leader was the only voter; from a healthy fleet in step, what the kill and the removal leave for every reply |
| `Membership.Orchestrator.GrowThenRemove` | bench-infra/scripts/m6_fleet_gate.py:911-974 | the two halves of a replacement: exactly when it raises, and, begun in step with the cluster, for every combination of replies its verdict, how many voters it leaves and whether one of them is dead |
| `Membership.Orchestrator.ReplaceABox` | bench-infra/scripts/m6_fleet_gate.py:904-985 | a passing replacement swaps one original voter for the fresh one; every exit keeps the map injective and the history a run of single-server transitions; exactly when it raises, several leaders at once included; begun in step with the cluster, its verdict and what it leaves for every poll and reply |
| `Membership.Orchestrator.GrowTwo` | bench-infra/scripts/m6_fleet_gate.py:999-1041 | the verdict of two growths as a function of the hosts and the replies, and on a pass two new voters, both in the real configuration |
| `Membership.Orchestrator.Shrink` | bench-infra/scripts/m6_fleet_gate.py:1045-1069 | demoting and removing one id: what it leaves, and its verdict |
| `Membership.Orchestrator.ShrinkTwo` | bench-infra/scripts/m6_fleet_gate.py:1043-1075 | removing the grown ids restores the voter map they were added to; its verdict for all replies |
| `Membership.Orchestrator.Resize353` | bench-infra/scripts/m6_fleet_gate.py:988-1087 | a passing resize ends with the voter map it began with; its verdict for every standing, every leader poll and all replies |
| `Membership.Orchestrator.LeaderSelfRemoval` | bench-infra/scripts/m6_fleet_gate.py:1090-1173 | at most the leader leaves the map, and exactly it on a pass; the verdict for every poll, raised when the poll sees several leaders, the request gets no answer or the load driver cannot be moved |
| `Membership.ReplaceThenResize` | bench-infra/scripts/m6_fleet_gate.py:1214-1215 | from the started gate, the verdicts of the first two scenarios are the stated function of all their inputs |
| `Membership.RunGate` | bench-infra/scripts/m6_fleet_gate.py:1176-1216 | over every run of the gate all invariants hold, and its verdicts, with where an escaping exception ends it, are the stated function of every poll, reply, convergence, catch-up and rate window |
| `GateOutcomes.ResizeRaisesIff` | bench-infra/scripts/m6_fleet_gate.py:988-1087 | the resize raises if and only if its poll sees several leaders, or the measuring around a transition it reaches raises, or there are not two free hosts and every transition it has hosts for passes |
| `GateOutcomes.GateRaisesIff` | bench-infra/scripts/m6_fleet_gate.py:1176-1216 | from which inputs an exception escapes the start of the gate or its first two scenarios: three leader polls, the measuring around each transition reached, or too few hosts in the resize |
| `GateOutcomes.CalmGateRaisesIff` | bench-infra/scripts/m6_fleet_gate.py:1214-1215 | where no poll sees several leaders and no measuring raises, that is the case if and only if the replacement's promotion was accepted but not seen in time, or not measured, and the resize's first growth goes through |
| `GateOutcomes.ResizePassesIff` | bench-infra/scripts/m6_fleet_gate.py:988-1087 | a resize passes if and only if one leader was found, there are two free hosts and room, every voter's node is up, all eight transitions go through and the worst dip is within the bar |
| `GateOutcomes.ReplacePassesIff` | bench-infra/scripts/m6_fleet_gate.py:904-985 | the same for a replacement and its three transitions |
| `GateOutcomes.SelfVerdictIs` | bench-infra/scripts/m6_fleet_gate.py:1090-1173 | when the self-removal passes and when it raises, from its inputs |
| `GateOutcomes.GatePassesIff` | bench-infra/scripts/m6_fleet_gate.py:1176-1216 | from which inputs of the gate both of the first two scenarios pass |
| `Membership.UnseenPromotionRaises` | bench-infra/scripts/m6_fleet_gate.py:943-949 | such a run of the whole gate: a failure, then the exception |
| `Membership.RefusedRemovalFails` | bench-infra/scripts/m6_fleet_gate.py:961-969 | a refused removal is no such run: the killed voter stays in the map, nothing converges, and the resize returns a failure |
| `Membership.EveryHostUsed` | bench-infra/scripts/m6_fleet_gate.py:782-787 | with every host taken there are at least as many voters as hosts, since the map is injective |
| `Slicer.MakeSlice` | proofs-veil/scripts/make_slice.py:14-48 | the scanning loop writes the specified slice or names the missing clauses |
| `Slicer.ItemsFit` | proofs-veil/scripts/make_slice.py:18-27 | a block's extent runs to the next line that ends blocks |
| `Slicer.ItemsOfEmit` | proofs-veil/scripts/make_slice.py:16-43 | scanning what a pass wrote finds exactly its items, shrunk |
| `Slicer.SlicingComposes` | proofs-veil/scripts/make_slice.py:14-43 | slicing by K1 and then by a subset K2 gives the lines slicing by K2 gives, the late-comment rule included |
| `Slicer.BlocksOfSlice` | proofs-veil/scripts/make_slice.py:18-33 | the surviving blocks are exactly the named ones, in source order, verbatim up to trailing comments and blanks |
| `Slicer.SliceOfSlice` | proofs-veil/scripts/make_slice.py:14-48 | both laws for complete runs of the script, so slicing is idempotent |
| `Slicer.RealSliceOfSlice` | proofs-veil/scripts/make_slice.py:34-43 | the same for the lines the script really recognises and writes |
| `SlicerExact.ClauseIs` | proofs-veil/scripts/make_slice.py:15-19 | a line opens the clause w if and only if it begins with invariant [w] or safety [w], w a word |
| `SlicerExact.KindsAreExact` | proofs-veil/scripts/make_slice.py:21-26 | a block is ended by exactly the clause lines and those that begin with #gen_spec or #check; what is trimmed is exactly comment lines and white space |
| `SlicerExact.PrefixKinds` | proofs-veil/scripts/make_slice.py:34-40 | the module, timeout, check and comment lines are exactly those with the script's prefixes |
| `SlicerExact.SliceIsExact` | proofs-veil/scripts/make_slice.py:14-48 | a slice is the source's surviving lines in order, said line by line of the source alone, and it is written exactly when every name asked for opens a clause |
| `SlicerExact.ArgumentsAreWritten` | proofs-veil/scripts/make_slice.py:34-39 | the module, timeout and check lines outside the clauses carry the arguments of the run |
| `Slugs.MdtuiIsNormalGithub` | scripts/check_doc_links.py:83-94 | the md-tui slug is the GitHub slug with underscores dropped, left-over white space turned into dashes, dash runs collapsed and edge dashes stripped |
| `Slugs.SlugsAgreeIff` | scripts/check_doc_links.py:83-94 | the two slugs agree exactly when the heading has no white space but spaces and its GitHub slug has no underscore, no double dash and no edge dash |
| `Slugs.CatchAllIff` | scripts/check_doc_links.py:97-103 | the catch-all cause is given exactly to the differing slugs that have an edge dash or left-over white space and neither an underscore nor a double dash |
| `Slugs.GithubSpaces` | scripts/check_doc_links.py:83-86 | the GitHub slug keeps white space exactly when the heading has some other than the space |
| `Slugs.GithubIsOnePass` | scripts/check_doc_links.py:83-86 | the GitHub rule works character by character: letters in lower case, digits, underscores, dashes and other white space kept, a space a dash, the rest dropped |
| `Slugs.CauseIs` | scripts/check_doc_links.py:97-103 | which cause is named for an anchor |
| `Slugs.TabHeading` | scripts/check_doc_links.py:83-103 | a heading with a tab: the catch-all cause without any edge dash |
| `Slugs.NormalIs` | scripts/check_doc_links.py:89-94 | a normal form has no underscore, white space, double dash or edge dash, and a text without these is its own |
| `Emphasis.ScanParagraph` | scripts/check_doc_links.py:144-150 | the inner loop finds the paragraph's end and whether a lone star closed it |
| `Emphasis.ItalicBlocks` | scripts/check_doc_links.py:126-152 | the scan returns the specified blocks and terminates |
| `Emphasis.ClassesAre` | scripts/check_doc_links.py:135-149 | what makes a line a fence, blank, opening or closing, said of its text |
| `Emphasis.BlocksAreWellFormed` | scripts/check_doc_links.py:126-152 | the blocks are increasing, disjoint, free of blank lines, open with a lone star and end at their first closing line |
| `Emphasis.ScanIsExact` | scripts/check_doc_links.py:126-152 | the scan reports exactly the blocks a definition on the document alone names: star paragraphs, outside one another and the fences they do not hide, up to their first closing line |
| `Emphasis.OutsideFenceIff` | scripts/check_doc_links.py:126-152 | a reported block opens outside every code fence if and only if the document's star paragraphs before it hide an even number of fence lines |
| `Emphasis.OutsideWhenFencesStandApart` | scripts/check_doc_links.py:126-152 | always so when no fence stands inside a star paragraph |
| `Emphasis.StrandedBlockIsInsideAFence` | scripts/check_doc_links.py:126-152 | a five-line document whose reported block lies inside a fence |
| `RowB.FoldingIsFaithful` | bench-infra/scripts/jumbo_gate.py:973-987 | the clause on the folded series fails exactly when some node's own series fell or did not end above its start |
| `RowB.NoSeriesIff` | bench-infra/scripts/jumbo_gate.py:973-987 | the folded series is empty exactly when no node answered |
| `RowB.SumAdds` | bench-infra/scripts/jumbo_gate.py:973-987 | the folded counter at a tick is the sum of the nodes' own |
| `RowB.RequiredPairsIsLeast` | bench-infra/scripts/jumbo_gate.py:124-140 | the pair count is the least one, not below the floor, at which a statistic falling as one over the square root reaches its target |
| `RowB.VerdictRowB` | bench-infra/scripts/jumbo_gate.py:228-296 | the row fails exactly when some clause does not clear, makes each complaint exactly when its clause fails, and a clear row without a single probe sample raises while writing its own message |
| `RowB.SilentFleetRaises` | bench-infra/scripts/jumbo_gate.py:228-296 | such a row: level pairs, a pinned rung, and any nodes of which none answered a probe scrape |
| `RowB.PairsClearIff` | bench-infra/scripts/jumbo_gate.py:276-292 | the paired clauses are silent exactly when the mean is at the bar and two standard errors above it |
| `Knee.SelectKnee` | bench-infra/scripts/m12_fleet_gate.py:1426-1435 | the scan returns the first usable rung that gains less than the knee gain over the usable one directly before it, together with that one and the gain |
| `Knee.NoManufacturedKnee` | bench-infra/scripts/m12_fleet_gate.py:1438-1475 | a knee is called only when no ladder rung was tainted; the quoted rung is always a usable untainted ladder rung; client-bound exactly when some rung is tainted |
| `Knee.ClassifyIs` | bench-infra/scripts/m12_fleet_gate.py:1438-1477 | when each verdict is given and which rung is quoted with it: the best clean one, the first that flattens, or the best of the ladder |
| `Knee.ClientBoundIs` | bench-infra/scripts/m12_fleet_gate.py:1454-1471 | a client-bound verdict names the lowest tainted number and is attributed to a rung of that number, the tainted one when numbers are distinct |
| `Knee.CleanIs` | bench-infra/scripts/m12_fleet_gate.py:1454-1457 | the clean rungs are those numbered below every tainted one |
| `Knee.FilterConcat` | bench-infra/scripts/m12_fleet_gate.py:1454-1457 | rungs are selected one by one, in ladder order |
| `Knee.TaintedIff` | bench-infra/scripts/m12_fleet_gate.py:1416-1424 | a rung is tainted exactly when its busiest sampled client host is at 85 percent and the edge was not seen at 90 |
| `Knee.FlattensIff` | bench-infra/scripts/m12_fleet_gate.py:1426-1435 | a rung flattens exactly when it carries less than 1.15 times the one before it |
| `Knee.ClimbsBeforeTheKnee` | bench-infra/scripts/m12_fleet_gate.py:1426-1435 | before the knee, or throughout without one, the k-th usable clean rung is at least 1.15 to the k times the first |
| `Splitter.Split` | fuzz/src/lib.rs:15-29 | the two loops compute the specified slices |
| `Splitter.SplitConserves` | fuzz/src/lib.rs:12-29 | for n of at least one there are exactly n slices and in order they are all of the data after the length bytes |
| `Splitter.SplitOfLengths` | fuzz/src/lib.rs:12-29 | every list of slices whose all but last have at most 255 bytes is the split of those lengths followed by the slices |
| `Splitter.SplitIs` | fuzz/src/lib.rs:12-29 | every slice in closed form, short data and no slices included |

## Left out

- Membership change inside the protocol: the step relation has a fixed membership; the single-server transition and its quorum overlap are proved in `ClusterConfig` and `Membership` on their own.
- Snapshots, log purge, wipe-and-rejoin and learners: the protocol's logs start at position zero and every member votes.
- Separate durable counters of receiver, archive and consensus agent: a node accepts and persists a frame in one step, and the archive's physical cut is one step with its acknowledgment.
- The windowed term map inside the protocol: there the leader ships its whole map; what the 64-entry window changes is proved in `Reconcile` and `TermMaps`.
- Reports held as latest values: the protocol may count any report ever sent in a term, which allows more than the latest-value slots do; the slots themselves are `CommitTracker`.
- Timers, randomised timeouts, batching of actions, the serving gate and metrics of the election state machine: they restrict when steps happen, not what they do.
- Liveness under timers and a fair network: `ProtocolProgress` shows that a good continuation always exists, not that it is taken.
- 32-bit terms and 64-bit positions: terms and positions are unbounded.
- `hist_series`, `prom_find`, `prom_get`, `hist_mean` and the metric name lookups of `tt_fleet_gate.py`: expressions over the parsed map.
- Minima, maxima, spreads and printed tables of `ab_stats`: they do not enter the verdict.
- `_plain` and `headings` of `check_doc_links.py`: regular-expression markup removal and duplicate numbering.
- Non-ASCII letters and digits: case mapping and word characters are the ASCII ones in `Slicer` and `Slugs`; white space and line boundaries are the full Unicode ones everywhere.
- Exceptions while the fleet is brought up or the load driver first started, and those of killing a victim's units: of the membership gate's steps outside `dip_for_transition` only the leader polls, the host search, the choice of a victim and the self-removal are modelled to raise.
- The divergence guard at the end of the membership gate: a search of each host's log.
- `attribute_ceiling` and the saturation ratio of `m12_fleet_gate.py`: a chain of threshold tests and one division.
- `EchoSm` and the crypto helpers of `fuzz/src/lib.rs`: single-field updates and foreign calls.
- ssh, process control, sleeps, provisioning and report printing of every gate script: input and output only.
- Floating-point rounding: all arithmetic is exact.
