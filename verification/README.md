# Pennant, verified

Pennant is a feature-flag service: a Go server keeps flag configurations per project and
environment, builds versioned snapshots of them and streams the snapshots to SDK clients, which
evaluate flags locally, in Go or in TypeScript. This project models the parts of it whose
behaviour is hard to see from any one function and proves properties of them for every input,
every configuration or every interleaving. `dafny verify dfyconfig.toml` checks all of it.

## What is modelled

**Streaming.** `Ring` is the circular replay buffer, an array with wrap-around, proved to be the
list of the last N messages. `Hub` is the fan-out hub, a class over maps of bounded channels and
ring objects; each method is tied to a function that says what happens to the whole state.
`HubRuns` interleaves those steps, with a publish split into its individual sends and
disconnections, which together make up the publish of `Hub`; `HubHistory` says what the hub's
records mean for its past. `Stamp` interleaves mutators (write, then bump the version) with snapshot builds
(read the version, then everything else, one read at a time). `Delivery` puts one stream on top of
both and follows it from subscription over replay or snapshot to the last frame;
`DeliveryWitness` is a concrete run that loses an update, `TwoPublishers` what a client gets when
one publish overtakes another, and `EndToEnd` takes a stream to the snapshot of the client at its
other end. `StreamHandler` is the handler with the response body it writes, `Sse` the frames and
the line parser, `Scanning` the scanner's limit on lines, `Client` the Go client that parses and
keeps a snapshot, `Decimal` the version numbers in headers and frames.

**Evaluation.** `Bucketing` holds contexts, attributes and bucketing in both languages, `Rollout`
the arithmetic of percentage rollouts, `Clauses` and `TsClauses` rules, clauses and segments,
`GoEval` and `TsEval` the two evaluators, `Explain` the tracing one. In each of them the methods
follow the code, loop by loop and with the code's mutable sets, and are proved equal to a
specification. `Guards` gives evaluation a meaning without depth counter and visited set and
shows when the guards do not matter; `Cycles` shows what happens when they do; `Agreement` and
`Disagreement` are about the two languages; `ClauseLaws` says what clauses, rules and segments
mean one comparison at a time, `Stickiness` what a bucket depends on, `Reasons` what a result
tells; `Validate` is the validation of configurations and
what it guarantees to the evaluator; `SnapshotEval` evaluates out of a built snapshot.

**Snapshots.** `Builder` is the in-memory store, the builder and the mutators that publish,
`Announcements` what their outcome means for the store and for everyone with a stream open,
`JsonTexts` (with `JsonStrings`) what JSON encoders write, in any order of members, and a decoder,
`Canonical` (with `Sorting`) the canonical encoder, `JsonFrames` JSON texts on the wire, `Checksum` the text a checksum is taken of, `Deltas` deltas and their application.

**Statistics.** `Welford` is the running mean and variance, over exact reals.

### What stays open

Values the code gets from elsewhere are parameters: the comparison operators (shared by both
evaluators), the SHA-1 prefix as a function into 60-bit numbers, how JavaScript prints values
and numbers, the SHA-256 digest, the JSON values, texts and sizes the JSON library produces for
whole entities, what a client's JSON decoder makes of a value, the current time, and the rank that witnesses that segments (which the code follows without a guard)
or prerequisites do not form a cycle. Weights and buckets are compared over exact integers and
reals. Project keys are taken to be unique per environment key, because the hub's maps are keyed
by the environment alone.

### Where code and documentation disagree

The model follows the code.

- The design's invariant on prerequisite correctness promises `PREREQUISITE_CYCLE` for cycles. The code can never return it:
  `Cycles.CycleErrorNeverSurfaces`. A flag that is its own prerequisite even passes if it asks for
  its off-variation: `Cycles.SelfPrerequisite`.
- Its invariant on rollout monotonicity promises that raising a variation's weight only adds contexts. That needs the
  cumulative bounds on both sides not to move in: `Rollout.KeepsIff`, and `Rollout.KeepsVariationIff`
  for variations and rollouts of any shape; for the first position it holds, for others it can
  fail: `Rollout.LargerWeightCanLoseContexts`.
- Its invariant on determinism across SDKs promises identical results in both SDKs. They agree under the conditions of
  `Agreement.EvaluatorsAgree`: the context has a kind, no null attributes and no native integers
  of more than 15 digits; clauses name segments by strings; rules of segments have clauses, and
  only the last has a weight, bucketed by key; and seeds are integers that JavaScript prints as Go
  does, as it does up to 2^53. Beyond them `Disagreement` gives the exact condition for a comparison,
  a segment reference, a segment with arbitrary rules and a seeded rollout, and flags that the two
  serve differently: `Disagreement.UnsetKindServedDifferently`,
  `Disagreement.LargeSeedServedDifferently`.
- sdk/go/pennant/client.go:102 says that a client that is not ready in time will heal itself. It
  never gets beyond a snapshot whose JSON text has 65530 bytes or more, which its line scanner
  refuses on every connection: `Client.BlockedByALongSnapshot`, `Scanning.PutShortIff`.
- internal/api/server.go:1013 skips messages as covered by the initial snapshot. They are covered
  by the snapshot's stamp only if no bump came between the build and the second version read:
  `Delivery.SnapshotDelivery`, `DeliveryWitness.BumpInTheWindowLosesAnUpdate`.
- internal/eval/bucket.go:16 gives the bucket's range as [0, 1). The largest prefix, and no other,
  has bucket 1: `Rollout.BucketIsOneIff`. The last position takes it: `Rollout.CountingBound`.
- internal/eval/bucket.go:17 calls buckets independent per flag. Two rollouts hash the same text
  exactly under the conditions of `Bucketing.SharedBucketsIff`; without seeds, flag keys free of dots
  rule it out (`Bucketing.DotFreeKeysKeepApart`), keys with dots do not
  (`Bucketing.DotsMakeFlagsShareBuckets`).
- `Explain` evaluates each prerequisite from scratch, without the flag on its path and at depth 0,
  and takes a rule without clauses as matched. It decides as `Evaluate` does where the flag is not
  reached from its own prerequisites, these fit below the depth limit and no such rule is reached:
  `Explain.ExplainAgreesIff`. Otherwise it may not: `Explain.ExplainOnACycle` (a flag among its own
  prerequisites), `Explain.ExplainOnAChain` (a chain one longer than the limit).

## Model

| member | source | states |
|---|---|---|
| Ring.EventRing.Append | internal/stream/ring.go:24-41 | the array with head, count and version bounds goes on representing the list of all appended messages, one longer |
| Ring.EventRing.Since | internal/stream/ring.go:45-67 | the walk over the array answers what `Answer` says for that list |
| Ring.AppendRepresents | internal/stream/ring.go:24-41 | the circular slots hold the last N messages in order, with the bounds that go with them |
| Ring.SinceExactIff | internal/stream/ring.go:45-67 | whatever `Since` answers is complete, for all versions, if and only if every evicted message is older than the oldest one held |
| Ring.IncreasingSinceExact | internal/stream/ring.go:45-67 | with increasing versions an answer is exactly the messages ever appended above the version asked for |
| Ring.RefusesIffNeededMessageIsGone | internal/stream/ring.go:45-53 | with gap-free versions the ring refuses exactly when the next message needed was evicted or predates the ring |
| Ring.OutOfOrderAppendLosesAMessage | internal/stream/ring.go:45-67 | a message appended before the one just below it, and since evicted, is missing from an answer that is not refused, in a ring of any capacity from 2 on |
| Hub.SubIdInjective | internal/stream/hub.go:53 | no two subscribers get the same id |
| Hub.RingTable.Ensure | internal/stream/hub.go:38-45 | an unknown environment gets an empty ring, other rings are untouched and none is shared |
| Hub.RingTable.Append | internal/stream/hub.go:83-87 | the environment's ring, if any, is given the message, and no other ring is |
| Hub.RingTable.Since | internal/stream/hub.go:114-122 | an unknown environment has no answer, a known one its ring's |
| Hub.Hub.EnsureEnv | internal/stream/hub.go:38-45 | only the environment's membership set and ring appear, if they were missing |
| Hub.Hub.Subscribe | internal/stream/hub.go:48-66 | a fresh id with an empty channel is registered and counted; nobody else changes |
| Hub.Hub.Unsubscribe | internal/stream/hub.go:69-78 | a registered subscriber is removed and uncounted, its channel kept; any other id changes nothing |
| Hub.Hub.FanOut | internal/stream/hub.go:96-106 | every listed subscriber with room gets the message last in its channel; exactly the full ones are reported |
| Hub.Hub.DropSlow | internal/stream/hub.go:107-110 | exactly the reported subscribers leave the environment, each counted once |
| Hub.Hub.Publish | internal/stream/hub.go:82-111 | ring, channels, registrations and counters after a whole publish |
| Hub.PublishEffect | internal/stream/hub.go:82-111 | subscriber by subscriber: with fewer than 32 messages waiting the new one is put behind them and the subscriber stays; otherwise it leaves, is counted as slow and taken off the gauge; nobody else changes |
| HubRuns.StepsMakeAPublish | internal/stream/hub.go:82-111 | listing, sends and disconnections one after the other, in any order, end in the state of a whole publish |
| Hub.Hub.Replay | internal/stream/hub.go:114-122 | the ring's answer for everything the environment's ring was given |
| Hub.ReplayRefusedIff | internal/stream/hub.go:43 | with gap-free versions a replay is refused exactly when the next message needed is not among the last 256 of the environment |
| Hub.Hub.ActiveCount | internal/stream/hub.go:125-129 | the number of registered subscribers of the environment |
| HubRuns.StepKeeps | internal/stream/hub.go:48-122 | every step of every operation keeps the hub's invariant |
| HubRuns.DeliveryInEveryRun | internal/stream/hub.go:48-111 | in every interleaving a subscriber's received and buffered messages are a prefix of what was published since it joined, all of it while it is registered and owed nothing; at most 32 are buffered |
| HubRuns.ActiveCountInEveryRun | internal/stream/hub.go:64-75 | the gauge equals the number of registered subscribers over all environments, in every run |
| HubRuns.PublisherNeverBlocks | internal/stream/hub.go:81-111 | a publish in progress always has an enabled step, whatever subscribers do |
| HubRuns.PublisherProgress | internal/stream/hub.go:96-110 | each of its steps brings it closer to its end, and nobody else's puts it off |
| HubHistory.ComesAndGoes | internal/stream/hub.go:48-78 | in every step a subscriber joins only by subscribing, and leaves exactly if it unsubscribes or is disconnected |
| HubHistory.FullWhenOffered | internal/stream/hub.go:97-110 | in every run, whoever is to be disconnected had exactly 32 messages waiting when it was offered the message being published |
| HubHistory.CountersInEveryRun | internal/stream/hub.go:92-109 | the counters are the numbers of publishes begun and of disconnections |
| HubHistory.LastSentInEveryRun | internal/stream/hub.go:99-101 | a subscriber's last version is that of the last message put into its channel |
| HubHistory.RingReachesBack | internal/stream/hub.go:38-45 | an environment with a subscriber has a ring, which was given everything published since the subscriber joined |
| HubHistory.ReplayWithin256 | internal/stream/hub.go:114-122 | in every run, within 256 messages of a point at which someone subscribed, a client that had everything by then is answered with exactly what it misses |
| Stamp.StepKeeps | internal/snapshot/builder.go:22-77 | every write, bump and separate read keeps all builds sound |
| Stamp.StampSoundInEveryRun | internal/snapshot/builder.go:22-77 | in every interleaving a finished snapshot stamped v holds, for every flag and segment and for the configuration of every live flag it lists, a value no older than any write whose bump returned at most v |
| Delivery.StepKeeps | internal/api/server.go:950-1025 | every step of mutators, publishers, other subscribers and the handler keeps the stream's invariant |
| Delivery.ReplayDelivery | internal/api/server.go:976-1022 | resumed by replay, what was written followed by what is buffered above `sentVersion` is exactly the messages published above the version asked for, in order; for an evicted stream a prefix of them |
| Delivery.SnapshotDelivery | internal/api/server.go:991-1015 | started from a snapshot, exactly the messages above the second version read arrive, which is everything above the stamp if and only if nothing was published in between |
| Delivery.CoveredMeansContained | internal/api/server.go:991-1015 | snapshots sent or published are finished, and what the stamp covers is in them, configurations of live flags included; a published one is stamped at least with its message's version |
| DeliveryWitness.BumpInTheWindowLosesAnUpdate | internal/api/server.go:993-1015 | a run, with every build read to its end, that leaves a registered stream without an update its snapshot does not contain |
| TwoPublishers.ResumingClientMissesOne | internal/api/server.go:984-990 | in the hub's ring of 256, for a client resuming from a message that was overtaken, the handler replays everything but the overtaking one and covers it |
| TwoPublishers.LiveClientEndsOnTheOlder | internal/api/server.go:1003-1024 | two publishes in the wrong order reach an open stream in that order, and the client ends on the older snapshot and resumes from it |
| EndToEnd.WrittenByTheHandler | internal/api/server.go:984-1024 | the frames of the interleaved stream are those the handler's code writes |
| EndToEnd.AskedTheHub | internal/api/server.go:984-1000 | in every run the way a stream begins, and the version it covers, follow from the hub's answer at the moment it was asked |
| EndToEnd.CoversTheSame | internal/api/server.go:984-1000 | what the handler's code covers after its opening is what the interleaved stream covers: the last replayed version, the version read after the build, or nothing |
| EndToEnd.ServedByTheCode | internal/api/server.go:970-1024 | in every run the frames written so far are exactly those of `Handler.Serve`, given the hub's answer, the build, the version read after it and the messages received; so a message the snapshot covers is not written twice |
| EndToEnd.ReceivesWhatItLacks | internal/api/server.go:970-1022 | a client whose resumption is answered by a replay receives, once the stream is drained, exactly what was published above the version it held |
| EndToEnd.RenderedRenders | internal/snapshot/builder.go:38-83 | for what a build has read there is a snapshot with its stamp as version and exactly that content: archived flags absent, default configurations filled in |
| EndToEnd.RenderedIsFresh | internal/snapshot/builder.go:22-83 | what a finished build's snapshot contains for a flag, a segment or a configuration is no older than any write whose bump returned at most the snapshot's version |
| EndToEnd.ClientHoldsEveryAnnouncedWrite | internal/api/server.go:950-1025 | the snapshot of a client that has read a drained stream contains, for every cell, the last write announced by any published message or a later one, and the client resumes from at least every version published; unless a message fell between stamp and second version read |
| StreamHandler.Handler.Open | internal/api/server.go:970-1001 | subscribes first, then writes the replay or the snapshot, and covers the last replayed version or the version read after the build |
| StreamHandler.Handler.SendReplay | internal/api/server.go:984-990 | one frame per replayed message, in order; the last version is covered |
| StreamHandler.Handler.Relay | internal/api/server.go:1003-1024 | the received messages above the covered version are written in order, nothing else |
| StreamHandler.Handler.Serve | internal/api/server.go:970-1024 | the whole handler: the opening followed by the received messages that it does not cover |
| StreamHandler.MessageText | internal/api/server.go:985-987 | what goes over the wire for a message, letter by letter |
| StreamHandler.SnapshotText | internal/api/server.go:993-998 | what a new client gets for its snapshot, letter by letter, be the replay refused or empty |
| StreamHandler.Handler.WriteFrame | internal/api/server.go:986-987 | the body grows by the text of one frame |
| Decimal.ScanRender | internal/api/server.go:970-974 | scanning a printed version gives it back |
| Decimal.ScanOthers | internal/api/server.go:970-974 | of any other header the digits count as far as they go, with or without a sign, and without digits the version is 0 |
| Decimal.RenderShape | internal/stream/hub.go:53 | no leading zeros, and a sign for negative numbers only |
| Decimal.RenderInjective | internal/stream/hub.go:53 | different numbers print differently |
| Sse.FrameDispatched | sdk/go/pennant/client.go:172-193 | reading one frame dispatches its trimmed event, unless nothing is left of a part, and leaves the parser as it was |
| Sse.StreamDispatched | sdk/go/pennant/client.go:168-195 | the same for a whole stream of newline-free messages |
| Sse.RoundTripIff | sdk/go/pennant/client.go:168-195 | exactly the written events and data are dispatched if and only if none is empty or has white space around it |
| Sse.CutBlock | sdk/go/pennant/client.go:172-193 | a frame cut off before its end contains no blank line |
| Sse.CutDelivers | sdk/go/pennant/client.go:168-195 | wherever a connection breaks off, the complete frames were dispatched and nothing of the incomplete one |
| Sse.TrimMeans | sdk/go/pennant/client.go:189-191 | trimming takes off white space at both ends, nothing else, and as far as it goes |
| Sse.SpaceTable | sdk/go/pennant/client.go:189-191 | white space is Unicode's, character by character |
| Sse.FieldsRead | sdk/go/pennant/client.go:188-192 | what follows `event:` or `data:` is the field's trimmed value, be it empty or not |
| Sse.LineEnds | sdk/go/pennant/client.go:169-179 | a carriage return before the newline belongs to the line end |
| Client.Client.HandleEvent | sdk/go/pennant/client.go:197-220 | a put replaces the snapshot, a patch is applied to one that is there, texts that do not decode change nothing |
| Client.Client.TakeLine | sdk/go/pennant/client.go:179-192 | what one line does to the snapshot and the parser, whatever follows |
| Client.Client.ParseSse | sdk/go/pennant/client.go:168-195 | the line loop handles exactly the events of the lines read, in order, up to the end, a line too long for the scanner or the cancellation of the context, the last two being errors |
| Sse.FewerLines | sdk/go/pennant/client.go:172-177 | stopped early, it handles fewer events and no others |
| Scanning.FrameScanned | sdk/go/pennant/client.go:169-172 | a frame whose lines fit the scanner is dispatched as without limit; one with a line that does not ends the stream |
| Scanning.ScannedUpToLong | sdk/go/pennant/client.go:169-172 | the client sees exactly the frames before the first with a line that is too long |
| Scanning.CutScanned | sdk/go/pennant/client.go:169-194 | of a stream that breaks off anywhere, those of them that were complete |
| Scanning.PutShortIff | sdk/go/pennant/client.go:169 | a snapshot's frame fits exactly when its text is shorter than 65530 bytes of UTF-8, and its version than 65532 characters |
| Scanning.CharSizes | sdk/go/pennant/client.go:169 | the bytes of a character in UTF-8 |
| Client.ReadyIffHeld | sdk/go/pennant/client.go:197-219 | whatever events come, the client is ready exactly when it holds a snapshot, and stays so |
| Client.OthersIgnored | sdk/go/pennant/client.go:197-219 | events of other names, data that does not decode and patches before any snapshot leave no trace |
| Client.HoldsLastComplete | sdk/go/pennant/client.go:168-220 | after a stream that broke off anywhere the client holds the last completely received snapshot before any that is too long, or what it had |
| Client.BlockedByALongSnapshot | sdk/go/pennant/client.go:149-195 | a connection that begins with a snapshot that is too long leaves the client as it was |
| Client.ReachesLastMessage | sdk/go/pennant/client.go:149-220 | after what the handler wrote for some messages the client holds the last one's snapshot and resumes from its version |
| Client.ResumesFromHeld | sdk/go/pennant/client.go:149-152 | the server reads the version of the held snapshot out of the resume header |
| Client.PatchesFollow | sdk/go/pennant/client.go:207-218 | a client receiving the deltas between consecutive snapshots agrees with the last of them, under the same condition |
| Rollout.Pick | internal/eval/evaluate.go:86-96 | the loop over fractional weights picks the first position whose cumulative weight exceeds the prefix, the last one failing that |
| Rollout.BucketBelow | internal/eval/evaluate.go:88-89 | the comparison of fractions is one of integers |
| Rollout.ServedFirst | internal/eval/evaluate.go:83-96 | whatever the weights, the position served is the first whose cumulative weight over 100000 exceeds the bucket, and the last if there is none |
| Rollout.BucketIsOneIff | internal/eval/bucket.go:48 | the bucket is in [0, 1], and 1 exactly for the largest prefix |
| Rollout.ServedRange | internal/eval/evaluate.go:86-96 | a position serves exactly the prefixes of one interval |
| Rollout.CountingBound | internal/eval/evaluate.go:83-96 | of the 2^60 prefixes a position of weight w serves w(2^60-1)/100000 give or take one, and the last position serves bucket 1 |
| Rollout.KeepsIff | internal/eval/evaluate.go:86-92 | new weights keep everyone of a position if and only if its interval was empty or does not move in on either side |
| Rollout.KeepsVariationIff | internal/eval/evaluate.go:83-96 | for any two rollouts, variations listed any number of times: a variation is kept by all who have it if and only if none of its old intervals meets a new one of another variation |
| Rollout.RampUpKeeps | internal/eval/evaluate.go:86-92 | it suffices that the cumulative weight before the position does not rise and the one after it does not fall |
| Rollout.LargerWeightCanLoseContexts | internal/eval/evaluate.go:86-92 | a larger weight alone can lose contexts |
| Bucketing.AttributesAgree | sdk/ts/src/evaluate.ts:201-208 | both languages read the same attribute of a portable context |
| Bucketing.AttributeTable | sdk/ts/src/evaluate.ts:201-208 | what each language reads under key, kind and anonymous, which attributes cannot override, and under any other name |
| Bucketing.PrefixesAgree | sdk/ts/src/bucket.ts:23-80 | and hash it to the same prefix, if a seed, where there is one, is printed alike |
| Bucketing.HashInputsAgreeIff | sdk/ts/src/bucket.ts:38-46 | both languages hash the same text exactly if there is no seed or JavaScript prints it as Go does |
| Stickiness.BucketOfText | internal/eval/bucket.go:20-48 | Go hashes the text of the one attribute the rollout names behind the seed, or else behind flag key and salt: strings, and whole numbers below 10^15 |
| Stickiness.TsBucketOfText | sdk/ts/src/bucket.ts:23-57 | so does TypeScript |
| Stickiness.NoTextNoBucket | internal/eval/bucket.go:25-33 | without a usable value everyone is in bucket 0, in both languages |
| Stickiness.TsLargeInteger | sdk/ts/src/bucket.ts:69-80 | numbers of sixteen digits and more have no text in TypeScript |
| Stickiness.SegmentShare | internal/eval/clause.go:90-98 | a segment rule's weight, in hundred-thousandths, against the bucket of the text hashed behind the segment's key and salt |
| Stickiness.ServedTogether | internal/eval/evaluate.go:76-96 | everyone with the same value of a custom bucketing attribute is served alike, whatever their keys, in both languages |
| Stickiness.AdmittedTogether | internal/eval/clause.go:90-98 | and admitted alike by a segment rule's weight |
| Bucketing.HashInputsTellIds | internal/eval/bucket.go:35-40 | within one rollout or seed the hashed texts are equal exactly when the ids are |
| Bucketing.SharedBucketsIff | internal/eval/bucket.go:35-40 | two rollouts hash an id from the same text exactly if their seeds are equal, or both have none and key, dot and salt read the same |
| Bucketing.DotFreeKeysKeepApart | internal/eval/bucket.go:39 | without seeds and with flag keys free of dots that means the same key and salt |
| Bucketing.DotsMakeFlagsShareBuckets | internal/eval/bucket.go:39 | with dots different flags can share all buckets |
| Clauses.ClauseMatches | internal/eval/clause.go:15-53 | the loops decide: some element and value match, or some segment holds, xor negation; a missing attribute never matches |
| Clauses.SegmentMatches | internal/eval/clause.go:68-101 | exclusion first, then inclusion, then the first rule whose clauses all hold decides by its weight; recursion ends by the rank of segments |
| Clauses.RuleMatches | internal/eval/clause.go:55-65 | there are clauses and all of them hold |
| ClauseLaws.OneComparison | internal/eval/clause.go:26-52 | one value of a clause against the attribute: the operator decides, on some element of an array; negation turns the answer around; a missing attribute never matches |
| ClauseLaws.AnyValueWillDo | internal/eval/clause.go:15-53 | it takes one of a clause's values to match, comparisons and segments alike |
| ClauseLaws.EveryClauseMustHold | internal/eval/clause.go:55-65 | a rule holds if it has clauses and each of them would do as a rule of its own |
| ClauseLaws.OneRuleSegment | internal/eval/clause.go:81-91 | off its lists, a segment of one rule without weight asks for all of its clauses |
| Clauses.NegationFlips | internal/eval/clause.go:26-52 | negation flips the answer exactly for segment clauses and present attributes |
| Clauses.ClauseMeaningUnique | internal/eval/clause.go:15-53 | what a clause means does not depend on the rank that witnesses termination |
| Clauses.SegmentMeaningUnique | internal/eval/clause.go:68-101 | nor does what a segment means |
| TsClauses.ClauseMatches | sdk/ts/src/evaluate.ts:160-199 | the TypeScript loops decide the TypeScript meaning: a null attribute is missing, segment keys are rendered |
| ClauseLaws.TsOneComparison | sdk/ts/src/evaluate.ts:173-198 | the same for one value in TypeScript, where a null attribute is missing |
| TsClauses.SegmentMatches | sdk/ts/src/evaluate.ts:211-231 | exclusion, inclusion, then any rule that holds |
| TsClauses.SegmentRuleMatches | sdk/ts/src/evaluate.ts:233-251 | there are clauses, all hold, and the bucket by key is below the weight if there is one |
| TsClauses.RuleMatches | sdk/ts/src/evaluate.ts:152-158 | there are clauses and all of them hold |
| TsClauses.ClausesAgree | sdk/ts/src/evaluate.ts:160-199 | a portable clause means the same in both languages |
| TsClauses.SegmentsAgree | sdk/ts/src/evaluate.ts:211-251 | so does a portable segment, however deep it refers |
| TsClauses.RulesAgree | sdk/ts/src/evaluate.ts:152-158 | so does a rule of portable clauses |
| GoEval.CopyVisited | internal/eval/evaluate.go:99-105 | a fresh set with the same keys |
| GoEval.ResolveVariationOrRollout | internal/eval/evaluate.go:68-97 | a fixed variation wins; otherwise the position that serves the context's prefix; neither is malformed |
| GoEval.MatchingTarget | internal/eval/evaluate.go:47-53 | the first target that lists the context |
| GoEval.MatchingRule | internal/eval/evaluate.go:56-62 | the first rule that holds |
| GoEval.UnmetPrerequisite | internal/eval/evaluate.go:31-44 | the first prerequisite that is missing, off or serves another variation; siblings do not see each other |
| GoEval.EvaluateWithDepth | internal/eval/evaluate.go:15-66 | at every call the visited set is exactly the keys on the current path and the depth their number, at most 21; the result is that of the deciding step |
| GoEval.Evaluate | internal/eval/evaluate.go:11-13 | evaluation on the empty path |
| Reasons.ReasonIsTrue | internal/eval/evaluate.go:15-97 | whatever the configuration, the reason is true of it, rule index and id and prerequisite key included, and the index is that of the step it names |
| Reasons.ValueGoesWithIndex | internal/eval/evaluate.go:108-121 | the value is that of the index, which is in range; without an index there is none |
| Reasons.ErrorIff | internal/eval/evaluate.go:68-121 | the result is an error exactly when the deciding step serves nothing or a variation the flag does not have |
| Reasons.OffPrerequisiteBlocks | internal/eval/evaluate.go:31-37 | a missing prerequisite, or one that is off, blocks, even if what it would serve is what is asked for |
| Guards.Transparent | internal/eval/evaluate.go:26-44 | on acyclic prerequisites with room below the limit, the guarded decision on any path is the one and only right decision of evaluation without guards |
| Guards.GuardTransparency | internal/eval/evaluate.go:11-66 | with consistent keys and prerequisites at most 20 deep, `Evaluate` returns index, value and reason of evaluation without guards |
| Guards.SatisfiedIffMet | internal/eval/evaluate.go:31-44 | the guarded evaluation of a prerequisite meets it exactly when its own right decision does |
| Guards.TailDecides | internal/eval/evaluate.go:46-65 | after the prerequisites: first target, else first rule, else fallthrough, and nothing else |
| Cycles.FirstUnmetBlocks | internal/eval/evaluate.go:31-44 | a flag that is on is blocked by its first unmet prerequisite and no other, and then serves its off-variation |
| Cycles.CycleErrorNeverSurfaces | internal/eval/evaluate.go:26-28 | no top-level call returns the cycle error |
| Cycles.ClosingACycle | internal/eval/evaluate.go:26-43 | a prerequisite that closes a cycle is met exactly when it asks for the off-variation |
| Cycles.SelfPrerequisite | internal/eval/evaluate.go:26-43 | a flag requiring itself is blocked unless it asks for its off-variation; then it is evaluated as if it did not |
| Cycles.ChainServed | internal/eval/evaluate.go:9-44 | the head of a chain of n prerequisites serves its fallthrough if n is at most 20 and is blocked otherwise, whatever else the store has |
| Cycles.ChainHasLinks | internal/eval/evaluate.go:31-44 | there are stores with such chains, of every length |
| TsEval.EvaluateWithDepth | sdk/ts/src/evaluate.ts:25-93 | the TypeScript evaluator, with its own new set per call, returns the result of the deciding step |
| TsEval.UnmetPrerequisite | sdk/ts/src/evaluate.ts:53-65 | the first prerequisite that is missing, off or serves another variation |
| TsEval.ResolveVariationOrRollout | sdk/ts/src/evaluate.ts:106-121 | a fixed variation wins, an empty rollout is malformed |
| TsEval.ResolveRollout | sdk/ts/src/evaluate.ts:123-149 | the position that serves the context's prefix, hashed with the seed as JavaScript prints it; the reason mentions the experiment only if there is one |
| TsEval.MatchingRule | sdk/ts/src/evaluate.ts:77-89 | the first rule that holds |
| TsEval.MatchingTarget | sdk/ts/src/evaluate.ts:68-74 | the first target that lists the context |
| Agreement.DecisionsAgree | sdk/ts/src/evaluate.ts:25-93 | on every path, cyclic or not, the same step decides in both languages |
| Agreement.OutcomesAgree | sdk/ts/src/evaluate.ts:33-48 | a deciding step serves the same index and value; only the error kind of a cycle differs |
| Agreement.EvaluatorsAgree | sdk/ts/src/evaluate.ts:25-251 | at top level both evaluators return the same index, value and reason for every flag, portable store, seeds included, and portable context |
| Disagreement.ComparisonsAgreeIff | sdk/ts/src/evaluate.ts:173-208 | for every comparison and context the exact condition for the same answer: only an unset kind and a null attribute can differ |
| Disagreement.SegmentKeyOfAnyKind | sdk/ts/src/evaluate.ts:162-171 | what a segment reference of any JSON kind means in each language, and when the two agree: for a string, if the segment means the same; for null, if two differently named segments do; otherwise, if the context is outside the segment the value renders as |
| Disagreement.SegmentsAgreeIff | sdk/ts/src/evaluate.ts:211-251 | for a segment with any rules whose clauses agree, the exact condition for agreement in terms of its lists, the weight of the first rule whose clauses hold and the later rules |
| Disagreement.AdmissionDecides | sdk/ts/src/evaluate.ts:211-251 | beyond the lists, what each language answers is whether its own rule of admission lets the context in |
| Disagreement.FirstRuleDecides | sdk/ts/src/evaluate.ts:224-250 | at the first rule whose clauses hold Go is done, by the attribute it names; TypeScript skips it without clauses, goes by the key and goes on; without such a rule neither admits |
| Disagreement.BucketByMatters | sdk/ts/src/evaluate.ts:245-248 | a weighted rule admits alike exactly when the named bucket and the key's fall on the same side of the weight |
| Disagreement.WeightsInTheMiddle | sdk/ts/src/evaluate.ts:224-250 | with clauses in all rules and buckets by key TypeScript admits exactly whom the first or a later matching rule admits, Go whom the first does |
| Disagreement.UnsetKindServedDifferently | sdk/ts/src/evaluate.ts:201-208 | a flag with a rule on the kind "user" serves any context without a kind by the rule in TypeScript and by its fallthrough in Go |
| Disagreement.SeededHalvesAgreeIff | sdk/ts/src/bucket.ts:38-46 | a rollout to halves under any seed serves a context alike exactly when the two texts hashed fall into the same half |
| Disagreement.LargeSeedServedDifferently | sdk/ts/src/bucket.ts:38-46 | under the seed 2^60 the evaluators differ for every context whose two texts, "1152921504606846976.key" and "1152921504606847000.key", fall into different halves |
| Explain.ExplainFlag | internal/eval/explain.go:37-106 | the trace has the steps passed, the step that decides, and its outcome |
| Explain.ExplainPrerequisites | internal/eval/explain.go:47-64 | a step per prerequisite up to and including the first unmet one |
| Explain.ExplainClauses | internal/eval/explain.go:78-86 | every clause is recorded with its answer, and all hold or not |
| Explain.ExplainRules | internal/eval/explain.go:77-101 | a step per rule up to and including the first whose clauses all hold |
| Explain.OneStepMatches | internal/eval/explain.go:37-106 | in every trace exactly one step is matched, and it is the last |
| Explain.TraceTells | internal/eval/explain.go:37-106 | the trace step by step: kinds, keys, rule positions and ids, an answer for every clause, and nothing else |
| Explain.MetWithout | internal/eval/explain.go:56-57 | where the flag is not reached from a prerequisite and there is room below the limit, it makes no difference to the prerequisite whether the flag is on its path |
| Explain.RankedFits | internal/eval/explain.go:47-64 | acyclic prerequisites at most 20 deep are such a case |
| Explain.ExplainAgreesIff | internal/eval/explain.go:37-106 | there `Explain` and `Evaluate` decide alike if and only if no rule without clauses is reached; cycles elsewhere do no harm |
| Explain.ExplainAgrees | internal/eval/explain.go:37-106 | without such rules variation, value and reason of the trace are the evaluator's |
| Explain.ExplainOnACycle | internal/eval/explain.go:56-62 | a flag's prerequisite on itself is met in `Evaluate` if it asks for the off-variation and in `Explain` if it asks for what the flag serves |
| Explain.ExplainOnAChain | internal/eval/explain.go:56 | on chains the two differ for 21 prerequisites and no other number |
| Validate.ValidateRollout | internal/model/flag.go:131-143 | the first index out of range, or a wrong sum |
| Validate.ValidateRules | internal/model/flag.go:103-122 | the error of the first faulty rule |
| Validate.ValidateFlagConfig | internal/model/flag.go:97-129 | the first error in the order of the checks |
| Validate.ValidateFlag | internal/model/flag.go:85-95 | valid exactly with two variations and all environments configured and accepted; an error is some environment's first error, a missing configuration may panic |
| Validate.AcceptedIff | internal/model/flag.go:97-143 | accepted exactly when off-variation, rules and rollouts are in range, ids are set and distinct, and rollouts sum to 100000 |
| Validate.FirstErrorIsSo | internal/model/flag.go:97-143 | a configuration is turned down for a fault it really has, at the place the error names |
| Validate.OffVariationFirst | internal/model/flag.go:97-101 | an off-variation out of range is reported before anything else |
| Validate.FirstFaultyRule | internal/model/flag.go:103-122 | then the first faulty rule, for its id before its variation and its variation before its rollout |
| Validate.RolloutErrorInOrder | internal/model/flag.go:131-143 | in a rollout the first index out of range, failing that a sum other than 100000 |
| Validate.FallthroughError | internal/model/flag.go:123-127 | the name under which the fallthrough's rollout is turned down |
| Validate.MalformedIff | internal/model/flag.go:97-143 | an accepted configuration is malformed exactly when the deciding step is one validation does not look at and it is broken; and the exact cases without index |
| Validate.AcceptedAndCompleteNeverMalformed | internal/model/flag.go:97-143 | with those steps in order too, no context and store make the flag malformed, and the index is missing only without off-variation |
| Validate.NegativeWeightShutsOut | internal/model/flag.go:131-143 | weights may be negative, and then a position can be unreachable |
| Canonical.CollectKeys | internal/snapshot/canonical.go:32-35 | the map's keys, each once, in any order |
| Sorting.SortStrings | internal/snapshot/canonical.go:36 | sorts distinct keys, whatever order they come in, into the one ascending listing |
| Sorting.ListingUnique | internal/snapshot/canonical.go:36 | a set of keys has one ascending listing |
| Sorting.LessIff | internal/snapshot/canonical.go:36 | the order is that of dictionaries: at the first difference the smaller character, or the end, comes first |
| Sorting.SortedGoesUp | internal/snapshot/canonical.go:36 | any earlier key of the listing compares so to any later one |
| Canonical.MarshalSorted | internal/snapshot/canonical.go:29-76 | the text depends on the value alone, not on the order of map iteration |
| Canonical.MarshalObject | internal/snapshot/canonical.go:31-56 | members in key order, separated by commas |
| Canonical.MarshalArray | internal/snapshot/canonical.go:58-71 | elements in order, separated by commas |
| Canonical.TwoMembersText | internal/snapshot/canonical.go:31-56 | an object of two members, letter by letter, in the order of their keys wherever the map has them |
| Canonical.PairText | internal/snapshot/canonical.go:58-71 | an array of two elements, letter by letter |
| Canonical.SmallObjectText | internal/snapshot/canonical.go:29-76 | `{"a":1,"b":2}` |
| JsonStrings.ShortEscapes | internal/snapshot/canonical.go:40-43 | the two-letter escapes, and the characters written as they are |
| JsonStrings.LongEscapes | internal/snapshot/canonical.go:40-43 | the six-letter escapes of what is special to HTML and JavaScript and of control characters |
| JsonStrings.EscapeRoundTrip | internal/snapshot/canonical.go:40-43 | every character survives escaping and unescaping |
| JsonStrings.CharsRoundTrip | internal/snapshot/canonical.go:40-43 | so does every string, up to its closing quote |
| JsonTexts.ParseText | internal/api/server.go:985 | a JSON decoder reads the value meant out of any text an encoder writes, whatever the order of members, and stops right behind it; of repeated keys the last counts |
| JsonTexts.DecodeText | sdk/go/pennant/client.go:201 | decoding such a text gives the value with nothing left over |
| Canonical.ArrangedMeans | internal/snapshot/canonical.go:31-56 | sorting the members changes nothing about the value |
| Canonical.ParseEncode | internal/snapshot/canonical.go:29-76 | a JSON decoder reads the canonical text of any value and stops right behind it |
| Canonical.DecodeEncode | internal/snapshot/canonical.go:29-76 | decoding undoes encoding with nothing left over |
| Canonical.EncodeInjective | internal/snapshot/canonical.go:10-13 | texts are equal exactly when values are |
| JsonFrames.TextPlain | internal/api/server.go:985 | no text, with members in any order, contains control characters or characters special to HTML and JavaScript |
| JsonFrames.TextSolid | internal/api/server.go:985 | none is empty or starts or ends with white space |
| JsonFrames.JsonSurvivesTheStream | sdk/go/pennant/client.go:168-195 | a value's text, framed and parsed, is dispatched once and decodes to the value |
| JsonFrames.FaithfulIff | sdk/go/pennant/client.go:197-204 | what the handler writes for a snapshot gives the client that snapshot exactly if it is a put, fits the scanner, and its JSON value can be read back as the snapshot |
| Checksum.ChecksumOf | internal/snapshot/canonical.go:80-107 | the digest of the canonical text of everything but checksum and publication time |
| Checksum.PayloadText | internal/snapshot/canonical.go:87-99 | the digested text, letter by letter: five members under their names, in the order of the names |
| Checksum.DigestedTextIff | internal/snapshot/canonical.go:80-107 | two snapshots are digested from the same text exactly when their contents are equal, unless the encoding of an entry under the same key, or of the version, loses the difference |
| Deltas.Upserts | internal/snapshot/delta.go:22-33 | the new and changed entries, each once, in any order |
| Deltas.Deletes | internal/snapshot/delta.go:35-39 | the keys that are gone, each once |
| Deltas.ComputeDelta | internal/snapshot/delta.go:12-68 | a delta between the two snapshots of at most 30 percent of the target's size, or none because a larger one was computed |
| Deltas.Patch | internal/snapshot/delta.go:84-93 | copies, puts and deletes into a new map |
| Deltas.ApplyDelta | internal/snapshot/delta.go:73-107 | flags and segments patched, version and checksum from the delta, the rest from the base |
| Deltas.PatchedEntries | internal/snapshot/delta.go:84-104 | in every order of changes, each key of the target ends with the target's entry if it changed and with the old one if not |
| Deltas.DeltaRoundTripIff | internal/snapshot/delta.go:12-107 | applying a delta gives the new snapshot exactly when the encoder tells the entries apart |
| Deltas.NamesOnlyChanges | internal/snapshot/delta.go:21-59 | upserts are changes, deletes are gone keys, no key is named twice |
| Deltas.ChainReaches | internal/snapshot/delta.go:12-107 | deltas applied along a sequence of snapshots reach the last one, if no entry changes without its text changing |
| Builder.MemoryStore.ListEnvironments | internal/store/memory.go:119-132 | a copy of the project's list, or an error |
| Builder.MemoryStore.GetEnvVersion | internal/store/memory.go:368-379 | the version, or an error for an unknown project or environment |
| Builder.MemoryStore.IncrementEnvVersion | internal/store/memory.go:381-395 | one more than before for that environment only, and that is returned; unknown ones are errors and change nothing |
| Builder.MemoryStore.UpsertFlagConfig | internal/store/memory.go:287-298 | the configuration is stored even for an unknown environment; an unknown project is an error |
| Builder.MemoryStore.GetFlagConfig | internal/store/memory.go:269-285 | the configuration, or an error |
| Builder.UpsertedMeans | internal/store/memory.go:287-298 | the configuration reads back as written if the project is known, and nothing else has changed |
| Builder.BumpedMeans | internal/store/memory.go:381-395 | one environment's version is one higher, and nothing else has changed |
| Builder.MemoryStore.ListFlags | internal/store/memory.go:213-225 | exactly the project's flags, in any order |
| Builder.MemoryStore.ListSegments | internal/store/memory.go:316-328 | exactly the project's segments, in any order |
| Builder.Build | internal/snapshot/builder.go:22-85 | a snapshot exactly when version, flags and segments can be read, holding what the store holds |
| Builder.ResolveFlags | internal/snapshot/builder.go:38-63 | every flag that is not archived, with its configuration or the default one |
| Builder.MapSegments | internal/snapshot/builder.go:65-68 | every segment under its key |
| Builder.PutFlagConfig | internal/api/server.go:746-770 | store, version, hub and the published message after the request, for known and unknown projects and environments |
| Builder.PublishedHoldsTheWrite | internal/api/server.go:755-768 | the published snapshot has the new configuration, all others unchanged, and the version of its message |
| Announcements.WriteIsStored | internal/api/server.go:746-757 | after the request every configuration and every version of the store: the write and the bump are there, nothing else has changed; an unknown project changes nothing |
| Announcements.WriteReachesSubscribers | internal/api/server.go:755-768 | everyone with a stream to the environment and room in its channel has one message more, under the new version, with a snapshot that has the new configuration and all others as they were; nobody else has |
| Builder.PublishFlagChange | internal/api/server.go:1144-1165 | store, hub and messages after the loop over the project's environments, errors skipping only the environment concerned |
| Builder.OneMessageEach | internal/api/server.go:1144-1165 | with no environment listed twice, exactly those that can be built get one message each, with their own bumped version and contents |
| Announcements.ChangeReachesSubscribers | internal/api/server.go:1144-1165 | everyone with a stream to one of the project's environments and room in its channel has one message more, that environment's own, and nobody else has |
| Announcements.ChangeBumpsVersions | internal/api/server.go:1150-1155 | the versions of the listed environments are one higher, no others are |
| Builder.BuiltIsWellKeyed | internal/snapshot/builder.go:52-68 | flags and segments are under their own keys, as deltas and evaluation need them |
| SnapshotEval.SnapshotServesTheStore | internal/snapshot/builder.go:38-83 | evaluation out of a built snapshot finds the project's segments, its live flags and their configurations, the default one written out |
| SnapshotEval.UnconfiguredFlagIsOff | internal/snapshot/builder.go:43-51 | a flag without configuration evaluates to its first variation with reason OFF |
| SnapshotEval.ArchivedPrerequisiteBlocks | internal/snapshot/builder.go:39-42 | a flag with an archived prerequisite is blocked once it is on |
| Welford.RunningStats.Add | internal/stats/welford.go:14-20 | the new count, mean and squared deviations |
| Welford.RunningStats.Merge | internal/stats/welford.go:40-53 | the merged ones, with an empty side leaving the other |
| Welford.RunningStats.AddAll | internal/stats/welford.go:14-20 | after any sequence of additions the fields are the exact statistics of all values |
| Welford.RunningStats.Variance | internal/stats/welford.go:23-28 | the sum of squared deviations from the mean over n - 1, never negative, 0 below two values |
| Welford.AddExact | internal/stats/welford.go:14-20 | adding to the statistics of a sample gives those of the longer sample |
| Welford.MergeExact | internal/stats/welford.go:40-53 | merging the statistics of two samples gives those of both together |
| Welford.AggregateExact | internal/stats/welford.go:40-53 | for every partition and every merge tree the statistics are those of the whole sample |
| Welford.AggregationOrderIrrelevant | internal/stats/welford.go:14-53 | any two ways of ordering, partitioning and merging the same values agree, with squared deviations never negative |

## Left out

- HTTP routing, authentication, rate limits, metrics, the user interface, the load generator and the SQL stores: plumbing over foreign libraries.
- The bodies of the comparison operators, the JSON library, SHA-1 and SHA-256: parameters, as said above; statistical uniformity of the hash is not modelled.
- Rounding of floating-point numbers: buckets, weights, sizes and statistics are exact, so the accumulated rounding of partial sums of weights is not modelled.
- 64-bit overflow of versions and counters: they are unbounded integers here.
- StdDev and StdError, and the significance tests built on them: they rest on square roots and special functions.
- Subscriber objects: a subscriber is a record in the hub's map with its channel as a sequence, so aliasing of one subscriber from two places is not modelled; rings are objects.
- Two publishers of one environment at once: nothing in the server serialises them (internal/api/server.go:755-768). The streaming theorems take publishes of one environment in version order; `TwoPublishers` shows what a resuming and a live client get otherwise.
- Eviction does not close a subscriber's channel (internal/stream/hub.go:107-110), so nothing is said about when an evicted stream's handler ends.
- Delivery.ReplayDelivery: begins after the resume version has been read from the header; `Decimal` and `Client.ResumesFromHeld` cover the header.
- Decimal.ScanRender: white space before a number, which the scanner would skip, is not modelled.
- JsonTexts.ParseText: the decoder accepts no white space between tokens and no surrogate pairs, which the encoder never writes; numbers are the encoder's texts, their shortest-form conversion is not modelled.
- Checksum.DigestedTextIff: how entries and versions are encoded is a parameter; versions pass through a double, so beyond 2^53 the encoding of versions can lose a difference.
- JSON strings are sequences of Unicode characters; the replacement of invalid UTF-8 is not modelled.
- Deltas.ComputeDelta: JSON encoding is a parameter; where it fails, which the code ignores, its text is empty and its size 0.
- Client.Client.ParseSse: read errors of the connection, which end the loop like its end, are not told apart from it.
- StreamHandler.Handler.Open: what the builder returns and what the second version read returns are parameters, so that mutators may run in between; `Delivery` relates the two.
- Reconnection back-off, heartbeats, client-side checksum verification and checks of `from_version`: timing, or described in the design and absent from the code.
- The TypeScript client's handling of patches, and its prototype properties as attribute names.
- Validate.ValidateFlag: messages of errors are reduced to their data.
- Builder.Build: takes one state of the store; concurrent writers are the subject of `Stamp`, whose cells are abstract.
- Creating, changing and deleting projects, environments, flags and segments: map updates whose results the modelled operations start from.
- Clauses without a value list: Go sends a nil list to TypeScript as null, over which its loop throws; in the model every list is a sequence.
- SDK contexts from JSON carry numbers as reals; integers too large for exact doubles are excluded by `Bucketing.PortableContext`.
- Disagreement.LargeSeedServedDifferently: that JavaScript prints 2^60 as 1152921504606847000 and that SHA-1 puts the two texts into different halves are assumptions on the host, whose functions are parameters.
- Explain's `Bucket` field, which the code never sets.
