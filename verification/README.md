# Verification of the durable request protocol

This project models the parts of the repository in which an error would be hardest to see, and
proves what they promise for every input, every run and every reachable state.

**The journal.** Workers that may crash at any point share one Git ref that only fast-forwards. Each
worker is a coordinator call: it loads a snapshot, decides, re-reads, creates a commit, sends a
non-forced PATCH and reads back; a PATCH may land at once, later or never. `JournalRecord` is the
record with its commands (as an object changed in place, and as functions), `JournalProtocol` the step
system and its invariant, `JournalSafety` what holds in every run. `JournalDecisions` says, on the fields of the
record alone, what a call is refused, answered and wants stored, and that every change of the ref was asked for.

**The Publisher.** `PublisherProtocol` puts any number of prepare and finalize runs, for any requests,
on top of that journal, together with the Issues' authenticated comments and the task branches. Every
comment POST and every ref PATCH takes effect when the server applies it, which may be after its
sender has given up, or never; any run may stop after any step. `PublisherInvariant` states what every
run relies on, as facts about a past that only grows, `PublisherSteps` shows that every step keeps
them, `PublisherSafety` draws the conclusions and `PublisherReader` shows when the read-only consumer
agrees with what was written. `PublisherDecisions` writes out, on the comments, objects and fields themselves, when
each step that depends on them may be taken and what the consumer returns. `PublisherMoves` has the steps that runs
are built from; with them `PublisherPrepare` and `PublisherRecovery` show what a fresh run can do from any state that
has been reached: hand out, resume or replay a request, and end one whose record is executing or ambiguous.
`PublisherRun` puts complete runs together, for every request that allows one, and with them says exactly which
requests can be published and which can be read back. `Markers` holds the prefixes that comments are recognized by.

**JSON and digests.** `Utf8` is UTF-8 and UTF-16. `JsonValue`, `JsonPrinter`, `JsonParser` and
`JsonReader` are the canonical printer and the recursive-descent parser of `src/ledger/json.rs`, each
both as functions and as the imperative code that computes them. `JsonSyntax` writes JSON texts out as
trees in which every choice of the writer is explicit; `JsonAcceptance` and `JsonSoundness` show that
the parser accepts exactly the texts of those trees; `JsonTheorems` and `JsonCanonicality` prove the
round trip and that the printed text is canonical. `Sha256` holds SHA-256, HMAC and the signature
check against FIPS 180-4 and RFC 2104; `Sha256Example` computes the first example of FIPS 180-4 in the logic.

**Loops with exact bounds.** `GithubPath` (decoding to a fixpoint), `RequestBody` (a worklist over
object graphs), `CiLabels` (truncation), `PagedScans` (paged collectors), `CommandFlags` (flag parsing).

**Comment formats.** `Text` and `CommentFraming` are the string operations, the JSON pretty-printer and
the frame that machine comments are built from. `CommentJson` is `json.loads` on top of the project's own
parser and shows that it inverts the pretty-printer. `Envelopes` holds the checks on bundles and
publications, `MachineComments` the receipt and Publisher comments with their round trips, `CommentTexts` how both
look character for character, `CommentChecks` what their checks demand and which comments are passed over. `Mentions` and
`MarkedTexts` show where a marker's prefix can stand in JSON text, pretty-printed or canonical: only inside
a string of the value. `PublisherEnvelopes` joins the two languages: from the entries the Rust record is serialized
from, through its canonical text, to the comments whose bundle carries that text. `BuiltEnvelopes` has the
envelopes that the Publisher and Control build, `UnreadableComments` those that are formatted but not read back.
`Dictionaries`, `TextLengths`, `Ascii`, `Decimal` and `Common` are shared helpers.

`dafny verify dfyconfig.toml` checks the whole project.

## Three promises that hold only on a condition

- At most one grant per request: commit ids are content hashes with a one-second clock, so two calls
  with the same execution id can make the same commit and both be granted. That is exactly when it can
  happen: two claim calls for a request can both be granted, in some run, if and only if they carry the
  same, valid, execution id (`JournalSafety.TwoGrantsExactly`; the runs are built in
  `TwoGrantsWithASharedCommit`, for every request and every valid id). What holds always is that all
  grants name one commit and one execution (`UniqueGrant`); among calls with one execution id, fresh
  commit ids suffice for a single grant (`AtMostOneGrant`).
- Parsing what was formatted: a receipt or Publisher comment is read back if and only if its own JSON
  text does not contain its marker's prefix (`ReceiptRoundTrip`, `PublisherRoundTrip`). An intent never
  does (`IntentsReadBack`). A prepare, publication or published comment does exactly when the parameters of its
  request hold the prefix, which acceptance does not forbid, and then every scan for that kind fails on it, for
  whatever request and execution it is made (`UnreadableExactly`); `UnreadablePrepare` exhibits one for every
  request id, execution, pair of revisions and kind. A receipt does exactly when its result holds the prefix
  (`ReceiptsReadBackExactly`), as it may in the name of a workflow's job (`UnreadableReceipt`).
- Reading back what was published: finalize scans only for publication and published comments, so a request whose
  parameters hold the prefix of prepare comments is prepared, published and ended in `ledger_published`, and
  from then on the consumer raises on every scan, without any further comment. After a durable prepare and a
  finalize that ended in `ledger_published` the consumer returns the receipt if and only if all comments of the
  Issue are readable (`ReaderAgreesWithWriter`), which on an Issue of one request is when the canonical request is
  free of the prepare prefix (`ReadableExactly`). A ledger request can be published at all, in some run, if and
  only if its execution id is valid and its canonical request is free of the other two prefixes
  (`PublishedExactly`), and read back, in some run, if and only if it is free of all three (`ReadExactly`).
  `EndIsRead` gives the failing run and the succeeding one.

The code's white space is ASCII white space, which includes the form feed that section 2 of RFC 8259
does not have; the model follows the code.

## How the step systems relate to the code

- A record stands for its canonical JSON text; equal records are equal texts. `generation`, `since` and
  `heads` are bookkeeping: the distance from the root commit, the number of ref values when a call
  began, and the ref's history; so are `taskHeads`, `taskWriters`, `readBacks` and `confirmed`.
- One step reads the ref and everything below the commit it names, because all of that is immutable.
  `Create` stands for the blob, tree and commit requests of `publish` together; its id is fresh or that
  of an identical commit.
- A scan of an Issue's comments is one atomic read in the Publisher system. `PagedScans` justifies it: a
  paged scan of an append-only log returns the log as it stood at one moment, and two equal scans saw
  one unchanged log. A scan fails on a thousand comments, in the system as in the code.
- A scan for a kind parses every Publisher comment of the Issue as one of that kind, and the parser raises on a
  prefix that occurs twice, or outside the marker, before it looks at the request id. In the step system a scan
  therefore fails (the run stops there) if some comment that carries a bundle has the kind's prefix in its
  record's canonical request; intents are always readable. `UnreadableExactly` and `IntentsReadBack` prove just
  that of the formats.
- A Control receipt whose bindings do not match, or that cannot be parsed, is passed over where
  `_parse_receipt_comment` raises. This only adds runs; no theorem says that a run gets past a receipt except the
  constructed ones, whose Issues hold a single, matching receipt.
- The re-read before a write compares whole snapshots, in the model as in the code; with an unchanged head it
  cannot differ (`RecheckSeesTheSameSnapshot`), so only a moved head stops a call there.
- What a fresh run can do (`PublisherPrepare`, `PublisherRecovery`) is shown from every state that a run has reached,
  on the conditions the code itself has: that the Issue can be scanned for the kinds involved, that what is looked for
  is there once or not at all, and ids that are not in use. `Leads(s, t)` says that some run passes through `s` and
  ends in `t`; the process, calls and commits of the fresh run are new in `s`.
- The constructed runs of `PublisherRun` leave the candidate's checks and the handoff's profile to the parts of
  the system that are not modelled: they take any publication linked to the handoff.
- A comment's position in the log stands for its id. `Control` receipts and all foreign comments are
  arbitrary comments of the environment. Marking a record ambiguous is an arbitrary call of the
  environment too, because the Publisher may do so on every failure; only finalize runs complete or
  reconcile.
- Every remote read a Publisher run decides by is a step of its own: the branch head a commit is built on,
  each scan of the comments, the head before the PATCH, the read-back. Sending the PATCH checks nothing
  more, so other publishers' comments and branch moves may come between any two of them. Reads of
  immutable objects (commits, old journal snapshots) are joined to the step that uses them, and a comment
  POST to the scan that found none, because the POST takes effect in a later step anyway.
- The read-only consumer scans the comments at one moment and loads the journal at a later one.
- A task-ref PATCH may land at any time once sent, and task branches may move for other reasons.
- A run of the Publisher system starts with an empty journal, no comments and nobody running; a run of
  the journal alone starts with any valid tree.

## Model

| member | source | states |
|---|---|---|
| JournalRecord.CommandsArePermitted | src/ledger/actions_journal.rs:352-541 | every command on a consistent record returns it unchanged or one permitted successor, again consistent; a claim is granted exactly when it makes such a change |
| JournalRecord.PermittedIsACommand | src/ledger/actions_journal.rs:352-541 | conversely every permitted change between consistent records is what one of the four commands returns |
| JournalRecord.PermittedEvolves | src/ledger/actions_journal.rs:388-448 | a permitted change keeps what acceptance froze, keeps a set owner, moves the state strictly forward and never leaves a terminal state |
| JournalRecord.JournalRecordObject.ClaimExecution | src/ledger/actions_journal.rs:352-379 | a claim fails exactly for an invalid execution id and is granted exactly on an accepted record, which it then takes by a permitted change to that execution; in every other case the record stays as it was; consistency is kept |
| JournalRecord.JournalRecordObject.CompleteTerminal | src/ledger/actions_journal.rs:388-448 | completion succeeds exactly when the result is terminal with a valid code and reference and the record is executing or holds exactly that result already; it then holds it, by a permitted change or unchanged; every other case changes nothing and gives the one error named for it |
| JournalRecord.JournalRecordObject.MarkRecordAmbiguous | src/ledger/actions_journal.rs:469-485 | it succeeds exactly on executing and ambiguous records, leaves the owner alone, changes only an executing record and that by a permitted change |
| JournalRecord.JournalRecordObject.ResolveTrustedReconciliation | src/ledger/actions_journal.rs:491-541 | the same for an ambiguous record: reconciliation succeeds exactly on a valid terminal result for an ambiguous record or an identical repeat, and each other case gives its own error and changes nothing |
| JournalDecisions.TextsAreExact | src/ledger/actions_journal.rs:1151-1186 | execution ids are 1 to 128 letters, digits and `-_.:` that begin like no credential in any letter case; codes and references are 1 to 128 and 1 to 512 printable ASCII characters |
| JournalProtocol.LandsOnlyOnItsBase | scripts/actions_git_journal.py:338-345 | a non-forced PATCH of a candidate can take effect only while the head is the commit it was built on, or is the candidate already |
| JournalSafety.StepKeepsInv | scripts/actions_git_journal.py:294-373 | every step of every worker, late landings and crashes included, keeps the journal's invariant |
| JournalSafety.RunKeepsInv | scripts/actions_git_journal.py:294-373 | the invariant holds in every state of every run |
| JournalSafety.HeadsFormAChain | scripts/actions_git_journal.py:323-345 | the ref's values form one single-parent chain and each adds exactly one permitted change of one request record |
| JournalSafety.HeadsEvolve | scripts/actions_journal_coordinator.py:116-128 | from any past head to any later one every record has only moved on by permitted transitions |
| JournalSafety.NoLostUpdate | scripts/actions_git_journal.py:294-345 | at any two moments of a run the earlier ref history is kept, terminal records are final and owners never change |
| JournalSafety.UniqueGrant | scripts/actions_journal_coordinator.py:457-489 | in any state of any run all grants for one request name the same commit, record and execution |
| JournalSafety.TwoGrantsWithASharedCommit | scripts/actions_git_journal.py:329-359 | for every request and every valid execution id there is a complete run in which two calls make the same commit and are both granted |
| JournalSafety.TwoGrantsExactly | scripts/actions_journal_coordinator.py:457-489 | two claim calls for a request can both be granted in some run exactly when they carry the same, valid, execution id |
| JournalSafety.ReceiptsAreTrue | scripts/actions_git_journal.py:347-366 | a receipt that is not a replay means the candidate became the head during the call, right after the loaded head, with the derived tree |
| JournalSafety.ErrorsAreTrue | scripts/actions_git_journal.py:296-373 | any error but an ambiguous publication means no landing was this call's own; a stale snapshot means it created and sent nothing |
| JournalDecisions.LoadExactly | scripts/actions_journal_coordinator.py:384-581 | after its first read a call has been refused, answered or has settled on a record, each exactly on the written-out conditions on the stored record and with exactly that answer or record; an identical terminal repeat is settled on, a different one refused |
| JournalDecisions.RecheckExactly | scripts/actions_git_journal.py:294-322 | the re-read finds a call stale exactly when the head has moved, answers it without a write exactly when the wanted record is stored, and lets it write otherwise |
| JournalDecisions.ReadBackExactly | scripts/actions_git_journal.py:347-373 | the read-back reports a publication exactly when the candidate is the head, with the disposition of its operation, and an ambiguous publication otherwise |
| JournalDecisions.AnyCallMayStop | scripts/actions_git_journal.py:294-373 | a call may crash until it has answered, fail until it has sent its PATCH and lose the read-back after that, ending ambiguous; none of it touches the ref |
| JournalDecisions.LandsExactly | scripts/actions_git_journal.py:338-345 | a PATCH that was sent lands on exactly those heads its commit descends from, and moves the ref at most once |
| JournalDecisions.EveryChangeWasAsked | scripts/actions_journal_coordinator.py:553-581 | in every run each new value of the ref changes one record as one call asked: an acceptance, a claim by the execution that then owns it, and later changes only by the owner, completing an executing record and reconciling an ambiguous one |
| PublisherSteps.VerificationIsStable | scripts/actions_request_handler.py:318-348 | a bundle passes the check against the current head exactly when both its revisions were heads holding the accepted and the executing record |
| PublisherSteps.OneOwner | scripts/actions_request_handler.py:245-299 | all bundles of one request that pass the check name the same execution and identity |
| PublisherSteps.BundleFromIntent | scripts/actions_request_handler.py:1172-1239 | a bundle rebuilt from an authenticated intent and the claimed record is bound to the journal |
| PublisherSteps.DirectBundle | scripts/actions_request_handler.py:966-1022 | so is the bundle of a granted claim when handoffs are not durable |
| PublisherSteps.ActorIsOk | scripts/actions_request_handler.py:1024-1547 | after each step of a prepare or finalize run, everything that run relies on is true of the remote state |
| PublisherSafety.CallMatchesTheRecord | scripts/actions_request_handler.py:1527-1547 | in every run, when a finalize run has begun its journal call it had bound its bundle at an earlier step, and the call reconciles exactly when the record at the head then was ambiguous, and completes exactly when it was executing |
| PublisherSteps.WritersAreMarked | scripts/actions_ledger_publication.py:160-216 | no run gets from building a commit or sending the PATCH to a stage that claims to have written nothing |
| PublisherSteps.StepKeepsWorldInv | scripts/actions_request_handler.py:1024-1547 | every step of every publisher, every comment or PATCH landing and every crash keeps the whole invariant |
| PublisherSteps.WorldRunKeepsInv | scripts/actions_request_handler.py:1024-1547 | the invariant holds in every state of every run of the whole system |
| PublisherSafety.BundlesVerifyForEver | scripts/actions_request_handler.py:998-1022 | every bundle prepare hands out, granted, resumed or rebuilt, passes the check at every later head |
| PublisherSafety.TaskPatchesAgree | scripts/actions_ledger_publication.py:204-216 | all requests to move a task ref for one ledger request ask for the same commit on the same branch |
| PublisherSafety.IntentBeforeEffect | scripts/actions_ledger_publication.py:204-214 | before the task ref is asked to move, a scan found the comment naming exactly that commit to be the only intent of the request and, after that, the branch was read at its base; when the PATCH is sent that intent is still the first in the log |
| PublisherSafety.RecoveryNeverWrites | scripts/actions_ledger_publication.py:160-169 | a run that finds the intent recorded never creates Git objects nor asks the task ref to move, before or after |
| PublisherSafety.ReadBackOnce | scripts/actions_ledger_publication.py:152-157 | an effect counts as read back only if at some earlier moment the remote showed exactly the recorded commit object and the branch at it |
| PublisherSafety.ConfirmedOnce | scripts/actions_request_handler.py:1516-1523 | a comment counts as confirmed only if at some earlier moment it was the only published comment of its request, after the effect had been read back |
| PublisherSafety.SuccessImpliesEffect | scripts/actions_request_handler.py:1477-1525 | if any head ever says a ledger request succeeded, then earlier in the run the effect was read back, after that exactly one published comment existed, the record refers to it, and the publication is of the candidate Control handed over |
| PublisherSafety.SuccessSpelledOut | scripts/actions_request_handler.py:1484-1525 | the same without the names used to prove it: the commit object, its tree, parent and branch head that were read, the only published comment, the first receipt and its artifact, the code and the URL in the record |
| PublisherSafety.AloneMeans | scripts/actions_request_handler.py:1304-1331 | a scan finds a comment alone exactly when it is the only one of its kind, request and execution on an Issue with at most 999 comments, none of which carries a request with the prefix of the kind |
| PublisherSafety.ResultsAreReported | scripts/actions_request_handler.py:1426-1528 | every other terminal record has the state and code of the first receipt Control published for a bundle bound to the journal, and refers to that receipt |
| PublisherSafety.TerminalizationsAgree | scripts/actions_request_handler.py:1499-1547 | all successful conclusions of one ledger request have the same bundle, publication and comment reference |
| PublisherDecisions.ReceivesExactly | scripts/actions_request_handler.py:1426-1472 | finalize takes a receipt exactly when it is the only one for the bundle and its verdict is allowed: for a ledger request a candidate or a rejection, otherwise a final result |
| PublisherDecisions.RecoversExactly | scripts/actions_ledger_publication.py:160-169 | a recorded effect is taken up exactly when it is recorded once, for this bundle and of this artifact, and built anew exactly when none is recorded |
| PublisherDecisions.BuildsExactly | scripts/actions_ledger_publication.py:177-203 | what is recorded stands on the base that was read, with that one parent, or is the base itself with its tree, and is of the artifact handed over |
| PublisherDecisions.ChecksExactly | scripts/actions_request_handler.py:1493-1508 | confirming, reloading and checking a recorded effect each succeed exactly while it is the only one recorded |
| PublisherDecisions.ReadsExactly | scripts/actions_ledger_publication.py:151-157 | the PATCH is sent only from the recorded base, and an effect is proven exactly when the remote shows the recorded object at the head of its branch |
| PublisherDecisions.ConcludesExactly | scripts/actions_request_handler.py:1516-1523 | a ledger request is concluded exactly when its published comment is the only one and says the same |
| PublisherDecisions.EnsuresExactly | scripts/actions_request_handler.py:1253-1302 | a comment is posted exactly when there is none of its kind yet, and taken for made exactly when the only one says the same |
| PublisherDecisions.CommentsLand | scripts/actions_request_handler.py:1253-1302 | a comment POST that was sent may land at any time or never, and adds just that comment; anybody may comment |
| PublisherDecisions.BranchesMove | scripts/actions_ledger_publication.py:207-214 | a task PATCH that was sent may land at any time or never, and makes its commit the head; branches may move for any other reason |
| PublisherDecisions.AnybodyStops | scripts/actions_request_handler.py:1024-1547 | every run may stop at every step, every coordinator call may go on, fail or crash, and any record may be marked ambiguous |
| PublisherDecisions.FindsIntentExactly | scripts/actions_request_handler.py:1172-1239 | prepare resumes from an intent exactly when it is the only one for request and execution, agrees with the record on Issue, request and policy, and the journal held the acceptance it names |
| PublisherDecisions.ResumesExactly | scripts/actions_request_handler.py:1055-1104 | after a claim of its own execution prepare hands out the only recorded bundle if it is of the same record, and rebuilds one exactly when none is recorded, the record is executing and the intent is of it |
| PublisherDecisions.ReaderIsExact | scripts/actions_request_handler.py:351-398 | the consumer returns a receipt exactly when the three comments are each the only ones, agree on bundle and publication, and the record at the head is the success they prove, with that URL |
| PublisherPrepare.NewRequestsCanBePrepared | scripts/actions_request_handler.py:935-1022 | from every state reached in any run, a fresh prepare run for a request the journal does not know can accept it, claim it and hand its bundle out, with durable handoffs or without |
| PublisherPrepare.AcceptedRequestsCanBePrepared | scripts/actions_request_handler.py:1024-1046 | the same for a request that was accepted before, under its stored record |
| PublisherPrepare.ClaimedRequestsCanResume | scripts/actions_request_handler.py:1047-1105 | a fresh prepare run of the execution that owns the record can pass acceptance and claim without a write and hand out the recorded bundle, or rebuild the one that was lost |
| PublisherPrepare.FinishedRequestsAreReplayed | scripts/actions_request_handler.py:1112-1128 | a fresh prepare run for a request that has ended can end by replaying the record, and changes neither journal nor comments |
| PublisherRecovery.ReportedRequestsCanEnd | scripts/actions_request_handler.py:1426-1547 | from every state reached in any run, a request on which Control has given a final verdict can be ended with it by one fresh finalize run, by completion if the record is executing and by reconciliation if it is ambiguous |
| PublisherRecovery.RecordedEffectsCanEnd | scripts/actions_ledger_publication.py:160-169 | a ledger request whose recorded effect the remote shows can be ended without another Git write, whether the published comment is there or still to be made, and whether the record is executing or ambiguous |
| PublisherRecovery.NewEffectsCanEnd | scripts/actions_ledger_publication.py:172-216 | a ledger request for which nothing is recorded can be built, recorded, pushed, read back, announced and ended, from an executing record or an ambiguous one |
| PublisherRecovery.ExecutingRequestsCanBeMarked | scripts/actions_journal_coordinator.py:514-517 | the owner of an executing record can mark it ambiguous from every state reached |
| PublisherRecovery.FinishedBundlesAreReplayed | scripts/actions_request_handler.py:1384-1425 | a finalize run for a bundle whose record is terminal can end by replaying it and changes nothing |
| PublisherRecovery.RepeatedEndingsAreAnswered | src/ledger/actions_journal.rs:425-431 | of two finalize runs with the same conclusion the one whose call comes second can end with the same result, its call being answered without a write |
| PublisherReader.ReaderAgreesWithWriter | scripts/actions_request_handler.py:351-398 | after a durable prepare and a finalize ending in ledger_published, a reader that scans at any later moment without further matching comments, and loads the journal then or later still, returns exactly that bundle, publication and comment if every comment of the Issue is readable, and fails on an unreadable one otherwise |
| PublisherReader.ReadableExactly | scripts/actions_request_handler.py:373-382 | after them, on an Issue with one request, all comments are readable exactly when the canonical request is free of the prefix of prepare comments |
| PublisherRun.EndIsRead | scripts/actions_request_handler.py:1024-1547 | a complete run of every workable plan ends in ledger_published, and the reader then returns its receipt, or fails on an unreadable comment exactly when the request contains the prepare prefix |
| PublisherRun.PublishedExactly | scripts/actions_request_handler.py:1459-1528 | a ledger request can be published in some run exactly when its execution id is valid and its canonical request is free of the prefixes of publication and published comments |
| PublisherRun.ReadExactly | scripts/actions_request_handler.py:351-398 | it can be read back in some run exactly when it can be published and is free of the prepare prefix too |
| PublisherRun.AmbiguousRequestsArePublished | scripts/actions_request_handler.py:1527-1547 | for every ledger request that can be published there is a complete run in which its record is marked ambiguous before finalize starts, and which ends in ledger_published by the reconciliation call |
| PublisherReader.ReaderIsSound | scripts/actions_request_handler.py:351-398 | what a reader returns, whenever it scanned and whenever after that it loaded the journal, is bound to the journal, was read back, was once the only published comment, and the record loaded refers to it |
| Decimal.TextIsInjective | scripts/actions_request_handler.py:1523 | decimal numerals in references tell different comment ids apart |
| Utf8.DecodeOfEncodeAll | src/ledger/json.rs:286-296 | decoding is the inverse of encoding |
| Utf8.EncodeOfDecodeFrom | src/ledger/json.rs:286-296 | encoding is the inverse of decoding, on exactly the well-formed byte strings |
| Utf8.Utf16IsInjective | src/ledger/json.rs:155-159 | different strings have different UTF-16 forms |
| Utf8.UnitsMean | src/ledger/json.rs:155-159 | a character is one UTF-16 unit, itself, or a leading and then a trailing surrogate that carry its upper and lower ten bits |
| JsonValue.IntegerRoundTrip | src/ledger/json.rs:110-126 | the printed text of an integer reads back as that integer |
| JsonValue.KeyOrderMeans | src/ledger/json.rs:155-159 | a key comes before another exactly when its UTF-16 units are a proper prefix of the other's, or the smaller at the first place where they differ |
| JsonValue.CodePointsDecide | src/ledger/json.rs:155-159 | for keys below U+D800 that is the order of their code points |
| JsonValue.KeyOrderIsTotal | src/ledger/json.rs:155-159 | this order is strict and total: only equal keys compare equal |
| JsonValue.KeyOrderIsTransitive | src/ledger/json.rs:155-159 | and it is transitive |
| JsonValue.SortSorts | src/ledger/json.rs:137-139 | sorting the members permutes them and leaves no member after one that it comes before |
| JsonValue.SortAscends | src/ledger/json.rs:137-139 | sorted members are a permutation in which, for distinct keys, the units of every key precede those of all later ones |
| JsonValue.OneStrictOrder | src/ledger/json.rs:137-139 | given members have one strictly sorted arrangement |
| JsonPrinter.WriteString | src/ledger/json.rs:161-179 | the string writer appends exactly the quoted text |
| JsonPrinter.WriteJcs | src/ledger/json.rs:105-153 | the printer appends exactly the canonical text, or fails with the first error in printing order; an object's members are laid out in ascending UTF-16 order of their keys |
| JsonPrinter.Print | src/ledger/json.rs:99-103 | printing into a fresh buffer yields the canonical text, an object's members laid out in ascending UTF-16 order |
| JsonParser.PValue | src/ledger/json.rs:208-239 | a value read ends inside the input at a character boundary, nests at most as deep as the limit leaves room, has numbers in the grammar and no repeated key; the scalar error is unreachable |
| JsonParser.PUnicode | src/ledger/json.rs:301-320 | every escape read yields a valid scalar: the error arm after the surrogate arithmetic is unreachable |
| JsonParser.PNumber | src/ledger/json.rs:395-439 | a number read is the input between its ends and in the grammar of section 6 of RFC 8259 |
| JsonParser.Parse | src/ledger/json.rs:27-39 | the parser is total; what it returns nests at most 64 deep, without repeated keys and with grammatical numbers |
| JsonReader.Parser.Ws | src/ledger/json.rs:198-206 | the loop stops at the first byte that is not white space and stays on a boundary |
| JsonReader.Parser.Str | src/ledger/json.rs:258-299 | the loop reads exactly the string the specification reads, or fails with its error |
| JsonReader.Parser.HexU16 | src/ledger/json.rs:322-333 | four hexadecimal digits that end on a character boundary, or the error for a short or a bad escape |
| JsonReader.Parser.UnicodeEscape | src/ledger/json.rs:301-320 | the escape reader agrees with the specification on pairs, lone surrogates and errors |
| JsonReader.Parser.NumberToken | src/ledger/json.rs:395-439 | the number reader agrees with the specification, cutting only at boundaries |
| JsonReader.Parser.Value | src/ledger/json.rs:208-216 | the value reader agrees with the specification and restores the depth |
| JsonReader.Parser.ArrayToken | src/ledger/json.rs:335-356 | the array loop agrees with the specification |
| JsonReader.Parser.ObjectToken | src/ledger/json.rs:358-393 | the object loop agrees with the specification, rejecting repeated keys |
| JsonReader.ParseText | src/ledger/json.rs:27-39 | the parser object computes the specified result on every UTF-8 text, with every slice on a character boundary |
| JsonAcceptance.ProperTextsParse | src/ledger/json.rs:197-440 | every text of a proper syntax tree, whatever its white space and spellings, is accepted with its meaning, under any nesting limit that it keeps to |
| JsonSoundness.ParserIsExact | src/ledger/json.rs:27-39 | the parser returns a value exactly when the input is a proper JSON text (form feeds counting as white space), at most 64 deep and without repeated keys, that means it |
| JsonTheorems.CanonPrintsSame | src/ledger/json.rs:105-153 | a value and its canonical form print alike |
| JsonTheorems.JcsIsPlain | src/ledger/json.rs:105-153 | the printed text is the syntax tree of the canonical form without white space and with only the escapes it needs |
| JsonTheorems.RoundTrip | src/ledger/json.rs:99-103 | for every parsed value that prints, parsing the printed text gives it back with integers normalized and the keys of every object, at every depth, in ascending UTF-16 order |
| JsonTheorems.PrintsExactly | src/ledger/json.rs:110-126 | a value prints exactly when every number in it is an integer between plus and minus 9007199254740991 |
| JsonTheorems.NumberIsWritten | src/ledger/json.rs:110-126 | a number prints as its integer, or fails: as a float if its text is no integer, as out of range beyond 64 bits or without a digit, as unsafe beyond 53 bits |
| JsonTheorems.WordsMean | src/ledger/json.rs:105-110 | the three words are `null`, `true` and `false` |
| JsonTheorems.EscapeIsShortest | src/ledger/json.rs:161-179 | of all spellings of a character the printer uses a shortest one, with lower-case hexadecimal digits |
| JsonTheorems.ReprintingIsTheIdentity | src/ledger/json.rs:99-103 | printing what was parsed from a canonical text gives that text |
| JsonCanonicality.EquivalentIsSameCanon | src/ledger/json.rs:137-139 | two values are equal up to member order and integer spelling exactly when their canonical forms are equal |
| JsonCanonicality.PrintedTextIsCanonical | src/ledger/json.rs:99-153 | two parsed, printable values print the same text exactly when they are equal up to member order and integer spelling |
| Sha256.PaddingIsInjective | src/ledger/json.rs:465-471 | different messages whose bit length fits 64 bits are padded differently |
| Sha256.Pad | src/ledger/json.rs:465-471 | the loop pads as section 5.1.1 of FIPS 180-4 says |
| Sha256.Expand | src/ledger/json.rs:472-493 | the in-place loops fill the message schedule of section 6.2.2 |
| Sha256.RunRounds | src/ledger/json.rs:494-523 | sixty-four turns over eight variables compute the rounds of section 6.2.2 |
| Sha256.Sha256 | src/ledger/json.rs:442-537 | the loops compute the digest the standard defines, for every input |
| Sha256Example.DigestOfAbc | src/ledger/json.rs:442-537 | the digest of the three bytes `abc` is the one published with the standard |
| Sha256.HmacMeans | src/ledger/json.rs:547-566 | HMAC hashes the key block with bits 1, 2, 4, 5 flipped before the text, and with bits 2, 3, 4, 6 flipped before that digest; a long key is replaced by its digest, a short one extended with zeros |
| Sha256.HexTextMeans | src/ledger/json.rs:539-541 | byte i is written as two lower-case digits, the upper half first, that read back as the byte |
| Sha256.HmacHex | src/ledger/json.rs:547-568 | the loops yield the HMAC of section 2 of RFC 2104, for keys of any length, as two digits a byte, the upper half first |
| Sha256.VerifySignature | src/ledger/json.rs:570-583 | true exactly when the header is `sha256=` and a text that denotes the HMAC: two digits for each byte, the upper half first, in either case |
| Ascii.HexDigitsMean | src/ledger/json.rs:322-333 | hexadecimal digits are those of the tables `0123456789abcdef` and `0123456789ABCDEF`, with the values they stand at |
| GithubPath.FixpointMeansNoEscape | scripts/actions_github_api.py:99-108 | decoding changes nothing exactly when no percent-escape is left |
| GithubPath.DecodedKeepsPrefix | scripts/actions_github_api.py:112-113 | text without percent signs in front stays in front under any number of decodings |
| GithubPath.SpelledIsDecoded | scripts/actions_github_api.py:99-108 | decoding gives back the bytes a text spells, each as itself or as a percent sign and its two digits, upper half first, in either case |
| GithubPath.DecodeOfEncode | scripts/actions_github_api.py:99-108 | decoding inverts escaping every byte, with either table of digits |
| GithubPath.StartsAreReplacedWhole | scripts/actions_github_api.py:99-108 | what one replacement character stands for is the start of some longer character, if it is more than one byte |
| GithubPath.NoLongerStart | scripts/actions_github_api.py:99-108 | and no longer start of a character is there |
| GithubPath.DotsAreRejected | scripts/actions_github_api.py:98-108 | no path with a segment that spells one or two dots, in any mix of raw and escaped characters and escaped any number of times over, is accepted |
| GithubPath.TestsMean | scripts/actions_github_api.py:80-97 | which characters, bounds and prefix the checks are about |
| GithubPath.PathEndsAtQuery | scripts/actions_github_api.py:93-96 | the path checked ends before the first question mark |
| GithubPath.UnderMeans | scripts/actions_github_api.py:112-113 | a path is below a repository exactly when it is `/repos/` and its name, alone or followed by a slash |
| GithubPath.Settle | scripts/actions_github_api.py:98-110 | the nine-round loop succeeds exactly when every repeated decoding is clean and the eighth has no escape left |
| GithubPath.ValidatePath | scripts/actions_github_api.py:80-119 | a path is accepted exactly when it and all its decodings meet the conditions, and is returned as it is |
| GithubPath.AcceptedPathsStayInside | scripts/actions_github_api.py:98-113 | every decoding of an accepted path has no dot segment or delimiter and stays below an allowed repository |
| RequestBody.Check | scripts/actions_github_api.py:145-161 | the worklist ends on every object graph and accepts exactly JSON values at most 32 deep with at most 262144 nodes |
| RequestBody.GoodExactly | scripts/actions_github_api.py:145-161 | an object is accepted as JSON exactly when no path from it is longer than allowed and every object on a path is a scalar, a list or a mapping whose keys are strings, not too wide |
| RequestBody.CyclesAreNotGood | scripts/actions_github_api.py:145-161 | nothing that leads to an object containing itself is accepted |
| CiLabels.TruncateLabel | scripts/actions_ci_inspect.py:233-248 | a label that fits is kept; a longer one becomes its longest whole-character prefix of at most 157 bytes and an ellipsis; the last error is unreachable |
| PagedScans.ScanIssueComments | scripts/actions_request_handler.py:786-820 | the scan succeeds exactly on full pages followed by a short one with distinct positive ids, and returns them in order |
| PagedScans.ScanIsASnapshot | scripts/actions_request_handler.py:786-820 | on an append-only log it returns the log as it stood at the last page, and succeeds for every log below a thousand comments |
| PagedScans.EqualScansSeeOneLog | scripts/actions_request_handler.py:1312-1318 | two equal scans saw one log that did not change from the end of the first to the end of the second |
| PagedScans.Collect | scripts/actions_ci_inspect.py:202-230 | the collector of runs (limit 999) and jobs (limit 1000) succeeds exactly on complete collections of distinct entries |
| PagedScans.Pages | scripts/actions_ledger_producer.py:81-98 | the producer's collector meets the same specification with limit 1000 |
| PagedScans.CollectionIsTheList | scripts/actions_ci_inspect.py:304-337 | on an unchanged list the collectors return exactly that list, exactly when it is within their limit |
| PagedScans.ScanRuns | scripts/actions_recipe_dispatch.py:340-378 | the recipe run scan succeeds exactly on full pages, a short one, distinct ids and a matching total |
| PagedScans.RunScanIsTheList | scripts/actions_recipe_dispatch.py:340-378 | on an unchanged list it returns exactly that list, exactly up to 999 runs |
| CommandFlags.ParseFlags | src/bin/zach-actions.rs:57-81 | flags parse exactly when allowed flags and values alternate without repeats, and each flag gets the value after it |
| CommentFraming.PrettyIsCalm | scripts/actions_request_handler.py:402 | pretty-printed JSON never contains anything that looks like the fence around it |
| CommentFraming.FrameReadsBack | scripts/actions_request_handler.py:415-468 | what was framed has the required shape and yields the same marker and JSON text |
| CommentFraming.PrefixCount | scripts/actions_request_handler.py:437 | the marker prefix is counted once exactly when the JSON text is free of it |
| CommentJson.LoadsPretty | scripts/actions_request_handler.py:402 | loading the pretty-printed text of any value gives that value back: the text is that of a proper syntax tree without repeated keys |
| CommentJson.LoadedIsOrdered | scripts/actions_request_handler.py:467 | whatever text loads, every dictionary in the value has different keys, here kept in the order they are printed in |
| MachineComments.FieldsAreExact | scripts/actions_request_handler.py:63-82 | a marker line is read as given fields exactly when it is those fields' marker |
| CommentTexts.ReceiptIsSpelled | scripts/actions_request_handler.py:401-415 | a receipt is formatted exactly when its five bound fields are texts and its JSON and body are at most 32768 and 65536 bytes, as the marker with those fields and the fenced JSON |
| CommentTexts.PublisherIsSpelled | scripts/actions_request_handler.py:661-693 | a formatted Publisher comment is the marker of its kind with request id, digest, execution digest and, for a bundle, both revisions, then the fenced JSON, at most 65536 bytes |
| CommentTexts.PrettyIsLaidOut | scripts/actions_request_handler.py:402 | lists and dictionaries stand one part a line, two spaces further in at each level, with commas between and a colon and a space after each key |
| CommentChecks.SameIsEqualAsNumbers | scripts/actions_request_handler.py:245-299 | two values compare equal, as Python compares them, exactly when they are the same with booleans counted as numbers, at every depth |
| CommentChecks.FaultFreeExactly | scripts/actions_request_handler.py:471-510 | a parsed receipt passes exactly when its version, kind, bindings, revisions, state, code and result are as written out; a candidate only for a ledger request and with a well-formed handoff |
| CommentChecks.BundleDictMeans | scripts/actions_request_handler.py:158-235 | the fields of a bundle: which they are, their types, lengths and characters |
| CommentChecks.RecordBoundMeans | scripts/actions_request_handler.py:245-299 | a bundle is bound to its record exactly when the stored text is a record of at most 65536 bytes, executing, equal in eight fields, and its canonical request has the bundle's parameters |
| CommentChecks.LedgerPublicationMeans | scripts/actions_request_handler.py:623-658 | a publication is valid exactly when it is of a bound ledger bundle, on a task branch of the governance repository, from the base its parameters name, with three commit ids and a well-formed artifact |
| CommentChecks.TaskBranchMeans | scripts/actions_request_handler.py:83-85 | a task branch is `task/`, an upper-case id, three digits and one or more lower-case words, joined by hyphens |
| CommentChecks.RepositoryNameMeans | scripts/actions_request_handler.py:623-658 | a repository name is an owner and a name with their characters, separated by one slash |
| CommentChecks.PublisherFaultFreeExactly | scripts/actions_request_handler.py:729-779 | a parsed Publisher envelope passes exactly when it is of its kind and version, names the marker's request and the execution asked for, and carries a bundle that is bound, of the marker's revisions, with an allowed disposition or a valid publication |
| CommentChecks.OthersArePassedOver | scripts/actions_request_handler.py:696-783 | a formatted Publisher comment free of its prefix is passed over for other requests and for executions with another digest, and given back for its own |
| CommentChecks.OtherReceiptsArePassedOver | scripts/actions_request_handler.py:418-514 | a formatted receipt free of the prefix is passed over for other requests and refused for its own under another digest, operation or revision |
| MachineComments.ReceiptRoundTrip | scripts/actions_request_handler.py:401-514 | parsing a formatted well-formed receipt under its own bindings gives it back exactly when its JSON text does not contain the marker prefix |
| MarkedTexts.PrettyTells | scripts/actions_request_handler.py:437 | pretty-printed JSON contains a marker's prefix exactly when some string of the value does |
| MarkedTexts.CanonicalTells | scripts/actions_request_handler.py:706 | canonical JSON contains it exactly when some string of the value it loads to does |
| Mentions.TextMentions | src/ledger/json.rs:161-179 | the text of a syntax tree whose plain characters are written as themselves contains it exactly when a string of its meaning does |
| BuiltEnvelopes.ReceiptsReadBackExactly | scripts/actions_request_handler.py:418-514 | a formatted receipt with Control's ten fields and a terminal code without `<` is read back under its bindings, and rejected exactly when a string of its result contains the receipt prefix |
| UnreadableComments.UnreadableReceipt | scripts/actions_request_handler.py:1874-1888 | for every marker of a CI inspection, every run and workflow there is a well-formed receipt that is formatted and then rejected, because a job's name contains the prefix |
| MachineComments.ParsedReceiptIsFormatted | scripts/actions_request_handler.py:418-514 | whatever parses equals the formatter's output byte for byte and carries the bindings asked for |
| MachineComments.PublisherRoundTrip | scripts/actions_request_handler.py:661-783 | the same for the four kinds of Publisher comment, with the checks on the bundle, its canonical record and the ledger publication |
| PublisherEnvelopes.LoadsObject | src/ledger/json.rs:105-153 | the canonical text of an object loads as the dictionary of exactly its entries |
| PublisherEnvelopes.RecordTells | src/ledger/actions_journal.rs:544-626 | the stored text of a claimed record contains a marker's prefix exactly when the canonical request in it does |
| PublisherEnvelopes.RequestTells | src/ledger/actions.rs:485-500 | the canonical request contains it exactly when its parameters do |
| PublisherEnvelopes.UnreadableExactly | scripts/actions_request_handler.py:696-783 | scanning a formatted prepare, publication or published comment fails, for any request and execution, exactly when the canonical request contains the prefix of the kind scanned for; otherwise comments of other kinds are passed over and its own are read back |
| BuiltEnvelopes.BundleIsWellFormed | scripts/actions_request_handler.py:1148-1170 | the bundle built from a claimed record's stored text passes the checks on bundles and is bound to that record |
| BuiltEnvelopes.PreparesReadBackExactly | scripts/actions_request_handler.py:1090-1104 | the prepare checkpoint of every claimed record, once formatted, is read back, and a scan fails on it exactly when the canonical request contains the prefix scanned for |
| BuiltEnvelopes.IntentsReadBack | scripts/actions_request_handler.py:1129-1146 | the intent of every accepted record is well formed and, once formatted, always read back, and passed over by scans for other kinds |
| UnreadableComments.UnreadablePrepare | scripts/actions_request_handler.py:661-714 | for every request id, valid execution id, revisions and kind there is a claimed record whose prepare checkpoint is well formed and formatted, fails every scan for that kind and no other |
| MachineComments.ParsedPublisherIsFormatted | scripts/actions_request_handler.py:696-783 | whatever parses as a Publisher comment equals the formatter's output, passes the checks on its bundle and publication, and names the request and execution asked for |

## Left out

- HTTP, TLS, redirects, headers, subprocesses, temporary files, ZIP archives and command-line plumbing: input and output without a property of their own.
- Liveness: several crash points deliberately leave a request ambiguous. Safety is proved of all runs, and that a fresh run can finish from any reached state; that it will is not claimed.
- Dishonest server answers, edited or deleted trusted comments, and a journal ref moved by anything but the coordinator.
- `reconcile_request`, Control's `execute` and the recipe dispatcher's effects; that a re-run control phase dispatches a recipe at most once is not claimed, because the code does not enforce it.
- The walk from a commit through tree objects to a regular file, base64 and blob hashes: the model reads a commit's tree as a map from request to record.
- Producer observation, candidate rederivation, owner headers, clock freshness and the registered branch policy: a build step may propose any publication linked to the handoff that the remote accepts; field formats and the base taken from the request's parameters are not part of the step system (`Envelopes` has them for the comments).
- Error-code spellings that no property depends on, and the second of two comment scans differing from the first (the run then only stops).
- `src/ledger/actions_journal.rs` beyond the record's state machine and its serialization: acceptance parsing and timestamps.
- PublisherEnvelopes.UnreadableExactly: repository names and acceptance times are taken to contain no `<`, as GitHub's repository names and RFC 3339 times do not; the Rust code checks the time's format, but of the name only that it is the policy's and has a slash.
- BuiltEnvelopes.ReceiptsReadBackExactly: terminal codes are taken to contain no `<`; the codes that Control writes are constants of the code or lower-case words.
- `reconcile_recipe` and `inspect_ci` beyond their paged collectors: single-pass field checks and filters.
- JsonReader.Parser.Value: recursion depth and memory are not limited beyond the nesting limit of 64.
- Sha256.Sha256: the message and the digest are sequences of numbers below 256, the hash state and the schedule are arrays; constant-time behaviour is not modelled.
- GithubPath.ValidatePath: arguments that are not strings and the final `urlsplit` comparison, which the earlier checks make redundant, are left out; the URL returned is the base URL followed by the path.
- RequestBody.Check: the later encoding with `json.dumps`, which also rejects infinities and limits the encoded size, is not part of this model.
- MachineComments.FormatReceipt: a marker field that is not a string is an error here; the code would print it.
- CommentJson.Loads: the interpreter's own limits (recursion depth, digits of an integer) are not modelled, nor are floating-point numbers and lone surrogates, which `json.loads` accepts; a text with repeated keys does not load, where Python keeps the last one; a form feed counts as white space. None of these differences concerns a text the formatter writes for the values modelled, and a comment is accepted only if it is such a text; a bundle whose canonical request has repeated keys or floating-point numbers is rejected here.
- CommentFraming.Pretty: floating-point numbers do not occur; an object keeps its members in key order; strings are sequences of Unicode scalar values.
- PagedScans.ScanIssueComments: an entry is its id and an opaque content; entries of the wrong JSON type are left out.
