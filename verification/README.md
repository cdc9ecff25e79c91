# A verified model of the AirMX mail server

AirMX receives mail over SMTP, judges it with SPF, DKIM and DMARC, files it in
a maildir store and shows it in a web UI. This project models the parts whose
correctness does not show in any single function and proves what they promise
over every input, every run or every reachable state. `dafny verify
dfyconfig.toml` checks all of it.

* **Maildir store** (`Maildir`, `MaildirTheorems`, `MaildirAlone`,
  `MaildirStore`). The SMTP
  receiver and the web UI share one store without a lock. `Maildir.Step` is a
  state machine in which every operation performs one file system call per
  step, any number of operations interleave, every call may fail, and the
  machine may crash between any two calls (a crash cuts files that were not
  synced). The theorems speak of whole runs. `MaildirStore.Store` is the
  sequential form with the loops of the source.
* **Push subscriptions** (`Push`, `PushProtocol`, `PushTheorems`). The service
  class with its map and file, and a machine of requests, notifications and
  their senders around one mutex, with crashes and restarts.
* **Certificate reloader** (`CertReloader`, `CertTheorems`). The class on a
  quiet disk, and a machine with concurrent callers and an external writer.
* **HTML to text** (`Textify`). The tree walk, the whitespace automaton and the
  in-place line filter against recursive specifications.
* **SMTP transaction** (`Smtp`, `Headers`, `Mailauth`, `Config`). Sessions,
  allowlist, policy decision, header injection and per-recipient delivery, and
  the reading back of the injected decision.
* **Web handlers** (`Web`, `BaseTag`, `Sessions`). The two attachment walks,
  pages, size units, the base tag on byte strings and session tokens.

`Options`, `Strings` and `Decimals` hold what several of them use. The classes
are sequential forms of the machines: `MaildirAlone.DeliverAlone`,
`MaildirAlone.LookupAlone`, `MaildirAlone.ListAlone`, `PushTheorems.CallAlone`,
`PushTheorems.NotifyEnds` and `CertTheorems.GetCertificateAlone` show that an
operation that nobody interrupts ends and does what the method of the class does.

## What the model shows about the code

* `internal/maildir/maildir.go:71-73` declares a second `err` inside the `if`, so
  errors of Write and Sync never reach the check before the rename.
  `MaildirTheorems.AtomicDelivery` is the promise of `main.go:87-88` for the
  propagating form; `MaildirTheorems.AsWritten` is the exact condition for the code
  as it stands. In `MaildirTheorems.ShortWriteIsPublished` a truncated message
  is published and reported as delivered, in `MaildirTheorems.SyncErrorLosesData`
  a delivered message is lost by a crash.
* The same lost error reaches the SMTP client: a message can be acknowledged
  although nothing of it was stored (`Smtp.OkCanStoreNothing`). A session has
  stored whole copies if and only if no stored message had a short write
  (`Smtp.SessionStoresWhole`).
* An Open (also a Delete or a streaming Reader) can fail on a message that is
  there all the time, because another Open renamed it after it was located:
  `MaildirTheorems.FoundFails` says exactly when, and
  `MaildirTheorems.OpenCanFailOnLiveMessage` is such a run;
  `MaildirTheorems.LookupSucceeds` says that nothing else makes it fail.
* Pruning goes by endpoint, so a late 410 removes a subscription renewed after
  the snapshot: exactly if the last change of the endpoint since the snapshot
  is a Subscribe with a different subscription
  (`PushTheorems.RenewedExactlyWhen`, `PushTheorems.LateGoneRemovesRenewed`).
* A renewal between a reload's reads and its timestamps leaves an old
  certificate cached under the new time
  (`CertTheorems.RenewalInWindowGoesStale`); `CertTheorems.StaleExactlyWhen` is
  the exact condition over the steps of the last reload, racing reloads
  included, and `CertTheorems.ServesWhatItHas` says that it does not heal.
* A message that begins with folded lines is read as a continuation of the
  injected X-Spam-Status field, and a malformed header block hides the field, so
  that spam shows as clean (`Headers.SpamRoundTrip`,
  `Headers.FoldedStartForgesFlag`, `Headers.MalformedHidesFlag`). The listing,
  which reads 64 KiB, can call clean what the view calls spam
  (`Headers.LongNameHidesFromListing`).
* The DMARC evaluation looks at the first verifying signature only and is
  therefore stricter than RFC 7489 in exactly one situation
  (`Mailauth.DmarcAgainstStandard`, `Mailauth.GapIsReal`).
* `withBaseTargetBlank` uses an offset into the lower-cased text to cut the
  original. Where lower-casing changes the number of bytes before the place, the
  tag is misplaced, even into the head tag, or the program panics; a single byte
  that is not UTF-8 is enough (`BaseTag.TagLands`, `BaseTag.OhmSignMisplaces`,
  `BaseTag.StrokedLetterPanics`, `BaseTag.BadBytePanics`).
* The listing reads attachments to their end and the download does not. A
  multipart attachment that has been read ends the listing's walk, so what is
  inside it and everything behind it, bodies included, is missing from the view
  although the download serves it (`Web.MultipartHidesTheRest`). The numbers
  agree nevertheless: the listing is always the beginning of what the download
  finds (`Web.ListedIsPrefix`).
* A user name with `|` can log in but never holds a valid session
  (`Sessions.TokenLifetime`).

## Model

| member | source | states |
|---|---|---|
| Maildir.StepKeepsInv | internal/maildir/maildir.go:48-233 | one file system call of any operation, a start or a crash keeps the store invariant: stored files are prefixes of their own Deliver's bytes, whole and synced exactly if that call saw no write error; a message is in one place; every process in flight knows only true things |
| Maildir.RunKeepsInv | internal/maildir/maildir.go:48-233 | the invariant holds in every state of every run, as written and with propagation |
| MaildirTheorems.LocateNeverMisses | internal/maildir/maildir.go:174-194 | in every interleaving, a lookup of a message that is live throughout the call ends in "not exist" only if one of its own calls failed for another reason |
| MaildirTheorems.ListNeverOmits | internal/maildir/maildir.go:94-132 | a finished listing shows every message that was live throughout the call, unless a ReadDir of that very call failed in its mailbox |
| MaildirTheorems.WhySkipped | internal/maildir/maildir.go:113-116 | a mailbox counts as skipped only if a ReadDir of that call failed in it |
| MaildirTheorems.ListedWasThere | internal/maildir/maildir.go:108-132 | every line of a listing was in `new` or `cur`, as shown, when that call read that directory; never a leftover of `tmp` |
| MaildirTheorems.ShownTwiceMeansMoved | internal/maildir/maildir.go:108-132 | two lines with one ID are one unread and one read line of the same file, and an Open renamed it after the listing read `new` of that mailbox and before it read `cur` |
| MaildirTheorems.AtomicDelivery | internal/maildir/maildir.go:66-85 | with error propagation, after any run with crashes, each file in `new` or `cur` holds exactly the bytes of one Deliver call, synced |
| MaildirTheorems.AsWritten | internal/maildir/maildir.go:71-85 | as written, a stored file is complete and synced if and only if neither Write nor Sync of its delivery reported an error |
| MaildirTheorems.ShortWriteIsPublished | internal/maildir/maildir.go:71-85 | a run of the code as written that ends with a truncated file in `new` and a successful Deliver |
| MaildirTheorems.SyncErrorLosesData | internal/maildir/maildir.go:71-85 | a run of the code as written in which Deliver succeeds after a failed Sync and a crash then empties the file |
| MaildirTheorems.ContentNeverChanges | internal/maildir/maildir.go:81 | from any moment to any later one, through moves and crashes, a stored message keeps its bytes (as written: if its delivery saw no write error) |
| MaildirTheorems.OnePlace | internal/maildir/maildir.go:64-85 | an ID is in one mailbox, there in exactly one of `new` and `cur`, and not in `tmp` |
| MaildirTheorems.RankNeverFalls | internal/maildir/maildir.go:198-220 | unpublished, unread, read, gone: a message never goes back, in any run |
| MaildirTheorems.DeletedStaysGone | internal/maildir/maildir.go:207-220 | once a Delete has returned success, no concurrent or later Open brings the message back |
| MaildirTheorems.OnlyDeleteRemoves | internal/maildir/maildir.go:214-220 | a message that was live and is not any more was unlinked by a Delete of its ID in between, not by a crash or a race |
| MaildirTheorems.OnlyOpenMoves | internal/maildir/maildir.go:207-209 | between unread and read lies a rename by an Open of that message |
| MaildirTheorems.ReadsAreExact | internal/maildir/maildir.go:198-233 | what a finished Open or Reader hands out is exactly what one Deliver call was given for that mailbox and ID |
| MaildirTheorems.ListedHeadsAreExact | internal/maildir/maildir.go:121-131 | what a finished listing has read of a file is exactly what one Deliver call was given for that mailbox and ID |
| MaildirTheorems.DeliverTellsTheTruth | internal/maildir/maildir.go:76-85 | Deliver has returned success exactly if its message was published, and a delivered message can be missing later only after a Delete |
| MaildirTheorems.FoundFails | internal/maildir/maildir.go:198-233 | after a successful lookup of a live message the next call fails if and only if it has an I/O error, or the file was found in `new` and an Open renamed it since that Stat |
| MaildirTheorems.LookupSucceeds | internal/maildir/maildir.go:174-233 | the whole call, from the moment it is made, for every ID that can name a file: an Open, Delete or Reader of a message live throughout succeeds, unless one of its calls has an I/O error or another Open renames the message between its Stat and its next call |
| Maildir.ComponentIsValid | internal/maildir/maildir.go:222-224 | an ID is accepted if and only if it is one path component other than the dot names |
| MaildirStore.IssuedIdsAreAccepted | internal/maildir/maildir.go:64 | every ID of the form Deliver draws is accepted, whatever the time, process, host name and random digits |
| MaildirTheorems.OpenCanFailOnLiveMessage | internal/maildir/maildir.go:198-211 | a run from the empty store, in either error mode, in which no call of any process fails, the message is live from the start of the second Open to its end, and that Open fails |
| MaildirTheorems.StoreLedger | internal/maildir/maildir.go:48-86 | for any number of deliveries at the same time, at every moment: the files of a mailbox are exactly those that a Deliver to it has renamed into `new` and no Delete has unlinked, and no delivery renames twice |
| MaildirStore.Store.Deliver | internal/maildir/maildir.go:48-86 | as written: when it succeeds, and the whole new disk for every outcome of its calls, including a partly failed MkdirAll and the leftover in `tmp` |
| MaildirAlone.DeliverAlone | internal/maildir/maildir.go:48-86 | a delivery of the machine that nobody interrupts ends, as written and with propagation, with the disk and the result of the sequential method, for every outcome of its calls |
| MaildirAlone.LookupAlone | internal/maildir/maildir.go:174-233 | an Open, Delete or Reader of the machine that nobody interrupts ends, with the disk and the result of the sequential method |
| MaildirAlone.ListAlone | internal/maildir/maildir.go:94-133 | a List of the machine that nobody interrupts ends, with exactly one line per message and what its file holds |
| MaildirStore.DeliverFilesOne | internal/maildir/maildir.go:48-86 | under a fresh ID, a delivery that succeeds adds exactly what its write kept to one mailbox, and otherwise nothing: the step the session model takes on its mailboxes |
| MaildirStore.Store.Locate | internal/maildir/maildir.go:174-194 | finds a file of that ID, `new` first, and fails exactly if there is none or the ID is malformed |
| MaildirStore.Store.Open | internal/maildir/maildir.go:198-211 | returns the bytes, moves the file from `new` to `cur` and changes nothing else; fails exactly if there is no such message |
| MaildirStore.Store.Delete | internal/maildir/maildir.go:214-220 | removes one file of that ID and nothing else; fails exactly if there is none |
| MaildirStore.Store.List | internal/maildir/maildir.go:94-136 | on a quiet disk: exactly one line per stored message with its content, as a multiset, ordered newest first |
| MaildirStore.SortNewestFirst | internal/maildir/maildir.go:134 | the result is a permutation in which no message is older than a later one |
| Push.SaveThenLoad | internal/push/push.go:66-75 | saving a well keyed map in any iteration order and loading it gives the map back |
| Push.LoadKeepsLast | internal/push/push.go:66-75 | exactly the nonempty endpoints in the file are loaded, each with its last entry |
| Push.LoadIsKeyed | internal/push/push.go:71-75 | whatever the file holds, every loaded subscription is under its own, nonempty endpoint |
| Push.LoadLoop | internal/push/push.go:71-75 | the loop computes the loaded map, and it is well keyed |
| Push.New | internal/push/push.go:41-77 | fails exactly on an empty key, a directory that cannot be made, or a file that cannot be read or does not parse; otherwise the service holds what the file says |
| Push.Service.SaveLocked | internal/push/push.go:118-132 | on success the file loads to the current map, on failure it is unchanged |
| Push.Service.Subscribe | internal/push/push.go:84-100 | the new map, when success is reported, and that a reported success is on file; a rejected subscription changes nothing |
| Push.Service.Unsubscribe | internal/push/push.go:103-108 | removes that endpoint only; success means the file agrees |
| Push.Service.Notify | internal/push/push.go:138-183 | with senders finishing in turn: exactly the subscriptions whose own answer was 404 or 410 disappear |
| PushProtocol.StepKeepsInv | internal/push/push.go:84-183 | every step of every thread and a crash keep mutual exclusion, the keyed map, the whole file, a sender for every snapshot entry and an entry for every sender |
| PushProtocol.RunKeepsInv | internal/push/push.go:84-183 | that invariant holds in every state of every run from a file that is missing or parses |
| PushTheorems.AlwaysKeyed | internal/push/push.go:71-100 | in every reachable state each subscription is filed under its own, nonempty endpoint and the file is whole |
| PushTheorems.SaveResynchronises | internal/push/push.go:118-132 | after any successful rename the file loads to the current map, whatever saves failed before |
| PushTheorems.CrashSafe | internal/push/push.go:118-132 | at every moment the file loads to the map as it was at one moment since the last successful save, or since the start |
| PushTheorems.RestartKeepsSaved | internal/push/push.go:53-77 | a restart after a crash continues with what the file says, and that is the map of one moment not before the last successful save |
| PushTheorems.SuccessWasSaved | internal/push/push.go:96-108 | a call reports success only after its own save succeeded |
| PushTheorems.WhoRemoved | internal/push/push.go:103-108 | between crashes an endpoint disappears only by an Unsubscribe of it or by a sender whose own snapshot entry it is and which was answered 404 or 410, and that step removes nothing else |
| PushTheorems.CallAlone | internal/push/push.go:84-108 | a Subscribe or Unsubscribe of the machine that nobody interrupts does to map and file, and reports, what the sequential method does |
| PushTheorems.RenewedExactlyWhen | internal/push/push.go:138-182 | for every removal by a sender: what it removes is not the subscription that was answered gone if and only if the last change of the endpoint since the snapshot is a Subscribe with a different one; it is that very one if and only if there was no change or the last one put it back |
| PushTheorems.PruneWasAnswered | internal/push/push.go:164-176 | a sender that prunes an endpoint did send to that endpoint and got 404 or 410 |
| PushTheorems.SnapshotIsTheMap | internal/push/push.go:138-144 | a snapshot is exactly the map at one locked moment of that call, every subscription once |
| PushTheorems.NotifyReachesAll | internal/push/push.go:138-183 | when a notification has ended, each snapshot entry was sent to by its own sender after the snapshot, and if the answer was 404 or 410 that sender has taken the endpoint off |
| PushTheorems.NotifyEnds | internal/push/push.go:138-183 | a notification can always end: when nobody is gone it does, with the whole map as its snapshot and nothing changed |
| PushTheorems.LateGoneRemovesRenewed | internal/push/push.go:138-182 | for any old and renewed subscription of an endpoint, a run in which the late answer to the old one removes the renewed one |
| CertReloader.NewReloader | internal/smtpserver/tls.go:34-40 | construction fails exactly if the first load does |
| CertReloader.Reloader.Reload | internal/smtpserver/tls.go:67-87 | success exactly if the pair loads; then all four fields are the disk's, otherwise none changes |
| CertReloader.Reloader.GetCertificate | internal/smtpserver/tls.go:43-65 | the new fields in every case; from a coherent cache the caller gets the disk's pair whenever that loads, else the previous one |
| CertTheorems.AlwaysServes | internal/smtpserver/tls.go:43-65 | in every run after construction GetCertificate returns a pair that loads and whose halves were on disk; the stored expiry is that of the stored pair |
| CertTheorems.RecordWasOnDisk | internal/smtpserver/tls.go:67-83 | what the history says was written under a time really was on disk with that time |
| CertTheorems.SeenWasWhole | internal/smtpserver/tls.go:44-46 | what a caller compares with the files are the fields of one moment at which no reload was writing them |
| CertTheorems.ReadBackIsWhole | internal/smtpserver/tls.go:59-61 | what a caller returns after its own reload is the cached pair of such a moment |
| CertTheorems.QuietRunsAreFresh | internal/smtpserver/tls.go:48-83 | if no write falls between a reload's reads and its timestamps, equal times imply that the cached pair is the disk's, for any number of racing callers |
| CertTheorems.StaleExactlyWhen | internal/smtpserver/tls.go:48-83 | in every run: a cache that looks current was filled by one last reload, given with its five steps, and is stale if and only if for one file the last renewal between that reload's read of it and its record of its time wrote something else than was read |
| CertTheorems.RenewalInWindowGoesStale | internal/smtpserver/tls.go:67-83 | a run in which a renewal inside the window leaves the old certificate under the new time |
| CertTheorems.ServesWhatItHas | internal/smtpserver/tls.go:43-65 | over any run: with no reload under way, no file changed and the expiry not near, the fields never change and every call that ends returns the cached pair, stale or not |
| CertTheorems.GetCertificateAlone | internal/smtpserver/tls.go:43-87 | a caller of the machine that nobody interrupts leaves the fields and returns the pair that the sequential method does |
| Textify.CollapseSpace | internal/web/textify.go:66-85 | the automaton computes the text with every white space run replaced by one space |
| Textify.FilterLines | internal/web/textify.go:91-97 | the filter working inside its own input leaves exactly the normalised nonempty lines; no unread line is overwritten |
| Textify.NormalizeText | internal/web/textify.go:89-99 | computes the specified normalisation |
| Textify.NormalIffFixed | internal/web/textify.go:89-99 | the result is a normal form, and a text is in normal form if and only if normalising leaves it alone |
| Textify.NormalizeIdempotent | internal/web/textify.go:89-99 | normalising twice is normalising once |
| Textify.TextLinesConcat | internal/web/textify.go:89-99 | normalising distributes over newline-joined texts |
| Textify.NormalizeKeeps | internal/web/textify.go:89-99 | every non-space character is kept, in order |
| Textify.NormalizeKeepsWords | internal/web/textify.go:89-99 | every word is kept whole and in order |
| Textify.CollapseKeeps | internal/web/textify.go:66-85 | collapsing keeps every non-space character and leaves no line break |
| Textify.CollapseKeepsWords | internal/web/textify.go:66-85 | collapsing keeps every word |
| Textify.Walk | internal/web/textify.go:31-58 | the recursive walk appends exactly the rendering of its subtree to the shared builder |
| Textify.HtmlText | internal/web/textify.go:24-61 | the whole transformation of a parsed tree |
| Textify.TextIsConserved | internal/web/textify.go:24-61 | for every tree, the non-space characters of the output are those of the visible text nodes in document order plus a dash per visible list item; no word is broken |
| Textify.RenderKeeps | internal/web/textify.go:31-58 | the same for the rendering before normalisation, nothing from under a dropped element |
| Textify.BreaksAreStructure | internal/web/textify.go:31-58 | line breaks of the rendering are exactly one per `br` and two per block element |
| Textify.LinesAreBounded | internal/web/textify.go:24-61 | the output has at most one line more than the structural breaks |
| Textify.BlocksAreIndependent | internal/web/textify.go:42-57 | the lines of a block element among any siblings are its own lines, between theirs |
| Textify.BlocksStandAlone | internal/web/textify.go:24-61 | at any depth of any tree, outside dropped elements, the lines of a block stand in the output unchanged between lines that depend only on what is around it |
| Textify.HiddenPlug | internal/web/textify.go:32-35 | what stands under a dropped element, at any depth, makes no difference |
| Textify.CellSeparates | internal/web/textify.go:39-40 | at any depth, the words in front of a table cell end there |
| Textify.BlockSeparates | internal/web/textify.go:36-44 | at any depth, no word reaches into or out of a `br` or a block element |
| Textify.InlineIsTransparent | internal/web/textify.go:32-54 | at any depth, any other element renders as its children alone |
| Textify.WordsOfElement | internal/web/textify.go:32-57 | the words of an element are those of its children, after a dash of its own for a list item |
| Textify.CollapseInPlace | internal/web/textify.go:66-85 | collapsing keeps the words also where the text meets what is around it |
| Textify.TextJoins | internal/web/textify.go:49-51 | at any depth, the characters of a text node join those around it, white space and all |
| Textify.TagsAreKnown | internal/web/textify.go:12-35 | which elements are dropped and which stand on lines of their own |
| Mailauth.CheckDkim | internal/mailauth/auth.go:112-134 | no result exactly on an error other than too many signatures or without signatures; pass exactly if one verifies, with the first verifying one's domain; otherwise the first error |
| Mailauth.AlignedIsEquivalence | internal/mailauth/auth.go:177-190 | alignment is an equivalence on nonempty domains in both modes, and strict implies relaxed |
| Mailauth.AlignedIsStandard | internal/mailauth/auth.go:177-190 | the test is identifier alignment as section 3.1 of RFC 7489 has it: the same domain in any case or, relaxed, the same organizational domain |
| Mailauth.DmarcAgainstStandard | internal/mailauth/auth.go:153-173 | a pass is a pass under sections 3.1.1 and 3.1.2 of RFC 7489; the converse fails exactly if SPF is no aligned pass, the first verifying signature is unaligned and a later one is aligned |
| Mailauth.GapIsReal | internal/mailauth/auth.go:124-133 | such a message, passed by the standard and failed by the program |
| Mailauth.Check | internal/mailauth/auth.go:73-80 | all results of one message: DKIM from the signatures seen, no DMARC result exactly without From domain or record, failure exactly as above, and the detail of each case |
| Mailauth.RejectsExactlyWhen | internal/mailauth/auth.go:153-207 | under a policy that rejects for DMARC only, a message with a published record is rejected if and only if the standard does not pass it or only a later signature is aligned |
| Mailauth.ActsExactlyFor | internal/mailauth/auth.go:194-207 | for each of the five settings: an action that this setting alone names is taken exactly for the messages whose check it is, with none that goes before it failing |
| Headers.InjectPrepends | internal/smtpserver/server.go:127-133 | the injected fields stand in front of the message, which is untouched |
| Headers.StoredParse | internal/mailauth/auth.go:211-244 | for every message: reading the stored copy gives the three results under Authentication-Results on one line, and under X-Spam-Status the injected value plus the sender's leading folded lines; or an error if the sender's header block is malformed |
| Headers.SpamRoundTrip | internal/maildir/maildir.go:168-169 | for every message: the flag is set if and only if the header block is readable and the action was spam or the leading folded lines contain the mark |
| Headers.HeaderTells | internal/mailauth/auth.go:242-244 | the value contains `spf=pass` exactly if SPF passed, and so on for every status of SPF, DKIM and DMARC |
| Headers.PartsTell | internal/mailauth/auth.go:211-238 | each part of Authentication-Results begins with its result and ends with the domain it is about |
| Headers.DecisionSurvives | internal/maildir/maildir.go:168-169 | for every message that parses, whatever X-Spam-Status fields it brings, the value read is the one injected and the flag is the decision |
| Headers.ListingSeesTheFlag | internal/maildir/maildir.go:88-129 | the same characterisation for the listing, which reads 64 KiB, in terms of the part of the message it sees |
| Headers.ListingTellsTheDecision | internal/maildir/maildir.go:88-129 | a message that parses and whose header block ends within the limit is listed with the decision |
| Headers.LongNameHidesFromListing | internal/maildir/maildir.go:88-129 | for any first field name that does not end within the limit, spam is listed as clean although the view shows it as spam |
| Headers.MalformedHidesFlag | internal/web/web.go:381-387 | a message whose malformed header block makes spam show as clean |
| Headers.FoldedStartForgesFlag | internal/maildir/maildir.go:168-169 | a message that sets the flag although the action was inbox |
| Config.Config.Validate | config.go:55-108 | no error exactly for a sound configuration; recipients rewritten in place, defaults filled in |
| Config.Config.ValidateRecipients | config.go:72-79 | every good entry in canonical form, every bad one as it was; no error exactly if all are good |
| Config.Config.AcceptsRecipient | config.go:112-123 | true exactly if some entry matches the canonical address |
| Config.AcceptsExactly | config.go:110-123 | an address is accepted exactly if its canonical form is an entry, or is anything at a domain for which `*@domain` is an entry |
| Strings.TrimIsExact | config.go:72-79 | trimming takes off the white space at both ends, all of it and nothing else |
| Config.CanonStable | config.go:72-79 | canonical form is stable, also under lower-casing first |
| Config.RevalidationIsIdle | config.go:55-108 | a valid configuration stays valid and unchanged, defaults included, when validated again |
| Config.ValidHaveAt | config.go:72-79 | after validation without errors every entry has an `@` |
| Config.AcceptedHasAt | config.go:112-123 | an accepted address has an `@`, so it is not empty, a dot name or the subscriptions file |
| Smtp.Conversation.Reset | internal/smtpserver/server.go:55-58 | sender and recipients forgotten, mailboxes kept |
| Smtp.Conversation.MailFrom | internal/smtpserver/server.go:62-65 | remembers the sender and nothing else |
| Smtp.Conversation.RcptTo | internal/smtpserver/server.go:67-77 | 550 exactly if the allowlist refuses; otherwise the address is remembered |
| Smtp.Conversation.ReceiveData | internal/smtpserver/server.go:79-123 | the reply and the whole new state of session and store, for every payload, decision and outcome of every file system call |
| Smtp.Conversation.DeliverLoop | internal/smtpserver/server.go:108-117 | delivers to exactly the recipients before the first reported failure, each what its write kept |
| Smtp.Store.Deliver | internal/maildir/maildir.go:48-85 | success exactly if the name is usable and the calls that decide succeed; the canonical mailbox then gets the message, or what a failing write took of it |
| Smtp.DepositCounts | internal/smtpserver/server.go:108-117 | each mailbox gets one entry per recipient filed there, after what it held |
| Smtp.WholeExactlyWhen | internal/maildir/maildir.go:71-85 | the entries are whole copies if and only if no attempt for that mailbox had a short write |
| Smtp.SessionRemembers | internal/smtpserver/server.go:55-77 | after any commands the session holds the accepted addresses since the last reset |
| Smtp.SenderRemembered | internal/smtpserver/server.go:55-65 | after any commands the session holds the sender of the last MAIL since the last reset |
| Smtp.RepliesExactly | internal/smtpserver/server.go:79-123 | when DATA is answered with 552, 554, 451 and 250, each by its exact condition on size, decision and delivery attempts |
| Smtp.RejectedExactlyFor | internal/smtpserver/server.go:94-102 | if one setting of the policy alone rejects, 554 is the answer exactly to the messages that setting is there for |
| Smtp.ShownAsSpamExactlyFor | internal/smtpserver/server.go:94-106 | if one setting alone says spam, the stored copies that show as spam are exactly those that setting is there for |
| Smtp.LedgerHolds | internal/smtpserver/server.go:55-123 | after any sequence of commands each mailbox holds what it held plus what follows from the commands alone: one entry per served address of every message that was not too large or rejected, in order, each what its write kept |
| Smtp.SessionStoresWhole | internal/smtpserver/server.go:55-123 | the entries of a whole session are the injected headers plus the untruncated payload if and only if no stored message had a short write; with error propagation they always are |
| Smtp.NotifiedIsAnnounced | internal/smtpserver/server.go:108-122 | OnDeliver fires once per message stored for all its recipients and for no other |
| Smtp.OkMeansStored | internal/smtpserver/server.go:108-122 | success stores as many entries per mailbox as recipients normalise to it; they are whole copies if and only if no attempt for it had a short write, and always with error propagation |
| Smtp.OkCanStoreNothing | internal/maildir/maildir.go:71-85 | as written, for any message and deliverable recipient, outcomes of the calls under which success is reported and the stored copy is empty |
| Smtp.FailureLeavesPrefix | internal/smtpserver/server.go:108-117 | 451 leaves exactly the recipients before the first failing one served, each with what its write kept, and announces nothing |
| Smtp.PayloadIsWhole | internal/smtpserver/server.go:80-106 | the prepared copy ends in the untruncated payload |
| Smtp.StoredFlagIsDecision | internal/smtpserver/server.go:94-106 | the prepared copy of a message that parses shows the decision |
| Smtp.MailboxIsJudged | internal/smtpserver/server.go:67-75 | the mailbox Deliver uses is the address the allowlist judged, has an `@`, and is refused exactly if the address has a path separator |
| Web.WalkMessage | internal/web/web.go:218-255 | the k-th attachment in walk order is listed under k, named after the disposition, else the content type, else its number |
| Web.HandleAttach | internal/web/web.go:432-475 | serves the k-th attachment in walk order, not found exactly outside that range or on a read error |
| Web.ListingIsPrefix | internal/web/web.go:225-253 | for every part tree: the listing sees the download's walk cut behind the first multipart attachment |
| Web.ListedIsPrefix | internal/web/web.go:225-253 | for every part tree: the numbered attachments of the listing are the first of the download's; they are all of them if and only if no attachment is inside the first multipart attachment or behind it |
| Web.MultipartHidesTheRest | internal/web/web.go:226-253 | a message of which the listing shows one attachment and no text, while it holds two and a text |
| Web.ListedIsServed | internal/web/web.go:218-475 | for every message what is listed under N is served for N, with the same name, type and size, unless reading reported an error; not found exactly if N is not listed when the listing is complete, and otherwise the number after the last listed one is served |
| Web.PlacesAreAttachments | internal/web/web.go:230-252 | the numbered parts are exactly those with the disposition `attachment` or a name in either header field, in order |
| Web.FirstBodyIsFirst | internal/web/web.go:237-241 | text and HTML of the view are the first nonempty body of their type that is no attachment |
| Web.NoBodyMeansNone | internal/web/web.go:237-241 | and they are empty exactly if there is none |
| Web.HandleList | internal/web/web.go:148-161 | every requested page is clamped to an existing one and its slice is in bounds |
| Web.PagesCover | internal/web/web.go:148-161 | the pages in order are the whole list |
| Web.SizeUnit | internal/web/web.go:307-318 | for every int64 from 1024: the divisor is 1024 to the exponent plus one, at most n, n below 1024 times it, no overflow, and a unit letter exists |
| BaseTag.TagLands | internal/web/web.go:414-424 | the page with the tag is the original cut at one byte offset: the place, shifted by the bytes that lower-casing adds before it; the program panics if and only if that is beyond the end, and a zero shift is the right place |
| BaseTag.TagIsInPlace | internal/web/web.go:414-424 | if no character before the place changes its encoded length, the tag stands directly behind the first head tag |
| BaseTag.PlaceIsBehindHead | internal/web/web.go:416-423 | the place is behind the `>` that ends the first head tag of the original, in any case; without a complete one it is the start |
| BaseTag.FindSame | internal/web/web.go:417-418 | searching the bytes for an ASCII pattern finds what searching the characters finds |
| BaseTag.LongerLowerCasePanics | internal/web/web.go:414-424 | in front of the head tag of a short page, a character or a bad byte makes the program panic if and only if its lower case takes more bytes |
| BaseTag.StrokedLetterPanics | internal/web/web.go:414-424 | such a character: U+023A |
| BaseTag.BadBytePanics | internal/web/web.go:414-424 | such a byte: every one that belongs to no character, since lower-casing replaces it by three |
| BaseTag.ShorterLowerCaseMisplaces | internal/web/web.go:414-424 | there, a character whose lower case takes fewer bytes puts the tag inside the head tag |
| BaseTag.OhmSignMisplaces | internal/web/web.go:414-424 | such a character and the bytes that result: U+2126 |
| Sessions.TokenLifetime | internal/web/auth.go:75-98 | a token is accepted if and only if the user name does not contain the separator and no more than seven days have passed |
| Sessions.TokenIsPersonal | internal/web/auth.go:75-98 | a token is accepted for the user it was issued to and no other |
| Decimals.DecimalRoundTrip | internal/web/auth.go:84-98 | printing any int64 in decimal and parsing it gives it back |

## Left out

- MaildirAlone.ListAlone: the order by date is in MaildirStore.Store.List only; the machine keeps the lines in the order they are read.
- MaildirStore.Store.Deliver: takes the mailbox name after trimming and lower-casing, which Smtp.Store.Deliver models.
- MaildirStore.Store.List: order among messages with equal dates is not promised, since the sort is not stable; the date is an arbitrary function of a line.
- MaildirTheorems.ListNeverOmits: a ReadDir that fails for whatever reason counts as failed, as the program skips such a directory silently; the same holds for a Stat in LocateNeverMisses.
- MaildirTheorems.AsWritten: a Sync error counts as "not safe" even if the operating system did write the data.
- Headers.DecisionSurvives: domains and the DMARC policy are taken to contain no line break, and `%q` is any quoting that escapes line breaks.
- Smtp.Conversation.ReceiveData: the results of mailauth.Check are an input, so are the outcomes of the delivery attempts.
- Smtp.LedgerHolds: is about one session on mailboxes; what many sessions have stored together is MaildirTheorems.StoreLedger on the machine.
- Smtp.OkMeansStored: speaks of the files at the moment of delivery; that a crash may cut an unsynced file is in MaildirTheorems.AsWritten.
- Web.ListingIsPrefix: takes it that the library's walk ends with an error when it asks a multipart part that has been read to its end for its next part; the library is not part of this model. A tree is the part of a message that the download's walk reaches.
- Smtp.SessionRemembers: addresses count since the last Reset; that go-smtp issues one between transactions is not modelled.
- Fresh message IDs are assumed: time, process, host name and random bytes are an input that never repeats.
- Directory changes are taken as durable in order, and one call (a rename, a directory listing, a whole file read) as one step; only file data needs fsync.
- For the subscriptions file a crash is an end of the process; power loss is not modelled, as saveLocked does not sync.
- File times are taken to differ for different writes of a certificate or key file.
- The concurrent forms of the store, the subscription service and the reloader are state machines over values; the classes are their sequential forms.
- Invalid UTF-8, except for the base tag: strings are sequences of characters, and letter case is an arbitrary character map that is stable, keeps white space and keeps `@`, `/` and `\`.
- DNS, SPF evaluation, DKIM cryptography, the DMARC record lookup and the public suffix list are arbitrary inputs.
- AES-GCM, base64, bcrypt and SHA-256 are an inverse pair or a predicate; cookies, routing, templates and response headers are not modelled.
- HTML, MIME, JSON, URL, address and date parsing: the model starts from trees and lists.
- The library's header reading is modelled for the fields and their order; Subject, From and Date decoding are not.
- The SMTP wire protocol, STARTTLS, limits of the SMTP library, startup and subcommands.
- The decimal rendering of sizes, language negotiation, avatars and date formats would only add easy members.
