# axiom: a model of the queue, the store and the ingest pipeline

This project models three parts of axiom and proves what holds across them.

1. **The job queue.** Job files are a map from id to record, shared by a submitter, one worker, one watchdog
   and a clock. `Records.dfy` and `Retry.dfy` hold the forms each actor writes; `Queue.dfy` is the system in
   which a reclaim is one atomic step; `Requests.dfy` is the system as it runs, one store request a step,
   where the watchdog writes back copies it read earlier; `Worker.dfy` and `Watchdog.dfy` are the two cycles
   as imperative code over a vault of records and bodies, each proved to be a run of the step system, and
   `Draining.dfy` is the worker's loop until it runs idle.
2. **The store stack.** Framing over a byte stream cut into arbitrary pieces (`Protocol.dfy`, `Transport.dfy`),
   which header blocks parse and to what (`Headers.dfy`),
   the path-normalising file store (`Filesystem.dfy`), the write-through cache (`Cache.dfy`), the schema gate
   and dispatch (`Schema.dfy`, `Server.dfy`), the spellings the gate guards (`Routing.dfy`), the client
   (`Client.dfy`), and the frontmatter and job files that travel through them (`Frontmatter.dfy`, `Jobs.dfy`,
   `Utf8.dfy`). `JobStore.dfy` closes the gap to the queue:
   over the whole stack, job files behave as the map from id to record and body that the queue starts from,
   under `write_job` and under reclaims, and `JobRuns.dfy` says so of runs.
3. **Ingestion.** Whitespace clean-up (`Normalize.dfy`), chunking (`Chunker.dfy`), ids (`Ids.dfy`) and the
   ordered writes of an ingest with a crash after any of them (`Pipeline.dfy`), what the files on disk then say, key by
   key (`Reports.dfy`), also over the client (`IngestStore.dfy`).

`Stamp.dfy` is the calendar underneath: the clock counts microseconds from the start of year 1, stamps are
text, and text order is proved to be time order (UTC form of section 5.1 of RFC 3339).

Methods carry the loops and the mutable state of the code and are proved against specification functions;
the lemmas are about those functions, so they speak about the methods as well.

## Where the code and what is said of it differ

- **Attempts may exceed `max_attempts`.** A claim never compares the two, and a reclaimed job is pending
  again. `Queue.AttemptAccounting` gives the bound that holds, `Queue.AttemptBoundTight` meets it, and
  `Queue.ClaimOverLimit` says exactly which claims take a job past its limit.
- **A terminal record can change.** A reclaim writes a copy it read earlier without looking at the status again,
  so a job that has succeeded can go back to pending (`Requests.StaleReclaimUndoesSuccess`). This is the only
  way (`Requests.TerminalChangesOnlyByStaleReclaim`), a job can so succeed twice (`Requests.SucceedsTwice`) and lose
  attempts (`Requests.AttemptsFallOnlyByStaleReclaim`). With stale reclaims excluded the queue reduces to the atomic
  system (`Requests.Reduction`), where terminal records never change.
- **The cache invariant fails for two spellings of one file.** Entries are keyed by the spelling, files by the
  resolved path. `Cache.AliasReadsStale` reads stale bytes; `Cache.SafeSpellings` says for which sets of
  spellings the cache is invisible, exactly.
- **The client is a drop-in only for some calls.** `Client.DropInExactly` says for which, among one-line paths that
  spell their file canonically or do not resolve (other spellings meet the cache, above):
  - If the body is within 10 MiB and the header within 8192 bytes, those whose plain outcome transfers. Three kinds do
    not. Contents or a listing over 10 MiB are refused by the client as too long a reply. A directory with a file name
    that holds a newline lists as other names. The file system's own errors, such as `IsADirectoryError` for reading
    a directory, come back as `StoreError`.
  - Otherwise only those the plain store calls a bad path too, for the server answers BAD_REQUEST. In the two bytes past
    the header limit it depends on how the stream is cut up (`Client.OneLineCall`).

  The empty path, which lists the root in process, is refused before it is sent (`Client.EmptyPathDiffers`). A path of
  several lines is never served as itself (`Client.LongPathDiffers`) and can be served as the file its first line names
  (`Transport.TwoLinePathIsServed`). The reference is the store behind the gate: in process there is no gate, which
  is felt exactly by the writes it refuses (`Client.GateIsFelt`).
- **The gate guards spellings, not files.** It looks up the schema by the path as it is spelled while the disk resolves
  it, so `./jobs/x.md` stores any bytes as a job (`Routing.DotSpellingIsUnguarded`). `Routing.GuardedSpellings`
  says exactly which spellings keep a conforming file conforming.
- **Not every file under a registered prefix conforms.** The vault template puts a `README.md` without frontmatter into
  each registered directory. What holds is said of each file: it conforms once an accepted WRITE has stored it, and
  until then it is what it was (`Server.GateHolds`).
- **`render` then `parse` is not the identity for every body.** With empty metadata and a body whose first line is
  `---` it is not; `Frontmatter.RoundTripEmpty` is exact.
- **Blank lines collapse from two on.** The docstring of `_normalize_whitespace` speaks of runs of three or more;
  the code leaves no two blank lines in a row (`Normalize.NormalizedIsTidy`, `Normalize.FixedPoints`).
- **Chunk files sort by index only up to 9999** (`Ids.FilesSortByIndex`).
- **Reclaim notes last until the next claim.** The watchdog appends its note to the body
  (`Frontmatter.NotesAccumulate`), but `write_job` generates the body afresh (`Jobs.WriteReadRoundTrip`).
- **A job named `README` is never listed** (`Jobs.ListedIffStored`).
- **Bad chunk sizes leave a source `pending`.** The sizes are checked after the pending file is written and the
  exception is not turned into a `failed` source (`Pipeline.Ingest`). When fetching or extraction fails they are never
  checked, and the id is returned whatever they are.

## Assumptions

- YAML is a dump/load pair. `Yaml.Faithful` says of one metadata dictionary that its dump is not blank, ends in a
  newline, has no line equal to `---` and loads back; lemmas that need it ask for it of the dictionaries written.
- One worker and one watchdog; fresh job and source ids; a clock that never goes back and whose readings, with
  any scheduled delay added, stay within the years 1 to 9999.
- The message text of an error response is a parameter (`describe`); `Client.QuietErrors` keeps it within the body cap.
- `recv` returns any non-empty prefix of what is left up to its limit, and nothing only at the end of the stream.

## Model

| member | source | states |
|---|---|---|
| Queue.StepKeeps | axiom-queue/worker.py:119-278 | Every step of the atomic system (tick, submit, claim, resolve, loss of the copy in flight, reclaim) keeps the invariant: the copy in flight equals the disk record or its reclaimed form, and each record agrees with the history of landed writes: worker id, result or error, and `updated_at` are those of the last one |
| Queue.RunKeeps | axiom-queue/worker.py:284-310 | The invariant holds after every run |
| Queue.AttemptAccounting | axiom-queue/worker.py:135-151 | From fresh jobs, on every run, attempts equal the landed claims, are at most max(1, max_attempts) plus reclaims, are below max_attempts when failed, success is written at most once, and the optional fields set are those of the status |
| Queue.AttemptBoundTight | axiom-queue/watchdog.py:189-204 | For every limit and number of reclaims some run reaches the attempt bound exactly |
| Queue.ClaimOverLimit | axiom-queue/worker.py:135-151 | A claim takes a job past max(1, max_attempts) exactly when the job is pending with no attempt left, and then its last write was a reclaim |
| Queue.TerminalAbsorbing | axiom-queue/worker.py:217-278 | With atomic reclaims a succeeded or dead record never changes again and attempts never decrease |
| Queue.SubmissionKept | axiom-queue/jobs.py:157-178 | No actor ever changes a job's id, kind, payload, creation time, attempt limit or tags |
| Queue.SubmittedAsGiven | axiom-queue/jobs.py:157-178 | On every run every record of a submitted job has the id, kind, payload, attempt limit and creation stamp it was submitted with |
| Queue.ResolvedOk | axiom-queue/worker.py:217-278 | A prompt or late resolve leaves a record whose result or error is the handler's own, `dead` only if fatal or out of attempts, `failed` with a retry time at the backoff of its attempt, stamped with the time of the write |
| Queue.RunsAreTimed | axiom-queue/retry.py:108-178 | On every run a claim after a failure at attempt n comes more than min(2^n, 300) - 1 seconds after the failure chose its delay, and a reclaim more than 299 seconds after the claim it undoes |
| Requests.StepKeeps | axiom-queue/watchdog.py:122-245 | Every single store request of either actor keeps the relation between the disk, the worker's copies and the watchdog's copies |
| Requests.HeldCopyCurrent | axiom-queue/watchdog.py:173-213 | A copy held for reclaim is the disk record exactly when the worker has not written that job since it was read |
| Requests.TerminalChangesOnlyByStaleReclaim | axiom-queue/watchdog.py:189-213 | In any reachable state a step changes a terminal record if and only if it is a reclaim write of that job, and then the worker had written it since the watchdog read it |
| Requests.StaleReclaimUndoesSuccess | axiom-queue/watchdog.py:162-213 | A concrete run that ends in a succeeded job and a next step that makes it pending |
| Requests.SucceedsTwice | axiom-queue/watchdog.py:162-213 | A concrete run from a fresh job with two landed writes of `succeeded` |
| Requests.AttemptsFallOnlyByStaleReclaim | axiom-queue/watchdog.py:189-213 | In any reachable state a step lowers a record's attempts if and only if it is a reclaim write of a copy with fewer, and then the worker had written the job since the watchdog read it; worker writes never lower them |
| Requests.StepReduces | axiom-queue/worker.py:67-104 | A request with a clean reclaim is no step or one step of the atomic system on the same records; a scanned claim target is unchanged until claimed |
| Requests.Reduction | axiom-queue/worker.py:284-310 | Every interleaving with clean reclaims reaches the same records, copy in flight, clock and history as some run of the atomic system |
| Requests.CleanRunsAreSafe | axiom-queue/watchdog.py:189-213 | Such interleavings satisfy the accounting, shape and timing of the atomic system |
| Requests.CleanRunsKeepTerminal | axiom-queue/worker.py:217-278 | In such interleavings a record that became terminal stays as it is |
| Worker.ScanForClaimableJobs | axiom-queue/worker.py:67-104 | The scan returns, in id order, the pending jobs and the failed jobs whose retry time has come by the clock as it is read for each, skipping unreadable files |
| Worker.ClaimableJobsAre | axiom-queue/worker.py:67-104 | The scan returns the jobs at exactly those places of the listing that are found claimable, each once, in listing order |
| Worker.FirstClaimable | axiom-queue/worker.py:67-104 | The scan is empty exactly when every job is judged unclaimable at its own reading, and otherwise starts with the first that is not |
| Worker.Claim | axiom-queue/worker.py:119-167 | A claim stores the running form of its job over a fresh body, or leaves the vault alone when the write fails |
| Worker.Resolve | axiom-queue/worker.py:217-278 | A resolve stores the decided form over the local copy with a fresh body, or leaves the vault alone and says which step raised |
| Worker.StepOnce | axiom-queue/worker.py:284-310 | One cycle does nothing, on a reliable vault only when the scan is empty; or finishes the head of the queue; or leaves it claimed, on a reliable vault only when its resolve raises; every other record and body is untouched |
| Worker.CycleIsRun | axiom-queue/worker.py:284-310 | A finished cycle is a claim followed by a resolve of the step system, whichever reading of the scan judged the job |
| Draining.StepOnceIsNext | axiom-queue/worker.py:284-310 | On a reliable vault of readable files with every retry due, the method's cycle is the transition the draining lemmas are about, with the outcome its handler gives |
| Draining.DrainOnce | axiom-queue/worker.py:284-310 | With every retry due, a cycle is idle exactly when all jobs are terminal, otherwise resolves the lexically least open job and leaves less budget |
| Draining.DrainBudget | axiom-queue/retry.py:130-162 | No sequence of draining cycles is longer than the attempts left in the jobs |
| Draining.StaysDue | axiom-queue/retry.py:108-178 | What a cycle schedules is due again once the longest delay has passed |
| Draining.DrainingTerminates | axiom-queue/worker.py:284-310 | From fresh jobs draining takes at most the sum of max(1, max_attempts) cycles, and the next cycle is idle exactly when every job is succeeded or dead |
| Draining.Drain | axiom-queue/worker.py:344-357 | The worker's loop over a reliable vault, its cycles far enough apart, first runs idle after at most as many cycles as there are attempts left, with every job succeeded or dead and those that were so before unchanged |
| Watchdog.ScanForStalledJobs | axiom-queue/watchdog.py:122-144 | The scan returns the jobs of the listing that are stalled by the clock as it is read for each |
| Watchdog.StalledJobsAre | axiom-queue/watchdog.py:122-144 | It returns all jobs judged stalled, only those, in strict id order |
| Watchdog.Reclaim | axiom-queue/watchdog.py:150-220 | A reclaim reads the body again and stores the pending form of its copy over that body and the note, or leaves the vault alone when either request fails |
| Watchdog.StepOnce | axiom-queue/watchdog.py:227-245 | A tick reclaims the scanned jobs in turn, each with its own reading of the clock, and returns those that went through; one that fails does not stop the others, and on a reliable vault none fails |
| Watchdog.ReclaimsAre | axiom-queue/watchdog.py:150-213 | After a tick each job reclaimed is pending with its own note after its own body, and every other record and body is what it was |
| Watchdog.PassIsRun | axiom-queue/watchdog.py:227-245 | A tick by the default threshold reaches the records of a run of atomic reclaims of the step system |
| Records.StalledMeansWaited | axiom-queue/watchdog.py:83-116 | Being stalled by the default threshold means more than 299 real seconds since the claim |
| Records.WaitedMeansStalled | axiom-queue/watchdog.py:83-116 | A running job is stalled once 300 real seconds have passed since its claim |
| Records.StalledStaysStalled | axiom-queue/watchdog.py:83-116 | A stalled job stays stalled as the clock moves on, whatever its claim stamp |
| Records.ClaimableStaysClaimable | axiom-queue/worker.py:94-104 | A claimable job stays claimable as the clock moves on |
| Records.ClaimableExactly | axiom-queue/worker.py:94-104 | Claimable are exactly the pending jobs and the failed ones whose retry time is not set or not after now in seconds |
| Records.StalledExactly | axiom-queue/watchdog.py:83-116 | A running job with no claim stamp or an unreadable one is stalled, any other exactly when it was claimed, not in the future, at least the threshold of whole seconds ago, and no job in another status is |
| Retry.BackoffDoubles | axiom-queue/retry.py:61-105 | There is a delay exactly for 1 to 1023 attempts; it is 2 seconds after the first and doubles with each one up to 300 |
| Retry.BackoffMonotone | axiom-queue/retry.py:61-105 | Delays do not shrink with attempts, start at two seconds or more, and equal the cap exactly from the ninth attempt on |
| Retry.DecisionExactly | axiom-queue/retry.py:108-162 | A failure is final exactly when no attempt is left; otherwise the next attempt is min(2^n, 300) whole seconds after the reading, or an overflow exactly past the float range or the last year |
| Retry.ReadyMeansWaited | axiom-queue/retry.py:108-178 | A retry that is ready by text comparison has waited all but less than one second of its delay in real time |
| Retry.WaitedMeansReady | axiom-queue/retry.py:108-178 | A retry whose delay has passed in full is ready |
| Retry.ReadyStaysReady | axiom-queue/retry.py:165-178 | Readiness is never lost again |
| Retry.ReadyExactly | axiom-queue/retry.py:165-178 | A retry with no time set is ready, and one with a readable time is exactly from that second on |
| Stamp.StringOrderIsTimeOrder | axiom-queue/retry.py:165-178 | On canonical stamps, lexicographic order and equality are the order and equality of Gregorian seconds |
| Stamp.NowIsoParses | axiom-queue/watchdog.py:55-80 | The stamp of a clock reading parses to the whole seconds of that reading |
| Stamp.NowIsoOrder | axiom-queue/retry.py:108-118 | Stamps of two readings compare as the readings truncated to seconds |
| Stamp.ParseRender | axiom-queue/watchdog.py:55-68 | Every valid date and time reads back from its stamp |
| Stamp.RenderParse | axiom-queue/watchdog.py:55-68 | Every text that parses is the one stamp of what it parses to |
| Stamp.ParsesExactly | axiom-queue/watchdog.py:55-68 | A text parses exactly when it has the fixed-width form and names a day of the Gregorian calendar and a time of day, each month with its own days; it parses to its own digits |
| Stamp.MonthStarts | axiom-queue/watchdog.py:71-80 | The days before each month are (367 m - 362) / 12 less the leap correction |
| Stamp.SecondsInClosedForm | axiom-queue/watchdog.py:71-80 | A stamp stands for the Gregorian seconds computed from its digits in closed form |
| Stamp.EpochAnchor | axiom-queue/ids.py:22-26 | The Unix epoch is second 62135596800 of the clock, and is spelled 1970-01-01T00:00:00Z |
| Jobs.BuildFrontmatter | axiom-queue/jobs.py:102-131 | The loop over optional keys builds the dictionary with exactly the keys that are set |
| Jobs.DictionaryRoundTrip | axiom-queue/jobs.py:102-151 | Every job is rebuilt from its own dictionary |
| Jobs.FromFrontmatterExactly | axiom-queue/jobs.py:134-151 | A dictionary reads as a job exactly when it has no unknown key and gives every attribute under its own key, the status as its own word, numbers also as booleans, optional ones also as null |
| Jobs.JobsConform | axiom-queue/jobs.py:85-98 | Every job's dictionary conforms to the JOB schema |
| Jobs.GateAdmitsJobs | axiom-queue/jobs.py:134-151 | Metadata the gate admits under `jobs/` reads as a job exactly when its status is a known word |
| Jobs.GateAdmitsExactly | axiom-queue/jobs.py:134-151 | What the gate admits with a known status word is exactly what the constructor takes, except that the gate asks for a payload and turns nulls away |
| Jobs.WriteReadRoundTrip | axiom-queue/jobs.py:208-227 | `read_job` after `write_job` is the job, with the generated body |
| Jobs.RenderedJobReadsBack | axiom-queue/jobs.py:221-227 | A rendered job reads back as that job under every body, and the body comes back verbatim |
| Jobs.BodyLines | axiom-queue/jobs.py:184-198 | The generated body line by line: kind, creation time, attempts of the limit, and the result, error or status word that the status calls for |
| Jobs.ReclaimReadsBack | axiom-queue/watchdog.py:150-213 | A reclaim of a readable file stores the reclaimed record and the old body verbatim followed by the note; it fails exactly on unreadable files |
| Jobs.JobPathRoutes | axiom-queue/jobs.py:208-218 | The check `write_job` makes first always passes: every job path is routed to the JOB schema |
| Jobs.ListJobs | axiom-queue/jobs.py:230-239 | The loop returns the sorted stems of the `.md` names other than `README.md` |
| Jobs.ListedIffStored | axiom-queue/jobs.py:230-239 | An id is listed exactly when its file is among the names and it is not `README` |
| Frontmatter.ParseFrontmatter | axiom-store/frontmatter.py:33-109 | The scan for the closing fence computes the parse that the round-trip lemmas are about |
| Frontmatter.ParsesFenced | axiom-store/frontmatter.py:33-109 | Any text with a closed fence: the body is what follows it, less one newline if it opens with one; a block that is not YAML or no mapping is refused as such |
| Frontmatter.ParsesEmptyBlock | axiom-store/frontmatter.py:33-109 | Two fences in a row are empty metadata before such a body |
| Frontmatter.ParsesUnfenced | axiom-store/frontmatter.py:33-109 | A text whose first line is no fence is all body, and one whose fence no later line closes is refused, exactly |
| Frontmatter.RenderedLines | axiom-store/frontmatter.py:112-158 | A rendered document is a fence, the lines of the dump, a fence, one empty line and the lines of the body |
| Frontmatter.RoundTrip | axiom-store/frontmatter.py:112-158 | Parse after render is the identity for non-empty metadata and every body |
| Frontmatter.RoundTripEmpty | axiom-store/frontmatter.py:112-158 | For empty metadata it is the identity exactly when the body's first line is not a fence |
| Frontmatter.NotesAccumulate | axiom-queue/watchdog.py:150-213 | Any number of reclaims in a row keep the first body verbatim followed by their notes in order |
| Schema.SchemaFor | axiom-store/schema.py:126-136 | The loop returns the schema of the longest matching prefix |
| Schema.BestIsLongest | axiom-store/schema.py:126-136 | The entry found matches and no matching prefix is longer; none is found exactly when none matches |
| Schema.OrderIndependent | axiom-store/schema.py:126-136 | Two registries with the same entries answer alike in any order |
| Schema.RegisteredPathRoutes | axiom-store/schema.py:126-136 | In the shipped registry a path under a registered prefix is routed to that prefix's schema |
| Schema.Validate | axiom-store/schema.py:139-175 | Validation passes exactly on conforming metadata, and each error names a true violation |
| Protocol.SplitHeaderBlock | axiom-store/protocol.py:83-115 | The loop over header lines computes the header dictionary or the first line's error |
| Headers.HeadersExactly | axiom-store/protocol.py:83-115 | Header lines are taken exactly when each is a lower-case name, a colon and a value behind any number of spaces, and no name occurs twice; the dictionary is then what they say |
| Headers.FieldAdds | axiom-store/protocol.py:83-115 | What one such line does: a capital, then a repeated name, is refused as such, and otherwise the name gets its value |
| Headers.ParseIntExactly | axiom-store/protocol.py:118-135 | A length text is read as a number exactly when it is white space around an optional sign and groups of digits with single underscores between them, and then as the number they spell |
| Headers.RequestExactly | axiom-store/protocol.py:138-162 | A block parses to a request exactly when its first line is verb, space and path and the others are such header lines with a `content-length` of that value within the cap |
| Headers.ResponseExactly | axiom-store/protocol.py:185-192 | The same of a response: a status word with white space around it, and such header lines |
| Protocol.ParseFormattedRequest | axiom-store/protocol.py:138-182 | The header block of a formatted one-line request parses to its verb, path and body length, or is refused exactly for a body over the cap |
| Protocol.ParsedFirstLine | axiom-store/protocol.py:138-162 | A header block that opens with a request line names that verb and path if it parses at all |
| Protocol.ParseFormattedResponse | axiom-store/protocol.py:185-203 | The header block of a formatted response parses back, and is refused exactly when the body is over the cap |
| Protocol.HeaderEndsFirst | axiom-store/protocol.py:165-203 | The first blank line of a framed message ends its header, whatever blank lines the body has |
| Protocol.FindInPrefix | axiom-store/server.py:49-81 | A terminator found in a received prefix is the first one of the stream, and one not found yet ends beyond the prefix |
| Protocol.ParsedPathIsOneLine | axiom-store/protocol.py:138-162 | No header block parses to a path with a newline in it |
| Transport.RecvUntil | axiom-store/server.py:49-81 | However the stream is cut up, the split is at the first terminator; closing early and exceeding the limit are told apart |
| Transport.RecvExact | axiom-store/server.py:84-121 | Exactly n bytes of the stream, a framing error exactly on surplus, a closed connection exactly on a short stream |
| Transport.ReadRequest | axiom-store/server.py:200-238 | However a formatted request is cut up it is read back as itself, refused for its length exactly when the body is over the cap, or refused for its header, never within the limit and always past it by more than two bytes; a path of several lines is at best read as its first |
| Transport.SurvivesWire | axiom-store/protocol.py:165-182 | A request is carried by its own framing exactly when its verb is known, its path is one non-empty line and its body is within the cap |
| Transport.TwoLinePathIsServed | axiom-store/protocol.py:83-115 | A path whose second line reads as a header is carried as a request for its first line |
| Transport.ReadResponse | axiom-store/client.py:91-114 | Any cutting up of a formatted response is read back as exactly that response, or refused exactly when its body is over the cap |
| Filesystem.CanonicalResolves | axiom-store/filesystem.py:61-96 | A canonical spelling resolves to its own segments |
| Filesystem.CanonicalUnique | axiom-store/filesystem.py:61-96 | Two canonical spellings of one file are equal |
| Filesystem.ResolveExactly | axiom-store/filesystem.py:61-96 | A path is refused exactly when it is empty, absolute, holds NUL or a backslash, or goes up out of the root without spelling its way back; otherwise it leads to the names left when dots, empty segments and each `..` with the name before it are dropped |
| Filesystem.EscapesRefused | axiom-store/filesystem.py:61-96 | A path whose `..` segments outnumber the names before them is an InvalidVaultPath unless it spells the name of the root again |
| Filesystem.DotDotCancels | axiom-store/filesystem.py:61-96 | A name and the `..` right after it can be dropped together |
| Filesystem.VaultFS.Read | axiom-store/filesystem.py:102-112 | Reading returns the bytes at the resolved node or the error of a bad path, missing file or directory |
| Filesystem.VaultFS.Write | axiom-store/filesystem.py:114-132 | Writing stores the bytes at the resolved node and its parents as directories, or changes nothing |
| Filesystem.VaultFS.Delete | axiom-store/filesystem.py:134-146 | Deleting removes the resolved file, or changes nothing |
| Filesystem.VaultFS.ListDir | axiom-store/filesystem.py:148-174 | Listing gives the sorted names of the files directly inside |
| Filesystem.ReadAfterWrite | axiom-store/filesystem.py:102-132 | After a write a read of any spelling of that file gives the new bytes, and any other read is as before, up to the error kind at new directories |
| Filesystem.ReadAfterDelete | axiom-store/filesystem.py:134-146 | A delete succeeds exactly on a readable file; afterwards every spelling of it, or of a path below it, is missing, and every other read is as before |
| Filesystem.DeleteLikeRead | axiom-store/filesystem.py:102-146 | A delete raises exactly what a read raises |
| Filesystem.WriteLikeRead | axiom-store/filesystem.py:102-132 | A write succeeds exactly where a read does or finds nothing, and otherwise raises what the read raises |
| Filesystem.ListLikeRead | axiom-store/filesystem.py:102-174 | A listing succeeds exactly where a read finds a directory, and otherwise fails as the read tells |
| Filesystem.NamesListed | axiom-store/filesystem.py:148-174 | A listing names exactly the files directly inside |
| Cache.CachedVaultStore.Read | axiom-store/cache.py:60-87 | A read serves the entry or fills it from disk, and ticks one counter |
| Cache.CachedVaultStore.Write | axiom-store/cache.py:89-102 | A write reaches the disk first and the entry only if it succeeded |
| Cache.CachedVaultStore.Delete | axiom-store/cache.py:104-121 | A delete reaches the disk first and drops the entry only if it succeeded |
| Cache.FreshUnlessAliased | axiom-store/cache.py:60-117 | On every run an entry holds the bytes on disk unless, since it was last filled, another spelling of its file was written or deleted |
| Cache.CacheTransparent | axiom-store/cache.py:60-131 | With one spelling per file every reply and the disk are those of the uncached store, on every run |
| Cache.AliasReadsStale | axiom-store/cache.py:72-102 | Any two spellings of one file give a run with a stale read |
| Cache.SafeSpellings | axiom-store/cache.py:8-13 | The cache is invisible on all runs over a set of spellings exactly when no two of them name one file |
| Cache.EntriesAre | axiom-store/cache.py:60-121 | On every run from an empty cache a path has an entry exactly when the last operation on it that went through was a read or a write |
| Cache.CountersAre | axiom-store/cache.py:60-87 | On every run hits count exactly the reads whose path had an entry, and misses all the other reads |
| Server.CheckGate | axiom-store/server.py:146-161 | The write gate refuses exactly for undecodable, unparseable or non-conforming content under a registered prefix |
| Server.Dispatch | axiom-store/server.py:129-192 | Dispatch acts and answers as the composition of gate, cached store and status mapping |
| Server.HandleConnection | axiom-store/server.py:200-238 | A connection serves one request and sends one response, refuses a bad frame without touching the store, or drops; which of these becomes of a formatted request is fixed as for reading it |
| Server.RenderedPassesGate | axiom-store/server.py:146-161 | A rendered document passes the gate exactly when its path is unregistered or its metadata conforms |
| Server.DispatchKeepsGate | axiom-store/server.py:129-192 | On any disk, an accepted WRITE of a file leaves there what the gate let through, if it spells the file as the gate routes it; a WRITE the gate refuses changes neither disk nor cache and is not answered OK; no other request stores anything in the file |
| Server.GateHolds | axiom-store/server.py:129-192 | On any disk and after any requests whose writes of a file spell it as the gate routes it, the file passes the gate if it did at the start or some request was an accepted WRITE of it, and holds what it held if none was |
| Server.StoredConforms | axiom-store/server.py:146-161 | With canonical spellings, every file under a registered prefix last stored by an accepted WRITE decodes, parses and conforms to the schema of its longest prefix, whatever the disk held before |
| Routing.GuardedSpellings | axiom-store/server.py:146-161 | Writes under a spelling keep every file that passes the gate passing it, whatever is written and whatever else is stored, exactly when the spelling is routed as the canonical spelling of its file or that spelling is unregistered |
| Routing.ShippedTells | axiom-store/schema.py:33-123 | No schema of the shipped registry admits all that another one admits, which the exact condition rests on |
| Routing.DotSpellingIsUnguarded | axiom-store/server.py:146-161 | Under the shipped registry no registered file is guarded once its path is spelled with a dot in front |
| Client.RoundTrip | axiom-store/client.py:86-114 | A request over the wire, cut up in any way in both directions, gives what dispatch gives if it is served, the refusal if it is refused, and a StoreError if it is dropped; what is not formatted is not sent |
| Client.Call | axiom-store/client.py:60-84 | Each client method is one such round trip followed by the status mapping, on every path and body; the empty path is refused before anything is sent |
| Client.RepliesExactly | axiom-store/server.py:129-192 | The reply to each kind of call, told from the uncached store: contents, names or nothing with OK, and for each error its own status word; a refused write is BAD_REQUEST if undecodable and SCHEMA_ERROR otherwise |
| Client.ListingRoundTrip | axiom-store/client.py:75-84 | Joining and splitting a listing are inverse exactly when no name holds a newline and it is not the empty name alone; the empty listing comes back |
| Client.StepSound | axiom-store/client.py:60-130 | Every call on a path spelled canonically, or badly, keeps the disk well formed and the cache entries fresh |
| Client.CallIsPlain | axiom-store/client.py:60-130 | Such a call, on any well-formed disk and for any outcome, changes the disk as the plain gated file map does and hands on what that store answers |
| Client.HandedOnExactly | axiom-store/client.py:91-130 | The outcomes handed on as they are: contents within 10 MiB, listings within 10 MiB of one-line names, and all errors but the file system's own |
| Client.Substitutable | axiom-store/client.py:60-130 | The same on every run of calls that the wire carries, each file spelled canonically or badly, directories anyhow, outcome by outcome |
| Client.SubstitutableFromStart | axiom-store/client.py:60-130 | From a server just started on any well-formed disk, all outcomes are the plain store's exactly when all of those transfer |
| Client.DropInExactly | axiom-store/client.py:60-130 | A call on a one-line path, spelled canonically or not resolving, agrees with the plain gated store under every cutting exactly when, if the wire carries it, the plain outcome transfers, and if not, the plain store calls it a bad path as well |
| Client.EmptyPathDiffers | axiom-store/filesystem.py:148-174 | Every call on the empty path is refused by the client with an error the plain store never raises, while a listing of it lists the root in process |
| JobStore.StoreIsJobMap | axiom-queue/jobs.py:208-227 | A job file with any body written through client, wire, gate, cache and files is never refused by the gate; if the write returns, every read sees the records and bodies updated at that job and nowhere else, and if it raises, what it saw before |
| JobStore.ReclaimThroughStore | axiom-queue/watchdog.py:150-213 | The two calls of a reclaim through the client replace the record, keep its body with the note after it and touch no other job, or leave every job as it was |
| JobStore.ListedThroughClient | axiom-queue/jobs.py:230-239 | `list_jobs` through the client lists an id exactly when its file is on disk and it is not `README`, as long as the listing transfers |
| JobRuns.RunsAreMapRuns | axiom-queue/jobs.py:208-227 | On every run of job writes and reclaims over client, wire, gate, cache and files, each of which may return or raise, the jobs read through the client are those of a plain map under the calls that returned |
| Chunker.BackUpToSoftBoundary | axiom-fetch/chunker.py:163-181 | The backward search ends just after the last boundary character in its window, or at the naive cut when there is none |
| Chunker.ChunkText | axiom-fetch/chunker.py:72-155 | The loop terminates, returns the chunks the lemmas are about, and raises exactly on bad sizes, telling them apart |
| Chunker.RebuildFrom | axiom-fetch/chunker.py:128-155 | From any cursor on, chunks with their overlaps dropped are exactly the rest of the text |
| Chunker.ChunksFromWell | axiom-fetch/chunker.py:128-155 | From any cursor with more than an overlap left, chunks are numbered on, bounded in length and share their ends |
| Chunker.CountFrom | axiom-fetch/chunker.py:128-155 | From any such cursor the number of chunks is bounded by the remaining length on both sides |
| Chunker.ChunksRebuild | axiom-fetch/chunker.py:128-155 | Dropping the overlaps rebuilds the stripped text |
| Chunker.ChunksNumbered | axiom-fetch/chunker.py:128-155 | Chunks are numbered from zero and none is shorter than the overlap it records |
| Chunker.MultiChunkShape | axiom-fetch/chunker.py:128-155 | In a multi-chunk result every chunk is longer than the overlap, at most the chunk size, and starts with the last overlap characters of its predecessor |
| Chunker.MultiChunkCuts | axiom-fetch/chunker.py:128-181 | Every cut short of the end lies just after the last boundary character of its window when there is one |
| Chunker.ChunkCount | axiom-fetch/chunker.py:128-155 | The number of chunks lies between the bounds set by the largest and the smallest advance |
| Ids.ChunkIdInjective | axiom-fetch/ids.py:30-42 | Chunk ids of one source differ whenever the indices do |
| Ids.FileIsId | axiom-fetch/ids.py:30-42 | A chunk file is named after its chunk id; ids exist exactly for a non-empty source id and an index from 0 |
| Ids.IdSpelling | axiom-fetch/ids.py:30-42 | The index is spelled in decimal, padded with zeros to four digits |
| Ids.FilesSortByIndex | axiom-fetch/ids.py:30-42 | File names sort by index for all indices up to a last one exactly when that is at most 9999 |
| Pipeline.Ingest | axiom-fetch/pipeline.py:59-151 | The writes that land are a prefix of the plan, a proper one exactly when the store raises; when all landed the result is a chunking error exactly if there was text to chunk and the sizes were bad, and the id otherwise; what the plan puts on disk is the subject of Reports |
| Pipeline.CompletePlan | axiom-fetch/pipeline.py:123-151 | After a succeeding plan a reader finds the status, the count, and each chunk file with its metadata and text |
| Pipeline.CrashSafe | axiom-fetch/pipeline.py:88-151 | After any prefix of the writes, `succeeded` with a count of n means exactly chunk files 0 to n - 1 are there and say so, and `failed` means none is |
| Reports.SourceReport | axiom-fetch/pipeline.py:88-204 | Read back after any prefix of the writes, the source file is absent, pending with the url asked for, failed with url, content type and error and nothing else, or succeeded with url, content type, title, count and time, each under its own key |
| Reports.ChunkReport | axiom-fetch/pipeline.py:206-229 | After a succeeding ingest every chunk has a file named after its id, with its text as body and id, type, source, index, total, size and overlap each under its own key |
| Pipeline.IngestReconstructs | axiom-fetch/pipeline.py:206-229 | Reading the counted chunk files in order through the parser and dropping the overlaps gives the stripped extracted text |
| Pipeline.ChunkPathInjective | axiom-fetch/pipeline.py:206-229 | Different chunks of a source are different files |
| Pipeline.IngestPassesGate | axiom-fetch/pipeline.py:159-229 | The server's gate lets every write of every ingest through, the failing ones included |
| IngestStore.SentIsApplied | axiom-fetch/pipeline.py:88-151 | However many of a sequence of writes return from the client, the disk then holds what that prefix makes of the plain files |
| IngestStore.IngestThroughClient | axiom-fetch/pipeline.py:88-151 | An ingest of a new source over the client, stopped anywhere, leaves an honest source file, and reading source and chunks through the client gives what the plain files hold |
| IngestStore.ClientReconstructs | axiom-fetch/pipeline.py:123-149 | When every write of a succeeding ingest returns, reading the counted chunk files through the client and dropping their overlaps gives the stripped extracted text |
| Normalize.NormalizeWhitespace | axiom-fetch/extractor.py:191-208 | The loop over lines with its running count of blank ones computes the clean-up that the lemmas below are about |
| Normalize.SplitLinesExactly | axiom-fetch/extractor.py:191-208 | Lines are cut at every kind of break alike, a carriage return with a line feed behind it being one break |
| Normalize.LineEndsIgnored | axiom-fetch/extractor.py:191-208 | White space at the end of a line makes no difference, wherever the line stands |
| Normalize.BlankRunIsOne | axiom-fetch/extractor.py:191-208 | A run of blank lines counts as one empty line, wherever it stands |
| Normalize.NormalizedIsTidy | axiom-fetch/extractor.py:191-208 | The result has no two blank lines in a row, no white space before a line end or at either end, and only line feeds as breaks |
| Normalize.KeepsVisible | axiom-fetch/extractor.py:191-208 | No visible character is lost, added or moved |
| Normalize.FixedPoints | axiom-fetch/extractor.py:191-208 | Exactly the tidy texts are left as they are |
| Normalize.Idempotent | axiom-fetch/extractor.py:191-208 | A second clean-up changes nothing |
| Utf8.DecodeEncode | axiom-store/server.py:146-161 | Decoding inverts encoding on every text |
| Utf8.EncodeDecode | axiom-store/server.py:146-161 | A byte sequence that decodes is the one encoding of its text |
| Utf8.EncodedForm | axiom-store/protocol.py:165-182 | How many bytes a character takes, their ranges and what they are worth together, as section 3 of RFC 3629 has it |

## Left out

- Watchdog.Reclaim: the text of the note, with its stamp and rounded minutes, is a parameter.
- Worker.Vault.ListJobs: here and in the scans ids come from a map of records, so job files whose name and `id` field disagree are excluded by the lemmas that say so.
- Queue.StepKeeps: job bodies are not part of the step system.
- Requests.Reduction: a write that lands but whose acknowledgement is lost is a write followed by the loss of the actor's copy; several workers or watchdogs are not modelled.
- Retry.BackoffMonotone: jitter is off in `resolve` and is not modelled; the overflow of the float power from 1024 attempts on is an error.
- Queue.AttemptBoundTight: limits over 1024 and waits beyond the year 9999 are excluded, since such a run raises instead.
- Stamp.RenderParse: holds of this parser and not of `strptime`: only the fixed-width ASCII form is a stamp; spellings with missing leading zeros or other digits that `strptime` also takes are not.
- Protocol.SplitHeaderBlock: header names are checked for lower case and lengths read on ASCII only; other digits that `int` takes are not modelled, and a header name with a capital outside ASCII, which the code refuses, is let through.
- Transport.RecvUntil: which error a stream over the limit gets depends on how it is cut up, so the contract bounds it from the stream alone.
- Server.HandleConnection: the second check of the content length after parsing can never fire and is not a branch of the model; the catch-all SERVER_ERROR reply, a failing send, log lines and the accept loop are left out.
- Schema.Validate: messages are reduced to their kind and key.
- Filesystem.VaultFS.Write: symbolic links, permissions and torn writes are left out; conflicts between files and directories are modelled as errors.
- Client.RoundTrip: timeouts, refused connections and a peer that closes while the request is still being sent are left out.
- Client.OneLineCall: in the two bytes past the header limit the outcome is bounded and not determined, since it depends on the pieces the stream comes in.
- Chunker.ChunkText: the reset of a negative cursor can never fire and is not a branch of the model.
- Pipeline.Ingest: fetching and extraction are inputs, and only the two failures the code catches are failures.
- `run_worker` and `run_watchdog`: the endless loops, stop events and sleeping.
- The handler registry, the starter handlers and the choice of a handler: a handler is any function to a result, an error or a fatal error.
- The pidfile guard, threads, signals, command lines and logging.
- HTML, PDF and DOCX extraction and HTTP fetching, other than whitespace clean-up.
- `axiom-brain`, `axiom-api`, demos and the bootstrap script.
