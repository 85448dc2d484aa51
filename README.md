# Follow requests: listing and responding

A Dafny model of the two personal-data-server handlers behind the
approve-before-follow workflow of an AT Protocol server:

- `app.bsky.graph.listFollowRequests` lists the caller's outgoing follow
  requests (from their own `app.bsky.graph.followRequest` collection) or the
  incoming ones (from the backlinks that point at the caller, each record
  fetched from the requester's repository), filters them by status,
  paginates with "fetch one more than the limit", and enriches each entry
  with the requester's handle and profile.
- `app.bsky.graph.respondToFollowRequest` validates the response, parses the
  request's AT URI, reads the record, checks that the caller is its subject,
  rewrites its status under a compare-and-swap on the CID that was read and,
  on approval, creates a follow record in the requester's repository in a
  second transaction.

Files:

- `wrappers.dfy`: `Option` and `Result`.
- `at_uri.dfy` (module `AtUris`): AT URIs, JavaScript's `split('/')`, a
  parser and a formatter, with their round trips.
- `records.dfy` (module `Records`): records as JSON objects
  (`map<string, string>`, read `as any` by the handlers) with their CID, and
  the outcome of a store read (found, missing, or an exception).
- `list_follow_requests.dfy` (module `ListFollowRequests`): the listing
  handler. The outgoing branch and the enrichment are functions; the
  incoming scan is a method with a loop, proved against the function
  `Hydrate`; the handler is a method proved against `ListSpec`.
- `respond_to_follow_request.dfy` (module `RespondToFollowRequest`): the
  response handler as the method `Repositories.Respond` on a class that holds
  every account's records and a ghost log of the commits sequenced. Its
  contract ties the result, the new records and the new commits to the
  function `RespondOutcome`, and the lemmas state the handler's promises
  about that function.

The services around the handlers are parameters. The listing gets a
`Services` value: the collection listing as a function of limit and cursor,
the backlinks as a sequence, the record read as a function from locator to
`Found`/`Missing`/`Threw`, and DID resolution as a function to a document
or a failure. The response handler gets an `Env` value: the two clock
readings, the CIDs of the two writes it makes, and the record key generated
for the follow record. The repository's write contract is `ProcessWrite`. An
update applies only while the stored CID equals `swapCid`; otherwise it
fails with `InvalidSwap`. A create applies only to a free key; otherwise it
fails with `RecordExists`. Sequencing and root updates are one ghost
`Commit` per successful transaction.

## Model

| member | source | states |
|---|---|---|
| `AtUris.JoinSplit` | packages/pds/src/api/app/bsky/graph/listFollowRequests.ts:67 | the pieces of `uri.split('/')` joined with '/' give the uri back |
| `AtUris.FormatSegments` | packages/pds/src/api/app/bsky/graph/listFollowRequests.ts:67-69 | splitting `at://did/collection/rkey` yields the DID at segment 2 and the record key at segment 4 |
| `AtUris.ParseAtUri` | packages/pds/src/api/app/bsky/graph/respondToFollowRequest.ts:44-55 | a parse succeeds only on an `at://` string and yields a non-empty authority without '/', the requester DID |
| `AtUris.ParseFormat` | packages/pds/src/api/app/bsky/graph/respondToFollowRequest.ts:44-55 | parsing a formatted well-formed locator gives back its DID, collection and record key |
| `ListFollowRequests.ApplyDefaults` | packages/pds/src/api/app/bsky/graph/listFollowRequests.ts:16-21 | each omitted parameter takes its default (`incoming`, `pending`, `50`); a given one is kept, and the cursor is passed through |
| `ListFollowRequests.DefaultsApply` | packages/pds/src/api/app/bsky/graph/listFollowRequests.ts:16-21 | an omitted direction, status or limit gives the same response as `incoming`, `pending` or `50` |
| `ListFollowRequests.KeepsStatus` | packages/pds/src/api/app/bsky/graph/listFollowRequests.ts:37-41 | a record passes the status filter iff the filter is `all` or the record has a `status` property equal to it; the incoming scan uses the same test at line 81 |
| `ListFollowRequests.OutgoingEntries` | packages/pds/src/api/app/bsky/graph/listFollowRequests.ts:36-53 | the outgoing entries are no more than the listed records, all with requester = caller and a status that passes the filter |
| `ListFollowRequests.OutgoingKeepsExactlyMatches` | packages/pds/src/api/app/bsky/graph/listFollowRequests.ts:36-53 | an entry exists for a listed record iff the record passes the status filter, and it copies that record's uri, cid and properties |
| `ListFollowRequests.OutgoingAppend` | packages/pds/src/api/app/bsky/graph/listFollowRequests.ts:36-53 | the outgoing entries of `a + b` are those of `a` followed by those of `b`: records are filtered independently and collection order is kept |
| `ListFollowRequests.OutgoingOne` | packages/pds/src/api/app/bsky/graph/listFollowRequests.ts:36-53 | one listed record yields its entry if it passes the filter and nothing otherwise; with `OutgoingAppend` this fixes the entries, their order and their multiplicity |
| `ListFollowRequests.OutgoingAllKeepsEverything` | packages/pds/src/api/app/bsky/graph/listFollowRequests.ts:37-41 | with status `all`, entry `i` is listed record `i` for every record |
| `ListFollowRequests.Candidate` | packages/pds/src/api/app/bsky/graph/listFollowRequests.ts:66-96 | one backlink yields at most one entry, only when its uri has five segments and the record loads; the entry keeps the backlink's uri and takes segment 2 as requester |
| `ListFollowRequests.Hydrate` | packages/pds/src/api/app/bsky/graph/listFollowRequests.ts:65-97 | the scan yields no more entries than candidates, and every entry passes the status filter |
| `ListFollowRequests.ScanIncoming` | packages/pds/src/api/app/bsky/graph/listFollowRequests.ts:64-97 | the loop collects what `Hydrate` gives for the first `limit + 1` backlinks, so at most `limit + 1` entries |
| `ListFollowRequests.HydrateAppend` | packages/pds/src/api/app/bsky/graph/listFollowRequests.ts:65-97 | the scan of `a + b` is the scan of `a` followed by the scan of `b`: candidates are independent and backlink order is kept |
| `ListFollowRequests.HydrateOrigin` | packages/pds/src/api/app/bsky/graph/listFollowRequests.ts:79-90 | every collected entry is the entry of one of the candidates |
| `ListFollowRequests.HydrateSkipsFailure` | packages/pds/src/api/app/bsky/graph/listFollowRequests.ts:79-96 | a candidate whose record is missing or whose read throws is skipped and the scan continues with the rest |
| `ListFollowRequests.CandidateOfLocator` | packages/pds/src/api/app/bsky/graph/listFollowRequests.ts:67-90 | a backlink `at://did/c/rkey` reads `did`'s follow-request record `rkey` and, if it passes the filter, yields an entry with the backlink's uri, the read CID, requester `did` and the record's properties |
| `ListFollowRequests.IncomingReadsLimitPlusOne` | packages/pds/src/api/app/bsky/graph/listFollowRequests.ts:65 | backlinks after the first `limit + 1` do not change the response |
| `ListFollowRequests.IncomingIgnoresCursor` | packages/pds/src/api/app/bsky/graph/listFollowRequests.ts:55-97 | in the incoming direction every cursor gives the same response |
| `ListFollowRequests.IncomingSubjectNotChecked` | packages/pds/src/api/app/bsky/graph/listFollowRequests.ts:72-90 | an incoming entry whose record names another subject is still listed |
| `ListFollowRequests.HydrateSubjects` | packages/pds/src/api/app/bsky/graph/listFollowRequests.ts:56-90 | when every backlink is the locator of a follow request whose stored record names the caller as subject, every entry the scan collects has `subject` = caller |
| `ListFollowRequests.IncomingSubjectIsCaller` | packages/pds/src/api/app/bsky/graph/listFollowRequests.ts:56-90 | with a backlink index that agrees with the records, every incoming request returned has `subject` = caller |
| `ListFollowRequests.IncomingCursorMissesLaterMatches` | packages/pds/src/api/app/bsky/graph/listFollowRequests.ts:65-105 | with `limit = 1` and a non-matching first backlink, one entry and no cursor are returned although two backlinks match |
| `ListFollowRequests.IncomingFirstPage` | packages/pds/src/api/app/bsky/graph/listFollowRequests.ts:65-105 | three pending incoming requests with `limit = 2` give the first two in order and the third's uri as cursor |
| `ListFollowRequests.Paginate` | packages/pds/src/api/app/bsky/graph/listFollowRequests.ts:100-105 | the page is a prefix of at most `limit` entries; a cursor exists exactly when there were more than `limit`, and it is the uri of entry `limit`; without it the list is unchanged |
| `ListFollowRequests.FirstAtAlias` | packages/pds/src/api/app/bsky/graph/listFollowRequests.ts:122-124 | the index found is the first alias starting with `at://`; none is found only when no alias starts with it |
| `ListFollowRequests.ResolveHandle` | packages/pds/src/api/app/bsky/graph/listFollowRequests.ts:116-131 | the handle is the DID unless the resolved document has an `at://` alias; then `at://` + handle is the first such alias |
| `ListFollowRequests.RequesterOf` | packages/pds/src/api/app/bsky/graph/listFollowRequests.ts:111-161 | the requester keeps the DID and the resolved handle; display name and avatar come from the profile record when it loads and are absent otherwise |
| `ListFollowRequests.Enrich` | packages/pds/src/api/app/bsky/graph/listFollowRequests.ts:153-166 | uri, cid, subject, status, createdAt and respondedAt pass through unchanged; the requester is `RequesterOf` the entry's DID |
| `ListFollowRequests.EnrichDegrades` | packages/pds/src/api/app/bsky/graph/listFollowRequests.ts:167-181 | when neither resolution nor profile read succeeds, the requester is `{did, handle: did}` |
| `ListFollowRequests.EnrichAll` | packages/pds/src/api/app/bsky/graph/listFollowRequests.ts:108-184 | enrichment is one-to-one: same length, and view `i` is the enrichment of entry `i` |
| `ListFollowRequests.Collect` | packages/pds/src/api/app/bsky/graph/listFollowRequests.ts:25-98 | the outgoing scan yields at most the listed records, all with requester = caller; the incoming scan at most `limit + 1` entries; every entry passes the status filter |
| `ListFollowRequests.ListSpec` | packages/pds/src/api/app/bsky/graph/listFollowRequests.ts:14-192 | the response has at most `limit` requests and a cursor exactly when the chosen scan collected more than `limit` |
| `ListFollowRequests.ListFollowRequests` | packages/pds/src/api/app/bsky/graph/listFollowRequests.ts:14-192 | the handler's response is `ListSpec`'s, so at most `limit` requests |
| `ListFollowRequests.ListedStatusMatches` | packages/pds/src/api/app/bsky/graph/listFollowRequests.ts:37-91 | in both directions, every returned request has the filtered status unless the filter is `all` |
| `ListFollowRequests.OutgoingRequesterIsCaller` | packages/pds/src/api/app/bsky/graph/listFollowRequests.ts:42-53 | every outgoing request has requester DID = caller |
| `RespondToFollowRequest.ProcessWrite` | packages/pds/src/api/app/bsky/graph/respondToFollowRequest.ts:90-102 | an update succeeds iff the key holds a record with CID `swapCid`, a create iff the key is free; success stores the new record and CID, failure names the reason |
| `RespondToFollowRequest.CheckRequest` | packages/pds/src/api/app/bsky/graph/respondToFollowRequest.ts:35-80 | an invalid response fails before parsing; an unparseable uri is `RequestNotFound`; the checks pass iff response valid, uri parses, the uri as written is the record's locator `at://did/collection/rkey`, the record exists and its subject is the caller |
| `RespondToFollowRequest.UpdatedRecord` | packages/pds/src/api/app/bsky/graph/respondToFollowRequest.ts:83-88 | status becomes `approved`/`denied` by response, respondedAt is now, every other property is kept |
| `RespondToFollowRequest.UpdateWrite` | packages/pds/src/api/app/bsky/graph/respondToFollowRequest.ts:83-96 | the update is written in the requester's follow-request collection under the request's record key, with the updated record and the CID read as `swapCid`; its key is the locator read iff that locator named the follow-request collection |
| `RespondToFollowRequest.FollowWrite` | packages/pds/src/api/app/bsky/graph/respondToFollowRequest.ts:112-122 | the follow record is created in the requester's follow collection (never the request's) under the generated key, with `$type`, `subject` = caller and `createdAt` |
| `RespondToFollowRequest.Repositories.Transact` | packages/pds/src/api/app/bsky/graph/respondToFollowRequest.ts:98-104 | a transaction applies its write and appends one commit, or changes nothing and reports the repository's error |
| `RespondToFollowRequest.RespondOutcome` | packages/pds/src/api/app/bsky/graph/respondToFollowRequest.ts:31-147 | a failed check writes nothing and returns its error; no commit means no change; a success makes one commit for a denial and two for an approval, and returns `followRecord` exactly on approval |
| `RespondToFollowRequest.Repositories.Respond` | packages/pds/src/api/app/bsky/graph/respondToFollowRequest.ts:31-147 | the handler's result, the records afterwards and the commits appended are those of `RespondOutcome` |
| `RespondToFollowRequest.InvalidResponseFirst` | packages/pds/src/api/app/bsky/graph/respondToFollowRequest.ts:35-41 | any response other than approve/deny is `InvalidResponse` for every uri and store, with nothing written |
| `RespondToFollowRequest.NotFoundCases` | packages/pds/src/api/app/bsky/graph/respondToFollowRequest.ts:43-70 | an unparseable uri or a missing record is `RequestNotFound`, with nothing written |
| `RespondToFollowRequest.ExtraSegmentNotFound` | packages/pds/src/api/app/bsky/graph/respondToFollowRequest.ts:43-70 | a locator with a segment after the record key is `RequestNotFound`, with nothing written, even when the record under its first two segments exists |
| `RespondToFollowRequest.OnlySubjectMayRespond` | packages/pds/src/api/app/bsky/graph/respondToFollowRequest.ts:72-80 | an existing request whose subject is not the caller is `NotAuthorized`, with nothing written |
| `RespondToFollowRequest.CompareAndSwap` | packages/pds/src/api/app/bsky/graph/respondToFollowRequest.ts:90-102 | after the checks, the call fails with `InvalidSwap` iff the update key no longer holds the CID read, and then nothing is written |
| `RespondToFollowRequest.UpdatedRequest` | packages/pds/src/api/app/bsky/graph/respondToFollowRequest.ts:83-144 | on success the stored request has the new status and respondedAt and every other property as read, and the response's `request` is the update's `{uri, cid}` |
| `RespondToFollowRequest.ApproveCreatesOneFollow` | packages/pds/src/api/app/bsky/graph/respondToFollowRequest.ts:108-136 | a successful approval adds exactly one record, a follow in the requester's repository with subject = caller, returned as `followRecord`; every other record except the request keeps its value; the commits are the update and then the follow's creation |
| `RespondToFollowRequest.DenyCreatesNothing` | packages/pds/src/api/app/bsky/graph/respondToFollowRequest.ts:108-146 | a successful denial adds no record, changes only the request, makes one commit and returns no `followRecord` |
| `RespondToFollowRequest.WritesStayInRequesterRepo` | packages/pds/src/api/app/bsky/graph/respondToFollowRequest.ts:54-130 | every commit is in the repository named by the uri's authority and writes a record of it |
| `RespondToFollowRequest.ResolvedRequestCanFlip` | packages/pds/src/api/app/bsky/graph/respondToFollowRequest.ts:72-96 | an already approved request can be denied: status is never checked |
| `RespondToFollowRequest.ApprovalWithoutFollow` | packages/pds/src/api/app/bsky/graph/respondToFollowRequest.ts:98-136 | if the follow record cannot be created the call fails, but the request stays approved and its commit stays |
| `RespondToFollowRequest.ConcurrentResponsesConflict` | packages/pds/src/api/app/bsky/graph/respondToFollowRequest.ts:90-102 | of two responses read from the same state, once the first commits with a new CID the second's update fails with `InvalidSwap` |

## Behaviour the code does not guarantee

The model follows the code. Each of these is a property one might expect
of the workflow that the code does not enforce by itself.

- Incoming results name the caller as their `subject` only through the
  backlink query (`path: 'subject'`, `linkTo` = caller). The handler copies
  `subject` from the record it fetches and does not compare it with the
  caller. With an index that agrees with the records, every incoming result
  has the caller as subject (`IncomingSubjectIsCaller`). A stale index entry,
  or a record updated after it was indexed, is listed as it is
  (`IncomingSubjectNotChecked`).
- A cursor is returned only when the chosen scan collected more than
  `limit` entries. In the incoming direction only the first `limit + 1`
  backlinks are read, before filtering. So the cursor can be absent while
  matches remain (`IncomingCursorMissesLaterMatches`). The incoming branch
  also ignores the cursor it is given (`IncomingIgnoresCursor`).
- A response is not limited to pending requests. The code never reads the
  current status (`ResolvedRequestCanFlip`).
- The request is read at its locator, but the update is written at the
  parsed DID and record key in the follow-request collection, whatever
  collection the locator named (`UpdateWrite`). The compare-and-swap still
  uses the CID read at the locator (`CompareAndSwap`).

## Left out

- Authentication, permission checks, takedown and deactivation checks, and
  rate limits: middleware around the handlers.
- The record store, repository write preparation, CID hashing,
  `processWrites`, `sequenceCommit` and `updateRepoRoot`. They are replaced
  by the record map, the `ProcessWrite` contract, CIDs taken from `Env`, and
  one ghost `Commit` per transaction. Storage failures other than
  `InvalidSwap` and `RecordExists` are not modelled.
- Soft-deleted records (`includeSoftDeleted`): the record map holds only
  records the store would return.
- Reading a repository the server does not host is modelled as a missing
  record, not as the exception the store would throw.
- DID resolution and profile reads over the network are the oracles
  `resolve` and `fetch`; each may fail.
- `Promise.all` concurrency in enrichment: modelled as a sequential map.
  Only order preservation is stated.
- Wall-clock timestamps and the generated record key are inputs (`Env`).
- The generated lexicon type files: only their enum values and error names
  are used.
- `AtUris.ParseAtUri`: the AT URI syntax of the external parser is
  simplified. The model requires the `at://` prefix and a non-empty
  authority without '/'. It does not check the authority's characters, and
  it does not recognise query or fragment parts. The parsed locator keeps
  only the DID and the first two non-empty path segments; the record read
  compares the string as written (`Locates`), so extra, empty or missing
  segments make the read find nothing.
- `ListFollowRequests.Candidate`: a backlink uri with fewer than five
  segments is skipped. That is what the handler does, by a throw or a
  missing record, once `AtUri.make` is given an undefined part.
- The outgoing listing's use of the cursor is the store's
  (`listRecords(limit + 1, cursor)`). How the store interprets it is not
  part of this model. The cursor the handler hands out is a full uri
  (`Paginate`), not a record key.
- The outer `catch` of enrichment is not a separate path. Every statement
  that can throw inside it is already caught by an inner `try`. Its result,
  `{did, handle: did}`, is the requester `EnrichDegrades` describes.
- The `typeof req.requester === 'string'` alternative in enrichment is not
  modelled. Both branches build the requester as `{did}`, so only its DID is
  kept (`RequestEntry.requester`).
- JSON property values are abstracted to strings. `avatar` is a blob
  reference in the store, and it is passed through as an opaque value.
