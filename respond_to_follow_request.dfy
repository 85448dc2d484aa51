/** The `app.bsky.graph.respondToFollowRequest` handler: validate the
    response, locate the request, check that the caller is its subject, then
    update its status under a compare-and-swap on the CID that was read and,
    on approval, create a follow record in a second, separate transaction. */
module RespondToFollowRequest {
  import opened Wrappers
  import opened AtUris
  import opened Records

  // ---------------------------------------------------------------------
  // Inputs, outputs and errors

  const Approve: string := "approve"
  const Deny: string := "deny"
  const Approved: string := "approved"
  const Denied: string := "denied"

  /** The handler's own errors, and the two the repository layer raises when
      a write cannot be applied. */
  datatype Error =
    | InvalidResponse   // `response` is neither "approve" nor "deny"
    | RequestNotFound   // unparseable `requestUri`, or no record there
    | NotAuthorized     // the caller is not the request's subject
    | InvalidSwap       // the record's CID is no longer the one read
    | RecordExists      // the key of a created record is already taken

  /** The values the handler draws from its environment: the two clock
      readings, the CIDs the repository computes for the written records,
      and the record key generated for the follow record. */
  datatype Env = Env(respondedAt: string, updateCid: Cid,
                     followRkey: string, followCreatedAt: string, followCid: Cid)

  /** A strong reference `{uri, cid}`. */
  datatype Ref = Ref(uri: AtUri, cid: Cid)

  datatype Output = Output(request: Ref, followRecord: Option<Ref>)

  // ---------------------------------------------------------------------
  // Writes and the repository's contract for them

  datatype Write =
    | Update(uri: AtUri, value: RecordValue, swapCid: Cid, cid: Cid)
    | Create(uri: AtUri, value: RecordValue, cid: Cid)

  /** One committed transaction of an account, sequenced and followed by a
      root update. */
  datatype Commit = Commit(did: string, write: Write)

  function RefOf(w: Write): Ref {
    Ref(w.uri, w.cid)
  }

  /** `processWrites([w])`: an update applies only while the stored CID is
      `swapCid`; a create applies only to a free key. */
  function ProcessWrite(records: map<AtUri, StoredRecord>, w: Write)
    : (r: Result<map<AtUri, StoredRecord>, Error>)
    ensures r.Success? ==> r.value == records[w.uri := StoredRecord(w.value, w.cid)]
    ensures w.Update? ==> (r.Success? <==> w.uri in records && records[w.uri].cid == w.swapCid)
    ensures w.Create? ==> (r.Success? <==> w.uri !in records)
    ensures r.Failure? ==> r.error == (if w.Update? then InvalidSwap else RecordExists)
  {
    match w
    case Update(uri, value, swapCid, cid) =>
      if uri in records && records[uri].cid == swapCid
      then Success(records[uri := StoredRecord(value, cid)])
      else Failure(InvalidSwap)
    case Create(uri, value, cid) =>
      if uri !in records then Success(records[uri := StoredRecord(value, cid)])
      else Failure(RecordExists)
  }

  // ---------------------------------------------------------------------
  // The checks before any write

  /** The request that passed the checks: its parsed locator and the record
      with the CID that was read. */
  datatype Checked = Checked(uri: AtUri, request: StoredRecord)

  predicate ValidResponse(response: string) {
    response == Approve || response == Deny
  }

  /** `getRecord(uri)` looks the record up by the locator's string form, and
      the parser keeps the path as written: a record is found only when the
      string is `at://did/collection/rkey` itself, without extra, empty or
      missing path segments. */
  predicate Locates(requestUri: string, uri: AtUri) {
    WellFormed(uri) && Format(uri) == requestUri
  }

  /** Validation, parsing, lookup and authorization, in this order. */
  function CheckRequest(records: map<AtUri, StoredRecord>, requestUri: string,
                        response: string, callerDid: string)
    : (r: Result<Checked, Error>)
    ensures !ValidResponse(response) ==> r == Failure(InvalidResponse)
    ensures ValidResponse(response) && ParseAtUri(requestUri).None? ==> r == Failure(RequestNotFound)
    ensures r.Success? <==>
      && ValidResponse(response)
      && ParseAtUri(requestUri).Some?
      && Locates(requestUri, ParseAtUri(requestUri).value)
      && ParseAtUri(requestUri).value in records
      && Prop(records[ParseAtUri(requestUri).value].value, "subject") == Some(callerDid)
    ensures r.Success? ==>
      r.value.uri == ParseAtUri(requestUri).value && r.value.request == records[r.value.uri]
  {
    if !ValidResponse(response) then Failure(InvalidResponse)
    else
      match ParseAtUri(requestUri)
      case None => Failure(RequestNotFound)
      case Some(uri) =>
        if !Locates(requestUri, uri) || uri !in records then Failure(RequestNotFound)
        else if Prop(records[uri].value, "subject") != Some(callerDid) then Failure(NotAuthorized)
        else Success(Checked(uri, records[uri]))
  }

  /** `{...requestRecord, status: newStatus, respondedAt: now}`. */
  function UpdatedRecord(value: RecordValue, response: string, respondedAt: string)
    : (r: RecordValue)
    ensures Prop(r, "status") == Some(if response == Approve then Approved else Denied)
    ensures Prop(r, "respondedAt") == Some(respondedAt)
    ensures forall k :: k != "status" && k != "respondedAt" ==> Prop(r, k) == Prop(value, k)
    ensures r.Keys == value.Keys + {"status", "respondedAt"}
  {
    value["status" := if response == Approve then Approved else Denied]["respondedAt" := respondedAt]
  }

  /** The key the status update writes: the request's record key in the
      requester's follow-request collection. */
  function UpdateKey(u: AtUri): AtUri {
    AtUri(u.host, FollowRequestCollection, u.rkey)
  }

  /** The update targets the requester's follow-request collection under the
      request's record key, with the CID read as `swapCid`. */
  function UpdateWrite(c: Checked, response: string, env: Env): (w: Write)
    ensures w.Update? && w.uri.host == c.uri.host && w.uri.rkey == c.uri.rkey
    ensures w.uri.collection == FollowRequestCollection
    ensures w.uri == c.uri <==> c.uri.collection == FollowRequestCollection
    ensures w.swapCid == c.request.cid && w.cid == env.updateCid
    ensures w.value == UpdatedRecord(c.request.value, response, env.respondedAt)
  {
    Update(AtUri(c.uri.host, FollowRequestCollection, c.uri.rkey),
           UpdatedRecord(c.request.value, response, env.respondedAt),
           c.request.cid, env.updateCid)
  }

  /** The follow record the approval creates in the requester's repository:
      a record of the follow collection, never of the request's. */
  function FollowWrite(requesterDid: string, callerDid: string, env: Env): (w: Write)
    ensures w.Create? && w.uri.host == requesterDid && w.uri.rkey == env.followRkey
    ensures w.uri.collection == FollowCollection && w.uri.collection != FollowRequestCollection
    ensures Prop(w.value, "$type") == Some(FollowCollection)
    ensures Prop(w.value, "subject") == Some(callerDid)
    ensures Prop(w.value, "createdAt") == Some(env.followCreatedAt)
    ensures w.cid == env.followCid
  {
    Create(AtUri(requesterDid, FollowCollection, env.followRkey),
           map["$type" := FollowCollection, "subject" := callerDid, "createdAt" := env.followCreatedAt],
           env.followCid)
  }

  // ---------------------------------------------------------------------
  // The whole call

  /** The response, the records afterwards, and the commits made. */
  datatype Outcome = Outcome(result: Result<Output, Error>,
                             records: map<AtUri, StoredRecord>, commits: seq<Commit>)

  /** The whole call: nothing is written unless the checks pass; the update
      commits first, and only an approval makes a second commit. */
  function RespondOutcome(records: map<AtUri, StoredRecord>, requestUri: string,
                          response: string, callerDid: string, env: Env): (o: Outcome)
    ensures CheckRequest(records, requestUri, response, callerDid).Failure? ==>
      o == Outcome(Failure(CheckRequest(records, requestUri, response, callerDid).error), records, [])
    ensures o.commits == [] ==> o.records == records
    ensures |o.commits| <= (if response == Approve then 2 else 1)
    ensures o.result.Success? ==>
      |o.commits| == (if response == Approve then 2 else 1) &&
      (o.result.value.followRecord.Some? <==> response == Approve)
  {
    match CheckRequest(records, requestUri, response, callerDid)
    case Failure(e) => Outcome(Failure(e), records, [])
    case Success(c) =>
      var did := c.uri.host;
      var uw := UpdateWrite(c, response, env);
      match ProcessWrite(records, uw)
      case Failure(e) => Outcome(Failure(e), records, [])
      case Success(afterUpdate) =>
        if response == Approve then
          var fw := FollowWrite(did, callerDid, env);
          match ProcessWrite(afterUpdate, fw)
          case Failure(e) => Outcome(Failure(e), afterUpdate, [Commit(did, uw)])
          case Success(afterFollow) =>
            Outcome(Success(Output(RefOf(uw), Some(RefOf(fw)))), afterFollow,
                    [Commit(did, uw), Commit(did, fw)])
        else
          Outcome(Success(Output(RefOf(uw), None)), afterUpdate, [Commit(did, uw)])
  }

  /** The records of every account, and the commits sequenced so far. */
  class Repositories {
    var records: map<AtUri, StoredRecord>
    ghost var log: seq<Commit>

    constructor (initial: map<AtUri, StoredRecord>)
      ensures records == initial && log == []
    {
      records := initial;
      log := [];
    }

    /** `actorStore.transact(did, ...)` with one write: on success the
        commit is sequenced and the account's root advanced. */
    method Transact(did: string, w: Write) returns (res: Result<Ref, Error>)
      modifies this
      ensures ProcessWrite(old(records), w).Success? ==>
        records == ProcessWrite(old(records), w).value && res == Success(RefOf(w)) &&
        log == old(log) + [Commit(did, w)]
      ensures ProcessWrite(old(records), w).Failure? ==>
        records == old(records) && log == old(log) && res == Failure(ProcessWrite(old(records), w).error)
    {
      var applied := ProcessWrite(records, w);
      match applied
      case Failure(e) =>
        res := Failure(e);
      case Success(updated) =>
        records := updated;
        log := log + [Commit(did, w)];
        res := Success(RefOf(w));
    }

    /** The handler body. */
    method Respond(requestUri: string, response: string, callerDid: string, env: Env)
      returns (res: Result<Output, Error>)
      modifies this
      ensures var o := RespondOutcome(old(records), requestUri, response, callerDid, env);
        res == o.result && records == o.records && log == old(log) + o.commits
    {
      if response != Approve && response != Deny {
        return Failure(InvalidResponse);
      }

      var parsed := ParseAtUri(requestUri);
      if parsed.None? {
        return Failure(RequestNotFound);
      }
      var uri := parsed.value;
      var requesterDid := uri.host;
      var rkey := uri.rkey;

      if !Locates(requestUri, uri) || uri !in records {
        return Failure(RequestNotFound);
      }
      var request := records[uri];
      var requestRecord := request.value;

      if Prop(requestRecord, "subject") != Some(callerDid) {
        return Failure(NotAuthorized);
      }

      var newStatus := if response == Approve then Approved else Denied;
      var updatedRecord := requestRecord["status" := newStatus]["respondedAt" := env.respondedAt];
      var updateWrite := Update(AtUri(requesterDid, FollowRequestCollection, rkey),
                                updatedRecord, request.cid, env.updateCid);
      assert updateWrite == UpdateWrite(Checked(uri, request), response, env);

      var updateResult := Transact(requesterDid, updateWrite);
      if updateResult.Failure? {
        return Failure(updateResult.error);
      }

      var followRecord: Option<Ref> := None;
      if response == Approve {
        var followRecordData := map["$type" := FollowCollection, "subject" := callerDid,
                                    "createdAt" := env.followCreatedAt];
        var followWrite := Create(AtUri(requesterDid, FollowCollection, env.followRkey),
                                  followRecordData, env.followCid);
        var followResult := Transact(requesterDid, followWrite);
        if followResult.Failure? {
          return Failure(followResult.error);
        }
        followRecord := Some(followResult.value);
      }

      return Success(Output(updateResult.value, followRecord));
    }
  }

  // ---------------------------------------------------------------------
  // Properties of the call

  /** An unrecognised response fails first, whatever the locator and the
      store: nothing is parsed, read or written. */
  lemma InvalidResponseFirst(records: map<AtUri, StoredRecord>, requestUri: string,
                             response: string, callerDid: string, env: Env)
    requires response != Approve && response != Deny
    ensures RespondOutcome(records, requestUri, response, callerDid, env) ==
            Outcome(Failure(InvalidResponse), records, [])
  {
  }

  /** An unparseable locator, one that is not a record's locator as written,
      or one with no record, is `RequestNotFound`. */
  lemma NotFoundCases(records: map<AtUri, StoredRecord>, requestUri: string,
                      response: string, callerDid: string, env: Env)
    requires ValidResponse(response)
    requires || ParseAtUri(requestUri).None?
             || !Locates(requestUri, ParseAtUri(requestUri).value)
             || ParseAtUri(requestUri).value !in records
    ensures RespondOutcome(records, requestUri, response, callerDid, env) ==
            Outcome(Failure(RequestNotFound), records, [])
  {
  }

  /** A locator with a path segment after the record key is not a record's
      locator: the call is `RequestNotFound` even when the record named by
      its first two segments exists. */
  lemma ExtraSegmentNotFound(records: map<AtUri, StoredRecord>, u: AtUri, extra: string,
                             response: string, callerDid: string, env: Env)
    requires ValidResponse(response) && WellFormed(u) && '/' !in extra
    ensures RespondOutcome(records, Format(u) + "/" + extra, response, callerDid, env) ==
            Outcome(Failure(RequestNotFound), records, [])
  {
    var s := Format(u) + "/" + extra;
    ExtraSegment(u, extra);
    match ParseAtUri(s)
    case None =>
    case Some(v) =>
      if Locates(s, v) {
        FormatSegments(v);
        assert false;
      }
  }

  /** A caller other than the subject of an existing request is refused and
      nothing changes. */
  lemma OnlySubjectMayRespond(records: map<AtUri, StoredRecord>, requestUri: string,
                              response: string, callerDid: string, env: Env)
    requires ValidResponse(response)
    requires ParseAtUri(requestUri).Some? && Locates(requestUri, ParseAtUri(requestUri).value)
    requires ParseAtUri(requestUri).value in records
    requires Prop(records[ParseAtUri(requestUri).value].value, "subject") != Some(callerDid)
    ensures RespondOutcome(records, requestUri, response, callerDid, env) ==
            Outcome(Failure(NotAuthorized), records, [])
  {
  }

  /** When the checks pass, the update commits exactly when the record at the
      update key still carries the CID that was read; otherwise the call
      fails with `InvalidSwap` and nothing changes. */
  lemma CompareAndSwap(records: map<AtUri, StoredRecord>, requestUri: string,
                       response: string, callerDid: string, env: Env)
    requires CheckRequest(records, requestUri, response, callerDid).Success?
    ensures var u := ParseAtUri(requestUri).value;
      var o := RespondOutcome(records, requestUri, response, callerDid, env);
      && (o.result == Failure(InvalidSwap) <==>
            !(UpdateKey(u) in records && records[UpdateKey(u)].cid == records[u].cid))
      && (o.result == Failure(InvalidSwap) ==> o.records == records && o.commits == [])
  {
  }

  /** A successful call leaves the request with the new status and
      `respondedAt`, every other property as it was read, and answers with the
      update's `{uri, cid}`. */
  lemma UpdatedRequest(records: map<AtUri, StoredRecord>, requestUri: string,
                       response: string, callerDid: string, env: Env)
    requires RespondOutcome(records, requestUri, response, callerDid, env).result.Success?
    ensures var u := ParseAtUri(requestUri).value;
      var o := RespondOutcome(records, requestUri, response, callerDid, env);
      && UpdateKey(u) in o.records
      && var v := o.records[UpdateKey(u)].value;
      && Prop(v, "status") == Some(if response == Approve then Approved else Denied)
      && Prop(v, "respondedAt") == Some(env.respondedAt)
      && (forall k :: k != "status" && k != "respondedAt" ==> Prop(v, k) == Prop(records[u].value, k))
      && o.result.value.request == Ref(UpdateKey(u), env.updateCid)
  {
  }

  /** An approval that succeeds adds exactly one record: a follow record in
      the requester's repository whose subject is the caller. Apart from the
      request, every record keeps its value, and the two commits are the
      update and then the follow's creation. */
  lemma ApproveCreatesOneFollow(records: map<AtUri, StoredRecord>, requestUri: string,
                                callerDid: string, env: Env)
    requires RespondOutcome(records, requestUri, Approve, callerDid, env).result.Success?
    ensures var u := ParseAtUri(requestUri).value;
      var c := CheckRequest(records, requestUri, Approve, callerDid).value;
      var o := RespondOutcome(records, requestUri, Approve, callerDid, env);
      var f := AtUri(u.host, FollowCollection, env.followRkey);
      && o.result.value.followRecord == Some(Ref(f, env.followCid))
      && f !in records
      && o.records.Keys == records.Keys + {f}
      && |o.records.Keys| == |records.Keys| + 1
      && Prop(o.records[f].value, "subject") == Some(callerDid)
      && (forall k :: k in records && k != UpdateKey(u) ==> o.records[k] == records[k])
      && o.commits == [Commit(u.host, UpdateWrite(c, Approve, env)),
                       Commit(u.host, FollowWrite(u.host, callerDid, env))]
  {
    var u := ParseAtUri(requestUri).value;
    var f := AtUri(u.host, FollowCollection, env.followRkey);
    assert UpdateKey(u) in records;
    assert f != UpdateKey(u) by {
      assert FollowCollection != FollowRequestCollection;
    }
  }

  /** A denial that succeeds creates nothing: no record appears, only the
      request changes, and there is one commit. */
  lemma DenyCreatesNothing(records: map<AtUri, StoredRecord>, requestUri: string,
                           callerDid: string, env: Env)
    requires RespondOutcome(records, requestUri, Deny, callerDid, env).result.Success?
    ensures var u := ParseAtUri(requestUri).value;
      var o := RespondOutcome(records, requestUri, Deny, callerDid, env);
      && o.result.value.followRecord == None
      && o.records.Keys == records.Keys
      && (forall k :: k in records && k != UpdateKey(u) ==> o.records[k] == records[k])
      && |o.commits| == 1
  {
  }

  /** Every commit of the call is made in the requester's repository (the
      locator's authority) and writes a record of that repository. */
  lemma WritesStayInRequesterRepo(records: map<AtUri, StoredRecord>, requestUri: string,
                                  response: string, callerDid: string, env: Env)
    ensures var o := RespondOutcome(records, requestUri, response, callerDid, env);
      forall c :: c in o.commits ==>
        ParseAtUri(requestUri).Some? && c.did == ParseAtUri(requestUri).value.host &&
        c.write.uri.host == c.did
  {
  }

  /** The status is never checked: a request that was already approved can
      be denied, as long as its CID is unchanged. */
  lemma ResolvedRequestCanFlip(records: map<AtUri, StoredRecord>, u: AtUri,
                               callerDid: string, env: Env)
    requires WellFormed(u) && u.collection == FollowRequestCollection
    requires u in records && records[u].value == map["subject" := callerDid, "status" := Approved]
    ensures var o := RespondOutcome(records, Format(u), Deny, callerDid, env);
      o.result.Success? && Prop(o.records[u].value, "status") == Some(Denied)
  {
    ParseFormat(u);
    assert UpdateKey(u) == u;
  }

  /** The two transactions are not atomic: when the follow record cannot be
      created the call fails, yet the request stays approved and its commit
      stays in the log. */
  lemma ApprovalWithoutFollow(records: map<AtUri, StoredRecord>, requestUri: string,
                              callerDid: string, env: Env)
    requires CheckRequest(records, requestUri, Approve, callerDid).Success?
    requires var u := ParseAtUri(requestUri).value;
      UpdateKey(u) in records && records[UpdateKey(u)].cid == records[u].cid
    requires AtUri(ParseAtUri(requestUri).value.host, FollowCollection, env.followRkey) in records
    ensures var u := ParseAtUri(requestUri).value;
      var o := RespondOutcome(records, requestUri, Approve, callerDid, env);
      && o.result == Failure(RecordExists)
      && Prop(o.records[UpdateKey(u)].value, "status") == Some(Approved)
      && |o.commits| == 1
  {
    var u := ParseAtUri(requestUri).value;
    assert AtUri(u.host, FollowCollection, env.followRkey) != UpdateKey(u) by {
      assert FollowCollection != FollowRequestCollection;
    }
  }

  /** Two responses prepared from the same read of a request: once the
      first has committed (its CID differs from the one read), the second
      fails with `InvalidSwap` and leaves the first one's result in place. */
  lemma ConcurrentResponsesConflict(records: map<AtUri, StoredRecord>, u: AtUri,
                                    callerDid: string, first: string, second: string,
                                    env1: Env, env2: Env)
    requires WellFormed(u) && u.collection == FollowRequestCollection
    requires ValidResponse(first) && ValidResponse(second)
    requires u in records && Prop(records[u].value, "subject") == Some(callerDid)
    requires env1.updateCid != records[u].cid
    requires first == Approve ==> AtUri(u.host, FollowCollection, env1.followRkey) !in records
    ensures var o1 := RespondOutcome(records, Format(u), first, callerDid, env1);
      var c := CheckRequest(records, Format(u), second, callerDid);
      && o1.result.Success?
      && c.Success?
      && ProcessWrite(o1.records, UpdateWrite(c.value, second, env2)) == Failure(InvalidSwap)
  {
    ParseFormat(u);
    assert UpdateKey(u) == u;
    assert AtUri(u.host, FollowCollection, env1.followRkey) != u by {
      assert FollowCollection != FollowRequestCollection;
    }
  }
}
