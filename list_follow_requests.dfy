/** The `app.bsky.graph.listFollowRequests` handler: pick the outgoing or the
    incoming scan, filter by status, paginate, then enrich every entry with
    the requester's handle and profile. */
module ListFollowRequests {
  import opened Wrappers
  import opened AtUris
  import opened Records

  // ---------------------------------------------------------------------
  // Parameters

  datatype Direction = Incoming | Outgoing

  /** The query parameters as received; `None` is an omitted parameter. */
  datatype Params = Params(direction: Option<Direction>, status: Option<string>,
                           limit: Option<nat>, cursor: Option<string>)

  /** The parameters after the destructuring defaults. */
  datatype Settings = Settings(direction: Direction, status: string, limit: nat,
                               cursor: Option<string>)

  const DefaultStatus: string := "pending"
  const DefaultLimit: nat := 50
  /** The status filter value that passes every record. */
  const AnyStatus: string := "all"

  function ApplyDefaults(p: Params): (s: Settings)
    ensures s.direction == (if p.direction.Some? then p.direction.value else Incoming)
    ensures s.status == (if p.status.Some? then p.status.value else DefaultStatus)
    ensures s.limit == (if p.limit.Some? then p.limit.value else DefaultLimit)
    ensures s.cursor == p.cursor
  {
    Settings(p.direction.GetOr(Incoming), p.status.GetOr(DefaultStatus),
             p.limit.GetOr(DefaultLimit), p.cursor)
  }

  // ---------------------------------------------------------------------
  // Collaborators

  /** A row of `listRecordsForCollection`. */
  datatype ListedRecord = ListedRecord(uri: string, cid: Cid, value: RecordValue)

  /** A row of `getRecordBacklinks`: a record that links to the caller. */
  datatype Backlink = Backlink(uri: string)

  /** What a DID resolves to: a document (or `null`), or an exception. */
  datatype DidDocument = DidDocument(alsoKnownAs: Option<seq<string>>)
  datatype Resolution = Resolved(doc: Option<DidDocument>) | ResolutionFailed

  /** The services the handler reads from. `listRecords(limit, cursor)` lists
      the caller's follow-request collection; `backlinks` are the caller's
      backlinks on the `subject` path; `fetch` is `getRecord` on any account;
      `resolve` is the DID resolver. */
  datatype Services = Services(
    listRecords: (nat, Option<string>) -> seq<ListedRecord>,
    backlinks: seq<Backlink>,
    fetch: AtUri -> Fetch,
    resolve: string -> Resolution)

  // ---------------------------------------------------------------------
  // Entries before enrichment

  datatype RequestEntry = RequestEntry(
    uri: string, cid: Cid, requester: string,
    subject: Option<string>, status: Option<string>,
    createdAt: Option<string>, respondedAt: Option<string>)

  /** The status filter: `'all'` passes everything, otherwise the record's
      `status` property must equal the filter. */
  predicate KeepsStatus(status: string, value: RecordValue)
    ensures KeepsStatus(status, value) <==>
      status == AnyStatus || ("status" in value && value["status"] == status)
  {
    status == AnyStatus || Prop(value, "status") == Some(status)
  }

  /** The entry built from a stored record: its properties are copied. */
  function EntryOf(uri: string, cid: Cid, requester: string, value: RecordValue): RequestEntry {
    RequestEntry(uri, cid, requester, Prop(value, "subject"), Prop(value, "status"),
                 Prop(value, "createdAt"), Prop(value, "respondedAt"))
  }

  function OutgoingEntry(r: ListedRecord, userDid: string): RequestEntry {
    EntryOf(r.uri, r.cid, userDid, r.value)
  }

  /** The outgoing branch: `records.filter(status).map(toEntry)`. */
  function OutgoingEntries(records: seq<ListedRecord>, status: string, userDid: string)
    : (r: seq<RequestEntry>)
    ensures |r| <= |records|
    ensures forall e :: e in r ==> e.requester == userDid
    ensures forall e :: e in r ==> status == AnyStatus || e.status == Some(status)
  {
    if records == [] then []
    else
      var rest := OutgoingEntries(records[1..], status, userDid);
      if KeepsStatus(status, records[0].value) then [OutgoingEntry(records[0], userDid)] + rest
      else rest
  }

  /** The outgoing filter keeps a record iff it passes the status filter:
      every entry is a passing record's, and every passing record has one. */
  lemma {:induction false} OutgoingKeepsExactlyMatches(records: seq<ListedRecord>, status: string,
                                                       userDid: string)
    ensures forall e :: e in OutgoingEntries(records, status, userDid) ==>
      exists l :: l in records && KeepsStatus(status, l.value) && e == OutgoingEntry(l, userDid)
    ensures forall l :: l in records && KeepsStatus(status, l.value) ==>
      OutgoingEntry(l, userDid) in OutgoingEntries(records, status, userDid)
  {
    if records != [] {
      OutgoingKeepsExactlyMatches(records[1..], status, userDid);
      var r := OutgoingEntries(records, status, userDid);
      var rest := OutgoingEntries(records[1..], status, userDid);
      forall e | e in r
        ensures exists l :: l in records && KeepsStatus(status, l.value) && e == OutgoingEntry(l, userDid)
      {
        if e in rest {
          var l :| l in records[1..] && KeepsStatus(status, l.value) && e == OutgoingEntry(l, userDid);
          assert l in records;
        } else {
          assert records[0] in records;
        }
      }
      forall l | l in records && KeepsStatus(status, l.value)
        ensures OutgoingEntry(l, userDid) in r
      {
        if l != records[0] {
          assert l in records[1..];
        }
      }
    }
  }

  /** The outgoing filter distributes over concatenation: records are
      filtered independently and their entries keep the collection's order. */
  lemma {:induction false} OutgoingAppend(a: seq<ListedRecord>, b: seq<ListedRecord>, status: string,
                                          userDid: string)
    ensures OutgoingEntries(a + b, status, userDid) ==
            OutgoingEntries(a, status, userDid) + OutgoingEntries(b, status, userDid)
    decreases |a|
  {
    if a == [] {
      assert a + b == b;
    } else {
      assert (a + b)[0] == a[0];
      assert (a + b)[1..] == a[1..] + b;
      OutgoingAppend(a[1..], b, status, userDid);
    }
  }

  /** One listed record yields its entry exactly when it passes the filter. */
  lemma OutgoingOne(l: ListedRecord, status: string, userDid: string)
    ensures OutgoingEntries([l], status, userDid) ==
            if KeepsStatus(status, l.value) then [OutgoingEntry(l, userDid)] else []
  {
    assert [l][1..] == [];
  }

  /** With status `all` the outgoing branch keeps every record, in order. */
  lemma {:induction false} OutgoingAllKeepsEverything(records: seq<ListedRecord>, userDid: string)
    ensures var r := OutgoingEntries(records, AnyStatus, userDid);
      |r| == |records| && forall i :: 0 <= i < |r| ==> r[i] == OutgoingEntry(records[i], userDid)
  {
    if records != [] {
      OutgoingAllKeepsEverything(records[1..], userDid);
      var r := OutgoingEntries(records, AnyStatus, userDid);
      assert r == [OutgoingEntry(records[0], userDid)] + OutgoingEntries(records[1..], AnyStatus, userDid);
    }
  }

  /** The backlinks the incoming scan looks at: `backlinks.slice(0, n)`. */
  function Take<T>(s: seq<T>, n: nat): (r: seq<T>)
    ensures |r| <= n && |r| <= |s| && r == s[..|r|]
    ensures |s| >= n ==> |r| == n
    ensures |s| <= n ==> r == s
  {
    if |s| <= n then s else s[..n]
  }

  /** One step of the incoming scan: the DID and the record key are segments
      2 and 4 of `backlink.uri.split('/')`; the record is fetched from the
      requester's follow-request collection. A candidate yields nothing when
      it is malformed, missing, fails to load, or fails the filter. */
  function Candidate(b: Backlink, status: string, fetch: AtUri -> Fetch): (r: seq<RequestEntry>)
    ensures |r| <= 1
    ensures r != [] ==> var parts := Split(b.uri, '/');
      |parts| >= 5 && r[0].uri == b.uri && r[0].requester == parts[2] &&
      fetch(AtUri(parts[2], FollowRequestCollection, parts[4])).Found?
  {
    var parts := Split(b.uri, '/');
    if |parts| < 5 then []
    else
      match fetch(AtUri(parts[2], FollowRequestCollection, parts[4]))
      case Found(rec) =>
        if KeepsStatus(status, rec.value) then [EntryOf(b.uri, rec.cid, parts[2], rec.value)] else []
      case Missing => []
      case Threw => []
  }

  /** What the incoming scan collects from a list of candidates, in order. */
  function Hydrate(bs: seq<Backlink>, status: string, fetch: AtUri -> Fetch): (r: seq<RequestEntry>)
    ensures |r| <= |bs|
    ensures forall e :: e in r ==> status == AnyStatus || e.status == Some(status)
  {
    if bs == [] then []
    else
      var rest := Hydrate(bs[..|bs| - 1], status, fetch);
      var last := Candidate(bs[|bs| - 1], status, fetch);
      assert forall e :: e in rest + last ==> e in rest || e in last;
      rest + last
  }

  /** The incoming scan: `for (const backlink of backlinks.slice(0, limit + 1))`,
      pushing the entries that load and pass the filter and skipping the rest. */
  method ScanIncoming(backlinks: seq<Backlink>, status: string, limit: nat, fetch: AtUri -> Fetch)
    returns (requests: seq<RequestEntry>)
    ensures requests == Hydrate(Take(backlinks, limit + 1), status, fetch)
    ensures |requests| <= limit + 1
  {
    var candidates := Take(backlinks, limit + 1);
    requests := [];
    for i := 0 to |candidates|
      invariant requests == Hydrate(candidates[..i], status, fetch)
      invariant |requests| <= i
    {
      assert candidates[..i + 1][..i] == candidates[..i];
      var backlink := candidates[i];
      var uriParts := Split(backlink.uri, '/');
      if |uriParts| < 5 {
        continue;
      }
      var requesterDid := uriParts[2];
      var rkey := uriParts[4];
      var record := fetch(AtUri(requesterDid, FollowRequestCollection, rkey));
      if record.Found? {
        var recordValue := record.record.value;
        if status == AnyStatus || Prop(recordValue, "status") == Some(status) {
          requests := requests + [EntryOf(backlink.uri, record.record.cid, requesterDid, recordValue)];
        }
      }
    }
    assert candidates[..|candidates|] == candidates;
  }

  /** The scan distributes over concatenation: candidates are handled
      independently and their entries keep the candidates' order. */
  lemma {:induction false} HydrateAppend(a: seq<Backlink>, b: seq<Backlink>, status: string,
                                         fetch: AtUri -> Fetch)
    ensures Hydrate(a + b, status, fetch) == Hydrate(a, status, fetch) + Hydrate(b, status, fetch)
    decreases |b|
  {
    if b == [] {
      assert a + b == a;
    } else {
      var b' := b[..|b| - 1];
      assert (a + b)[..|a + b| - 1] == a + b';
      assert (a + b)[|a + b| - 1] == b[|b| - 1];
      HydrateAppend(a, b', status, fetch);
    }
  }

  /** Every collected entry is what one of the candidates yields. */
  lemma {:induction false} HydrateOrigin(bs: seq<Backlink>, status: string, fetch: AtUri -> Fetch)
    ensures forall e :: e in Hydrate(bs, status, fetch) ==>
      exists j :: 0 <= j < |bs| && Candidate(bs[j], status, fetch) == [e]
  {
    if bs != [] {
      var init := bs[..|bs| - 1];
      var last := Candidate(bs[|bs| - 1], status, fetch);
      HydrateOrigin(init, status, fetch);
      forall e | e in Hydrate(bs, status, fetch)
        ensures exists j :: 0 <= j < |bs| && Candidate(bs[j], status, fetch) == [e]
      {
        if e in Hydrate(init, status, fetch) {
          var j :| 0 <= j < |init| && Candidate(init[j], status, fetch) == [e];
          assert init[j] == bs[j];
        } else {
          assert e in last;
          assert last == [e];
        }
      }
    }
  }

  /** A candidate that fails to load is skipped and the scan goes on with the
      candidates after it. */
  lemma HydrateSkipsFailure(bs: seq<Backlink>, i: nat, status: string, fetch: AtUri -> Fetch)
    requires i < |bs|
    requires var parts := Split(bs[i].uri, '/');
      |parts| >= 5 && !fetch(AtUri(parts[2], FollowRequestCollection, parts[4])).Found?
    ensures Hydrate(bs, status, fetch) == Hydrate(bs[..i], status, fetch) + Hydrate(bs[i + 1..], status, fetch)
  {
    assert bs == bs[..i] + ([bs[i]] + bs[i + 1..]);
    HydrateAppend(bs[..i], [bs[i]] + bs[i + 1..], status, fetch);
    HydrateAppend([bs[i]], bs[i + 1..], status, fetch);
    OneCandidate(bs[i], status, fetch);
  }

  /** What a backlink whose uri is a well-formed locator yields: the entry
      takes the backlink's own uri, the requester is the locator's DID, the
      record comes from the requester's follow-request collection under the
      same record key, and its properties are copied. Nothing constrains the
      fetched record's `subject` to be the caller. */
  lemma CandidateOfLocator(u: AtUri, status: string, fetch: AtUri -> Fetch)
    requires WellFormed(u)
    ensures var c := Candidate(Backlink(Format(u)), status, fetch);
      match fetch(AtUri(u.host, FollowRequestCollection, u.rkey))
      case Found(rec) =>
        c == (if KeepsStatus(status, rec.value) then [EntryOf(Format(u), rec.cid, u.host, rec.value)] else [])
      case _ => c == []
  {
    FormatSegments(u);
  }

  // ---------------------------------------------------------------------
  // Pagination

  datatype Page = Page(requests: seq<RequestEntry>, cursor: Option<string>)

  /** More than `limit` entries: the cursor is entry `limit`'s uri and the
      page keeps the first `limit`; otherwise no cursor and all entries. */
  function Paginate(requests: seq<RequestEntry>, limit: nat): (p: Page)
    ensures |p.requests| <= limit && |p.requests| <= |requests|
    ensures p.requests == requests[..|p.requests|]
    ensures p.cursor.Some? <==> |requests| > limit
    ensures p.cursor.Some? ==> |p.requests| == limit && p.cursor.value == requests[limit].uri
    ensures p.cursor.None? ==> p.requests == requests
  {
    if |requests| > limit then Page(requests[..limit], Some(requests[limit].uri))
    else Page(requests, None)
  }

  // ---------------------------------------------------------------------
  // Enrichment

  datatype Requester = Requester(did: string, handle: string,
                                 displayName: Option<string>, avatar: Option<string>)

  datatype RequestView = RequestView(
    uri: string, cid: Cid, requester: Requester,
    subject: Option<string>, status: Option<string>,
    createdAt: Option<string>, respondedAt: Option<string>)

  predicate IsAtAlias(aka: string) {
    |aka| >= |Scheme| && aka[..|Scheme|] == Scheme
  }

  /** `alsoKnownAs.find((aka) => aka.startsWith('at://'))`, as an index. */
  function FirstAtAlias(akas: seq<string>): (r: Option<nat>)
    ensures r.Some? ==> r.value < |akas| && IsAtAlias(akas[r.value]) &&
                        forall j :: 0 <= j < r.value ==> !IsAtAlias(akas[j])
    ensures r.None? ==> forall j :: 0 <= j < |akas| ==> !IsAtAlias(akas[j])
  {
    if akas == [] then None
    else if IsAtAlias(akas[0]) then Some(0)
    else
      match FirstAtAlias(akas[1..])
      case Some(i) => Some(i + 1)
      case None => None
  }

  /** A resolution that carries an alias starting with `at://`. */
  predicate HasAtAlias(resolution: Resolution) {
    resolution.Resolved? && resolution.doc.Some? && resolution.doc.value.alsoKnownAs.Some? &&
    exists j :: 0 <= j < |resolution.doc.value.alsoKnownAs.value| &&
                IsAtAlias(resolution.doc.value.alsoKnownAs.value[j])
  }

  /** The handle: the first `at://` alias with the prefix removed; the DID
      itself when resolution fails, yields no document or has no such alias. */
  function ResolveHandle(did: string, resolution: Resolution): (handle: string)
    ensures !HasAtAlias(resolution) ==> handle == did
    ensures HasAtAlias(resolution) ==>
      var akas := resolution.doc.value.alsoKnownAs.value;
      exists i :: 0 <= i < |akas| && akas[i] == Scheme + handle &&
                  forall j :: 0 <= j < i ==> !IsAtAlias(akas[j])
  {
    match resolution
    case ResolutionFailed => did
    case Resolved(None) => did
    case Resolved(Some(doc)) =>
      match doc.alsoKnownAs
      case None => did
      case Some(akas) =>
        match FirstAtAlias(akas)
        case None => did
        case Some(i) =>
          assert akas[i] == Scheme + akas[i][|Scheme|..];
          akas[i][|Scheme|..]
  }

  /** The locator of an account's profile record. */
  function ProfileUri(did: string): AtUri {
    AtUri(did, ProfileCollection, "self")
  }

  /** The requester view: DID, handle, and `displayName` and `avatar` from
      the profile record when it loads. */
  function RequesterOf(did: string, resolve: string -> Resolution, fetch: AtUri -> Fetch)
    : (r: Requester)
    ensures r.did == did
    ensures r.handle == ResolveHandle(did, resolve(did))
    ensures fetch(ProfileUri(did)).Found? ==>
      var profile := fetch(ProfileUri(did)).record.value;
      r.displayName == Prop(profile, "displayName") && r.avatar == Prop(profile, "avatar")
    ensures !fetch(ProfileUri(did)).Found? ==> r.displayName == None && r.avatar == None
  {
    var handle := ResolveHandle(did, resolve(did));
    match fetch(ProfileUri(did))
    case Found(profile) =>
      Requester(did, handle, Prop(profile.value, "displayName"), Prop(profile.value, "avatar"))
    case _ => Requester(did, handle, None, None)
  }

  /** One enriched entry: every property of the entry passes through. */
  function Enrich(e: RequestEntry, resolve: string -> Resolution, fetch: AtUri -> Fetch)
    : (v: RequestView)
    ensures v.uri == e.uri && v.cid == e.cid && v.subject == e.subject && v.status == e.status &&
            v.createdAt == e.createdAt && v.respondedAt == e.respondedAt
    ensures v.requester == RequesterOf(e.requester, resolve, fetch)
  {
    RequestView(e.uri, e.cid, RequesterOf(e.requester, resolve, fetch),
                e.subject, e.status, e.createdAt, e.respondedAt)
  }

  /** When neither the DID nor the profile can be read, the requester
      degrades to `{did, handle: did}`, the same object the handler's
      outer `catch` returns. */
  lemma EnrichDegrades(e: RequestEntry, resolve: string -> Resolution, fetch: AtUri -> Fetch)
    requires !HasAtAlias(resolve(e.requester))
    requires !fetch(ProfileUri(e.requester)).Found?
    ensures Enrich(e, resolve, fetch).requester == Requester(e.requester, e.requester, None, None)
  {
  }

  /** `Promise.all(requests.map(enrich))`: one view per entry, in order. */
  function EnrichAll(es: seq<RequestEntry>, resolve: string -> Resolution, fetch: AtUri -> Fetch)
    : (r: seq<RequestView>)
    ensures |r| == |es|
    ensures forall i :: 0 <= i < |r| ==> r[i] == Enrich(es[i], resolve, fetch)
  {
    if es == [] then [] else [Enrich(es[0], resolve, fetch)] + EnrichAll(es[1..], resolve, fetch)
  }

  // ---------------------------------------------------------------------
  // The handler

  datatype ListOutput = ListOutput(requests: seq<RequestView>, cursor: Option<string>)

  /** The entries the chosen scan collects, before pagination: the caller's
      own listed requests, or what the first `limit + 1` backlinks yield. */
  function Collect(userDid: string, s: Settings, svc: Services): (r: seq<RequestEntry>)
    ensures s.direction == Outgoing ==>
      |r| <= |svc.listRecords(s.limit + 1, s.cursor)| && forall e :: e in r ==> e.requester == userDid
    ensures s.direction == Incoming ==> |r| <= s.limit + 1
    ensures forall e :: e in r ==> s.status == AnyStatus || e.status == Some(s.status)
  {
    if s.direction == Outgoing then
      OutgoingEntries(svc.listRecords(s.limit + 1, s.cursor), s.status, userDid)
    else
      Hydrate(Take(svc.backlinks, s.limit + 1), s.status, svc.fetch)
  }

  /** The response of the handler for caller `userDid`. */
  function ListSpec(userDid: string, params: Params, svc: Services): (out: ListOutput)
    ensures var s := ApplyDefaults(params);
      && |out.requests| <= s.limit
      && (out.cursor.Some? <==> |Collect(userDid, s, svc)| > s.limit)
  {
    var s := ApplyDefaults(params);
    var page := Paginate(Collect(userDid, s, svc), s.limit);
    ListOutput(EnrichAll(page.requests, svc.resolve, svc.fetch), page.cursor)
  }

  /** The handler body. */
  method ListFollowRequests(userDid: string, params: Params, svc: Services)
    returns (out: ListOutput)
    ensures out == ListSpec(userDid, params, svc)
    ensures |out.requests| <= ApplyDefaults(params).limit
  {
    var direction := params.direction.GetOr(Incoming);
    var status := params.status.GetOr(DefaultStatus);
    var limit := params.limit.GetOr(DefaultLimit);
    var cursor := params.cursor;

    var requests: seq<RequestEntry> := [];
    if direction == Outgoing {
      var records := svc.listRecords(limit + 1, cursor);
      requests := OutgoingEntries(records, status, userDid);
    } else {
      requests := ScanIncoming(svc.backlinks, status, limit, svc.fetch);
    }

    ghost var collected := requests;
    assert collected == Collect(userDid, ApplyDefaults(params), svc);

    var nextCursor: Option<string> := None;
    if |requests| > limit {
      nextCursor := Some(requests[limit].uri);
      requests := requests[..limit];
    }
    assert Page(requests, nextCursor) == Paginate(collected, limit);

    var enrichedRequests := EnrichAll(requests, svc.resolve, svc.fetch);
    out := ListOutput(enrichedRequests, nextCursor);
  }

  // ---------------------------------------------------------------------
  // Properties of the handler

  /** Omitted parameters behave as `direction = 'incoming'`,
      `status = 'pending'` and `limit = 50`. */
  lemma DefaultsApply(userDid: string, p: Params, svc: Services)
    ensures ListSpec(userDid, p.(direction := None), svc) ==
            ListSpec(userDid, p.(direction := Some(Incoming)), svc)
    ensures ListSpec(userDid, p.(status := None), svc) ==
            ListSpec(userDid, p.(status := Some(DefaultStatus)), svc)
    ensures ListSpec(userDid, p.(limit := None), svc) ==
            ListSpec(userDid, p.(limit := Some(DefaultLimit)), svc)
  {
  }

  /** Every page entry passes the status filter, in both directions. */
  lemma ListedStatusMatches(userDid: string, p: Params, svc: Services)
    ensures var s := ApplyDefaults(p);
      forall v :: v in ListSpec(userDid, p, svc).requests ==>
        s.status == AnyStatus || v.status == Some(s.status)
  {
    var s := ApplyDefaults(p);
    var collected := Collect(userDid, s, svc);
    assert forall e :: e in collected ==> s.status == AnyStatus || e.status == Some(s.status);
    var page := Paginate(collected, s.limit);
    var out := ListSpec(userDid, p, svc);
    forall v | v in out.requests
      ensures s.status == AnyStatus || v.status == Some(s.status)
    {
      var i :| 0 <= i < |out.requests| && out.requests[i] == v;
      assert v.status == page.requests[i].status;
      assert page.requests[i] == collected[i];
      assert collected[i] in collected;
    }
  }

  /** Outgoing requests are the caller's own: the requester is the caller. */
  lemma OutgoingRequesterIsCaller(userDid: string, p: Params, svc: Services)
    requires ApplyDefaults(p).direction == Outgoing
    ensures forall v :: v in ListSpec(userDid, p, svc).requests ==> v.requester.did == userDid
  {
    var s := ApplyDefaults(p);
    var collected := Collect(userDid, s, svc);
    var page := Paginate(collected, s.limit);
    var out := ListSpec(userDid, p, svc);
    forall v | v in out.requests
      ensures v.requester.did == userDid
    {
      var i :| 0 <= i < |out.requests| && out.requests[i] == v;
      assert page.requests[i] == collected[i];
      assert collected[i] in collected;
    }
  }

  /** The incoming branch never uses the cursor: every cursor gives the same
      page, so handing back the cursor it returned yields the first page again. */
  lemma IncomingIgnoresCursor(userDid: string, p: Params, c: Option<string>, svc: Services)
    requires ApplyDefaults(p).direction == Incoming
    ensures ListSpec(userDid, p.(cursor := c), svc) == ListSpec(userDid, p, svc)
  {
  }

  /** The incoming branch looks only at the first `limit + 1` backlinks:
      whatever follows them does not change the response. */
  lemma IncomingReadsLimitPlusOne(userDid: string, p: Params, svc: Services, more: seq<Backlink>)
    requires ApplyDefaults(p).direction == Incoming
    requires |svc.backlinks| >= ApplyDefaults(p).limit + 1
    ensures ListSpec(userDid, p, svc.(backlinks := svc.backlinks + more)) == ListSpec(userDid, p, svc)
  {
    var n := ApplyDefaults(p).limit + 1;
    assert Take(svc.backlinks + more, n) == Take(svc.backlinks, n);
  }

  /** Incoming entries are not checked against the caller: a backlink the
      index still holds for a record whose `subject` is now another account
      is listed as it is. */
  lemma IncomingSubjectNotChecked(userDid: string, other: string, u: AtUri, rec: StoredRecord,
                                  svc: Services)
    requires WellFormed(u) && other != userDid
    requires rec.value == map["subject" := other, "status" := DefaultStatus]
    requires svc.backlinks == [Backlink(Format(u))]
    requires svc.fetch(AtUri(u.host, FollowRequestCollection, u.rkey)) == Found(rec)
    ensures var out := ListSpec(userDid, Params(None, None, None, None), svc);
      |out.requests| == 1 && out.requests[0].subject == Some(other)
  {
    CandidateOfLocator(u, DefaultStatus, svc.fetch);
    var bs := Take(svc.backlinks, DefaultLimit + 1);
    assert bs == [Backlink(Format(u))];
    assert bs[..0] == [];
    assert Hydrate(bs, DefaultStatus, svc.fetch) == Candidate(bs[0], DefaultStatus, svc.fetch);
  }

  /** The backlink index agrees with the records: the backlink's uri is the
      locator of a follow request, and the record stored there, if any,
      names `userDid` as its subject. */
  ghost predicate Indexed(b: Backlink, userDid: string, fetch: AtUri -> Fetch) {
    exists u :: WellFormed(u) && u.collection == FollowRequestCollection && b.uri == Format(u) &&
      (fetch(u).Found? ==> Prop(fetch(u).record.value, "subject") == Some(userDid))
  }

  /** Over an index that agrees with the records, every incoming entry's
      `subject` is the caller: the scan relies on the backlink query for it. */
  lemma HydrateSubjects(bs: seq<Backlink>, userDid: string, status: string, fetch: AtUri -> Fetch)
    requires forall i :: 0 <= i < |bs| ==> Indexed(bs[i], userDid, fetch)
    ensures forall e :: e in Hydrate(bs, status, fetch) ==> e.subject == Some(userDid)
  {
    HydrateOrigin(bs, status, fetch);
    forall e | e in Hydrate(bs, status, fetch)
      ensures e.subject == Some(userDid)
    {
      var j :| 0 <= j < |bs| && Candidate(bs[j], status, fetch) == [e];
      var u :| WellFormed(u) && u.collection == FollowRequestCollection && bs[j].uri == Format(u) &&
        (fetch(u).Found? ==> Prop(fetch(u).record.value, "subject") == Some(userDid));
      CandidateOfLocator(u, status, fetch);
      assert AtUri(u.host, FollowRequestCollection, u.rkey) == u;
    }
  }

  /** Incoming requests name the caller as subject whenever the backlink
      index agrees with the records. */
  lemma IncomingSubjectIsCaller(userDid: string, p: Params, svc: Services)
    requires ApplyDefaults(p).direction == Incoming
    requires forall i :: 0 <= i < |svc.backlinks| ==> Indexed(svc.backlinks[i], userDid, svc.fetch)
    ensures forall v :: v in ListSpec(userDid, p, svc).requests ==> v.subject == Some(userDid)
  {
    var s := ApplyDefaults(p);
    var bs := Take(svc.backlinks, s.limit + 1);
    assert forall i :: 0 <= i < |bs| ==> bs[i] == svc.backlinks[i];
    HydrateSubjects(bs, userDid, s.status, svc.fetch);
    var collected := Collect(userDid, s, svc);
    var page := Paginate(collected, s.limit);
    var out := ListSpec(userDid, p, svc);
    forall v | v in out.requests
      ensures v.subject == Some(userDid)
    {
      var i :| 0 <= i < |out.requests| && out.requests[i] == v;
      assert page.requests[i] == collected[i];
      assert collected[i] in collected;
    }
  }

  /** A page may end without a cursor although more matching requests exist:
      with `limit = 1`, a non-matching first candidate uses up one of the two
      candidates the scan looks at. */
  lemma IncomingCursorMissesLaterMatches(userDid: string, u1: AtUri, u2: AtUri, u3: AtUri,
                                         svc: Services)
    requires WellFormed(u1) && WellFormed(u2) && WellFormed(u3)
    requires svc.backlinks == [Backlink(Format(u1)), Backlink(Format(u2)), Backlink(Format(u3))]
    requires svc.fetch(AtUri(u1.host, FollowRequestCollection, u1.rkey)) ==
             Found(StoredRecord(map["status" := "denied"], "c1"))
    requires svc.fetch(AtUri(u2.host, FollowRequestCollection, u2.rkey)) ==
             Found(StoredRecord(map["status" := DefaultStatus], "c2"))
    requires svc.fetch(AtUri(u3.host, FollowRequestCollection, u3.rkey)) ==
             Found(StoredRecord(map["status" := DefaultStatus], "c3"))
    ensures var out := ListSpec(userDid, Params(None, None, Some(1), None), svc);
      |out.requests| == 1 && out.cursor == None
    ensures |Hydrate(svc.backlinks, DefaultStatus, svc.fetch)| == 2
  {
    var b1, b2, b3 := Backlink(Format(u1)), Backlink(Format(u2)), Backlink(Format(u3));
    CandidateCount(u1, DefaultStatus, svc.fetch, StoredRecord(map["status" := "denied"], "c1"));
    CandidateCount(u2, DefaultStatus, svc.fetch, StoredRecord(map["status" := DefaultStatus], "c2"));
    CandidateCount(u3, DefaultStatus, svc.fetch, StoredRecord(map["status" := DefaultStatus], "c3"));
    HydrateThree(b1, b2, b3, DefaultStatus, svc.fetch);
    assert Take(svc.backlinks, 2) == [b1, b2];
    var s := ApplyDefaults(Params(None, None, Some(1), None));
    var collected := Collect(userDid, s, svc);
    assert |collected| == 1;
    var page := Paginate(collected, 1);
    assert page.requests == collected;
  }

  /** Three pending incoming requests with `limit = 2`: the page holds the
      first two, in backlink order, and the cursor is the third one's uri. */
  lemma IncomingFirstPage(userDid: string, u1: AtUri, u2: AtUri, u3: AtUri,
                          r1: StoredRecord, r2: StoredRecord, r3: StoredRecord, svc: Services)
    requires WellFormed(u1) && WellFormed(u2) && WellFormed(u3)
    requires svc.backlinks == [Backlink(Format(u1)), Backlink(Format(u2)), Backlink(Format(u3))]
    requires svc.fetch(AtUri(u1.host, FollowRequestCollection, u1.rkey)) == Found(r1)
    requires svc.fetch(AtUri(u2.host, FollowRequestCollection, u2.rkey)) == Found(r2)
    requires svc.fetch(AtUri(u3.host, FollowRequestCollection, u3.rkey)) == Found(r3)
    requires Prop(r1.value, "status") == Prop(r2.value, "status") == Prop(r3.value, "status") ==
             Some(DefaultStatus)
    ensures var out := ListSpec(userDid, Params(None, None, Some(2), None), svc);
      && |out.requests| == 2
      && out.requests[0].uri == Format(u1) && out.requests[1].uri == Format(u2)
      && out.cursor == Some(Format(u3))
  {
    var b1, b2, b3 := Backlink(Format(u1)), Backlink(Format(u2)), Backlink(Format(u3));
    CandidateEntry(u1, DefaultStatus, svc.fetch, r1);
    CandidateEntry(u2, DefaultStatus, svc.fetch, r2);
    CandidateEntry(u3, DefaultStatus, svc.fetch, r3);
    HydrateThree(b1, b2, b3, DefaultStatus, svc.fetch);
    assert Take(svc.backlinks, 3) == svc.backlinks;
    var collected := Collect(userDid, ApplyDefaults(Params(None, None, Some(2), None)), svc);
    assert |collected| == 3;
    assert collected[0].uri == Format(u1) && collected[1].uri == Format(u2) && collected[2].uri == Format(u3);
  }

  /** The entry a candidate naming a well-formed locator yields when its
      record loads and passes the filter. */
  lemma CandidateEntry(u: AtUri, status: string, fetch: AtUri -> Fetch, rec: StoredRecord)
    requires WellFormed(u)
    requires fetch(AtUri(u.host, FollowRequestCollection, u.rkey)) == Found(rec)
    requires KeepsStatus(status, rec.value)
    ensures Candidate(Backlink(Format(u)), status, fetch) == [EntryOf(Format(u), rec.cid, u.host, rec.value)]
  {
    FormatSegments(u);
  }

  /** How many entries a candidate naming a well-formed locator yields. */
  lemma CandidateCount(u: AtUri, status: string, fetch: AtUri -> Fetch, rec: StoredRecord)
    requires WellFormed(u)
    requires fetch(AtUri(u.host, FollowRequestCollection, u.rkey)) == Found(rec)
    ensures |Candidate(Backlink(Format(u)), status, fetch)| == if KeepsStatus(status, rec.value) then 1 else 0
  {
    FormatSegments(u);
  }

  /** The scan of two and of three candidates, one candidate at a time. */
  lemma HydrateThree(b1: Backlink, b2: Backlink, b3: Backlink, status: string, fetch: AtUri -> Fetch)
    ensures Hydrate([b1, b2], status, fetch) == Candidate(b1, status, fetch) + Candidate(b2, status, fetch)
    ensures Hydrate([b1, b2, b3], status, fetch) ==
            Candidate(b1, status, fetch) + Candidate(b2, status, fetch) + Candidate(b3, status, fetch)
  {
    HydrateAppend([b1], [b2], status, fetch);
    HydrateAppend([b1, b2], [b3], status, fetch);
    assert [b1] + [b2] == [b1, b2];
    assert [b1, b2] + [b3] == [b1, b2, b3];
    OneCandidate(b1, status, fetch);
    OneCandidate(b2, status, fetch);
    OneCandidate(b3, status, fetch);
  }

  /** A single candidate yields exactly what its step yields. */
  lemma OneCandidate(b: Backlink, status: string, fetch: AtUri -> Fetch)
    ensures Hydrate([b], status, fetch) == Candidate(b, status, fetch)
  {
    assert [b][..0] == [];
  }
}
