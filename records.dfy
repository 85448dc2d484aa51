/** Stored records as the handlers see them: untyped JSON objects with a
    content identifier, read from a per-account record store. */
module Records {
  import opened Wrappers
  import opened AtUris

  /** A content identifier in its string form (`cid.toString()`). */
  type Cid = string

  /** A record's JSON object; each property value is abstracted to a string.
      The handlers read it `as any`, so any property may be missing. */
  type RecordValue = map<string, string>

  /** Property access on the JSON object: `None` stands for `undefined`. */
  function Prop(v: RecordValue, key: string): (r: Option<string>)
    ensures r.Some? <==> key in v
    ensures r.Some? ==> r.value == v[key]
  {
    if key in v then Some(v[key]) else None
  }

  datatype StoredRecord = StoredRecord(value: RecordValue, cid: Cid)

  /** The outcome of `store.record.getRecord(uri, null)`: a record, nothing,
      or an exception (unreachable account, malformed locator, ...). */
  datatype Fetch = Found(record: StoredRecord) | Missing | Threw

  const FollowRequestCollection: string := "app.bsky.graph.followRequest"
  const FollowCollection: string := "app.bsky.graph.follow"
  const ProfileCollection: string := "app.bsky.actor.profile"
}
