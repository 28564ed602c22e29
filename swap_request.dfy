/** The SwapRequest schema (backend/models/swapRequest.js): the record a swap
 *  request is stored as, its status enumeration with the default `pending`,
 *  and what Mongoose does when a new document is built from field values. */
module SwapRequestSchema {
  import opened Common

  datatype Status = Pending | Accepted | Rejected | Cancelled

  /** The enum string stored for each status. */
  function StatusName(s: Status): string
  {
    match s
    case Pending => "pending"
    case Accepted => "accepted"
    case Rejected => "rejected"
    case Cancelled => "cancelled"
  }

  /** The strings the `enum` validator admits. */
  predicate IsStatusName(s: string)
  {
    s == "pending" || s == "accepted" || s == "rejected" || s == "cancelled"
  }

  /** Reads an enum string back; any other string is not a status. */
  function ParseStatus(s: string): (r: Option<Status>)
    ensures r.Some? <==> IsStatusName(s)
    ensures r.Some? ==> StatusName(r.value) == s
  {
    if s == "pending" then Some(Pending)
    else if s == "accepted" then Some(Accepted)
    else if s == "rejected" then Some(Rejected)
    else if s == "cancelled" then Some(Cancelled)
    else None
  }

  /** Every status survives being written as its enum string and read back. */
  lemma ParseStatusName(s: Status)
    ensures IsStatusName(StatusName(s)) && ParseStatus(StatusName(s)) == Some(s)
  {
  }

  /** Accepted, rejected and cancelled are leaves of the workflow. */
  predicate IsTerminal(s: Status)
  {
    s != Pending
  }

  /** A stored swap request. `createdAt` and `updatedAt` are the timestamps
   *  the schema's `timestamps: true` option maintains. */
  datatype SwapRequest = SwapRequest(
    requester: UserId,
    recipient: UserId,
    skillOffered: string,
    skillRequested: string,
    status: Status,
    message: string,
    createdAt: nat,
    updatedAt: nat)

  /** The field values a new SwapRequest document is built from; `None` is a
   *  field left undefined. */
  datatype SwapRequestDoc = SwapRequestDoc(
    requester: Option<UserId>,
    recipient: Option<UserId>,
    skillOffered: Option<string>,
    skillRequested: Option<string>,
    status: Option<string>,
    message: Option<string>)

  const ValidationFailed := "SwapRequest validation failed"

  /** `new SwapRequest(doc)` followed by validation at time `now`: the four
   *  required paths must be set (a required string must also be non-empty),
   *  `status` defaults to `pending` and must be an enum string, `message` is
   *  optional and trimmed, and both timestamps are `now`. */
  function BuildSwapRequest(doc: SwapRequestDoc, now: nat): (r: Result<SwapRequest>)
    ensures r.Ok? <==>
      doc.requester.Some? && doc.recipient.Some? && Present(doc.skillOffered) && Present(doc.skillRequested)
      && (doc.status.None? || IsStatusName(doc.status.value))
    ensures r.Thrown? ==> r.message == ValidationFailed
    ensures r.Ok? ==>
      && r.value.requester == doc.requester.value
      && r.value.recipient == doc.recipient.value
      && r.value.skillOffered == doc.skillOffered.value
      && r.value.skillRequested == doc.skillRequested.value
      && r.value.createdAt == now && r.value.updatedAt == now
    ensures r.Ok? && doc.status.None? ==> r.value.status == Pending
    ensures r.Ok? && doc.status.Some? ==> StatusName(r.value.status) == doc.status.value
    ensures r.Ok? ==> r.value.message == (if doc.message.Some? then Trim(doc.message.value) else "")
  {
    if doc.requester.None? || doc.recipient.None? || !Present(doc.skillOffered) || !Present(doc.skillRequested) then
      Thrown(ValidationFailed)
    else
      var status := if doc.status.None? then Some(Pending) else ParseStatus(doc.status.value);
      if status.None? then Thrown(ValidationFailed)
      else
        Ok(SwapRequest(doc.requester.value, doc.recipient.value, doc.skillOffered.value, doc.skillRequested.value,
                       status.value, if doc.message.Some? then Trim(doc.message.value) else "", now, now))
  }
}
