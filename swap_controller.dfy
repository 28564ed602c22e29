/** The swap-request handlers (backend/controllers/swapRequestController.js):
 *  field and bound checks before the service is called, and the mapping of
 *  the service's error messages, compared as exact strings, to HTTP
 *  statuses. */
module SwapController {
  import opened Common
  import opened SwapRequestSchema
  import opened UserSchema
  import opened UserStore
  import opened SwapService

  const InternalError := "Internal server error"

  // ---------------------------------------------------------------------
  // create

  datatype CreateBody = CreateBody(recipientId: Option<string>, skillOffered: Option<string>,
                                   skillRequested: Option<string>, message: Option<string>)

  const FieldsRequired := "Recipient ID, skill offered, and skill requested are required"
  const SelfRequest := "Cannot create a swap request to yourself"

  /** The checks before `createSwapRequest` as written. `requesterId` is
   *  `req.userId`, an ObjectId, and `recipientId` a string from the body,
   *  so `requesterId === recipientId` never holds and the self-request
   *  guard never answers. */
  function CreatePrecheckAsWritten(requesterId: UserId, body: CreateBody): (r: Option<Reply<Entry>>)
    ensures r.None? <==> Present(body.recipientId) && Present(body.skillOffered) && Present(body.skillRequested)
    ensures r.Some? ==> r.value == Refuse(400, FieldsRequired)
  {
    if !Present(body.recipientId) || !Present(body.skillOffered) || !Present(body.skillRequested) then
      Some(Refuse(400, FieldsRequired))
    else None
  }

  /** The self-request guard the code evidently intends: the recipient id
   *  names the requester. */
  predicate IsSelfRequest(requesterId: UserId, recipientIdText: string)
  {
    CastObjectId(recipientIdText) == Some(requesterId)
  }

  /** The checks before `createSwapRequest`, with the guard comparing ids. */
  function CreatePrecheck(requesterId: UserId, body: CreateBody): (r: Option<Reply<Entry>>)
    ensures r.None? <==> Present(body.recipientId) && Present(body.skillOffered) && Present(body.skillRequested)
                         && !IsSelfRequest(requesterId, body.recipientId.value)
    ensures r.Some? ==> r.value.Refuse? && r.value.status == 400
  {
    if !Present(body.recipientId) || !Present(body.skillOffered) || !Present(body.skillRequested) then
      Some(Refuse(400, FieldsRequired))
    else if IsSelfRequest(requesterId, body.recipientId.value) then Some(Refuse(400, SelfRequest))
    else None
  }

  /** A request to oneself passes the checks as written and is refused by
   *  the corrected guard. */
  lemma SelfRequestSlipsThrough(requesterId: UserId, skill: string)
    requires IsObjectId(requesterId) && skill != ""
    ensures var body := CreateBody(Some(requesterId), Some(skill), Some(skill), None);
      CreatePrecheckAsWritten(requesterId, body).None?
      && CreatePrecheck(requesterId, body) == Some(Refuse(400, SelfRequest))
  {
    CastCanonical(requesterId);
  }

  /** A missing recipient or skill is refused with 400 by both versions,
   *  before the service is called. */
  lemma MissingFieldsRefused(requesterId: UserId, body: CreateBody)
    requires !Present(body.recipientId) || !Present(body.skillOffered) || !Present(body.skillRequested)
    ensures CreatePrecheck(requesterId, body) == CreatePrecheckAsWritten(requesterId, body) == Some(Refuse(400, FieldsRequired))
  {
  }

  /** The `catch` block of the create handler. */
  function CreateErrorReply(message: string): (r: Reply<Entry>)
    ensures r.Refuse?
    ensures r.status == 404 <==> message == RecipientNotFound
    ensures r.status == 400 <==> message == InvalidSkill
    ensures r.status == 409 <==> message == DuplicateExists
    ensures r.status == 500 <==> message != RecipientNotFound && message != InvalidSkill && message != DuplicateExists
  {
    if message == RecipientNotFound then Refuse(404, "Recipient user not found")
    else if message == InvalidSkill then Refuse(400, "Invalid skills. Skills must be from your offered/wanted lists")
    else if message == DuplicateExists then Refuse(409, "A swap request already exists between these users for these skills")
    else Refuse(500, InternalError)
  }

  /** A private or banned recipient has no mapping of its own and answers 500. */
  lemma PrivateRecipientIs500()
    ensures CreateErrorReply(CannotSendToUser).status == 500
  {
  }

  /** No stored request is addressed to its own requester. */
  ghost predicate NoSelfRequests(reqs: map<RequestId, SwapRequest>)
  {
    forall id :: id in reqs ==> reqs[id].requester != reqs[id].recipient
  }

  /** A request that passes the corrected checks and the service is never
   *  addressed to its own requester, so storing it keeps
   *  `NoSelfRequests`. */
  lemma CreatedNotToSelf(users: seq<User>, reqs: map<RequestId, SwapRequest>, requesterId: UserId, body: CreateBody,
                         now: nat, newId: RequestId)
    requires CreatePrecheck(requesterId, body).None?
    requires CreateCheck(users, reqs, requesterId, body.recipientId.value, body.skillOffered.value,
                         body.skillRequested.value, body.message, now).Ok?
    ensures var r := CreateCheck(users, reqs, requesterId, body.recipientId.value, body.skillOffered.value,
                                 body.skillRequested.value, body.message, now).value;
      r.requester != r.recipient && (NoSelfRequests(reqs) ==> NoSelfRequests(reqs[newId := r]))
  {
    var r := CreateCheck(users, reqs, requesterId, body.recipientId.value, body.skillOffered.value,
                         body.skillRequested.value, body.message, now).value;
    CreateSucceeds(users, reqs, requesterId, body.recipientId.value, body.skillOffered.value,
                   body.skillRequested.value, body.message, now);
    assert CastObjectId(body.recipientId.value) == Some(r.recipient) && r.requester == requesterId;
    assert !IsSelfRequest(requesterId, body.recipientId.value);
    if NoSelfRequests(reqs) {
      var next := reqs[newId := r];
      forall id | id in next ensures next[id].requester != next[id].recipient {
        if id != newId {
          assert next[id] == reqs[id];
        }
      }
    }
  }

  /** As written, a public, unbanned user who offers both skills and has no
   *  pending twin can address a request to themself: the checks let it
   *  through and the service saves a record whose requester is its
   *  recipient. */
  lemma SelfRequestCreated(users: seq<User>, reqs: map<RequestId, SwapRequest>, u: User, skillOffered: string,
                           skillRequested: string, message: Option<string>, now: nat)
    requires IsObjectId(u.id) && FindById(users, u.id) == Some(u) && u.isPublic && !u.isBanned
    requires skillOffered != "" && skillRequested != ""
    requires skillOffered in u.skillsOffered && skillRequested in u.skillsOffered
    requires !PendingDuplicate(reqs, u.id, u.id, skillOffered, skillRequested)
    ensures CreatePrecheckAsWritten(u.id, CreateBody(Some(u.id), Some(skillOffered), Some(skillRequested), message)).None?
    ensures var r := CreateCheck(users, reqs, u.id, u.id, skillOffered, skillRequested, message, now);
      r.Ok? && r.value.requester == u.id && r.value.recipient == u.id
  {
    CastCanonical(u.id);
  }

  /** The create handler as written: the field check, then the service; a
   *  success answers 201 with the new record, an error by
   *  `CreateErrorReply`. */
  method HandleCreate(store: SwapStore, users: seq<User>, requesterId: UserId, body: CreateBody, newId: RequestId)
    returns (reply: Reply<Entry>)
    requires store.Valid() && IsObjectId(newId) && newId !in store.requests
    modifies store
    ensures store.Valid()
    ensures CreatePrecheckAsWritten(requesterId, body).Some? ==>
      reply == CreatePrecheckAsWritten(requesterId, body).value
      && store.requests == old(store.requests) && store.order == old(store.order) && store.clock == old(store.clock)
    ensures CreatePrecheckAsWritten(requesterId, body).None? ==>
      match CreateCheck(users, old(store.requests), requesterId, body.recipientId.value, body.skillOffered.value,
                        body.skillRequested.value, body.message, old(store.clock))
      case Thrown(m) =>
        reply == CreateErrorReply(m)
        && store.requests == old(store.requests) && store.order == old(store.order) && store.clock == old(store.clock)
      case Ok(r) =>
        reply == Send(201, Entry(newId, r))
        && store.requests == old(store.requests)[newId := r] && store.order == old(store.order) + [newId]
        && store.clock == old(store.clock) + 1
  {
    var refused := CreatePrecheckAsWritten(requesterId, body);
    if refused.Some? {
      return refused.value;
    }
    var result := store.Create(users, requesterId, body.recipientId.value, body.skillOffered.value,
                               body.skillRequested.value, body.message, newId);
    if result.Thrown? {
      return CreateErrorReply(result.message);
    }
    reply := Send(201, Entry(newId, result.value));
  }

  /** The create handler with the corrected self-request guard: the same
   *  answers, except that a request to oneself is refused with 400, so no
   *  request to oneself is ever stored. */
  method HandleCreateCorrected(store: SwapStore, users: seq<User>, requesterId: UserId, body: CreateBody, newId: RequestId)
    returns (reply: Reply<Entry>)
    requires store.Valid() && IsObjectId(newId) && newId !in store.requests
    modifies store
    ensures store.Valid()
    ensures CreatePrecheck(requesterId, body).Some? ==>
      reply == CreatePrecheck(requesterId, body).value
      && store.requests == old(store.requests) && store.order == old(store.order) && store.clock == old(store.clock)
    ensures CreatePrecheck(requesterId, body).None? ==>
      match CreateCheck(users, old(store.requests), requesterId, body.recipientId.value, body.skillOffered.value,
                        body.skillRequested.value, body.message, old(store.clock))
      case Thrown(m) =>
        reply == CreateErrorReply(m)
        && store.requests == old(store.requests) && store.order == old(store.order) && store.clock == old(store.clock)
      case Ok(r) =>
        reply == Send(201, Entry(newId, r))
        && store.requests == old(store.requests)[newId := r] && store.order == old(store.order) + [newId]
        && store.clock == old(store.clock) + 1
    ensures NoSelfRequests(old(store.requests)) ==> NoSelfRequests(store.requests)
  {
    var refused := CreatePrecheck(requesterId, body);
    if refused.Some? {
      return refused.value;
    }
    var result := store.Create(users, requesterId, body.recipientId.value, body.skillOffered.value,
                               body.skillRequested.value, body.message, newId);
    if result.Thrown? {
      return CreateErrorReply(result.message);
    }
    CreatedNotToSelf(users, old(store.requests), requesterId, body, old(store.clock), newId);
    reply := Send(201, Entry(newId, result.value));
  }

  // ---------------------------------------------------------------------
  // listing

  /** A numeric query parameter after `parseInt`: absent, a number, or NaN. */
  datatype NumParam = Absent | Parsed(n: int) | NotANumber

  /** The parameter with its default applied; `None` is NaN. */
  function ParamValue(p: NumParam, default: int): Option<int>
  {
    match p
    case Absent => Some(default)
    case Parsed(n) => Some(n)
    case NotANumber => None
  }

  datatype ListParams = OutOfBounds | NaNPassed | InBounds(page: nat, limit: nat)

  const BadPagination := "Invalid pagination parameters. Page must be >= 1, limit must be between 1-50"

  /** `pageNum < 1 || limitNum < 1 || limitNum > 50`, where every comparison
   *  with NaN is false. */
  function ListCheck(page: NumParam, limit: NumParam): (r: ListParams)
    ensures r.InBounds? ==> r.page >= 1 && 1 <= r.limit <= 50
  {
    var p := ParamValue(page, 1);
    var l := ParamValue(limit, 10);
    if (p.Some? && p.value < 1) || (l.Some? && l.value < 1) || (l.Some? && l.value > 50) then OutOfBounds
    else if p.None? || l.None? then NaNPassed
    else InBounds(p.value, l.value)
  }

  /** The defaults are page 1 and limit 10; a number out of bounds is
   *  refused whatever the other parameter is; numbers in bounds pass as
   *  they are; NaN is not refused unless the other parameter is out of
   *  bounds. */
  lemma ListCheckCases(page: NumParam, limit: NumParam)
    ensures ListCheck(Absent, Absent) == InBounds(1, 10)
    ensures (page.Parsed? && page.n < 1) || (limit.Parsed? && (limit.n < 1 || limit.n > 50)) ==> ListCheck(page, limit) == OutOfBounds
    ensures page.Parsed? && limit.Parsed? && page.n >= 1 && 1 <= limit.n <= 50 ==> ListCheck(page, limit) == InBounds(page.n, limit.n)
    ensures page == NotANumber && limit.Parsed? && 1 <= limit.n <= 50 ==> ListCheck(page, limit) == NaNPassed
  {
  }

  /** The list handler. An out-of-bounds parameter answers 400. A NaN one
   *  reaches the service as `skip(NaN)`, which the database driver
   *  refuses, so the handler answers 500. Otherwise it answers 200 with
   *  the listing as the code computes it (every item tagged `received`),
   *  `type` defaulting to `'all'`. */
  method HandleList(store: SwapStore, userId: UserId, page: NumParam, limit: NumParam, status: Option<string>,
                    requestType: Option<string>) returns (reply: Reply<Listing>)
    requires store.Valid()
    ensures ListCheck(page, limit) == OutOfBounds ==> reply == Refuse(400, BadPagination)
    ensures ListCheck(page, limit) == NaNPassed ==> reply == Refuse(500, InternalError)
    ensures ListCheck(page, limit).InBounds? ==>
      var p := ListCheck(page, limit);
      reply == Send(200, ListingOf(AsWritten, store.Newest(), userId, p.page, p.limit, status,
                                   if requestType.Some? then requestType.value else "all"))
  {
    var checked := ListCheck(page, limit);
    if checked.OutOfBounds? {
      return Refuse(400, BadPagination);
    }
    if checked.NaNPassed? {
      return Refuse(500, InternalError);
    }
    var listing := store.List(userId, checked.page, checked.limit, status,
                              if requestType.Some? then requestType.value else "all");
    reply := Send(200, listing);
  }

  // ---------------------------------------------------------------------
  // transitions

  const RequestIdRequired := "Request ID is required"

  /** The unauthorized message each handler tests for; for cancel it has a
   *  plain space, unlike the message the service throws. */
  function ExpectedUnauthorized(a: Action): string
  {
    match a
    case Cancel => "Unauthorized to cancel this request"
    case Accept => "Unauthorized to accept this request"
    case Reject => "Unauthorized to reject this request"
  }

  /** The `catch` block of the cancel, accept and reject handlers. */
  function TransitionErrorReply(a: Action, message: string): (r: Reply<Entry>)
    ensures r.Refuse?
    ensures r.status == 404 <==> message == RequestNotFound
    ensures r.status == 403 <==> message == ExpectedUnauthorized(a)
    ensures r.status == 400 <==> message == NonPendingMessage(a)
    ensures r.status == 500 <==>
      message != RequestNotFound && message != ExpectedUnauthorized(a) && message != NonPendingMessage(a)
  {
    if message == RequestNotFound then Refuse(404, RequestNotFound)
    else if message == ExpectedUnauthorized(a) then
      Refuse(403, match a
                  case Cancel => "You can only cancel requests that you sent"
                  case Accept => "You can only accept requests sent to you"
                  case Reject => "You can only reject requests sent to you")
    else if message == NonPendingMessage(a) then
      Refuse(400, match a
                  case Cancel => "Can only cancel pending requests"
                  case Accept => "Can only accept pending requests"
                  case Reject => "Can only reject pending requests")
    else Refuse(500, InternalError)
  }

  /** The unauthorized message differs from the expected one for cancel
   *  only. */
  lemma UnauthorizedMessages(a: Action)
    ensures UnauthorizedMessage(a) == ExpectedUnauthorized(a) <==> a != Cancel
  {
    if a == Cancel {
      assert UnauthorizedMessage(a)[27] != ExpectedUnauthorized(a)[27];
    }
  }

  /** How each outcome of a transition is answered: an unknown request
   *  404, the wrong user 403 for accept and reject but 500 for cancel, a
   *  request no longer pending 400, malformed id text 500. */
  lemma TransitionReplies(reqs: map<RequestId, SwapRequest>, id: RequestId, userId: UserId, a: Action, now: nat)
    requires IsObjectId(id)
    ensures var r := Decide(reqs, id, userId, a, now);
      && (id !in reqs ==> r.Thrown? && TransitionErrorReply(a, r.message).status == 404)
      && (id in reqs && Actor(a, reqs[id]) != userId ==>
            r.Thrown? && TransitionErrorReply(a, r.message).status == (if a == Cancel then 500 else 403))
      && (id in reqs && Actor(a, reqs[id]) == userId && reqs[id].status != Pending ==>
            r.Thrown? && TransitionErrorReply(a, r.message).status == 400)
    ensures forall text :: CastObjectId(text).None? ==>
      TransitionErrorReply(a, Decide(reqs, text, userId, a, now).message).status == 500
  {
    DecideOrder(reqs, id, userId, a, now);
    UnauthorizedMessages(a);
    forall text | CastObjectId(text).None?
      ensures TransitionErrorReply(a, Decide(reqs, text, userId, a, now).message).status == 500
    {
      CastErrorDistinct(text);
    }
  }

  lemma CastErrorDistinct(text: string)
    ensures CastErrorMessage(text) != RequestNotFound
    ensures forall a :: CastErrorMessage(text) != ExpectedUnauthorized(a) && CastErrorMessage(text) != NonPendingMessage(a)
  {
    assert CastErrorMessage(text)[0] == 'C';
    assert CastErrorMessage(text)[1] == 'a';
  }

  /** The cancel, accept and reject handlers: a falsy request id answers 400;
   *  otherwise the transition's saved record answers 200 and its error is
   *  mapped by `TransitionErrorReply`. */
  method HandleTransition(store: SwapStore, userId: UserId, requestId: Option<string>, a: Action)
    returns (reply: Reply<Entry>)
    requires store.Valid()
    modifies store
    ensures store.Valid()
    ensures store.order == old(store.order)
    ensures !Present(requestId) ==> reply == Refuse(400, RequestIdRequired) && store.requests == old(store.requests)
    ensures Present(requestId) ==>
      match Decide(old(store.requests), requestId.value, userId, a, old(store.clock))
      case Thrown(m) => reply == TransitionErrorReply(a, m) && store.requests == old(store.requests)
      case Ok(r) =>
        var id := CastObjectId(requestId.value).value;
        reply == Send(200, Entry(id, r)) && store.requests == old(store.requests)[id := r]
  {
    if !Present(requestId) {
      return Refuse(400, RequestIdRequired);
    }
    var result;
    match a {
      case Cancel => result := store.CancelRequest(requestId.value, userId);
      case Accept => result := store.AcceptRequest(requestId.value, userId);
      case Reject => result := store.RejectRequest(requestId.value, userId);
    }
    if result.Thrown? {
      return TransitionErrorReply(a, result.message);
    }
    reply := Send(200, Entry(CastObjectId(requestId.value).value, result.value));
  }
}
