/** The swap-request service (backend/service/swapRequestService.js):
 *  creating a request after an ordered chain of checks, listing a user's
 *  requests a page at a time grouped by status, and the three transitions
 *  out of `pending` (cancel by the requester, accept or reject by the
 *  recipient). The collection is a map from id to record together with the
 *  ids in creation order; a logical clock stands for the timestamps. */
module SwapService {
  import opened Common
  import opened SwapRequestSchema
  import opened UserSchema
  import opened UserStore

  // ---------------------------------------------------------------------
  // create

  const RecipientNotFound := "Recipient not found"
  const CannotSendToUser := "Cannot send request to this user"
  const InvalidSkill := "Invalid skill validation"
  const DuplicateExists := "Duplicate request exists"
  /** The TypeError raised by `requester.skillsOffered` when no user has the
   *  requester's id. */
  const RequesterMissing := "Cannot read properties of null (reading 'skillsOffered')"

  /** A pending request with exactly this requester, recipient and skills. */
  predicate PendingDuplicate(reqs: map<RequestId, SwapRequest>, requester: UserId, recipient: UserId,
                             skillOffered: string, skillRequested: string)
  {
    exists id :: id in reqs && reqs[id].requester == requester && reqs[id].recipient == recipient
      && reqs[id].skillOffered == skillOffered && reqs[id].skillRequested == skillRequested
      && reqs[id].status == Pending
  }

  /** `message || ''` */
  function MessageOrEmpty(message: Option<string>): string
  {
    if Present(message) then message.value else ""
  }

  /** The outcome of `createSwapRequest` at time `now`: the record it saves,
   *  or the error it throws, checked in the code's order. */
  function CreateCheck(users: seq<User>, reqs: map<RequestId, SwapRequest>, requesterId: UserId, recipientIdText: string,
                       skillOffered: string, skillRequested: string, message: Option<string>, now: nat): (r: Result<SwapRequest>)
    ensures r.Ok? ==> r.value.requester == requesterId && r.value.status == Pending && r.value.createdAt == now
    ensures r.Thrown? ==>
      r.message == CastErrorMessage(recipientIdText) || r.message == RecipientNotFound || r.message == CannotSendToUser
      || r.message == RequesterMissing || r.message == InvalidSkill || r.message == DuplicateExists
      || r.message == ValidationFailed
  {
    match CastObjectId(recipientIdText)
    case None => Thrown(CastErrorMessage(recipientIdText))
    case Some(recipientId) =>
      var requester := FindById(users, requesterId);
      var recipient := FindById(users, recipientId);
      if recipient.None? then Thrown(RecipientNotFound)
      else if !recipient.value.isPublic || recipient.value.isBanned then Thrown(CannotSendToUser)
      else if requester.None? then Thrown(RequesterMissing)
      else if skillOffered !in requester.value.skillsOffered then Thrown(InvalidSkill)
      else if skillRequested !in recipient.value.skillsOffered then Thrown(InvalidSkill)
      else if PendingDuplicate(reqs, requesterId, recipientId, skillOffered, skillRequested) then Thrown(DuplicateExists)
      else
        BuildSwapRequest(SwapRequestDoc(Some(requesterId), Some(recipientId), Some(skillOffered), Some(skillRequested),
                                        Some("pending"), Some(MessageOrEmpty(message))), now)
  }

  /** Create fails in a fixed order, the first failure winning: the
   *  recipient is missing, is private or banned, the requester does not
   *  offer `skillOffered`, the recipient does not offer `skillRequested`, a
   *  pending duplicate exists. */
  lemma CreateCheckOrder(users: seq<User>, reqs: map<RequestId, SwapRequest>, requesterId: UserId, recipientId: UserId,
                         skillOffered: string, skillRequested: string, message: Option<string>, now: nat)
    requires IsObjectId(recipientId) && FindById(users, requesterId).Some?
    ensures var r := CreateCheck(users, reqs, requesterId, recipientId, skillOffered, skillRequested, message, now);
      var requester := FindById(users, requesterId).value;
      var recipient := FindById(users, recipientId);
      && (recipient.None? ==> r == Thrown(RecipientNotFound))
      && (recipient.Some? && (!recipient.value.isPublic || recipient.value.isBanned) ==> r == Thrown(CannotSendToUser))
      && ((recipient.Some? && recipient.value.isPublic && !recipient.value.isBanned
           && (skillOffered !in requester.skillsOffered || skillRequested !in recipient.value.skillsOffered))
          ==> r == Thrown(InvalidSkill))
      && ((recipient.Some? && recipient.value.isPublic && !recipient.value.isBanned
           && skillOffered in requester.skillsOffered && skillRequested in recipient.value.skillsOffered)
          ==> (r == Thrown(DuplicateExists) <==> PendingDuplicate(reqs, requesterId, recipientId, skillOffered, skillRequested)))
  {
    CastCanonical(recipientId);
  }

  lemma CastCanonical(id: string)
    requires IsObjectId(id)
    ensures CastObjectId(id) == Some(id)
  {
    assert Lower(id) == id by {
      forall k | 0 <= k < |id| ensures LowerChar(id[k]) == id[k] {}
    }
  }

  /** A successful create yields a pending request between exactly the given
   *  parties for exactly the given skills, carrying `message || ''` trimmed,
   *  created now; and there was no pending duplicate to block it. */
  lemma CreateSucceeds(users: seq<User>, reqs: map<RequestId, SwapRequest>, requesterId: UserId, recipientIdText: string,
                       skillOffered: string, skillRequested: string, message: Option<string>, now: nat)
    requires CreateCheck(users, reqs, requesterId, recipientIdText, skillOffered, skillRequested, message, now).Ok?
    ensures var r := CreateCheck(users, reqs, requesterId, recipientIdText, skillOffered, skillRequested, message, now).value;
      && CastObjectId(recipientIdText) == Some(r.recipient)
      && r.requester == requesterId && r.skillOffered == skillOffered && r.skillRequested == skillRequested
      && r.status == Pending && r.message == Trim(MessageOrEmpty(message)) && r.createdAt == now && r.updatedAt == now
      && FindById(users, r.recipient).Some? && FindById(users, r.recipient).value.isPublic
      && !FindById(users, r.recipient).value.isBanned
      && skillOffered in FindById(users, requesterId).value.skillsOffered
      && skillRequested in FindById(users, r.recipient).value.skillsOffered
      && !PendingDuplicate(reqs, requesterId, r.recipient, skillOffered, skillRequested)
  {
  }

  /** Repeating a successful create, once its record is stored under a new
   *  id, is refused as a duplicate. */
  lemma CreateTwiceIsDuplicate(users: seq<User>, reqs: map<RequestId, SwapRequest>, requesterId: UserId, recipientIdText: string,
                               skillOffered: string, skillRequested: string, message: Option<string>, now: nat,
                               newId: RequestId, later: nat)
    requires CreateCheck(users, reqs, requesterId, recipientIdText, skillOffered, skillRequested, message, now).Ok?
    ensures var r := CreateCheck(users, reqs, requesterId, recipientIdText, skillOffered, skillRequested, message, now).value;
      CreateCheck(users, reqs[newId := r], requesterId, recipientIdText, skillOffered, skillRequested, message, later)
      == Thrown(DuplicateExists)
  {
    var r := CreateCheck(users, reqs, requesterId, recipientIdText, skillOffered, skillRequested, message, now).value;
    var reqs' := reqs[newId := r];
    assert newId in reqs' && reqs'[newId] == r;
    assert PendingDuplicate(reqs', requesterId, r.recipient, skillOffered, skillRequested);
  }

  /** Only a pending request with the identical four fields blocks a create:
   *  adding any other record leaves the duplicate check as it was. */
  lemma DuplicateNeedsPendingTwin(reqs: map<RequestId, SwapRequest>, id: RequestId, other: SwapRequest,
                                  requester: UserId, recipient: UserId, skillOffered: string, skillRequested: string)
    requires id !in reqs
    requires other.status != Pending || other.requester != requester || other.recipient != recipient
             || other.skillOffered != skillOffered || other.skillRequested != skillRequested
    ensures PendingDuplicate(reqs[id := other], requester, recipient, skillOffered, skillRequested)
            == PendingDuplicate(reqs, requester, recipient, skillOffered, skillRequested)
  {
    if PendingDuplicate(reqs[id := other], requester, recipient, skillOffered, skillRequested) {
      var k :| k in reqs[id := other] && reqs[id := other][k].requester == requester && reqs[id := other][k].recipient == recipient
        && reqs[id := other][k].skillOffered == skillOffered && reqs[id := other][k].skillRequested == skillRequested
        && reqs[id := other][k].status == Pending;
      assert k != id && k in reqs;
    }
    if PendingDuplicate(reqs, requester, recipient, skillOffered, skillRequested) {
      var k :| k in reqs && reqs[k].requester == requester && reqs[k].recipient == recipient
        && reqs[k].skillOffered == skillOffered && reqs[k].skillRequested == skillRequested && reqs[k].status == Pending;
      assert k in reqs[id := other] && reqs[id := other][k] == reqs[k];
    }
  }

  // ---------------------------------------------------------------------
  // listing

  /** A stored request with its id, as `find` returns it. */
  datatype Entry = Entry(id: RequestId, request: SwapRequest)

  /** The entries for `ids`, last id first. */
  function NewestFirst(reqs: map<RequestId, SwapRequest>, ids: seq<RequestId>): (r: seq<Entry>)
    requires forall i :: 0 <= i < |ids| ==> ids[i] in reqs
    ensures |r| == |ids|
    ensures forall k :: 0 <= k < |r| ==> r[k] == Entry(ids[|ids| - 1 - k], reqs[ids[|ids| - 1 - k]])
  {
    if |ids| == 0 then []
    else [Entry(ids[|ids| - 1], reqs[ids[|ids| - 1]])] + NewestFirst(reqs, ids[..|ids| - 1])
  }

  /** Strictly newest first by `createdAt`. */
  predicate SortedNewestFirst(s: seq<Entry>)
  {
    forall i, j :: 0 <= i < j < |s| ==> s[i].request.createdAt > s[j].request.createdAt
  }

  /** Which side of a request the listed user must be on (the `type` query
   *  parameter). */
  datatype Relation = SentBy | ReceivedBy | Either

  /** The `query` object `getMySwapRequests` builds. */
  datatype Query = Query(user: UserId, relation: Relation, status: Option<Status>)

  /** The query for a `type` and a `status` parameter: `'sent'` and
   *  `'received'` pick one side, any other type both, and the status
   *  filter is added only for a truthy enum string. */
  function QueryFor(userId: UserId, requestType: string, status: Option<string>): (q: Query)
    ensures q.user == userId
    ensures q.status.Some? <==> Present(status) && IsStatusName(status.value)
    ensures q.status.Some? ==> StatusName(q.status.value) == status.value
  {
    Query(userId,
          if requestType == "sent" then SentBy else if requestType == "received" then ReceivedBy else Either,
          if Present(status) && IsStatusName(status.value) then ParseStatus(status.value) else None)
  }

  predicate Selects(q: Query, r: SwapRequest)
  {
    && (match q.relation
        case SentBy => r.requester == q.user
        case ReceivedBy => r.recipient == q.user
        case Either => r.requester == q.user || r.recipient == q.user)
    && (q.status.Some? ==> r.status == q.status.value)
  }

  /** What a query selects, stated on the parameters: the relation filter by
   *  `type`, and a status filter only for one of the four enum strings. */
  lemma QuerySelects(userId: UserId, requestType: string, status: Option<string>, r: SwapRequest)
    ensures var sel := Selects(QueryFor(userId, requestType, status), r);
      var statusOk := !(Present(status) && IsStatusName(status.value)) || StatusName(r.status) == status.value;
      && (requestType == "sent" ==> (sel <==> r.requester == userId && statusOk))
      && (requestType == "received" ==> (sel <==> r.recipient == userId && statusOk))
      && (requestType != "sent" && requestType != "received" ==>
            (sel <==> (r.requester == userId || r.recipient == userId) && statusOk))
  {
    if Present(status) && IsStatusName(status.value) {
      var s := ParseStatus(status.value).value;
      ParseStatusName(r.status);
      assert StatusName(r.status) == status.value <==> r.status == s;
    }
  }

  function Matching(q: Query, entries: seq<Entry>): seq<Entry>
  {
    Filter(entries, (e: Entry) => Selects(q, e.request))
  }

  function Min(a: int, b: int): int
  {
    if a <= b then a else b
  }

  /** `.skip((page - 1) * limit).limit(limit)` */
  function PageOf<T>(s: seq<T>, page: nat, limit: nat): (r: seq<T>)
    requires page >= 1
    ensures |r| <= limit && |r| <= |s|
  {
    var skip := (page - 1) * limit;
    if skip >= |s| then [] else s[skip..Min(skip + limit, |s|)]
  }

  /** `Math.ceil(totalCount / limit)` */
  function TotalPages(total: nat, limit: nat): (n: nat)
    requires limit >= 1
    ensures n == 0 <==> total == 0
    ensures n <= total
  {
    (total + limit - 1) / limit
  }

  /** The page holds the items at positions `(page-1)*limit` up to, not
   *  including, `page*limit`, as many of them as exist. */
  lemma PageContents<T>(s: seq<T>, page: nat, limit: nat)
    requires page >= 1
    ensures var skip := (page - 1) * limit;
      && |PageOf(s, page, limit)| == (if skip >= |s| then 0 else Min(limit, |s| - skip))
      && (forall j :: 0 <= j < |PageOf(s, page, limit)| ==> PageOf(s, page, limit)[j] == s[skip + j])
  {
  }

  /** Item `k` is on the page numbered `k / limit + 1`, at position
   *  `k % limit`; together with the page contents, the pages cover the
   *  matches in order without overlap. */
  lemma ItemPage<T>(s: seq<T>, limit: nat, k: nat)
    requires limit >= 1 && k < |s|
    ensures var p := k / limit + 1;
      k % limit < |PageOf(s, p, limit)| && PageOf(s, p, limit)[k % limit] == s[k]
  {
    var p := k / limit + 1;
    assert (p - 1) * limit + k % limit == k;
    PageContents(s, p, limit);
  }

  lemma MulMonotone(a: nat, b: nat, c: nat)
    requires a <= b
    ensures a * c <= b * c
  {
    assert b * c == a * c + (b - a) * c;
  }

  /** `TotalPages` is the ceiling of `total / limit`. */
  lemma TotalPagesCeiling(total: nat, limit: nat)
    requires limit >= 1
    ensures TotalPages(total, limit) * limit >= total
    ensures TotalPages(total, limit) == 0 || (TotalPages(total, limit) - 1) * limit < total
  {
    var tp, m := TotalPages(total, limit), (total + limit - 1) % limit;
    assert tp * limit + m == total + limit - 1;
    if tp > 0 {
      assert (tp - 1) * limit == tp * limit - limit;
    }
  }

  /** `totalPages` is the ceiling of `total / limit`; a next page exists
   *  exactly when items remain after this page, and a previous one exactly
   *  when this page skipped some. */
  lemma PaginationMeta(total: nat, page: nat, limit: nat)
    requires page >= 1 && limit >= 1
    ensures var tp := TotalPages(total, limit);
      && tp * limit >= total && (tp == 0 || (tp - 1) * limit < total)
      && (page < tp <==> page * limit < total)
      && (page > 1 <==> (page - 1) * limit > 0)
  {
    var tp := TotalPages(total, limit);
    TotalPagesCeiling(total, limit);
    if page < tp {
      MulMonotone(page, tp - 1, limit);
    } else {
      MulMonotone(tp, page, limit);
    }
    MulMonotone(1, page - 1 + 1, limit);
    if page > 1 {
      MulMonotone(1, page - 1, limit);
    }
  }

  /** Fifteen matches at ten per page: the second page holds the last five,
   *  there are two pages, no next page and a previous one. */
  lemma PaginationExample<T>(matching: seq<T>)
    requires |matching| == 15
    ensures PageOf(matching, 2, 10) == matching[10..]
    ensures TotalPages(15, 10) == 2 && !(2 < TotalPages(15, 10)) && 2 > 1
  {
  }

  /** A listed request and whether the listing user sent it. */
  datatype Listed = Listed(id: RequestId, request: SwapRequest, requestType: string)

  /** `request.requester.toString() === userId` as written: `requester` is
   *  the populated user document, whose string form is not the id text, so
   *  the comparison never holds and every request is tagged `received`. */
  function RequestTypeAsWritten(e: Entry, userId: UserId): (t: string)
    ensures t != "sent"
  {
    "received"
  }

  /** The tag the code evidently intends: `sent` when the listing user is
   *  the requester. */
  function RequestType(e: Entry, userId: UserId): (t: string)
    ensures t == "sent" <==> e.request.requester == userId
    ensures t == "sent" || t == "received"
  {
    if e.request.requester == userId then "sent" else "received"
  }

  /** A request the user sent is tagged `received` by the code as written,
   *  and `sent` by the corrected tag. */
  lemma SentRequestMistagged(e: Entry, userId: UserId)
    requires e.request.requester == userId
    ensures RequestTypeAsWritten(e, userId) == "received" && RequestType(e, userId) == "sent"
  {
  }

  /** Which tag a listing gives its items: the one the code computes, or
   *  the corrected one. */
  datatype TagRule = AsWritten | Intended

  function Tag(rule: TagRule, e: Entry, userId: UserId): string
  {
    match rule
    case AsWritten => RequestTypeAsWritten(e, userId)
    case Intended => RequestType(e, userId)
  }

  /** The `map` that adds `requestType` to every request of the page. */
  function Annotate(page: seq<Entry>, userId: UserId, rule: TagRule): (r: seq<Listed>)
    ensures |r| == |page|
    ensures forall k :: 0 <= k < |r| ==> r[k] == Listed(page[k].id, page[k].request, Tag(rule, page[k], userId))
  {
    seq(|page|, k requires 0 <= k < |page| => Listed(page[k].id, page[k].request, Tag(rule, page[k], userId)))
  }

  lemma AnnotateSnoc(page: seq<Entry>, e: Entry, userId: UserId, rule: TagRule)
    ensures Annotate(page + [e], userId, rule) == Annotate(page, userId, rule) + [Listed(e.id, e.request, Tag(rule, e, userId))]
  {
  }

  /** A listed item without its tag. */
  function Untagged(items: seq<Listed>): (r: seq<Entry>)
    ensures |r| == |items|
    ensures forall k :: 0 <= k < |r| ==> r[k] == Entry(items[k].id, items[k].request)
  {
    seq(|items|, k requires 0 <= k < |items| => Entry(items[k].id, items[k].request))
  }

  /** The `organized` object: the page's requests under their status. */
  datatype Organized = Organized(pending: seq<Listed>, accepted: seq<Listed>, rejected: seq<Listed>, cancelled: seq<Listed>)

  /** Every item of the four lists. */
  function Items(o: Organized): seq<Listed>
  {
    o.pending + o.accepted + o.rejected + o.cancelled
  }

  function WithStatus(items: seq<Listed>, s: Status): seq<Listed>
  {
    Filter(items, (x: Listed) => x.request.status == s)
  }

  function Organize(items: seq<Listed>): Organized
  {
    Organized(WithStatus(items, Pending), WithStatus(items, Accepted), WithStatus(items, Rejected), WithStatus(items, Cancelled))
  }

  lemma WithStatusSnoc(init: seq<Listed>, x: Listed, s: Status)
    ensures WithStatus(init + [x], s) == WithStatus(init, s) + (if x.request.status == s then [x] else [])
  {
    assert (init + [x])[..|init|] == init;
  }

  lemma WithStatusCount(items: seq<Listed>, s: Status, x: Listed)
    ensures multiset(WithStatus(items, s))[x] == if x.request.status == s then multiset(items)[x] else 0
  {
    FilterCount(items, (x: Listed) => x.request.status == s, x);
  }

  /** The four status lists partition the page: together they hold every
   *  item exactly as often as the page does. Each holds only its own status
   *  by the postcondition of `Filter`. */
  lemma OrganizePartition(items: seq<Listed>)
    ensures var o := Organize(items);
      multiset(o.pending) + multiset(o.accepted) + multiset(o.rejected) + multiset(o.cancelled) == multiset(items)
  {
    var o := Organize(items);
    forall x
      ensures (multiset(o.pending) + multiset(o.accepted) + multiset(o.rejected) + multiset(o.cancelled))[x]
              == multiset(items)[x]
    {
      WithStatusCount(items, Pending, x);
      WithStatusCount(items, Accepted, x);
      WithStatusCount(items, Rejected, x);
      WithStatusCount(items, Cancelled, x);
    }
  }

  datatype Summary = Summary(total: nat, pending: nat, accepted: nat, rejected: nat, cancelled: nat)

  datatype Pagination = Pagination(currentPage: nat, totalPages: nat, totalItems: nat, itemsPerPage: nat,
                                   hasNextPage: bool, hasPrevPage: bool)

  datatype Listing = Listing(requests: Organized, summary: Summary, pagination: Pagination)

  lemma OrganizeCounts(items: seq<Listed>)
    ensures var o := Organize(items);
      |o.pending| + |o.accepted| + |o.rejected| + |o.cancelled| == |items|
  {
    OrganizePartition(items);
    var o := Organize(items);
    assert |multiset(o.pending)| == |o.pending|;
    assert |multiset(o.accepted)| == |o.accepted|;
    assert |multiset(o.rejected)| == |o.rejected|;
    assert |multiset(o.cancelled)| == |o.cancelled|;
    assert |multiset(items)| == |items|;
  }

  /** The per-status counts describe the returned page (their sum is its
   *  length, at most `limit`), while `total` counts every match. */
  lemma SummaryCounts(matching: seq<Entry>, page: nat, limit: nat, userId: UserId, rule: TagRule)
    requires page >= 1
    ensures var o := Organize(Annotate(PageOf(matching, page, limit), userId, rule));
      |o.pending| + |o.accepted| + |o.rejected| + |o.cancelled| == |PageOf(matching, page, limit)|
    ensures |PageOf(matching, page, limit)| <= limit && |PageOf(matching, page, limit)| <= |matching|
  {
    var items := Annotate(PageOf(matching, page, limit), userId, rule);
    OrganizeCounts(items);
  }

  /** The `forEach` that pushes each request onto its status's list. */
  method OrganizeByStatus(items: seq<Listed>) returns (organized: Organized)
    ensures organized == Organize(items)
  {
    organized := Organized([], [], [], []);
    var i := 0;
    while i < |items|
      invariant 0 <= i <= |items|
      invariant organized == Organize(items[..i])
    {
      var request := items[i];
      assert items[..i + 1] == items[..i] + [request];
      WithStatusSnoc(items[..i], request, Pending);
      WithStatusSnoc(items[..i], request, Accepted);
      WithStatusSnoc(items[..i], request, Rejected);
      WithStatusSnoc(items[..i], request, Cancelled);
      match request.request.status {
        case Pending => organized := organized.(pending := organized.pending + [request]);
        case Accepted => organized := organized.(accepted := organized.accepted + [request]);
        case Rejected => organized := organized.(rejected := organized.rejected + [request]);
        case Cancelled => organized := organized.(cancelled := organized.cancelled + [request]);
      }
      i := i + 1;
    }
    assert items[..i] == items;
  }

  /** A filter keeps the newest-first order. */
  lemma {:induction false} FilterSorted(s: seq<Entry>, p: Entry -> bool)
    requires SortedNewestFirst(s)
    ensures SortedNewestFirst(Filter(s, p))
  {
    if |s| > 0 {
      var init := s[..|s| - 1];
      FilterSorted(init, p);
      forall e | e in Filter(init, p) ensures e.request.createdAt > s[|s| - 1].request.createdAt {
        FilterIn(init, p, e);
      }
    }
  }

  /** A page of a newest-first sequence is newest first. */
  lemma PageSorted(s: seq<Entry>, page: nat, limit: nat)
    requires page >= 1 && SortedNewestFirst(s)
    ensures SortedNewestFirst(PageOf(s, page, limit))
  {
    var skip := (page - 1) * limit;
    if skip < |s| {
      var t := s[skip..Min(skip + limit, |s|)];
      forall i, j | 0 <= i < j < |t| ensures t[i].request.createdAt > t[j].request.createdAt {
        assert t[i] == s[skip + i] && t[j] == s[skip + j];
      }
    }
  }

  // ---------------------------------------------------------------------
  // transitions

  datatype Action = Cancel | Accept | Reject

  /** The only user allowed to take the action: the requester cancels, the
   *  recipient accepts or rejects. */
  function Actor(a: Action, r: SwapRequest): UserId
  {
    if a == Cancel then r.requester else r.recipient
  }

  function Target(a: Action): (s: Status)
    ensures IsTerminal(s)
  {
    match a
    case Cancel => Cancelled
    case Accept => Accepted
    case Reject => Rejected
  }

  const RequestNotFound := "Swap request not found"

  /** The unauthorized messages; the cancel one has the two characters
   *  U+00C2 U+00A0 where the others have a space before `request`. */
  function UnauthorizedMessage(a: Action): (m: string)
    ensures StartsWith(m, "Unauthorized to ") && m != RequestNotFound && m != NonPendingMessage(a)
  {
    match a
    case Cancel => "Unauthorized to cancel this\U{00C2}\U{00A0}request"
    case Accept => "Unauthorized to accept this request"
    case Reject => "Unauthorized to reject this request"
  }

  function NonPendingMessage(a: Action): string
  {
    match a
    case Cancel => "Cannot cancel non-pending request"
    case Accept => "Cannot accept non-pending request"
    case Reject => "Cannot reject non-pending request"
  }

  /** The outcome of taking action `a` on request `requestIdText` as user
   *  `userId` at time `now`: the saved record or the error thrown, checked
   *  in the order existence, actor, pending. */
  function Decide(reqs: map<RequestId, SwapRequest>, requestIdText: string, userId: UserId, a: Action, now: nat)
    : (r: Result<SwapRequest>)
    ensures r.Ok? ==> IsTerminal(r.value.status) && r.value.updatedAt == now
    ensures r.Ok? ==>
      CastObjectId(requestIdText).Some? && CastObjectId(requestIdText).value in reqs
      && reqs[CastObjectId(requestIdText).value].status == Pending
      && Actor(a, reqs[CastObjectId(requestIdText).value]) == userId
  {
    match CastObjectId(requestIdText)
    case None => Thrown(CastErrorMessage(requestIdText))
    case Some(id) =>
      if id !in reqs then Thrown(RequestNotFound)
      else if Actor(a, reqs[id]) != userId then Thrown(UnauthorizedMessage(a))
      else if reqs[id].status != Pending then Thrown(NonPendingMessage(a))
      else Ok(reqs[id].(status := Target(a), updatedAt := now))
  }

  /** The checks come in the order not found, wrong actor, not pending; a
   *  success changes only the status, to the action's target, and the
   *  update time. */
  lemma DecideOrder(reqs: map<RequestId, SwapRequest>, id: RequestId, userId: UserId, a: Action, now: nat)
    requires IsObjectId(id)
    ensures var r := Decide(reqs, id, userId, a, now);
      && (id !in reqs ==> r == Thrown(RequestNotFound))
      && (id in reqs && Actor(a, reqs[id]) != userId ==> r == Thrown(UnauthorizedMessage(a)))
      && (id in reqs && Actor(a, reqs[id]) == userId && reqs[id].status != Pending ==> r == Thrown(NonPendingMessage(a)))
      && (r.Ok? <==> id in reqs && Actor(a, reqs[id]) == userId && reqs[id].status == Pending)
      && (r.Ok? ==> r.value == reqs[id].(status := Target(a), updatedAt := now))
  {
    CastCanonical(id);
  }

  /** Only the right party can move a request, only out of `pending`, and
   *  only into the action's leaf state. */
  lemma OnlyActorMoves(reqs: map<RequestId, SwapRequest>, requestIdText: string, userId: UserId, a: Action, now: nat)
    requires Decide(reqs, requestIdText, userId, a, now).Ok?
    ensures var id := CastObjectId(requestIdText).value;
      && id in reqs && reqs[id].status == Pending && Actor(a, reqs[id]) == userId
      && (a == Cancel ==> userId == reqs[id].requester)
      && (a != Cancel ==> userId == reqs[id].recipient)
      && Decide(reqs, requestIdText, userId, a, now).value.status == Target(a)
  {
  }

  /** One transition request against the collection: a saved record
   *  replaces the stored one, an error changes nothing. */
  datatype Event = Event(requestIdText: string, userId: UserId, action: Action)

  function Step(reqs: map<RequestId, SwapRequest>, e: Event, now: nat): (r: map<RequestId, SwapRequest>)
    ensures r.Keys == reqs.Keys
  {
    match Decide(reqs, e.requestIdText, e.userId, e.action, now)
    case Thrown(_) => reqs
    case Ok(saved) => reqs[CastObjectId(e.requestIdText).value := saved]
  }

  /** A sequence of transition requests, the clock advancing by one each. */
  function Run(reqs: map<RequestId, SwapRequest>, events: seq<Event>, now: nat): (r: map<RequestId, SwapRequest>)
    ensures r.Keys == reqs.Keys
    decreases |events|
  {
    if |events| == 0 then reqs else Run(Step(reqs, events[0], now), events[1..], now + 1)
  }

  /** Accepted, rejected and cancelled are absorbing: whatever transitions
   *  anybody requests afterwards, a request in a leaf state keeps that
   *  state. */
  lemma {:induction false} TerminalAbsorbing(reqs: map<RequestId, SwapRequest>, events: seq<Event>, now: nat, id: RequestId)
    requires id in reqs && IsTerminal(reqs[id].status)
    ensures id in Run(reqs, events, now) && Run(reqs, events, now)[id].status == reqs[id].status
    decreases |events|
  {
    if |events| > 0 {
      var next := Step(reqs, events[0], now);
      assert next[id].status == reqs[id].status;
      TerminalAbsorbing(next, events[1..], now + 1, id);
    }
  }

  /** Whatever transitions are requested, the parties, skills, message and
   *  creation time of every request stay as they were. */
  lemma {:induction false} RunKeepsContent(reqs: map<RequestId, SwapRequest>, events: seq<Event>, now: nat, id: RequestId)
    requires id in reqs
    ensures var r := Run(reqs, events, now)[id];
      r.requester == reqs[id].requester && r.recipient == reqs[id].recipient
      && r.skillOffered == reqs[id].skillOffered && r.skillRequested == reqs[id].skillRequested
      && r.message == reqs[id].message && r.createdAt == reqs[id].createdAt
    decreases |events|
  {
    if |events| > 0 {
      RunKeepsContent(Step(reqs, events[0], now), events[1..], now + 1, id);
    }
  }

  // ---------------------------------------------------------------------
  // the collection

  /** The listing `getMySwapRequests` answers for the stored requests
   *  `entries`, newest first, its items tagged by `rule`. */
  function ListingOf(rule: TagRule, entries: seq<Entry>, userId: UserId, page: nat, limit: nat, status: Option<string>,
                     requestType: string): (l: Listing)
    requires page >= 1 && limit >= 1
    ensures l.pagination.currentPage == page && l.pagination.itemsPerPage == limit
    ensures l.summary.total == l.pagination.totalItems
    ensures l.summary.pending + l.summary.accepted + l.summary.rejected + l.summary.cancelled <= limit
  {
    var matching := Matching(QueryFor(userId, requestType, status), entries);
    var o := Organize(Annotate(PageOf(matching, page, limit), userId, rule));
    OrganizeCounts(Annotate(PageOf(matching, page, limit), userId, rule));
    Listing(o, Summary(|matching|, |o.pending|, |o.accepted|, |o.rejected|, |o.cancelled|),
            Pagination(page, TotalPages(|matching|, limit), |matching|, limit, page < TotalPages(|matching|, limit), page > 1))
  }

  /** An item of a listing is a match of the query on the requested page,
   *  carrying the tag the rule gives it. */
  lemma ListedItem(rule: TagRule, entries: seq<Entry>, userId: UserId, page: nat, limit: nat, status: Option<string>,
                   requestType: string, x: Listed)
    requires page >= 1 && limit >= 1
    requires x in Items(ListingOf(rule, entries, userId, page, limit, status, requestType).requests)
    ensures Entry(x.id, x.request) in Matching(QueryFor(userId, requestType, status), entries)
    ensures x.requestType == Tag(rule, Entry(x.id, x.request), userId)
  {
    var matching := Matching(QueryFor(userId, requestType, status), entries);
    var pg := PageOf(matching, page, limit);
    var items := Annotate(pg, userId, rule);
    assert ListingOf(rule, entries, userId, page, limit, status, requestType).requests == Organize(items);
    OrganizedItem(items, x);
    AnnotatedItem(pg, userId, rule, x);
    PageItem(matching, page, limit, Entry(x.id, x.request));
  }

  lemma OrganizedItem(items: seq<Listed>, x: Listed)
    requires x in Items(Organize(items))
    ensures x in items
  {
  }

  lemma AnnotatedItem(page: seq<Entry>, userId: UserId, rule: TagRule, x: Listed)
    requires x in Annotate(page, userId, rule)
    ensures Entry(x.id, x.request) in page && x.requestType == Tag(rule, Entry(x.id, x.request), userId)
  {
    var items := Annotate(page, userId, rule);
    var k :| 0 <= k < |items| && items[k] == x;
    assert page[k] == Entry(x.id, x.request);
  }

  lemma PageItem<T>(s: seq<T>, page: nat, limit: nat, x: T)
    requires page >= 1 && x in PageOf(s, page, limit)
    ensures x in s
  {
    var pg := PageOf(s, page, limit);
    var k :| 0 <= k < |pg| && pg[k] == x;
    PageContents(s, page, limit);
    assert s[(page - 1) * limit + k] == x;
  }

  /** As written, every request of every listing is tagged `received`,
   *  whatever its relation to the listing user. */
  lemma ListingTagsAsWritten(entries: seq<Entry>, userId: UserId, page: nat, limit: nat, status: Option<string>,
                             requestType: string)
    requires page >= 1 && limit >= 1
    ensures forall x :: x in Items(ListingOf(AsWritten, entries, userId, page, limit, status, requestType).requests)
                       ==> x.requestType == "received"
  {
    forall x | x in Items(ListingOf(AsWritten, entries, userId, page, limit, status, requestType).requests)
      ensures x.requestType == "received"
    {
      ListedItem(AsWritten, entries, userId, page, limit, status, requestType, x);
    }
  }

  /** With the corrected tag, every item of a `type=sent` listing is tagged
   *  `sent`, and every item of a `type=received` listing between distinct
   *  parties is tagged `received`. */
  lemma ListedTags(entries: seq<Entry>, userId: UserId, page: nat, limit: nat, status: Option<string>, x: Listed)
    requires page >= 1 && limit >= 1
    ensures x in Items(ListingOf(Intended, entries, userId, page, limit, status, "sent").requests)
            ==> x.requestType == "sent"
    ensures x in Items(ListingOf(Intended, entries, userId, page, limit, status, "received").requests)
            && x.request.requester != x.request.recipient
            ==> x.requestType == "received"
  {
    if x in Items(ListingOf(Intended, entries, userId, page, limit, status, "sent").requests) {
      ListedItem(Intended, entries, userId, page, limit, status, "sent", x);
    }
    if x in Items(ListingOf(Intended, entries, userId, page, limit, status, "received").requests) {
      ListedItem(Intended, entries, userId, page, limit, status, "received", x);
    }
  }

  lemma UntaggedConcat(a: seq<Listed>, b: seq<Listed>)
    ensures Untagged(a + b) == Untagged(a) + Untagged(b)
  {
  }

  /** Grouping a tagged page by status and dropping the tags is filtering
   *  the page by status: the tag plays no part in the grouping. */
  lemma {:induction false} WithStatusUntagged(page: seq<Entry>, userId: UserId, rule: TagRule, s: Status)
    ensures Untagged(WithStatus(Annotate(page, userId, rule), s)) == Filter(page, (e: Entry) => e.request.status == s)
  {
    if |page| > 0 {
      var init, last := page[..|page| - 1], page[|page| - 1];
      var x := Listed(last.id, last.request, Tag(rule, last, userId));
      var tail := if x.request.status == s then [x] else [];
      assert page == init + [last];
      AnnotateSnoc(init, last, userId, rule);
      WithStatusSnoc(Annotate(init, userId, rule), x, s);
      assert WithStatus(Annotate(page, userId, rule), s) == WithStatus(Annotate(init, userId, rule), s) + tail;
      WithStatusUntagged(init, userId, rule, s);
      UntaggedConcat(WithStatus(Annotate(init, userId, rule), s), tail);
      assert Untagged(tail) == if last.request.status == s then [last] else [];
    }
  }

  /** The listing as written and the corrected one list the same requests
   *  in the same lists and order, with the same counts and pagination;
   *  only the tags differ. */
  lemma ListingRulesAgree(entries: seq<Entry>, userId: UserId, page: nat, limit: nat, status: Option<string>,
                          requestType: string)
    requires page >= 1 && limit >= 1
    ensures var a := ListingOf(AsWritten, entries, userId, page, limit, status, requestType);
      var b := ListingOf(Intended, entries, userId, page, limit, status, requestType);
      && Untagged(a.requests.pending) == Untagged(b.requests.pending)
      && Untagged(a.requests.accepted) == Untagged(b.requests.accepted)
      && Untagged(a.requests.rejected) == Untagged(b.requests.rejected)
      && Untagged(a.requests.cancelled) == Untagged(b.requests.cancelled)
      && a.summary == b.summary && a.pagination == b.pagination
  {
    var pg := PageOf(Matching(QueryFor(userId, requestType, status), entries), page, limit);
    WithStatusUntagged(pg, userId, AsWritten, Pending);
    WithStatusUntagged(pg, userId, Intended, Pending);
    WithStatusUntagged(pg, userId, AsWritten, Accepted);
    WithStatusUntagged(pg, userId, Intended, Accepted);
    WithStatusUntagged(pg, userId, AsWritten, Rejected);
    WithStatusUntagged(pg, userId, Intended, Rejected);
    WithStatusUntagged(pg, userId, AsWritten, Cancelled);
    WithStatusUntagged(pg, userId, Intended, Cancelled);
  }

  /** The body of `getMySwapRequests` after the database query: the query
   *  is built field by field, the page is cut from the matches, tagged as
   *  the code tags it (every item `received`) and grouped by status, and
   *  the metadata computed. */
  method ListEntries(entries: seq<Entry>, userId: UserId, page: nat, limit: nat, status: Option<string>, requestType: string)
    returns (l: Listing)
    requires page >= 1 && limit >= 1
    ensures var matching := Matching(QueryFor(userId, requestType, status), entries);
      var items := Annotate(PageOf(matching, page, limit), userId, AsWritten);
      && l.requests == Organize(items)
      && l.summary == Summary(|matching|, |l.requests.pending|, |l.requests.accepted|,
                              |l.requests.rejected|, |l.requests.cancelled|)
      && l.pagination == Pagination(page, TotalPages(|matching|, limit), |matching|, limit,
                                    page < TotalPages(|matching|, limit), page > 1)
    ensures forall x :: x in Items(l.requests) ==> x.requestType == "received"
    ensures l == ListingOf(AsWritten, entries, userId, page, limit, status, requestType)
  {
    var query := Query(userId, Either, None);
    if requestType == "sent" {
      query := query.(relation := SentBy);
    } else if requestType == "received" {
      query := query.(relation := ReceivedBy);
    }
    if Present(status) && IsStatusName(status.value) {
      query := query.(status := ParseStatus(status.value));
    }
    assert query == QueryFor(userId, requestType, status);
    var matching := Matching(query, entries);
    var totalCount := |matching|;
    var swapRequests := PageOf(matching, page, limit);
    var requestsWithType := Annotate(swapRequests, userId, AsWritten);
    var organized := OrganizeByStatus(requestsWithType);
    var totalPages := TotalPages(totalCount, limit);
    l := Listing(organized,
                 Summary(totalCount, |organized.pending|, |organized.accepted|, |organized.rejected|, |organized.cancelled|),
                 Pagination(page, totalPages, totalCount, limit, page < totalPages, page > 1));
    ListingTagsAsWritten(entries, userId, page, limit, status, requestType);
  }

  /** The collection invariant: `order` lists every stored id once, in
   *  creation order, every id is an ObjectId, and the clock is past every
   *  creation time. */
  ghost predicate ValidState(requests: map<RequestId, SwapRequest>, order: seq<RequestId>, clock: nat)
  {
    && (forall i, j :: 0 <= i < j < |order| ==> order[i] != order[j])
    && (forall i :: 0 <= i < |order| ==> order[i] in requests)
    && (forall id :: id in requests ==> id in order)
    && (forall id :: id in requests ==> IsObjectId(id) && requests[id].createdAt < clock)
    && (forall i, j :: 0 <= i < j < |order| ==> requests[order[i]].createdAt < requests[order[j]].createdAt)
  }

  /** Storing a record created now under a new id keeps the invariant. */
  lemma AppendValid(requests: map<RequestId, SwapRequest>, order: seq<RequestId>, clock: nat, newId: RequestId, r: SwapRequest)
    requires ValidState(requests, order, clock) && IsObjectId(newId) && newId !in requests && r.createdAt == clock
    ensures ValidState(requests[newId := r], order + [newId], clock + 1)
  {
    var reqs, ord := requests[newId := r], order + [newId];
    forall i | 0 <= i < |order| ensures ord[i] == order[i] && ord[i] != newId && reqs[ord[i]] == requests[order[i]] {
    }
  }

  /** Replacing a stored record by one with the same creation time keeps the
   *  invariant. */
  lemma ReplaceValid(requests: map<RequestId, SwapRequest>, order: seq<RequestId>, clock: nat, id: RequestId, r: SwapRequest)
    requires ValidState(requests, order, clock) && id in requests && r.createdAt == requests[id].createdAt
    ensures ValidState(requests[id := r], order, clock + 1)
  {
  }

  class SwapStore {
    var requests: map<RequestId, SwapRequest>
    /** The ids in creation order. */
    var order: seq<RequestId>
    /** The next timestamp. */
    var clock: nat

    ghost predicate Valid()
      reads this
    {
      ValidState(requests, order, clock)
    }

    constructor ()
      ensures Valid() && requests == map[] && order == [] && clock == 0
    {
      requests := map[];
      order := [];
      clock := 0;
    }

    /** All stored requests, newest first. */
    function Newest(): seq<Entry>
      reads this
      requires Valid()
    {
      NewestFirst(requests, order)
    }

    /** The creation timestamps make newest-first a strict order. */
    lemma NewestSorted()
      requires Valid()
      ensures SortedNewestFirst(Newest())
      ensures forall e :: e in Newest() ==> e.id in requests && requests[e.id] == e.request
    {
    }

    /** The page a listing returns is newest first, whatever the query. */
    lemma PageNewestFirst(q: Query, page: nat, limit: nat)
      requires Valid() && page >= 1
      ensures SortedNewestFirst(PageOf(Matching(q, Newest()), page, limit))
    {
      NewestSorted();
      FilterSorted(Newest(), (e: Entry) => Selects(q, e.request));
      PageSorted(Matching(q, Newest()), page, limit);
    }

    /** `createSwapRequest`: on success the new record is stored under a new
     *  id at the current time; on any error nothing changes. */
    method Create(users: seq<User>, requesterId: UserId, recipientIdText: string, skillOffered: string,
                  skillRequested: string, message: Option<string>, newId: RequestId) returns (r: Result<SwapRequest>)
      requires Valid() && IsObjectId(newId) && newId !in requests
      modifies this
      ensures Valid()
      ensures r == CreateCheck(users, old(requests), requesterId, recipientIdText, skillOffered, skillRequested, message, old(clock))
      ensures r.Ok? ==> requests == old(requests)[newId := r.value] && order == old(order) + [newId] && clock == old(clock) + 1
      ensures r.Thrown? ==> requests == old(requests) && order == old(order) && clock == old(clock)
    {
      r := CreateCheck(users, requests, requesterId, recipientIdText, skillOffered, skillRequested, message, clock);
      if r.Ok? {
        assert r.value.createdAt == clock by {
          CreateSucceeds(users, requests, requesterId, recipientIdText, skillOffered, skillRequested, message, clock);
        }
        AppendValid(requests, order, clock, newId, r.value);
        requests := requests[newId := r.value];
        order := order + [newId];
        clock := clock + 1;
      }
    }

    /** `getMySwapRequests` for an authenticated user, on the stored
     *  requests newest first. Nothing is written. */
    method List(userId: UserId, page: nat, limit: nat, status: Option<string>, requestType: string) returns (l: Listing)
      requires Valid() && page >= 1 && limit >= 1
      ensures l == ListingOf(AsWritten, Newest(), userId, page, limit, status, requestType)
    {
      l := ListEntries(Newest(), userId, page, limit, status, requestType);
    }

    /** The shared body of the three transitions: on success the saved
     *  record replaces the stored one at the current time. */
    method Transition(requestIdText: string, userId: UserId, a: Action) returns (r: Result<SwapRequest>)
      requires Valid()
      modifies this
      ensures Valid()
      ensures r == Decide(old(requests), requestIdText, userId, a, old(clock))
      ensures order == old(order)
      ensures r.Ok? ==> requests == old(requests)[CastObjectId(requestIdText).value := r.value] && clock == old(clock) + 1
      ensures r.Thrown? ==> requests == old(requests) && clock == old(clock)
    {
      var id := CastObjectId(requestIdText);
      if id.None? {
        return Thrown(CastErrorMessage(requestIdText));
      }
      if id.value !in requests {
        return Thrown(RequestNotFound);
      }
      var swapRequest := requests[id.value];
      if Actor(a, swapRequest) != userId {
        return Thrown(UnauthorizedMessage(a));
      }
      if swapRequest.status != Pending {
        return Thrown(NonPendingMessage(a));
      }
      swapRequest := swapRequest.(status := Target(a), updatedAt := clock);
      ReplaceValid(requests, order, clock, id.value, swapRequest);
      requests := requests[id.value := swapRequest];
      clock := clock + 1;
      r := Ok(swapRequest);
    }

    /** `cancelSwapRequest(requestId, userId)` */
    method CancelRequest(requestIdText: string, userId: UserId) returns (r: Result<SwapRequest>)
      requires Valid()
      modifies this
      ensures Valid()
      ensures r == Decide(old(requests), requestIdText, userId, Cancel, old(clock))
      ensures order == old(order)
      ensures r.Ok? ==> requests == old(requests)[CastObjectId(requestIdText).value := r.value] && clock == old(clock) + 1
      ensures r.Thrown? ==> requests == old(requests) && clock == old(clock)
    {
      r := Transition(requestIdText, userId, Cancel);
    }

    /** `acceptSwapRequest(requestId, userId)` */
    method AcceptRequest(requestIdText: string, userId: UserId) returns (r: Result<SwapRequest>)
      requires Valid()
      modifies this
      ensures Valid()
      ensures r == Decide(old(requests), requestIdText, userId, Accept, old(clock))
      ensures order == old(order)
      ensures r.Ok? ==> requests == old(requests)[CastObjectId(requestIdText).value := r.value] && clock == old(clock) + 1
      ensures r.Thrown? ==> requests == old(requests) && clock == old(clock)
    {
      r := Transition(requestIdText, userId, Accept);
    }

    /** `rejectSwapRequest(requestId, userId)` */
    method RejectRequest(requestIdText: string, userId: UserId) returns (r: Result<SwapRequest>)
      requires Valid()
      modifies this
      ensures Valid()
      ensures r == Decide(old(requests), requestIdText, userId, Reject, old(clock))
      ensures order == old(order)
      ensures r.Ok? ==> requests == old(requests)[CastObjectId(requestIdText).value := r.value] && clock == old(clock) + 1
      ensures r.Thrown? ==> requests == old(requests) && clock == old(clock)
    {
      r := Transition(requestIdText, userId, Reject);
    }
  }
}
