/** Skill matching (`getSkillMatches` in backend/service/userService.js):
 *  every public, non-banned user other than the caller is scored on three
 *  independent criteria, and users scoring 3, 2 and 1 are collected into
 *  three lists; a score of 0 is dropped. */
module MatchService {
  import opened Common
  import opened UserSchema
  import opened UserStore

  /** Some day kind both users offer: weekdays, weekends, or a custom slot
   *  with exactly the same text. */
  predicate AvailabilityOverlap(a: Availability, b: Availability)
    ensures AvailabilityOverlap(a, b) ==> (a.weekdays || a.weekends || a.custom) && (b.weekdays || b.weekends || b.custom)
  {
    (a.weekdays && b.weekdays) || (a.weekends && b.weekends)
    || (a.custom && b.custom && a.customText == b.customText)
  }

  /** Some skill `candidate` offers is one `caller` wants. */
  predicate OfferedMatch(candidate: User, caller: User)
  {
    exists s :: s in candidate.skillsOffered && s in caller.skillsWanted
  }

  /** Some skill `candidate` wants is one `caller` offers. */
  predicate WantedMatch(candidate: User, caller: User)
  {
    exists s :: s in candidate.skillsWanted && s in caller.skillsOffered
  }

  /** The number of criteria `candidate` meets for `caller`. */
  function Score(candidate: User, caller: User): (n: nat)
    ensures n <= 3
    ensures n == 3 <==> AvailabilityOverlap(candidate.availability, caller.availability)
                        && OfferedMatch(candidate, caller) && WantedMatch(candidate, caller)
    ensures n == 0 <==> !AvailabilityOverlap(candidate.availability, caller.availability)
                        && !OfferedMatch(candidate, caller) && !WantedMatch(candidate, caller)
  {
    (if AvailabilityOverlap(candidate.availability, caller.availability) then 1 else 0)
    + (if OfferedMatch(candidate, caller) then 1 else 0)
    + (if WantedMatch(candidate, caller) then 1 else 0)
  }

  /** A match is mutual: offered-match one way is wanted-match the other
   *  way, availability overlap is symmetric, and so the score is too. */
  lemma ScoreSymmetric(a: User, b: User)
    ensures OfferedMatch(a, b) <==> WantedMatch(b, a)
    ensures AvailabilityOverlap(a.availability, b.availability) <==> AvailabilityOverlap(b.availability, a.availability)
    ensures Score(a, b) == Score(b, a)
  {
  }

  /** The candidate predicate of the `User.find` query. */
  predicate Candidate(callerId: UserId, u: User)
  {
    u.id != callerId && u.isPublic && !u.isBanned
  }

  /** The candidates, in the collection's order. */
  function Pool(users: seq<User>, callerId: UserId): (r: seq<User>)
    ensures forall u :: u in r ==> u in users && u.id != callerId && u.isPublic && !u.isBanned
  {
    Filter(users, u => Candidate(callerId, u))
  }

  /** The pool is exactly the stored users other than the caller that are
   *  public and not banned. */
  lemma PoolIff(users: seq<User>, callerId: UserId, u: User)
    ensures u in Pool(users, callerId) <==> u in users && u.id != callerId && u.isPublic && !u.isBanned
  {
    FilterIn(users, u => Candidate(callerId, u), u);
  }

  /** The candidates of `pool` with score `k` for `caller`, in scan order. */
  function Bucket(pool: seq<User>, caller: User, k: nat): seq<User>
  {
    Filter(pool, u => Score(u, caller) == k)
  }

  datatype Matches = Matches(perfectMatches: seq<User>, twoMatches: seq<User>, oneMatch: seq<User>)

  /** What the `forEach` scan produces from a pool. */
  function Categorise(pool: seq<User>, caller: User): (m: Matches)
    ensures forall u :: u in m.perfectMatches ==> u in pool && Score(u, caller) == 3
    ensures forall u :: u in m.twoMatches ==> u in pool && Score(u, caller) == 2
    ensures forall u :: u in m.oneMatch ==> u in pool && Score(u, caller) == 1
  {
    Matches(Bucket(pool, caller, 3), Bucket(pool, caller, 2), Bucket(pool, caller, 1))
  }

  /** A candidate is in a list exactly when its score is that list's, so it
   *  is in at most one list, and one scoring 0 is in none. */
  lemma CategoriseMembership(pool: seq<User>, caller: User, u: User)
    ensures var m := Categorise(pool, caller);
      && (u in m.perfectMatches <==> u in pool && Score(u, caller) == 3)
      && (u in m.twoMatches <==> u in pool && Score(u, caller) == 2)
      && (u in m.oneMatch <==> u in pool && Score(u, caller) == 1)
      && !(u in m.perfectMatches && u in m.twoMatches)
      && !(u in m.perfectMatches && u in m.oneMatch)
      && !(u in m.twoMatches && u in m.oneMatch)
      && (Score(u, caller) == 0 ==> u !in m.perfectMatches && u !in m.twoMatches && u !in m.oneMatch)
  {
    FilterIn(pool, u => Score(u, caller) == 3, u);
    FilterIn(pool, u => Score(u, caller) == 2, u);
    FilterIn(pool, u => Score(u, caller) == 1, u);
  }

  /** A bucket holds every occurrence of a pool member with its score and
   *  none of any other. */
  lemma BucketCount(pool: seq<User>, caller: User, k: nat, u: User)
    ensures multiset(Bucket(pool, caller, k))[u] == if Score(u, caller) == k then multiset(pool)[u] else 0
  {
    FilterCount(pool, u => Score(u, caller) == k, u);
  }

  /** The three lists and the dropped score-0 candidates together hold every
   *  candidate of the pool exactly as often as the pool does. */
  lemma BucketsPartition(pool: seq<User>, caller: User)
    ensures multiset(Bucket(pool, caller, 3)) + multiset(Bucket(pool, caller, 2))
            + multiset(Bucket(pool, caller, 1)) + multiset(Bucket(pool, caller, 0)) == multiset(pool)
  {
    forall u
      ensures (multiset(Bucket(pool, caller, 3)) + multiset(Bucket(pool, caller, 2))
               + multiset(Bucket(pool, caller, 1)) + multiset(Bucket(pool, caller, 0)))[u] == multiset(pool)[u]
    {
      BucketCount(pool, caller, 3, u);
      BucketCount(pool, caller, 2, u);
      BucketCount(pool, caller, 1, u);
      BucketCount(pool, caller, 0, u);
    }
  }

  /** Scanning two runs of candidates one after the other gives, list by
   *  list, the first run's candidates followed by the second's: each list
   *  keeps scan order. */
  lemma CategoriseKeepsOrder(s: seq<User>, t: seq<User>, caller: User)
    ensures Categorise(s + t, caller).perfectMatches == Categorise(s, caller).perfectMatches + Categorise(t, caller).perfectMatches
    ensures Categorise(s + t, caller).twoMatches == Categorise(s, caller).twoMatches + Categorise(t, caller).twoMatches
    ensures Categorise(s + t, caller).oneMatch == Categorise(s, caller).oneMatch + Categorise(t, caller).oneMatch
  {
    FilterConcat(s, t, u => Score(u, caller) == 3);
    FilterConcat(s, t, u => Score(u, caller) == 2);
    FilterConcat(s, t, u => Score(u, caller) == 1);
  }

  /** Scanning one more candidate appends it to the list for its score. */
  lemma CategoriseSnoc(init: seq<User>, x: User, caller: User)
    ensures var m := Categorise(init, caller);
      var n := Score(x, caller);
      Categorise(init + [x], caller)
      == Matches(m.perfectMatches + (if n == 3 then [x] else []),
                 m.twoMatches + (if n == 2 then [x] else []),
                 m.oneMatch + (if n == 1 then [x] else []))
  {
    assert (init + [x])[..|init|] == init;
  }

  /** The `forEach` over the pool: each candidate's criteria are counted and
   *  the candidate pushed onto the list for its count. */
  method ScanPool(allUsers: seq<User>, currentUser: User) returns (m: Matches)
    ensures m == Categorise(allUsers, currentUser)
  {
    var perfectMatches: seq<User> := [];
    var twoMatches: seq<User> := [];
    var oneMatch: seq<User> := [];
    var i := 0;
    while i < |allUsers|
      invariant 0 <= i <= |allUsers|
      invariant Matches(perfectMatches, twoMatches, oneMatch) == Categorise(allUsers[..i], currentUser)
    {
      var user := allUsers[i];
      var matchCount := 0;
      if AvailabilityOverlap(user.availability, currentUser.availability) {
        matchCount := matchCount + 1;
      }
      if OfferedMatch(user, currentUser) {
        matchCount := matchCount + 1;
      }
      if WantedMatch(user, currentUser) {
        matchCount := matchCount + 1;
      }
      assert matchCount == Score(user, currentUser);
      CategoriseSnoc(allUsers[..i], user, currentUser);
      assert allUsers[..i + 1] == allUsers[..i] + [user];
      if matchCount == 3 {
        perfectMatches := perfectMatches + [user];
      } else if matchCount == 2 {
        twoMatches := twoMatches + [user];
      } else if matchCount == 1 {
        oneMatch := oneMatch + [user];
      }
      i := i + 1;
    }
    assert allUsers[..i] == allUsers;
    m := Matches(perfectMatches, twoMatches, oneMatch);
  }

  const NoSuchUser := "User not found"
  const ServerError := "Server Error"

  /** The body `res.json` sends: each matched user serialised through
   *  `toJSON`, so without its password. */
  datatype MatchesBody = MatchesBody(perfectMatches: seq<map<string, Json>>, twoMatches: seq<map<string, Json>>,
                                     oneMatch: seq<map<string, Json>>)

  function UsersJson(us: seq<User>): (r: seq<map<string, Json>>)
    ensures |r| == |us|
    ensures forall k :: 0 <= k < |r| ==> r[k] == ToJson(us[k])
  {
    seq(|us|, k requires 0 <= k < |us| => ToJson(us[k]))
  }

  function MatchesJson(m: Matches): MatchesBody
  {
    MatchesBody(UsersJson(m.perfectMatches), UsersJson(m.twoMatches), UsersJson(m.oneMatch))
  }

  /** No password hash is sent, and each sent user is recoverable from its
   *  JSON up to the password. */
  lemma MatchesHidePasswords(m: Matches)
    ensures var b := MatchesJson(m);
      && (forall j :: j in b.perfectMatches + b.twoMatches + b.oneMatch ==> "password" !in j)
      && |b.perfectMatches| == |m.perfectMatches| && |b.twoMatches| == |m.twoMatches| && |b.oneMatch| == |m.oneMatch|
  {
    var b := MatchesJson(m);
    forall j | j in b.perfectMatches + b.twoMatches + b.oneMatch ensures "password" !in j {
      if j in b.perfectMatches {
        var k :| 0 <= k < |b.perfectMatches| && b.perfectMatches[k] == j;
      } else if j in b.twoMatches {
        var k :| 0 <= k < |b.twoMatches| && b.twoMatches[k] == j;
      } else {
        var k :| 0 <= k < |b.oneMatch| && b.oneMatch[k] == j;
      }
    }
  }

  /** `getSkillMatches` for the caller id text: a CastError answers 500, an
   *  unknown caller 404; otherwise 200 with the three lists that
   *  categorise the pool, each user sent as its JSON. The users are read,
   *  never written. */
  method GetSkillMatches(users: seq<User>, callerIdText: string) returns (r: Reply<MatchesBody>)
    ensures CastObjectId(callerIdText).None? ==> r == Refuse(500, ServerError)
    ensures CastObjectId(callerIdText).Some? && FindById(users, CastObjectId(callerIdText).value).None? ==>
      r == Refuse(404, NoSuchUser)
    ensures CastObjectId(callerIdText).Some? && FindById(users, CastObjectId(callerIdText).value).Some? ==>
      var caller := FindById(users, CastObjectId(callerIdText).value).value;
      r == Send(200, MatchesJson(Categorise(Pool(users, caller.id), caller)))
    ensures r.Send? ==>
      forall j :: j in r.payload.perfectMatches + r.payload.twoMatches + r.payload.oneMatch ==> "password" !in j
  {
    var id := CastObjectId(callerIdText);
    if id.None? {
      return Refuse(500, ServerError);
    }
    var found := FindById(users, id.value);
    if found.None? {
      return Refuse(404, NoSuchUser);
    }
    var currentUser := found.value;
    var allUsers := Pool(users, currentUser.id);
    var matches := ScanPool(allUsers, currentUser);
    MatchesHidePasswords(matches);
    r := Send(200, MatchesJson(matches));
  }
}
