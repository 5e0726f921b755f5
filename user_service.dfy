/** The frontend's user service: creating a profile on first sign-in, the
    client-side filter of the people search, and the connections between
    users, each stored as one document per unordered pair of users. */
module UserService {
  import opened Wrappers
  import opened JsString
  import opened Seqs
  import opened Store
  import opened Types

  // ------------------------------------------------------------ profiles

  /** The `data` argument of `createUserProfile`. */
  datatype ProfileInput = ProfileInput(email: string, name: Option<string>, photoURL: Option<string>, collegeSlug: Option<string>)


  /** The text of an address before its first '@' (`email.split("@")[0]`). */
  function LocalPart(email: string): (r: string)
    ensures '@' !in r
    ensures |r| <= |email| && r == email[..|r|]
  {
    SplitPiecesFree(email, '@');
    SplitHead(email, '@');
    Split(email, '@')[0]
  }

  /** The profile document written on first sign-in. */
  function NewProfileDoc(uid: string, data: ProfileInput): Doc {
    map[
      "email" := Str(data.email),
      "name" := Str(if Present(data.name) then data.name.value else LocalPart(data.email)),
      "avatar" := Str(if Present(data.photoURL) then data.photoURL.value else DicebearPrefix + uid),
      "college" := Str(if Present(data.collegeSlug) then data.collegeSlug.value else ""),
      "collegeSlug" := Str(if Present(data.collegeSlug) then data.collegeSlug.value else ""),
      "headline" := Str("Student looking to collaborate"),
      "skills" := Strs([]), "interests" := Strs([]),
      "availability" := Str("open"),
      "reputation" := Num(0),
      "achievements" := Strs([]), "certifications" := Strs([]),
      "currentFocus" := Str(""), "bio" := Str(""),
      "links" := Strs([]),
      "createdAt" := ServerTimestamp, "updatedAt" := ServerTimestamp
    ]
  }

  /** `createUserProfile(uid, data)`: create the profile when it does not
      exist, otherwise only touch `updatedAt`. */
  method CreateUserProfile(db: Firestore, uid: string, data: ProfileInput)
    modifies db
    ensures uid !in old(db.users) ==> db.users == old(db.users)[uid := NewProfileDoc(uid, data)]
    ensures uid in old(db.users) ==> db.users == Merge(old(db.users), uid, map["updatedAt" := ServerTimestamp])
    ensures db.connections == old(db.connections)
  {
    if uid !in db.users {
      db.SetUser(uid, NewProfileDoc(uid, data));
    } else {
      db.MergeUser(uid, map["updatedAt" := ServerTimestamp]);
    }
  }

  /** Without a name, a new profile is named after the local part of its
      address. */
  lemma DefaultNameIsLocalPart(uid: string, local: string, domain: string, photoURL: Option<string>, slug: Option<string>)
    requires '@' !in local
    ensures NewProfileDoc(uid, ProfileInput(local + "@" + domain, None, photoURL, slug))["name"] == Str(local)
  {
    SplitCons(local, '@', domain);
    assert local + ['@'] + domain == local + "@" + domain;
  }

  /** A new profile's college and college slug are the same text, the given
      slug or "". */
  lemma NewProfileCollegeIsSlug(uid: string, data: ProfileInput)
    ensures NewProfileDoc(uid, data)["college"] == NewProfileDoc(uid, data)["collegeSlug"]
    ensures Present(data.collegeSlug) <==> NewProfileDoc(uid, data)["collegeSlug"] != Str("")
  {
  }

  /** Signing in again changes nothing in a profile but `updatedAt`. */
  lemma ExistingProfileKeepsFields(users: map<string, Doc>, uid: string, f: string)
    requires uid in users && f in users[uid] && f != "updatedAt"
    ensures Merge(users, uid, map["updatedAt" := ServerTimestamp])[uid][f] == users[uid][f]
  {
  }

  // -------------------------------------------------------------- search

  /** The client-side test of `searchUsers`: the term occurs, ignoring case,
      in the name, the address or the college. */
  predicate UserMatches(u: UserProfile, searchTerm: string) {
    var t := Lower(searchTerm);
    Includes(Lower(u.name), t) || Includes(Lower(u.email), t) || Includes(Lower(u.college), t)
  }

  /** The `forEach` that keeps the fetched users matching the term. */
  method FilterUsers(fetched: seq<UserProfile>, searchTerm: string) returns (users: seq<UserProfile>)
    ensures users == Filter(fetched, u => UserMatches(u, searchTerm))
  {
    users := [];
    var i := 0;
    while i < |fetched|
      invariant 0 <= i <= |fetched|
      invariant users == Filter(fetched[..i], u => UserMatches(u, searchTerm))
    {
      FilterAppend(fetched[..i], fetched[i], u => UserMatches(u, searchTerm));
      assert fetched[..i + 1] == fetched[..i] + [fetched[i]];
      if UserMatches(fetched[i], searchTerm) {
        users := users + [fetched[i]];
      }
      i := i + 1;
    }
    assert fetched[..i] == fetched;
  }

  /** The search result keeps the fetched order, holds exactly the fetched
      users that match, and the empty term matches everyone. */
  lemma SearchResultSpec(fetched: seq<UserProfile>, searchTerm: string, u: UserProfile)
    ensures IsSubsequence(Filter(fetched, v => UserMatches(v, searchTerm)), fetched)
    ensures u in Filter(fetched, v => UserMatches(v, searchTerm)) <==> u in fetched && UserMatches(u, searchTerm)
    ensures searchTerm == "" ==> Filter(fetched, v => UserMatches(v, searchTerm)) == fetched
  {
    FilterIsSubsequence(fetched, v => UserMatches(v, searchTerm));
    FilterMembership(fetched, v => UserMatches(v, searchTerm), u);
    if searchTerm == "" {
      forall i | 0 <= i < |fetched| ensures UserMatches(fetched[i], searchTerm) {
        IncludesTrivial(Lower(fetched[i].name));
      }
      FilterKeepsAll(fetched, v => UserMatches(v, searchTerm));
    }
  }

  // --------------------------------------------------------- connections

  /** `[a, b].sort()`: the two ids in code-unit order. */
  function SortPair(a: string, b: string): (members: seq<string>)
    ensures |members| == 2 && multiset(members) == multiset{a, b}
    ensures Precedes(members[0], members[1])
  {
    PrecedesTotalOrder(a, b);
    if Precedes(a, b) then [a, b] else [b, a]
  }

  /** `members.join("__")`: the id of the pair's connection document. */
  function ConnectionId(a: string, b: string): string {
    var members := SortPair(a, b);
    members[0] + "__" + members[1]
  }

  /** Both users of a pair name the same document, with the same members. */
  lemma ConnectionIdSymmetric(a: string, b: string)
    ensures SortPair(a, b) == SortPair(b, a)
    ensures ConnectionId(a, b) == ConnectionId(b, a)
  {
    PrecedesTotalOrder(a, b);
  }

  /** The fields `connectWithUser` merges into the pair's document. */
  function ConnectPatch(currentUid: string, targetUid: string): Doc {
    map["members" := Strs(SortPair(currentUid, targetUid)), "status" := Str("connected"),
        "initiator" := Str(currentUid), "connectedAt" := ServerTimestamp, "updatedAt" := ServerTimestamp]
  }

  /** `connectWithUser(currentUid, targetUid)`: the thrown error, if any. */
  method ConnectWithUser(db: Firestore, currentUid: string, targetUid: string) returns (error: Option<string>)
    modifies db
    ensures currentUid == targetUid ==> error == Some("You cannot connect with yourself.") && db.connections == old(db.connections)
    ensures currentUid != targetUid ==> (error.None? &&
      db.connections == Merge(old(db.connections), ConnectionId(currentUid, targetUid), ConnectPatch(currentUid, targetUid)))
    ensures db.users == old(db.users)
  {
    if currentUid == targetUid {
      return Some("You cannot connect with yourself.");
    }
    db.MergeConnection(ConnectionId(currentUid, targetUid), ConnectPatch(currentUid, targetUid));
    error := None;
  }

  /** Connecting twice leaves the store as connecting once. */
  lemma ConnectIdempotent(connections: map<string, Doc>, a: string, b: string)
    ensures var once := Merge(connections, ConnectionId(a, b), ConnectPatch(a, b));
      Merge(once, ConnectionId(a, b), ConnectPatch(a, b)) == once
  {
    MergeIdempotent(connections, ConnectionId(a, b), ConnectPatch(a, b));
  }

  /** Two underscore-free ids joined by "__" split back into them. */
  lemma SplitJoinedPair(x: string, y: string)
    requires '_' !in x && '_' !in y
    ensures Split(x + "__" + y, '_') == [x, "", y]
  {
    assert x + "__" + y == x + ['_'] + ([] + ['_'] + y);
    SplitThree(x, [], y, '_');
  }

  /** For user ids without an underscore the connection id names the pair:
      different pairs never share a document. */
  lemma ConnectionIdInjective(a: string, b: string, c: string, d: string)
    requires '_' !in a && '_' !in b && '_' !in c && '_' !in d
    requires ConnectionId(a, b) == ConnectionId(c, d)
    ensures multiset{a, b} == multiset{c, d}
  {
    var p, q := SortPair(a, b), SortPair(c, d);
    assert p[0] in multiset{a, b} && p[1] in multiset{a, b};
    assert q[0] in multiset{c, d} && q[1] in multiset{c, d};
    SplitJoinedPair(p[0], p[1]);
    SplitJoinedPair(q[0], q[1]);
    assert p == q;
  }

  /** `data.members ?? []`. */
  function MembersOf(members: Option<seq<string>>): seq<string> {
    members.GetOr([])
  }

  /** All member lists of the matched documents, one after the other. */
  function Flatten(matched: seq<Option<seq<string>>>): seq<string> {
    if matched == [] then [] else Flatten(matched[..|matched| - 1]) + MembersOf(matched[|matched| - 1])
  }

  /** The elements in order of first occurrence, without repeats: what
      `Array.from` of a `Set` filled in that order gives. */
  function Dedup(xs: seq<string>): seq<string> {
    if xs == [] then []
    else
      var d := Dedup(xs[..|xs| - 1]);
      if xs[|xs| - 1] in d then d else d + [xs[|xs| - 1]]
  }

  /** Adding one element to a set-backed list. */
  lemma DedupAppend(xs: seq<string>, x: string)
    ensures Dedup(xs + [x]) == if x in Dedup(xs) then Dedup(xs) else Dedup(xs) + [x]
  {
    assert (xs + [x])[..|xs|] == xs;
  }

  /** `Dedup` keeps exactly the elements of its input, each once. */
  lemma {:induction false} DedupSpec(xs: seq<string>)
    ensures forall x :: x in Dedup(xs) <==> x in xs
    ensures NoDuplicates(Dedup(xs))
  {
    if xs != [] {
      var init, last := xs[..|xs| - 1], xs[|xs| - 1];
      DedupSpec(init);
      assert xs == init + [last];
      DedupAppend(init, last);
    }
  }

  /** `memberId !== uid`. */
  function NotSelf(uid: string): string -> bool {
    m => m != uid
  }

  /** The partner ids `getConnectionsForUser(uid)` returns for the matched
      documents. */
  function Partners(matched: seq<Option<seq<string>>>, uid: string): seq<string> {
    Dedup(Filter(Flatten(matched), NotSelf(uid)))
  }

  /** One more member seen: it is added when it is not the user and not yet
      present. */
  lemma PartnerStep(seen: seq<string>, x: string, uid: string)
    ensures Dedup(Filter(seen + [x], NotSelf(uid))) ==
      var d := Dedup(Filter(seen, NotSelf(uid)));
      if x != uid && x !in d then d + [x] else d
  {
    FilterAppend(seen, x, NotSelf(uid));
    if x != uid {
      assert NotSelf(uid)(x);
      DedupAppend(Filter(seen, NotSelf(uid)), x);
    } else {
      assert !NotSelf(uid)(x);
      var f := Filter(seen, NotSelf(uid));
      assert f + [] == f;
      assert Filter(seen + [x], NotSelf(uid)) == f;
    }
  }

  /** The inner `forEach` over one document's members, adding each partner
      to the set of partners seen so far. */
  method AddPartners(connected: seq<string>, ghost before: seq<string>, members: seq<string>, uid: string)
    returns (added: seq<string>)
    requires connected == Dedup(Filter(before, NotSelf(uid)))
    ensures added == Dedup(Filter(before + members, NotSelf(uid)))
  {
    added := connected;
    assert before + members[..0] == before;
    var j := 0;
    while j < |members|
      invariant 0 <= j <= |members|
      invariant added == Dedup(Filter(before + members[..j], NotSelf(uid)))
    {
      PartnerStep(before + members[..j], members[j], uid);
      assert before + members[..j + 1] == before + members[..j] + [members[j]];
      if members[j] != uid && members[j] !in added {
        added := added + [members[j]];
      }
      j := j + 1;
    }
    assert members[..j] == members;
  }

  /** The nested `forEach` over the matched documents and their members. */
  method GetConnectionsForUser(matched: seq<Option<seq<string>>>, uid: string) returns (connected: seq<string>)
    ensures connected == Partners(matched, uid)
  {
    connected := [];
    var i := 0;
    while i < |matched|
      invariant 0 <= i <= |matched|
      invariant connected == Dedup(Filter(Flatten(matched[..i]), NotSelf(uid)))
    {
      assert matched[..i + 1][..i] == matched[..i];
      connected := AddPartners(connected, Flatten(matched[..i]), MembersOf(matched[i]), uid);
      i := i + 1;
    }
    assert matched[..i] == matched;
  }

  /** A member is in some matched document's list exactly when it is in the
      flattened list. */
  lemma {:induction false} FlattenMembership(matched: seq<Option<seq<string>>>, x: string)
    ensures x in Flatten(matched) <==> exists k :: 0 <= k < |matched| && x in MembersOf(matched[k])
  {
    if matched != [] {
      var init := matched[..|matched| - 1];
      FlattenMembership(init, x);
      if x in Flatten(init) {
        var k :| 0 <= k < |init| && x in MembersOf(init[k]);
        assert matched[k] == init[k];
      }
      if exists k :: 0 <= k < |matched| && x in MembersOf(matched[k]) {
        var k :| 0 <= k < |matched| && x in MembersOf(matched[k]);
        if k < |init| {
          assert init[k] == matched[k];
        }
      }
    }
  }

  /** The partners are every member other than the user of every matched
      document, each once, and never the user. */
  lemma PartnersSpec(matched: seq<Option<seq<string>>>, uid: string, x: string)
    ensures x in Partners(matched, uid) <==> x != uid && exists k :: 0 <= k < |matched| && x in MembersOf(matched[k])
    ensures uid !in Partners(matched, uid)
    ensures NoDuplicates(Partners(matched, uid))
  {
    DedupSpec(Filter(Flatten(matched), NotSelf(uid)));
    FilterMembership(Flatten(matched), NotSelf(uid), x);
    FilterMembership(Flatten(matched), NotSelf(uid), uid);
    FlattenMembership(matched, x);
  }
}
