/** The discover page: which user query runs for the search box and filter,
    the student cards (never the signed-in user), and each card's connect
    button. */
module Discover {
  import opened Wrappers
  import opened Seqs
  import opened Types
  import opened Store
  import UserService

  datatype FilterType = All | CollegeOnly | AvailableOnly

  /** The user-service call the page's query makes. */
  datatype UserQuery = SearchUsers(term: string) | UsersByCollege(college: string) | UsersByAvailability(availability: Availability) | AllUsers

  /** The page's `queryFn`: a non-empty search term wins over the filter;
      the college filter needs a non-empty profile college and otherwise
      lists everyone; "available" lists users who are open. */
  function Dispatch(searchTerm: string, filter: FilterType, profile: Option<UserProfile>): (q: UserQuery)
    ensures q.SearchUsers? <==> searchTerm != ""
    ensures q.SearchUsers? ==> q.term == searchTerm
    ensures q.UsersByCollege? ==> q.college != "" && profile.Some? && q.college == profile.value.college
    ensures q.UsersByAvailability? ==> q.availability == Open
  {
    if searchTerm != "" then SearchUsers(searchTerm)
    else match filter
      case CollegeOnly => if profile.Some? && profile.value.college != "" then UsersByCollege(profile.value.college) else AllUsers
      case AvailableOnly => UsersByAvailability(Open)
      case All => AllUsers
  }

  /** Without a search term, each filter picks its own query, and the college
      filter falls back to everyone when the profile has no college. */
  lemma FilterDispatch(profile: Option<UserProfile>)
    ensures Dispatch("", All, profile) == AllUsers
    ensures Dispatch("", AvailableOnly, profile) == UsersByAvailability(Open)
    ensures profile.None? || profile.value.college == "" ==> Dispatch("", CollegeOnly, profile) == AllUsers
    ensures profile.Some? && profile.value.college != "" ==> Dispatch("", CollegeOnly, profile) == UsersByCollege(profile.value.college)
  {
  }

  /** The `(u) => u.id !== user.uid` callback. */
  function NotCurrent(currentUid: string): UserProfile -> bool {
    (u: UserProfile) => u.id != currentUid
  }

  /** The student cards: the fetched users except the signed-in one. */
  function VisibleStudents(users: seq<UserProfile>, currentUid: string): (r: seq<UserProfile>)
    ensures IsSubsequence(r, users)
  {
    FilterIsSubsequence(users, NotCurrent(currentUid));
    Filter(users, NotCurrent(currentUid))
  }

  /** Exactly the other users get a card. */
  lemma VisibleStudentsSpec(users: seq<UserProfile>, currentUid: string, u: UserProfile)
    ensures u in VisibleStudents(users, currentUid) <==> (u in users && u.id != currentUid)
  {
    FilterMembership(users, NotCurrent(currentUid), u);
  }

  /** The connect button's text: "Connected" over "Connecting..." over
      "Connect". */
  function ConnectLabel(isConnected: bool, isProcessing: bool): (text: string)
    ensures text == "Connected" <==> isConnected
    ensures text == "Connecting..." <==> !isConnected && isProcessing
  {
    if isConnected then "Connected" else if isProcessing then "Connecting..." else "Connect"
  }

  /** The button is disabled when connected, while its own request is
      pending, or while the connections are loading. */
  function ConnectDisabled(isConnected: bool, isProcessing: bool, isDisabled: bool): (d: bool)
    ensures d <==> isDisabled || ConnectLabel(isConnected, isProcessing) != "Connect"
  {
    isConnected || isProcessing || isDisabled
  }

  /** An enabled button always reads "Connect". */
  lemma EnabledButtonReadsConnect(isConnected: bool, isProcessing: bool, isDisabled: bool)
    ensures !ConnectDisabled(isConnected, isProcessing, isDisabled) ==> ConnectLabel(isConnected, isProcessing) == "Connect"
  {
  }

  const NotAuthenticated: string := "You must be authenticated to connect."

  /** A card's `onConnect` run to completion: nothing for a student already
      connected; otherwise the connect mutation, which needs a signed-in
      user and then connects the two users. `connectedIds` is the loaded
      connection list (empty while loading). */
  method OnConnect(db: Firestore, currentUid: Option<string>, connectedIds: seq<string>, studentId: string)
    returns (error: Option<string>)
    modifies db
    ensures studentId in connectedIds ==> error.None? && db.connections == old(db.connections)
    ensures studentId !in connectedIds && currentUid.None? ==> error == Some(NotAuthenticated) && db.connections == old(db.connections)
    ensures studentId !in connectedIds && currentUid == Some(studentId) ==>
      error == Some("You cannot connect with yourself.") && db.connections == old(db.connections)
    ensures studentId !in connectedIds && currentUid.Some? && currentUid.value != studentId ==>
      error.None? &&
      db.connections == Merge(old(db.connections), UserService.ConnectionId(currentUid.value, studentId),
                              UserService.ConnectPatch(currentUid.value, studentId))
    ensures db.users == old(db.users)
  {
    var connectionSet := set id | id in connectedIds;
    if studentId in connectionSet {
      return None;
    }
    if currentUid.None? {
      return Some(NotAuthenticated);
    }
    error := UserService.ConnectWithUser(db, currentUid.value, studentId);
  }

  /** A card's student is never the signed-in user, so connecting from a
      card never meets the self-connection refusal. */
  lemma CardsNeverSelfConnect(users: seq<UserProfile>, currentUid: string, student: UserProfile)
    requires student in VisibleStudents(users, currentUid)
    ensures student.id != currentUid
  {
    VisibleStudentsSpec(users, currentUid, student);
  }
}
