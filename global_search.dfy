/** The navbar's search dialog: the typed and the settled search term, the
    post filter, the caps on what is displayed, and closing the dialog. The
    300 ms settling timer is an explicit `Settle` step. */
module GlobalSearch {
  import opened Wrappers
  import opened JsString
  import opened Seqs
  import opened Types
  import opened PostService
  import UserService

  // ------------------------------------------------------------ queries

  /** Some tag of the post contains the lower-cased term. */
  predicate SomeTagMatches(tags: seq<string>, term: string) {
    exists i :: 0 <= i < |tags| && Includes(Lower(tags[i]), Lower(term))
  }

  /** The post filter: the term occurs, ignoring case, in the content, the
      author name or one of the tags. */
  function PostMatches(term: string): FeedPost -> bool {
    (post: FeedPost) =>
      Includes(Lower(post.content), Lower(term)) || Includes(Lower(post.authorName), Lower(term)) ||
      (post.tags.Some? && SomeTagMatches(post.tags.value, term))
  }

  /** The posts query for the settled term `term`, over the latest posts. */
  function SearchPosts(term: string, latest: seq<FeedPost>): (r: seq<FeedPost>)
    ensures term == "" ==> r == []
    ensures IsSubsequence(r, latest)
  {
    if term == "" then [] else
      FilterIsSubsequence(latest, PostMatches(term));
      Filter(latest, PostMatches(term))
  }

  /** For a non-empty term a post is found exactly when it is among the
      latest posts and matches. */
  lemma SearchPostsSpec(term: string, latest: seq<FeedPost>, post: FeedPost)
    requires term != ""
    ensures post in SearchPosts(term, latest) <==> (post in latest && PostMatches(term)(post))
  {
    FilterMembership(latest, PostMatches(term), post);
  }

  /** The users query for the settled term: nothing for an empty term,
      otherwise `searchUsers(term)` without a college. `fetched` is the page
      that call reads from the store, the first 20 profiles by name; the
      service then keeps the ones matching the term. */
  method SearchPeople(term: string, fetched: seq<UserProfile>) returns (r: seq<UserProfile>)
    ensures term == "" ==> r == []
    ensures IsSubsequence(r, fetched)
    ensures forall u :: u in r <==> term != "" && u in fetched && UserService.UserMatches(u, term)
  {
    if term == "" {
      r := [];
    } else {
      r := UserService.FilterUsers(fetched, term);
      forall u ensures u in r <==> u in fetched && UserService.UserMatches(u, term) {
        UserService.SearchResultSpec(fetched, term, u);
      }
      FilterIsSubsequence(fetched, u => UserService.UserMatches(u, term));
    }
  }

  // ------------------------------------------------------------ display

  /** At most five people, five posts and three tags per post are shown. */
  function ShownPeople(people: seq<UserProfile>): seq<UserProfile> { Take(people, 5) }
  function ShownPosts(posts: seq<FeedPost>): seq<FeedPost> { Take(posts, 5) }
  function ShownTags(tags: seq<string>): seq<string> { Take(tags, 3) }

  /** The displayed lists are the first at-most-five (or three) entries. */
  lemma DisplayCaps(people: seq<UserProfile>, posts: seq<FeedPost>, tags: seq<string>)
    ensures |ShownPeople(people)| == if |people| < 5 then |people| else 5
    ensures |ShownPosts(posts)| == if |posts| < 5 then |posts| else 5
    ensures |ShownTags(tags)| == if |tags| < 3 then |tags| else 3
    ensures forall i :: 0 <= i < |ShownPosts(posts)| ==> ShownPosts(posts)[i] == posts[i]
    ensures forall i :: 0 <= i < |ShownPeople(people)| ==> ShownPeople(people)[i] == people[i]
  {
  }

  /** What the results area shows. `people` and `posts` are the query data,
      absent while a query has not produced any. */
  datatype Panel = Prompt | Loading | Results(people: seq<UserProfile>, posts: seq<FeedPost>, noResults: bool)

  function ResultsPanel(term: string, usersLoading: bool, people: Option<seq<UserProfile>>,
                        posts: Option<seq<FeedPost>>): (p: Panel)
    ensures term == "" <==> p == Prompt
    ensures p.Results? ==> (p.noResults <==> people == Some([]) && posts == Some([]))
  {
    if term == "" then Prompt
    else if usersLoading then Loading
    else Results(ShownPeople(people.GetOr([])), ShownPosts(posts.GetOr([])),
                 people.Some? && |people.value| == 0 && posts.Some? && |posts.value| == 0)
  }

  /** "No results" appears only when both lists are empty, never beside a
      shown person or post. */
  lemma NoResultsOnlyWhenEmpty(term: string, usersLoading: bool, people: Option<seq<UserProfile>>,
                               posts: Option<seq<FeedPost>>)
    ensures var p := ResultsPanel(term, usersLoading, people, posts);
      p.Results? && p.noResults ==> p.people == [] && p.posts == []
  {
  }

  // ------------------------------------------------------------ the dialog

  /** The dialog's state: `searchTerm`, `debouncedTerm`, whether it is open
      (held by the parent, closed through `onOpenChange(false)`), and the
      routes it has asked the router to open. */
  class SearchDialog {
    var searchTerm: string
    var debouncedTerm: string
    var open: bool
    var routes: seq<string>

    constructor (open: bool)
      ensures searchTerm == "" && debouncedTerm == "" && this.open == open && routes == []
    {
      searchTerm := "";
      debouncedTerm := "";
      this.open := open;
      routes := [];
    }

    /** Typing in the field. */
    method SetSearchTerm(text: string)
      modifies this
      ensures searchTerm == text && debouncedTerm == old(debouncedTerm) && open == old(open) && routes == old(routes)
    {
      searchTerm := text;
    }

    /** The settling timer fires: the settled term catches up. */
    method Settle()
      modifies this
      ensures debouncedTerm == searchTerm == old(searchTerm) && open == old(open) && routes == old(routes)
    {
      debouncedTerm := searchTerm;
    }

    /** `handleClose`. */
    method HandleClose()
      modifies this
      ensures searchTerm == "" && debouncedTerm == "" && !open && routes == old(routes)
    {
      searchTerm := "";
      debouncedTerm := "";
      open := false;
    }

    /** `handleUserClick(userId)`: open the profile, then close. */
    method HandleUserClick(userId: string)
      modifies this
      ensures routes == old(routes) + ["/profile/" + userId]
      ensures searchTerm == "" && debouncedTerm == "" && !open
    {
      routes := routes + ["/profile/" + userId];
      HandleClose();
    }

    /** `handlePostClick(postId)`: open the dashboard, then close. */
    method HandlePostClick(postId: string)
      modifies this
      ensures routes == old(routes) + ["/dashboard"]
      ensures searchTerm == "" && debouncedTerm == "" && !open
    {
      routes := routes + ["/dashboard"];
      HandleClose();
    }
  }
}
