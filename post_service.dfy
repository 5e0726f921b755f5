/** The frontend's post service: reading the latest posts as feed posts, with
    a default for every field a stored post may lack, and adding a post with
    its counters at zero. */
module PostService {
  import opened Wrappers
  import opened JsString
  import opened Seqs
  import opened Types

  datatype Visibility = Public | Community

  datatype AttachmentType = Image | Link | Document

  datatype Attachment = Attachment(kind: AttachmentType, title: string, description: Option<string>, url: Option<string>)

  /** A stored `createdAt`: a store timestamp (milliseconds since the epoch)
      or any other value. */
  datatype CreatedAt = Timestamp(millis: int) | NotATimestamp

  /** A post document as read back; every field may be missing or null. */
  datatype PostDoc = PostDoc(
    authorId: Option<string>, authorName: Option<string>, authorTitle: Option<string>, authorAvatar: Option<string>,
    collegeSlug: Option<string>, visibility: Option<Visibility>, content: Option<string>,
    tags: Option<seq<string>>, attachments: Option<seq<Attachment>>,
    reactions: Option<int>, comments: Option<int>, shares: Option<int>, createdAt: Option<CreatedAt>)

  /** `FeedPost`: what the feed renders. The optional fields are optional
      because the built-in fallback feed does not set them. */
  datatype FeedPost = FeedPost(
    id: string, authorId: string, authorName: string, authorTitle: string, authorAvatar: string,
    collegeSlug: Option<string>, visibility: Option<Visibility>, content: string,
    tags: Option<seq<string>>, attachments: Option<seq<Attachment>>,
    reactions: Option<int>, comments: Option<int>, shares: Option<int>, createdAt: Option<int>)

  /** The avatar shown for a post: the stored one when truthy, otherwise a
      generated one seeded by the author id, or by the document id when
      there is no author id. */
  function AvatarOf(id: string, doc: PostDoc): (avatar: string)
    ensures Present(doc.authorAvatar) ==> avatar == doc.authorAvatar.value
    ensures !Present(doc.authorAvatar) ==> StartsWith(avatar, DicebearPrefix)
    ensures !Present(doc.authorAvatar) ==> avatar[|DicebearPrefix|..] == doc.authorId.GetOr(id)
  {
    if Present(doc.authorAvatar) then doc.authorAvatar.value
    else
      var a := DicebearPrefix + doc.authorId.GetOr(id);
      assert a[..|DicebearPrefix|] == DicebearPrefix;
      a
  }

  /** The `snapshot.docs.map(...)` callback of `getLatestPosts`. */
  function Normalize(id: string, doc: PostDoc): (p: FeedPost)
    ensures p.id == id
    ensures p.visibility.Some? && p.tags.Some? && p.attachments.Some?
    ensures p.reactions.Some? && p.comments.Some? && p.shares.Some?
    ensures p.createdAt.Some? <==> doc.createdAt.Some? && doc.createdAt.value.Timestamp?
    ensures p.createdAt.Some? ==> p.createdAt.value == doc.createdAt.value.millis
    // a missing field gets its default (`??`), a present one is kept
    ensures doc.authorId.None? ==> p.authorId == ""
    ensures doc.authorId.Some? ==> p.authorId == doc.authorId.value
    ensures doc.authorName.None? ==> p.authorName == "Unknown builder"
    ensures doc.authorName.Some? ==> p.authorName == doc.authorName.value
    ensures doc.authorTitle.None? ==> p.authorTitle == ""
    ensures doc.authorTitle.Some? ==> p.authorTitle == doc.authorTitle.value
    ensures p.authorAvatar == AvatarOf(id, doc)
    ensures p.collegeSlug == doc.collegeSlug
    ensures doc.visibility.None? ==> p.visibility == Some(Public)
    ensures doc.visibility.Some? ==> p.visibility == doc.visibility
    ensures doc.content.None? ==> p.content == ""
    ensures doc.content.Some? ==> p.content == doc.content.value
    ensures doc.tags.None? ==> p.tags == Some([])
    ensures doc.tags.Some? ==> p.tags == doc.tags
    ensures doc.attachments.None? ==> p.attachments == Some([])
    ensures doc.attachments.Some? ==> p.attachments == doc.attachments
    ensures doc.reactions.None? ==> p.reactions == Some(0)
    ensures doc.reactions.Some? ==> p.reactions == doc.reactions
    ensures doc.comments.None? ==> p.comments == Some(0)
    ensures doc.comments.Some? ==> p.comments == doc.comments
    ensures doc.shares.None? ==> p.shares == Some(0)
    ensures doc.shares.Some? ==> p.shares == doc.shares
  {
    FeedPost(
      id,
      doc.authorId.GetOr(""),
      doc.authorName.GetOr("Unknown builder"),
      doc.authorTitle.GetOr(""),
      AvatarOf(id, doc),
      doc.collegeSlug,
      Some(doc.visibility.GetOr(Public)),
      doc.content.GetOr(""),
      Some(doc.tags.GetOr([])),
      Some(doc.attachments.GetOr([])),
      Some(doc.reactions.GetOr(0)),
      Some(doc.comments.GetOr(0)),
      Some(doc.shares.GetOr(0)),
      if doc.createdAt.Some? && doc.createdAt.value.Timestamp? then Some(doc.createdAt.value.millis) else None)
  }

  /** `getLatestPosts`' mapping of the fetched documents (their order and
      number are decided by the store's query). */
  function NormalizeAll(docs: seq<(string, PostDoc)>): (posts: seq<FeedPost>)
    ensures |posts| == |docs|
    ensures forall i :: 0 <= i < |docs| ==> posts[i] == Normalize(docs[i].0, docs[i].1)
  {
    seq(|docs|, i requires 0 <= i < |docs| => Normalize(docs[i].0, docs[i].1))
  }

  /** One feed post per document, in order, each with its document's id. */
  lemma NormalizeAllKeepsIds(docs: seq<(string, PostDoc)>)
    ensures |NormalizeAll(docs)| == |docs|
    ensures forall i :: 0 <= i < |docs| ==> NormalizeAll(docs)[i].id == docs[i].0
  {
  }

  /** A document that lacks every field reads as the defaults. */
  lemma EmptyDocDefaults(id: string)
    ensures var p := Normalize(id, PostDoc(None, None, None, None, None, None, None, None, None, None, None, None, None));
      p.authorId == "" && p.authorName == "Unknown builder" && p.authorTitle == "" && p.content == "" &&
      p.authorAvatar == DicebearPrefix + id && p.visibility == Some(Public) &&
      p.tags == Some([]) && p.attachments == Some([]) &&
      p.reactions == Some(0) && p.comments == Some(0) && p.shares == Some(0) && p.createdAt.None?
  {
  }

  /** An optional property of the object handed to `createPost`: not
      present, present with the value `undefined`, or present with a value. */
  datatype Prop<T> = Missing | Undefined | Val(value: T)

  function PropValue<T>(p: Prop<T>): Option<T> {
    if p.Val? then Some(p.value) else None
  }

  /** The argument of `createPost`. */
  datatype NewPost = NewPost(
    authorId: string, authorName: string, authorTitle: string, authorAvatar: string,
    collegeSlug: Prop<string>, content: string, visibility: Prop<Visibility>,
    tags: Prop<seq<string>>, attachments: Prop<seq<Attachment>>)

  /** Some property of the post is present with the value `undefined`. */
  predicate HasUndefined(post: NewPost) {
    post.collegeSlug.Undefined? || post.visibility.Undefined? || post.tags.Undefined? || post.attachments.Undefined?
  }

  /** The document `createPost` adds: the post's fields, the three counters
      at zero, and the server's time as `createdAt`. */
  function StoredPost(post: NewPost, now: int): PostDoc {
    PostDoc(Some(post.authorId), Some(post.authorName), Some(post.authorTitle), Some(post.authorAvatar),
            PropValue(post.collegeSlug), PropValue(post.visibility), Some(post.content),
            PropValue(post.tags), PropValue(post.attachments),
            Some(0), Some(0), Some(0), Some(Timestamp(now)))
  }

  /** The start of the store client's refusal; the full message goes on to
      name the field and the document (" (found in field tags in document
      posts/<id>)"), which the model leaves out. */
  const UndefinedFieldError: string := "Function addDoc() called with invalid data. Unsupported field value: undefined"

  /** The `posts` collection. */
  class PostStore {
    var posts: map<string, PostDoc>

    constructor (posts: map<string, PostDoc>)
      ensures this.posts == posts
    {
      this.posts := posts;
    }

    /** `createPost(post)`: `addDoc` under the fresh id `newId` the store
        assigns, with the server time `now`. The store refuses a document
        with a field whose value is `undefined` (its default setting, which
        the application does not change). */
    method CreatePost(newId: string, now: int, post: NewPost) returns (r: Result<string>)
      requires newId !in posts
      modifies this
      ensures HasUndefined(post) ==> r == Failure(UndefinedFieldError) && posts == old(posts)
      ensures !HasUndefined(post) ==> r == Success(newId) && posts == old(posts)[newId := StoredPost(post, now)]
    {
      if HasUndefined(post) {
        return Failure(UndefinedFieldError);
      }
      posts := posts[newId := StoredPost(post, now)];
      r := Success(newId);
    }
  }

  /** A created post reads back with its own fields, counters at zero, and
      the creation time. */
  lemma CreatedPostReadsBack(id: string, post: NewPost, now: int)
    requires !HasUndefined(post)
    ensures var p := Normalize(id, StoredPost(post, now));
      p.id == id && p.authorId == post.authorId && p.authorName == post.authorName &&
      p.authorTitle == post.authorTitle && p.content == post.content &&
      (post.authorAvatar != "" ==> p.authorAvatar == post.authorAvatar) &&
      p.collegeSlug == PropValue(post.collegeSlug) &&
      p.tags == Some(PropValue(post.tags).GetOr([])) &&
      p.reactions == Some(0) && p.comments == Some(0) && p.shares == Some(0) &&
      p.createdAt == Some(now)
  {
  }
}
