/** The dashboard's post composer: the text and tag state of the dialog, the
    tag list's add and remove handlers, and the submission that turns the
    state into a new post. */
module PostComposer {
  import opened Wrappers
  import opened JsString
  import opened Seqs
  import opened Types
  import opened PostService

  const NotAuthenticated: string := "User not authenticated"
  const ContentRequired: string := "Post content is required"

  // ------------------------------------------------------------ tags

  /** What the tag list holds at all times: distinct, non-empty, trimmed,
      lower-case tags. */
  predicate TagsValid(tags: seq<string>) {
    NoDuplicates(tags) &&
    forall i :: 0 <= i < |tags| ==> tags[i] != "" && IsTrimmed(tags[i]) && IsLowerCase(tags[i])
  }

  /** The tag list after `handleAddTag` with `input` in the tag field: the
      trimmed, lower-cased input is appended when it is non-empty and not
      already there. */
  function AddedTags(tags: seq<string>, input: string): seq<string> {
    var t := Lower(Trim(input));
    if t != "" && t !in tags then tags + [t] else tags
  }

  /** Adding keeps the list valid. */
  lemma AddTagKeepsValid(tags: seq<string>, input: string)
    requires TagsValid(tags)
    ensures TagsValid(AddedTags(tags, input))
  {
    var t := Lower(Trim(input));
    TrimSpec(input);
    LowerKeepsTrimmed(Trim(input));
    LowerIsLowerCase(Trim(input));
    if t != "" && t !in tags {
      var r := tags + [t];
      assert r[|tags|] == t;
      forall i, j | 0 <= i < j < |r| ensures r[i] != r[j] {
        if j == |tags| {
          assert r[i] == tags[i];
        }
      }
    }
  }

  /** After an add with non-blank input the normalised tag is listed, and
      every earlier tag is still listed. */
  lemma AddTagListsTag(tags: seq<string>, input: string)
    requires Lower(Trim(input)) != ""
    ensures Lower(Trim(input)) in AddedTags(tags, input)
    ensures forall t :: t in tags ==> t in AddedTags(tags, input)
  {
  }

  /** Adding the same input twice adds it once. */
  lemma AddTagIdempotent(tags: seq<string>, input: string)
    ensures AddedTags(AddedTags(tags, input), input) == AddedTags(tags, input)
  {
    var t := Lower(Trim(input));
    if t != "" && t !in tags {
      assert (tags + [t])[|tags|] == t;
    }
  }

  /** Inputs that differ only in case or surrounding whitespace add the same
      tag. */
  lemma AddTagNormalises(tags: seq<string>, input: string)
    ensures AddedTags(tags, input) == AddedTags(tags, Lower(Trim(input)))
  {
    TrimSpec(input);
    LowerKeepsTrimmed(Trim(input));
    LowerIsLowerCase(Trim(input));
    TrimmedUnchanged(Lower(Trim(input)));
  }

  /** `trim` leaves a trimmed string alone. */
  lemma TrimmedUnchanged(s: string)
    requires IsTrimmed(s)
    ensures Trim(s) == s
  {
  }

  /** The `(t) => t !== tag` callback of `handleRemoveTag`. */
  function NotTag(tag: string): string -> bool {
    t => t != tag
  }

  /** Removing keeps the list valid, and drops exactly the removed tag. */
  lemma RemoveTagSpec(tags: seq<string>, tag: string)
    requires TagsValid(tags)
    ensures TagsValid(Filter(tags, NotTag(tag)))
    ensures forall t :: t in Filter(tags, NotTag(tag)) <==> t in tags && t != tag
  {
    FilterNoDuplicates(tags, NotTag(tag));
    forall t ensures t in Filter(tags, NotTag(tag)) <==> t in tags && t != tag {
      FilterMembership(tags, NotTag(tag), t);
    }
  }

  /** Removing a tag that was just added restores the list. */
  lemma RemoveUndoesAdd(tags: seq<string>, input: string)
    requires Lower(Trim(input)) !in tags
    ensures Filter(AddedTags(tags, input), NotTag(Lower(Trim(input)))) == tags
  {
    var t := Lower(Trim(input));
    FilterKeepsAll(tags, NotTag(t));
    if t != "" {
      FilterAppend(tags, t, NotTag(t));
    }
  }

  // ------------------------------------------------------------ the new post

  /** `a || b` on strings. */
  function OrElse(a: string, b: string): string {
    if a != "" then a else b
  }

  /** The author name: the profile's name, else the account's display name,
      else "Unknown"; never empty. */
  function AuthorName(user: FirebaseUser, profile: UserProfile): (name: string)
    ensures name != ""
    ensures profile.name != "" ==> name == profile.name
  {
    OrElse(profile.name, OrElse(user.displayName.GetOr(""), "Unknown"))
  }

  /** The author avatar: the profile's, else the account photo, else a
      generated one seeded by the uid; never empty. */
  function AuthorAvatar(user: FirebaseUser, profile: UserProfile): (avatar: string)
    ensures avatar != ""
    ensures profile.avatar != "" ==> avatar == profile.avatar
  {
    OrElse(profile.avatar, OrElse(user.photoURL.GetOr(""), DicebearPrefix + user.uid))
  }

  /** The `mutationFn` of the composer as written: the two guards, then the
      argument handed to `createPost`, where an empty tag list and a missing
      college become properties whose value is `undefined`. */
  function BuildPostAsWritten(content: string, tags: seq<string>, user: Option<FirebaseUser>,
                              profile: Option<UserProfile>, collegeSlug: Option<string>): (r: Result<NewPost>)
    ensures user.None? || profile.None? ==> r == Failure(NotAuthenticated)
    ensures user.Some? && profile.Some? && Trim(content) == "" ==> r == Failure(ContentRequired)
    ensures r.Success? ==> r.value.content == Trim(content) && r.value.content != "" && r.value.authorId == user.value.uid
    ensures r.Success? ==> (r.value.tags.Undefined? <==> tags == []) && (r.value.collegeSlug.Undefined? <==> !Present(collegeSlug))
  {
    if user.None? || profile.None? then Failure(NotAuthenticated)
    else if Trim(content) == "" then Failure(ContentRequired)
    else
      var u := user.value;
      var p := profile.value;
      Success(NewPost(
        u.uid, AuthorName(u, p), OrElse(p.headline, OrElse(p.email, "")), AuthorAvatar(u, p),
        if Present(collegeSlug) then Val(collegeSlug.value) else Undefined,
        Trim(content), Val(Public),
        if |tags| > 0 then Val(tags) else Undefined,
        Missing))
  }

  /** A property whose value would be `undefined` is left out instead. */
  function OmitUndefined<T>(p: Prop<T>): (q: Prop<T>)
    ensures !q.Undefined?
    ensures PropValue(q) == PropValue(p)
  {
    if p.Undefined? then Missing else p
  }

  /** The composer's argument with the optional properties included only
      when they have a value (`...(tags.length > 0 ? { tags } : {})`). */
  function BuildPost(content: string, tags: seq<string>, user: Option<FirebaseUser>,
                     profile: Option<UserProfile>, collegeSlug: Option<string>): (r: Result<NewPost>)
    ensures user.None? || profile.None? ==> r == Failure(NotAuthenticated)
    ensures user.Some? && profile.Some? && Trim(content) == "" ==> r == Failure(ContentRequired)
    ensures r.Success? ==> !HasUndefined(r.value)
  {
    var w := BuildPostAsWritten(content, tags, user, profile, collegeSlug);
    if w.Failure? then w
    else Success(w.value.(tags := OmitUndefined(w.value.tags), collegeSlug := OmitUndefined(w.value.collegeSlug)))
  }

  /** As written, a signed-in user's post without tags reaches the store with
      `tags: undefined`, which the store refuses: no untagged post can be
      created. */
  lemma UntaggedPostRefused(content: string, user: FirebaseUser, profile: UserProfile, collegeSlug: Option<string>)
    requires Trim(content) != ""
    ensures BuildPostAsWritten(content, [], Some(user), Some(profile), collegeSlug).Success?
    ensures HasUndefined(BuildPostAsWritten(content, [], Some(user), Some(profile), collegeSlug).value)
  {
  }

  /** A post built from a signed-in user's non-blank text is accepted by the
      store, and the feed reads back its trimmed text, its tags, its
      college, an author name and zero counters. */
  lemma ComposedPostReadsBack(content: string, tags: seq<string>, user: FirebaseUser, profile: UserProfile,
                              collegeSlug: Option<string>, id: string, now: int)
    requires Trim(content) != ""
    ensures var b := BuildPost(content, tags, Some(user), Some(profile), collegeSlug);
      b.Success? && !HasUndefined(b.value) &&
      var p := Normalize(id, StoredPost(b.value, now));
      p.content == Trim(content) && p.tags == Some(tags) && p.authorId == user.uid &&
      p.authorName == AuthorName(user, profile) && p.authorName != "" &&
      p.authorAvatar == AuthorAvatar(user, profile) &&
      p.collegeSlug == (if Present(collegeSlug) then collegeSlug else None) &&
      p.visibility == Some(Public) && p.reactions == Some(0) && p.createdAt == Some(now)
  {
    var b := BuildPost(content, tags, Some(user), Some(profile), collegeSlug);
    CreatedPostReadsBack(id, b.value, now);
  }

  /** The Post button is disabled while the text is blank or a submission is
      pending. */
  function PostDisabled(content: string, isPending: bool): (d: bool)
    ensures d <==> isPending || forall i :: 0 <= i < |content| ==> IsJsWhitespace(content[i])
  {
    TrimSpec(content);
    Trim(content) == "" || isPending
  }

  /** An enabled Post button never meets the content guard. */
  lemma EnabledButtonPassesContentGuard(content: string, tags: seq<string>, user: Option<FirebaseUser>,
                                        profile: Option<UserProfile>, collegeSlug: Option<string>)
    requires !PostDisabled(content, false)
    ensures BuildPost(content, tags, user, profile, collegeSlug) != Failure(ContentRequired)
  {
  }

  // ------------------------------------------------------------ the dialog

  /** The composer's state: `content`, `tagInput` and `tags`, and whether
      the dialog is open (held by the parent, closed through
      `onOpenChange(false)`). */
  class Composer {
    var content: string
    var tagInput: string
    var tags: seq<string>
    var open: bool

    constructor (open: bool)
      ensures content == "" && tagInput == "" && tags == [] && this.open == open
      ensures TagsValid(tags)
    {
      content := "";
      tagInput := "";
      tags := [];
      this.open := open;
    }

    /** `setContent` from the text area. */
    method SetContent(text: string)
      modifies this
      ensures content == text && tagInput == old(tagInput) && tags == old(tags) && open == old(open)
    {
      content := text;
    }

    /** `setTagInput` from the tag field. */
    method SetTagInput(text: string)
      modifies this
      ensures tagInput == text && content == old(content) && tags == old(tags) && open == old(open)
    {
      tagInput := text;
    }

    /** `handleAddTag`: append the normalised input and clear the field, or
        change nothing when it is blank or already listed. */
    method HandleAddTag()
      requires TagsValid(tags)
      modifies this
      ensures tags == AddedTags(old(tags), old(tagInput)) && TagsValid(tags)
      ensures tagInput == (if tags == old(tags) then old(tagInput) else "")
      ensures content == old(content) && open == old(open)
    {
      AddTagKeepsValid(tags, tagInput);
      var trimmed := Lower(Trim(tagInput));
      if trimmed != "" && trimmed !in tags {
        tags := tags + [trimmed];
        tagInput := "";
      }
    }

    /** `handleRemoveTag(tag)`. */
    method HandleRemoveTag(tag: string)
      requires TagsValid(tags)
      modifies this
      ensures tags == Filter(old(tags), NotTag(tag)) && TagsValid(tags)
      ensures content == old(content) && tagInput == old(tagInput) && open == old(open)
    {
      RemoveTagSpec(tags, tag);
      tags := Filter(tags, NotTag(tag));
    }

    /** `handleSubmit` run to completion once the argument `b` is built: a
        failed build or a refused post changes nothing; an accepted post is
        added under the store's fresh id `newId` at time `now`, and the
        dialog is emptied and closed. */
    method SubmitBuilt(store: PostStore, b: Result<NewPost>, newId: string, now: int) returns (r: Result<string>)
      requires newId !in store.posts
      modifies this, store
      ensures b.Failure? ==> r == Failure(b.error) && unchanged(this) && store.posts == old(store.posts)
      ensures b.Success? && HasUndefined(b.value) ==> r == Failure(UndefinedFieldError) && unchanged(this) && store.posts == old(store.posts)
      ensures b.Success? && !HasUndefined(b.value) ==>
        r == Success(newId) && store.posts == old(store.posts)[newId := StoredPost(b.value, now)] &&
        content == "" && tagInput == "" && tags == [] && !open
    {
      if b.Failure? {
        return Failure(b.error);
      }
      r := store.CreatePost(newId, now, b.value);
      if r.Success? {
        Reset();
      }
    }

    /** `handleSubmit` as written: the argument is `BuildPostAsWritten`, so
        a signed-in user's non-blank post without tags is refused by the
        store and the dialog stays open with its text. */
    method Submit(store: PostStore, user: Option<FirebaseUser>, profile: Option<UserProfile>,
                  collegeSlug: Option<string>, newId: string, now: int) returns (r: Result<string>)
      requires newId !in store.posts
      modifies this, store
      ensures var b := BuildPostAsWritten(old(content), old(tags), user, profile, collegeSlug);
        b.Failure? ==> r == Failure(b.error) && unchanged(this) && store.posts == old(store.posts)
      ensures var b := BuildPostAsWritten(old(content), old(tags), user, profile, collegeSlug);
        b.Success? && HasUndefined(b.value) ==> r == Failure(UndefinedFieldError) && unchanged(this) && store.posts == old(store.posts)
      ensures var b := BuildPostAsWritten(old(content), old(tags), user, profile, collegeSlug);
        b.Success? && !HasUndefined(b.value) ==>
          r == Success(newId) && store.posts == old(store.posts)[newId := StoredPost(b.value, now)] &&
          content == "" && tagInput == "" && tags == [] && !open
      ensures old(tags) == [] && user.Some? && profile.Some? && Trim(old(content)) != "" ==>
        r == Failure(UndefinedFieldError) && unchanged(this) && store.posts == old(store.posts)
    {
      if tags == [] && user.Some? && profile.Some? && Trim(content) != "" {
        UntaggedPostRefused(content, user.value, profile.value, collegeSlug);
      }
      r := SubmitBuilt(store, BuildPostAsWritten(content, tags, user, profile, collegeSlug), newId, now);
    }

    /** `handleSubmit` with the corrected argument `BuildPost`: every post
        that passes the guards is stored, and the dialog is emptied and
        closed. */
    method SubmitCorrected(store: PostStore, user: Option<FirebaseUser>, profile: Option<UserProfile>,
                           collegeSlug: Option<string>, newId: string, now: int) returns (r: Result<string>)
      requires newId !in store.posts
      modifies this, store
      ensures var b := BuildPost(old(content), old(tags), user, profile, collegeSlug);
        b.Failure? ==> r == Failure(b.error) && unchanged(this) && store.posts == old(store.posts)
      ensures var b := BuildPost(old(content), old(tags), user, profile, collegeSlug);
        b.Success? ==> r == Success(newId) && store.posts == old(store.posts)[newId := StoredPost(b.value, now)] &&
                       content == "" && tagInput == "" && tags == [] && !open
    {
      r := SubmitBuilt(store, BuildPost(content, tags, user, profile, collegeSlug), newId, now);
    }

    /** `onSuccess`: empty the fields and close the dialog. */
    method Reset()
      modifies this
      ensures content == "" && tagInput == "" && tags == [] && !open
    {
      content := "";
      tags := [];
      tagInput := "";
      open := false;
    }
  }
}
