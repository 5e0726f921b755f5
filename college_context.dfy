/** The frontend's college context: the college resolved once on mount, and
    the checks components make against it. */
module CollegeContext {
  import opened Wrappers
  import opened Browser
  import opened CollegeUtils

  const MissingCollege: string := "College context is required but missing"

  /** `useRequireCollege()` on the context `(collegeSlug, isLoading)`: it
      throws only once loading has finished without a college; otherwise it
      returns the slug (still null while loading). */
  function RequireCollege(collegeSlug: Option<string>, isLoading: bool): (r: Result<Option<string>>)
    ensures r.Failure? <==> !isLoading && collegeSlug.None?
    ensures r.Success? ==> r.value == collegeSlug
  {
    if !isLoading && collegeSlug.None? then Failure(MissingCollege) else Success(collegeSlug)
  }

  /** After mounting on `hostname` with `storage`, a college is required in
      vain exactly when neither the host nor the stored override names one;
      a stored empty override counts as a college. */
  lemma RequireAfterMount(hostname: string, storage: map<string, string>)
    ensures RequireCollege(ResolvedSlug(hostname, storage), false).Failure? <==>
      ExtractCollegeSlug(hostname).None? && StorageKey !in storage
    ensures IsLoopback(hostname) && StorageKey in storage && storage[StorageKey] == "" ==>
      RequireCollege(ResolvedSlug(hostname, storage), false) == Success(Some(""))
  {
    ResolveCases(hostname, storage);
  }

  /** `CollegeProvider`'s state. */
  class CollegeProvider {
    var collegeSlug: Option<string>
    var isLoading: bool

    constructor ()
      ensures collegeSlug.None? && isLoading
    {
      collegeSlug := None;
      isLoading := true;
    }

    /** The mount effect: resolve the college once and stop loading. */
    method Mount(w: Window)
      modifies this, w
      ensures collegeSlug == ResolvedSlug(w.hostname, old(w.storage)) && !isLoading
      ensures w.storage == StorageAfterResolve(w.hostname, old(w.storage))
      ensures w.navigations == old(w.navigations)
    {
      var slug := GetCollegeSlug(w);
      collegeSlug := slug;
      isLoading := false;
    }

    /** `hasCollege`: the slug is not null (an empty slug counts). */
    predicate HasCollege()
      reads this
    {
      collegeSlug.Some?
    }

    /** `useRequireCollege()` against the current state. */
    function Require(): (r: Result<Option<string>>)
      reads this
      ensures r.Failure? <==> !isLoading && !HasCollege()
    {
      RequireCollege(collegeSlug, isLoading)
    }
  }
}
