/** Tenant resolution: the college a page belongs to is the first label of its
    host name (`mitaoe.collabity.tech` is the college `mitaoe`), cached in one
    `localStorage` slot that also serves as the fallback on hosts without a
    subdomain, such as a developer's loopback host. */
module CollegeUtils {
  import opened Wrappers
  import opened JsString
  import opened Browser

  /** The one storage slot the resolver reads and writes. */
  const StorageKey: string := "collabity_college_override"

  predicate IsLoopback(hostname: string) {
    hostname == "localhost" || hostname == "127.0.0.1"
  }

  /** One character of the class `[a-z0-9-]` under the case-insensitive
      flag. */
  predicate IsSlugChar(c: char) {
    'a' <= c <= 'z' || 'A' <= c <= 'Z' || '0' <= c <= '9' || c == '-'
  }

  /** `/^[a-z0-9-]+$/i.test(first)`. */
  predicate IsSlugLabel(first: string) {
    |first| >= 1 && forall i :: 0 <= i < |first| ==> IsSlugChar(first[i])
  }

  /** `extractCollegeSlug()` with `window.location.hostname` as a parameter:
      the first label when the host is not a loopback host, has at least three
      labels and the first label is a slug; returned as is, not lower-cased. */
  function ExtractCollegeSlug(hostname: string): (r: Option<string>)
    ensures IsLoopback(hostname) ==> r.None?
    ensures Count(hostname, '.') < 2 ==> r.None?
    ensures r.Some? ==> IsSlugLabel(r.value) && '.' in hostname && r.value == hostname[..IndexOf(hostname, '.')]
  {
    if IsLoopback(hostname) then None
    else
      var parts := Split(hostname, '.');
      SplitCount(hostname, '.');
      if |parts| < 3 then None
      else
        var subdomain := parts[0];
        if !IsSlugLabel(subdomain) then None else Some(subdomain)
  }

  /** A host made of a label, a dot and a rest with at least one more dot is
      decided by its first label alone. */
  lemma FirstLabelDecides(first: string, rest: string)
    requires '.' !in first && '.' in rest
    requires first + "." + rest != "127.0.0.1"
    ensures ExtractCollegeSlug(first + "." + rest) == (if IsSlugLabel(first) then Some(first) else None)
  {
    var h := first + "." + rest;
    assert h == first + ['.'] + rest;
    assert h != "localhost" by {
      assert h[|first|] == '.';
      assert '.' !in "localhost";
    }
    SplitCons(first, '.', rest);
    var tail := Split(rest, '.');
    assert |tail| >= 2 by {
      SplitCount(rest, '.');
      assert multiset(rest)['.'] > 0;
    }
    assert Split(h, '.') == [first] + tail;
  }

  /** The college URLs the application builds resolve back to their slug. */
  lemma CollegeHostRoundTrip(slug: string)
    requires IsSlugLabel(slug)
    ensures ExtractCollegeSlug(slug + ".collabity.tech") == Some(slug)
  {
    assert slug + ".collabity.tech" == slug + "." + "collabity.tech";
    assert "collabity.tech"[9] == '.';
    assert '.' !in slug by {
      forall i | 0 <= i < |slug| ensures slug[i] != '.' {
        assert IsSlugChar(slug[i]);
      }
    }
    FirstLabelDecides(slug, "collabity.tech");
  }

  /** What `getCollegeSlug()` returns: the subdomain when there is one, else
      the stored override (or null). */
  function ResolvedSlug(hostname: string, storage: map<string, string>): Option<string> {
    var extracted := ExtractCollegeSlug(hostname);
    if extracted.Some? && extracted.value != "" then extracted else GetItem(storage, StorageKey)
  }

  /** The storage after `getCollegeSlug()`: a found subdomain is cached in the
      slot, otherwise nothing changes. */
  function StorageAfterResolve(hostname: string, storage: map<string, string>): map<string, string> {
    var extracted := ExtractCollegeSlug(hostname);
    if extracted.Some? && extracted.value != "" then storage[StorageKey := extracted.value] else storage
  }

  /** `getCollegeSlug()`. */
  method GetCollegeSlug(w: Window) returns (slug: Option<string>)
    modifies w
    ensures slug == ResolvedSlug(w.hostname, old(w.storage))
    ensures w.storage == StorageAfterResolve(w.hostname, old(w.storage))
    ensures w.navigations == old(w.navigations)
  {
    var extracted := ExtractCollegeSlug(w.hostname);
    if extracted.Some? && extracted.value != "" {
      w.SetItem(StorageKey, extracted.value);
      return extracted;
    }
    slug := GetItem(w.storage, StorageKey);
  }

  /** `setCollegeSlugOverride(slug)`: store the slug and reload the page. */
  method SetCollegeSlugOverride(w: Window, slug: string)
    modifies w
    ensures w.storage == old(w.storage)[StorageKey := slug]
    ensures w.navigations == old(w.navigations) + [Reload]
  {
    w.SetItem(StorageKey, slug);
    w.Navigate(Reload);
  }

  /** `clearCollegeSlugOverride()`. */
  method ClearCollegeSlugOverride(w: Window)
    modifies w
    ensures w.storage == old(w.storage) - {StorageKey}
    ensures w.navigations == old(w.navigations)
  {
    w.RemoveItem(StorageKey);
  }

  /** The subdomain wins over any stored value and is cached; without one the
      stored value is returned and the storage is left alone. */
  lemma ResolveCases(hostname: string, storage: map<string, string>)
    ensures ExtractCollegeSlug(hostname).Some? ==>
      ResolvedSlug(hostname, storage) == ExtractCollegeSlug(hostname) &&
      StorageAfterResolve(hostname, storage)[StorageKey] == ExtractCollegeSlug(hostname).value
    ensures ExtractCollegeSlug(hostname).None? ==>
      ResolvedSlug(hostname, storage) == GetItem(storage, StorageKey) &&
      StorageAfterResolve(hostname, storage) == storage
  {
  }

  /** Resolving twice gives the same slug and the same storage as resolving
      once. */
  lemma ResolveIdempotent(hostname: string, storage: map<string, string>)
    ensures ResolvedSlug(hostname, StorageAfterResolve(hostname, storage)) == ResolvedSlug(hostname, storage)
    ensures StorageAfterResolve(hostname, StorageAfterResolve(hostname, storage)) == StorageAfterResolve(hostname, storage)
  {
  }

  /** On a loopback host an override is what resolves, and after clearing it
      nothing does. */
  lemma OverrideOnLoopback(hostname: string, storage: map<string, string>, slug: string)
    requires IsLoopback(hostname)
    ensures ResolvedSlug(hostname, storage[StorageKey := slug]) == Some(slug)
    ensures ResolvedSlug(hostname, storage - {StorageKey}) == None
  {
  }
}
