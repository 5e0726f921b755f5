/** The college picker shown on the apex domain: the table of colleges, the
    search over it, and the redirect to the chosen college's sign-in page. */
module CollegeSelector {
  import opened Wrappers
  import opened JsString
  import opened Seqs
  import opened Browser
  import opened CollegeUtils
  import EmailValidation

  datatype College = College(slug: string, name: string, location: string)

  /** `COLLEGES`. */
  const Colleges: seq<College> := [
    College("mitaoe", "MIT Academy of Engineering", "Pune, Maharashtra"),
    College("vit", "Vellore Institute of Technology", "Vellore, Tamil Nadu"),
    College("iitmadras", "IIT Madras", "Chennai, Tamil Nadu"),
    College("iitbombay", "IIT Bombay", "Mumbai, Maharashtra"),
    College("bitspilani", "BITS Pilani", "Pilani, Rajasthan"),
    College("nit", "NIT Trichy", "Tiruchirappalli, Tamil Nadu"),
    College("dtu", "Delhi Technological University", "Delhi"),
    College("iisc", "IISc Bangalore", "Bangalore, Karnataka"),
    College("coep", "College of Engineering Pune", "Pune, Maharashtra"),
    College("pict", "Pune Institute of Computer Technology", "Pune, Maharashtra")
  ]

  // ------------------------------------------------------------ search

  /** The `filteredColleges` callback: the lower-cased query occurs in the
      lower-cased name, slug or location. */
  function MatchesQuery(query: string): College -> bool {
    (c: College) => Includes(Lower(c.name), Lower(query)) || Includes(Lower(c.slug), Lower(query)) || Includes(Lower(c.location), Lower(query))
  }

  /** `filteredColleges`. */
  function FilteredColleges(query: string): (r: seq<College>)
    ensures IsSubsequence(r, Colleges)
  {
    FilterIsSubsequence(Colleges, MatchesQuery(query));
    Filter(Colleges, MatchesQuery(query))
  }

  /** A college is listed exactly when it is in the table and the query
      occurs, ignoring case, in one of its three fields. */
  lemma FilteredCollegesSpec(query: string, c: College)
    ensures c in FilteredColleges(query) <==> (c in Colleges &&
      (Includes(Lower(c.name), Lower(query)) || Includes(Lower(c.slug), Lower(query)) || Includes(Lower(c.location), Lower(query))))
  {
    FilterMembership(Colleges, MatchesQuery(query), c);
  }

  /** An empty query lists every college, in table order. */
  lemma EmptyQueryListsAll()
    ensures FilteredColleges("") == Colleges
  {
    forall i | 0 <= i < |Colleges| ensures MatchesQuery("")(Colleges[i]) {
      IncludesTrivial(Lower(Colleges[i].name));
    }
    FilterKeepsAll(Colleges, MatchesQuery(""));
  }

  /** The search ignores the query's case. */
  lemma QueryCaseIgnored(query: string)
    ensures FilteredColleges(Lower(query)) == FilteredColleges(query)
  {
    LowerIsLowerCase(query);
    assert MatchesQuery(Lower(query)) == MatchesQuery(query);
  }

  // ------------------------------------------------------------ the table

  /** The slugs of the table, one fact per college. */
  lemma SlugFacts()
    ensures |Colleges| == 10
    ensures Colleges[0].slug == "mitaoe" && Colleges[1].slug == "vit" && Colleges[2].slug == "iitmadras"
    ensures Colleges[3].slug == "iitbombay" && Colleges[4].slug == "bitspilani" && Colleges[5].slug == "nit"
    ensures Colleges[6].slug == "dtu" && Colleges[7].slug == "iisc" && Colleges[8].slug == "coep"
    ensures Colleges[9].slug == "pict"
  {
  }

  /** No two colleges share a slug. */
  lemma SlugsUnique()
    ensures forall i, j :: 0 <= i < j < |Colleges| ==> Colleges[i].slug != Colleges[j].slug
  {
    SlugFacts();
    forall i, j | 0 <= i < j < |Colleges| ensures Colleges[i].slug != Colleges[j].slug {
      var a, b := Colleges[i].slug, Colleges[j].slug;
      assert |a| != |b| || a[0] != b[0] || a[1] != b[1] || a[2] != b[2] || a[3] != b[3];
    }
  }

  /** Every listed slug has a row in the email-domain table. */
  lemma SlugsHaveEmailDomains()
    ensures forall c :: c in Colleges ==> c.slug in EmailValidation.CollegeEmailDomains
  {
    SlugFacts();
    forall c | c in Colleges ensures c.slug in EmailValidation.CollegeEmailDomains {
      var i :| 0 <= i < |Colleges| && Colleges[i] == c;
    }
  }

  /** Every listed slug is a valid subdomain label. */
  lemma SlugsAreLabels()
    ensures forall c :: c in Colleges ==> IsSlugLabel(c.slug)
  {
    SlugFacts();
    FirstSlugsAreLabels();
    LastSlugsAreLabels();
    forall c | c in Colleges ensures IsSlugLabel(c.slug) {
      var i :| 0 <= i < |Colleges| && Colleges[i] == c;
    }
  }

  lemma FirstSlugsAreLabels()
    ensures IsSlugLabel("mitaoe") && IsSlugLabel("vit") && IsSlugLabel("iitmadras")
    ensures IsSlugLabel("iitbombay") && IsSlugLabel("bitspilani")
  {
  }

  lemma LastSlugsAreLabels()
    ensures IsSlugLabel("nit") && IsSlugLabel("dtu") && IsSlugLabel("iisc")
    ensures IsSlugLabel("coep") && IsSlugLabel("pict")
  {
  }

  // ------------------------------------------------------------ selection

  datatype Mode = Login | Register

  function ModeName(mode: Mode): string {
    match mode
    case Login => "login"
    case Register => "register"
  }

  /** The college's own host. */
  function CollegeHost(slug: string): string {
    slug + ".collabity.tech"
  }

  /** `targetUrl`: the college host's sign-in or sign-up page. */
  function TargetUrl(slug: string, mode: Mode): (url: string)
    ensures url == "https://" + CollegeHost(slug) + "/auth/" + ModeName(mode)
  {
    "https://" + slug + ".collabity.tech/auth/" + ModeName(mode)
  }

  /** `handleSelectCollege(slug)`: on a loopback host the choice is stored
      as the override and the local page is opened; elsewhere the browser
      goes to the college's host and storage is left alone. */
  method HandleSelectCollege(w: Window, slug: string, mode: Mode)
    modifies w
    ensures IsLoopback(w.hostname) ==>
      w.storage == old(w.storage)[StorageKey := slug] && w.navigations == old(w.navigations) + [Assign("/auth/" + ModeName(mode))]
    ensures !IsLoopback(w.hostname) ==>
      w.storage == old(w.storage) && w.navigations == old(w.navigations) + [Assign(TargetUrl(slug, mode))]
  {
    if w.hostname == "localhost" || w.hostname == "127.0.0.1" {
      w.SetItem(StorageKey, slug);
      w.Navigate(Assign("/auth/" + ModeName(mode)));
    } else {
      w.Navigate(Assign(TargetUrl(slug, mode)));
    }
  }

  /** Choosing a listed college leads to a page where that college is the
      one resolved: through its own host, or through the stored override on
      a loopback host. */
  lemma SelectedCollegeResolves(c: College, hostname: string, storage: map<string, string>)
    requires c in Colleges
    ensures ExtractCollegeSlug(CollegeHost(c.slug)) == Some(c.slug)
    ensures ResolvedSlug(CollegeHost(c.slug), storage) == Some(c.slug)
    ensures IsLoopback(hostname) ==> ResolvedSlug(hostname, storage[StorageKey := c.slug]) == Some(c.slug)
  {
    SlugsAreLabels();
    SlugHostResolves(c.slug, storage);
    if IsLoopback(hostname) {
      OverrideOnLoopback(hostname, storage, c.slug);
    }
  }

  /** A slug's college host resolves to the slug, whatever is stored. */
  lemma SlugHostResolves(slug: string, storage: map<string, string>)
    requires IsSlugLabel(slug)
    ensures ExtractCollegeSlug(CollegeHost(slug)) == Some(slug)
    ensures ResolvedSlug(CollegeHost(slug), storage) == Some(slug)
  {
    CollegeHostRoundTrip(slug);
  }
}
