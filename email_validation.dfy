/** The frontend's email-domain allowlist: each college slug maps to the email
    domains its students must register with. A missing college or a missing
    domain is refused, a college without an entry accepts every address, and
    a configured college accepts exactly its listed domains. */
module EmailValidation {
  import opened Wrappers
  import opened JsString

  const CollegeEmailDomains: map<string, seq<string>> := map[
    "mitaoe" := ["mitaoe.ac.in", "mitaoe.edu.in"],
    "vit" := ["vitstudent.ac.in", "vit.ac.in"],
    "iitmadras" := ["smail.iitm.ac.in", "iitm.ac.in"],
    "iitbombay" := ["iitb.ac.in"],
    "bitspilani" := ["pilani.bits-pilani.ac.in", "bits-pilani.ac.in"],
    "nit" := ["nitt.edu"],
    "dtu" := ["dtu.ac.in"],
    "iisc" := ["iisc.ac.in"],
    "coep" := ["coep.ac.in"],
    "pict" := ["pict.edu"]
  ]

  /** `{ isValid, error? }`. */
  datatype ValidationResult = ValidationResult(isValid: bool, error: Option<string>)

  const NoCollegeError: string := "No college context detected. Please access via your college subdomain."
  const InvalidEmailError: string := "Invalid email address."

  /** `getEmailDomain(email)`: `email.split("@")[1]?.toLowerCase() || ""`. */
  function GetEmailDomain(email: string): (r: string)
    ensures '@' !in email ==> r == ""
    ensures IsLowerCase(r) && '@' !in r
  {
    var parts := Split(email, '@');
    SplitPiecesFree(email, '@');
    if |parts| >= 2 then
      LowerIsLowerCase(parts[1]);
      LowerAvoids(parts[1], '@');
      Lower(parts[1])
    else ""
  }

  /** The domain is the lower-cased text after the first '@', up to a second
      '@' if there is one. */
  lemma DomainOfAddress(local: string, domain: string, more: string)
    requires '@' !in local && '@' !in domain
    ensures GetEmailDomain(local + "@" + domain) == Lower(domain)
    ensures GetEmailDomain(local + "@" + domain + "@" + more) == Lower(domain)
  {
    SplitCons(local, '@', domain);
    assert local + ['@'] + domain == local + "@" + domain;
    SplitCons(local, '@', domain + "@" + more);
    assert local + ['@'] + (domain + "@" + more) == local + "@" + domain + "@" + more;
    SplitCons(domain, '@', more);
    assert domain + ['@'] + more == domain + "@" + more;
  }

  /** The domain does not depend on the case of the address. */
  lemma DomainIgnoresCase(email: string)
    ensures GetEmailDomain(Lower(email)) == GetEmailDomain(email)
  {
    SplitLower(email, '@');
    var parts := Split(email, '@');
    if |parts| >= 2 {
      LowerIsLowerCase(parts[1]);
    }
  }

  /** `validateEmailForCollege(email, collegeSlug)`. */
  function Validate(email: string, collegeSlug: Option<string>): (v: ValidationResult)
    ensures v.isValid <==> v.error.None?
    ensures !Present(collegeSlug) ==> v == ValidationResult(false, Some(NoCollegeError))
    ensures Present(collegeSlug) && GetEmailDomain(email) == "" ==> v == ValidationResult(false, Some(InvalidEmailError))
    ensures v.isValid <==> (Present(collegeSlug) && GetEmailDomain(email) != "" &&
      (collegeSlug.value in CollegeEmailDomains ==> GetEmailDomain(email) in CollegeEmailDomains[collegeSlug.value]))
  {
    if !Present(collegeSlug) then ValidationResult(false, Some(NoCollegeError))
    else
      var slug := collegeSlug.value;
      var emailDomain := GetEmailDomain(email);
      if emailDomain == "" then ValidationResult(false, Some(InvalidEmailError))
      else if slug !in CollegeEmailDomains || |CollegeEmailDomains[slug]| == 0 then ValidationResult(true, None)
      else
        var allowedDomains := CollegeEmailDomains[slug];
        if emailDomain !in allowedDomains then
          ValidationResult(false, Some("You must use your institutional email (@" + allowedDomains[0] + ") to register for " + slug + "."))
        else ValidationResult(true, None)
  }

  /** A character that may occur in a listed domain. */
  predicate IsDomainChar(c: char) {
    'a' <= c <= 'z' || '0' <= c <= '9' || c == '.' || c == '-'
  }

  /** A non-empty domain of lower-case letters, digits, dots and hyphens. */
  predicate IsDomainName(d: string) {
    d != "" && forall i :: 0 <= i < |d| ==> IsDomainChar(d[i])
  }

  /** Every table entry lists at least one domain, and every listed domain is
      a lower-case domain name. */
  predicate TableWellFormed(table: map<string, seq<string>>) {
    forall slug :: slug in table ==>
      (|table[slug]| > 0 && forall k :: 0 <= k < |table[slug]| ==> IsDomainName(table[slug][k]))
  }

  /** Every domain of the table is a domain name. */
  lemma ListedNamesAreDomainNames()
    ensures IsDomainName("mitaoe.ac.in") && IsDomainName("mitaoe.edu.in") && IsDomainName("vitstudent.ac.in")
    ensures IsDomainName("vit.ac.in") && IsDomainName("smail.iitm.ac.in") && IsDomainName("iitm.ac.in")
    ensures IsDomainName("iitb.ac.in") && IsDomainName("pilani.bits-pilani.ac.in") && IsDomainName("bits-pilani.ac.in")
    ensures IsDomainName("nitt.edu") && IsDomainName("dtu.ac.in") && IsDomainName("iisc.ac.in")
    ensures IsDomainName("coep.ac.in") && IsDomainName("pict.edu")
  {
    FirstDomainNames();
    SecondDomainNames();
    ThirdDomainNames();
    FourthDomainNames();
  }

  lemma FirstDomainNames()
    ensures IsDomainName("mitaoe.ac.in") && IsDomainName("mitaoe.edu.in") && IsDomainName("vitstudent.ac.in")
  {
  }

  lemma SecondDomainNames()
    ensures IsDomainName("vit.ac.in") && IsDomainName("smail.iitm.ac.in") && IsDomainName("iitm.ac.in")
  {
  }

  lemma ThirdDomainNames()
    ensures IsDomainName("iitb.ac.in") && IsDomainName("pilani.bits-pilani.ac.in") && IsDomainName("bits-pilani.ac.in")
  {
  }

  lemma FourthDomainNames()
    ensures IsDomainName("nitt.edu") && IsDomainName("dtu.ac.in") && IsDomainName("iisc.ac.in")
    ensures IsDomainName("coep.ac.in") && IsDomainName("pict.edu")
  {
  }

  lemma CollegeEmailDomainsWellFormed()
    ensures TableWellFormed(CollegeEmailDomains)
  {
    ListedNamesAreDomainNames();
  }

  /** A domain name is lower case and has no '@'. */
  lemma DomainNameFacts(d: string)
    requires IsDomainName(d)
    ensures IsLowerCase(d) && '@' !in d
  {
    assert forall i :: 0 <= i < |d| ==> IsDomainChar(d[i]);
  }

  /** A rejection of a configured college names its first allowed domain and
      the college. */
  lemma RejectionNamesFirstDomain(email: string, slug: string)
    requires slug in CollegeEmailDomains && GetEmailDomain(email) != ""
    requires GetEmailDomain(email) !in CollegeEmailDomains[slug]
    ensures Validate(email, Some(slug)).error ==
      Some("You must use your institutional email (@" + CollegeEmailDomains[slug][0] + ") to register for " + slug + ".")
  {
    CollegeEmailDomainsWellFormed();
  }

  /** An address at any listed domain of a college is accepted for it, in any
      letter case. */
  lemma ListedDomainAccepted(local: string, slug: string, k: nat)
    requires '@' !in local && slug != "" && slug in CollegeEmailDomains && k < |CollegeEmailDomains[slug]|
    ensures Validate(local + "@" + CollegeEmailDomains[slug][k], Some(slug)).isValid
  {
    CollegeEmailDomainsWellFormed();
    var d := CollegeEmailDomains[slug][k];
    DomainNameFacts(d);
    DomainOfAddress(local, d, "");
    LowerOfLowerCase(d);
  }

  /** Membership is exact: a subdomain of an allowed domain is refused. */
  lemma NoSuffixMatching(local: string, sub: string)
    requires '@' !in local && '@' !in sub && sub != ""
    ensures !Validate(local + "@" + sub + ".mitaoe.ac.in", Some("mitaoe")).isValid
  {
    var domain := sub + ".mitaoe.ac.in";
    assert local + "@" + sub + ".mitaoe.ac.in" == local + "@" + domain;
    assert '@' !in domain by {
      assert domain == sub + ".mitaoe.ac.in";
      assert '@' !in ".mitaoe.ac.in";
    }
    DomainOfAddress(local, domain, "");
    assert |Lower(domain)| > |"mitaoe.edu.in"|;
  }

  /** A slug that is not a key of the table, including a configured slug in
      another letter case, accepts every address that has a domain. */
  lemma UnconfiguredSlugPermissive(email: string, slug: string)
    requires slug != "" && slug !in CollegeEmailDomains
    ensures Validate(email, Some(slug)).isValid <==> GetEmailDomain(email) != ""
  {
  }

  /** Every configured slug is lower case. */
  lemma SlugsAreLowerCase(slug: string)
    requires slug in CollegeEmailDomains
    ensures IsLowerCase(slug)
  {
  }

  /** The lookup is by exact key: a slug holding an upper-case letter is not
      configured, so it accepts every address that has a domain. */
  lemma UpperCaseSlugPermissive(email: string, slug: string, i: nat)
    requires i < |slug| && 'A' <= slug[i] <= 'Z'
    ensures slug !in CollegeEmailDomains
    ensures Validate(email, Some(slug)).isValid <==> GetEmailDomain(email) != ""
  {
    if slug in CollegeEmailDomains {
      SlugsAreLowerCase(slug);
      assert false;
    }
    UnconfiguredSlugPermissive(email, slug);
  }

  /** `getAllowedEmailDomains()` with the current slug as a parameter. */
  function GetAllowedEmailDomains(collegeSlug: Option<string>): (r: seq<string>)
    ensures !Present(collegeSlug) ==> r == []
    ensures Present(collegeSlug) && collegeSlug.value in CollegeEmailDomains ==> r == CollegeEmailDomains[collegeSlug.value]
    ensures Present(collegeSlug) && collegeSlug.value !in CollegeEmailDomains ==> r == []
  {
    if !Present(collegeSlug) then []
    else if collegeSlug.value in CollegeEmailDomains then CollegeEmailDomains[collegeSlug.value]
    else []
  }

  /** Every domain prefixed with '@'. */
  function AtAll(domains: seq<string>): (r: seq<string>)
    ensures |r| == |domains|
    ensures forall k :: 0 <= k < |r| ==> r[k] == "@" + domains[k]
  {
    seq(|domains|, k requires 0 <= k < |domains| => "@" + domains[k])
  }

  /** The display text for a list of allowed domains. */
  function DomainsText(domains: seq<string>): (r: string)
    ensures |domains| == 0 ==> r == "your institutional email"
    ensures |domains| == 1 ==> r == "@" + domains[0]
    ensures |domains| >= 1 ==> StartsWith(r, "@" + domains[0])
    ensures forall k :: 0 <= k < |domains| ==> Includes(r, "@" + domains[k])
  {
    if |domains| == 0 then "your institutional email"
    else if |domains| == 1 then
      IncludesTrivial("@" + domains[0]);
      "@" + domains[0]
    else
      var parts := AtAll(domains);
      JoinStartsWithFirst(parts, " or ");
      assert forall k :: 0 <= k < |domains| ==> Includes(Join(parts, " or "), parts[k]) by {
        forall k | 0 <= k < |domains| ensures Includes(Join(parts, " or "), parts[k]) {
          JoinIncludesEach(parts, " or ", k);
        }
      }
      Join(parts, " or ")
  }

  /** `getAllowedEmailDomainsText()` with the current slug as a parameter. */
  function GetAllowedEmailDomainsText(collegeSlug: Option<string>): (r: string)
    ensures !Present(collegeSlug) ==> r == "your institutional email"
  {
    DomainsText(GetAllowedEmailDomains(collegeSlug))
  }

  /** With two or more domains the text is the '@'-prefixed domains joined
      with " or ", in table order. */
  lemma DomainsTextJoins(domains: seq<string>)
    requires |domains| >= 2
    ensures DomainsText(domains) == "@" + domains[0] + " or " + Join(AtAll(domains[1..]), " or ")
  {
    assert AtAll(domains)[1..] == AtAll(domains[1..]);
  }
}
