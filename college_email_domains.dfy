/** The backend's own copy of the email-domain allowlist and its validation,
    used by the registration and sign-in routes; its messages differ from the
    frontend's, and it also refuses a missing email explicitly. */
module CollegeEmailDomains {
  import opened Wrappers
  import opened JsString
  import EmailValidation

  const CollegeEmailDomains: map<string, seq<string>> := map[
    "mitaoe" := ["mitaoe.ac.in", "mitaoe.edu.in"],
    "vit" := ["vitstudent.ac.in", "vit.ac.in"],
    "iitmadras" := ["smail.iitm.ac.in", "iitm.ac.in"],
    "iitbombay" := ["iitb.ac.in"],
    "bitspilani" := ["pilani.bits-pilani.ac.in", "bits-pilani.ac.in"],
    "nit" := ["nitt.edu"],
    "dtu" := ["dtu.ac.in"],
    "iisc" := ["iisc.ac.in"],
    "coep" := ["coep.ac.in"],
    "pict" := ["pict.edu"]
  ]

  /** `{ isValid, error? }`. */
  datatype ValidationResult = ValidationResult(isValid: bool, error: Option<string>)

  /** `getEmailDomain(email)`: `email.split("@")[1]?.toLowerCase() || ""`. */
  function GetEmailDomain(email: string): (r: string)
    ensures '@' !in email ==> r == ""
    ensures IsLowerCase(r)
  {
    var parts := Split(email, '@');
    if |parts| >= 2 then
      LowerIsLowerCase(parts[1]);
      Lower(parts[1])
    else ""
  }

  /** `validateEmailForCollege(email, collegeSlug)`. */
  function Validate(email: Option<string>, collegeSlug: Option<string>): (v: ValidationResult)
    ensures v.isValid <==> v.error.None?
    ensures !Present(collegeSlug) ==> v == ValidationResult(false, Some("No college specified"))
    ensures Present(collegeSlug) && !Present(email) ==> v == ValidationResult(false, Some("Missing email"))
    ensures Present(collegeSlug) && Present(email) && GetEmailDomain(email.value) == "" ==>
      v == ValidationResult(false, Some("Invalid email address"))
    ensures v.isValid ==> Present(collegeSlug) && Present(email)
  {
    if !Present(collegeSlug) then ValidationResult(false, Some("No college specified"))
    else if !Present(email) then ValidationResult(false, Some("Missing email"))
    else
      var slug := collegeSlug.value;
      var domain := GetEmailDomain(email.value);
      if domain == "" then ValidationResult(false, Some("Invalid email address"))
      else if slug !in CollegeEmailDomains || |CollegeEmailDomains[slug]| == 0 then ValidationResult(true, None)
      else if domain !in CollegeEmailDomains[slug] then
        ValidationResult(false, Some("Email domain not allowed for " + slug))
      else ValidationResult(true, None)
  }

  /** A configured college accepts exactly the addresses whose lower-cased
      domain is one of its listed domains. */
  lemma ConfiguredMeansExactMembership(email: string, slug: string)
    requires slug in CollegeEmailDomains && email != ""
    ensures Validate(Some(email), Some(slug)).isValid <==> GetEmailDomain(email) in CollegeEmailDomains[slug]
  {
    var domains, d := CollegeEmailDomains[slug], GetEmailDomain(email);
    if d in domains {
      EmailValidation.CollegeEmailDomainsWellFormed();
      var k :| 0 <= k < |domains| && domains[k] == d;
      assert EmailValidation.IsDomainName(domains[k]);
      assert |domains| > 0 && d != "";
    }
  }

  /** The backend and frontend tables are the same, key for key and list for
      list. */
  lemma TablesAgree()
    ensures CollegeEmailDomains == EmailValidation.CollegeEmailDomains
  {
  }

  /** Both copies of `getEmailDomain` compute the same domain. */
  lemma DomainsAgree(email: string)
    ensures GetEmailDomain(email) == EmailValidation.GetEmailDomain(email)
  {
  }

  /** For every address and slug the backend and the frontend reach the same
      verdict, though with different messages. */
  lemma ValidityAgrees(email: string, collegeSlug: Option<string>)
    ensures Validate(Some(email), collegeSlug).isValid == EmailValidation.Validate(email, collegeSlug).isValid
  {
    TablesAgree();
    DomainsAgree(email);
    if email == "" {
      assert Split(email, '@') == [email];
    }
  }

  /** The verdict does not depend on the letter case of the address. */
  lemma ValidityIgnoresCase(email: string, collegeSlug: Option<string>)
    ensures Validate(Some(Lower(email)), collegeSlug) == Validate(Some(email), collegeSlug)
  {
    DomainsAgree(email);
    DomainsAgree(Lower(email));
    EmailValidation.DomainIgnoresCase(email);
  }
}
