# Collabity: the college-tenant and authorisation layer, in Dafny

Collabity is a campus network. Each college is a tenant on its own subdomain, such as `mitaoe.collabity.tech`. This project models the logic that decides:

- which college a page belongs to;
- which e-mail addresses a college accepts;
- which backend requests are let through, and with what effect on the `users` and `connections` collections;
- how the frontend keeps its session, college, search, composer and theme state.

It models these TypeScript sources: the Next.js backend (middleware, token extraction and the admin and auth routes) and the React frontend's services and stateful components.

One Dafny module per source file:

| module | source file |
|---|---|
| `CollegeUtils` | frontend/src/lib/college-utils.ts |
| `EmailValidation` | frontend/src/lib/email-validation.ts |
| `CollegeEmailDomains` | backend/src/lib/college-email-domains.ts |
| `FirebaseAdmin` | `extractToken` in backend/src/lib/firebase-admin.ts |
| `Middleware` | backend/src/middleware.ts |
| `Http` | the shared response shape and the admin preamble of the admin routes |
| `SetVerificationRoute`, `SetRedirectRoute`, `ListUsersRoute` | the three admin routes |
| `OnVerifyRoute`, `RegisterRoute` | the two auth routes |
| `UserService` | frontend/src/lib/user-service.ts |
| `PostService` | frontend/src/lib/post-service.ts |
| `PostComposer` | frontend/src/features/dashboard/components/post-composer.tsx |
| `Dashboard` | frontend/src/features/dashboard/routes/dashboard-route.tsx |
| `CollegeSelector` | frontend/src/features/college/components/college-selector-modal.tsx |
| `GlobalSearch` | frontend/src/components/layout/global-search.tsx |
| `Discover` | frontend/src/features/discover/routes/discover-route.tsx |
| `AuthContext` | frontend/src/features/auth/auth-context.tsx |
| `CollegeContext` | frontend/src/features/college/college-context.tsx |
| `ThemeProvider` | frontend/src/components/theme/theme-provider.tsx |

Shared modules:

- `Wrappers`: Option and Result.
- `JsString`: the JavaScript string operations the code uses, namely `split`, `trim`, `toLowerCase`, `includes`, `startsWith`, `join`, the default sort order and `${n}`.
- `Seqs`: `filter` and `slice`.
- `Browser`: the page's host name, `localStorage` as a map, and a log of navigations.
- `Store`: Cloud Firestore documents as maps, with `set`, merge-`set` and `update`, and a `Firestore` class holding the `users` and `connections` collections.
- `Types`: the profile and account records.

The external services become values and parameters:

- Token verification becomes a function from token to claims or error.
- Account lookup and creation become a map of accounts and a supplied new id.
- A profile read becomes a supplied outcome.
- The clock, new document ids and the system colour-scheme preference become parameters.

Where the source's behaviour is a chain of early returns, it is a pure `Decide` function. A `Post` method on the store performs the write that `Decide` chooses. Where the source keeps state that it updates in place (React state, `localStorage`, `classList`), it is a class with `modifies` clauses.

Two details of the code that the model keeps:

- `extractCollegeSlug` returns the first host label without lower-casing it.
- `getEmailDomain` takes the text between the first and the second `@` (`split("@")[1]`), not the text after the last `@`. No "exactly one `@`" check exists.

## Model

| member | source | states |
|---|---|---|
| CollegeUtils.ExtractCollegeSlug | frontend/src/lib/college-utils.ts:8-33 | Loopback hosts and hosts with fewer than two dots give null. A slug that is returned is a `[a-z0-9-]+` label (case-insensitive) and is exactly the host's text before its first dot, not lower-cased. |
| CollegeUtils.FirstLabelDecides | frontend/src/lib/college-utils.ts:17-32 | A host `first.rest` whose rest holds another dot resolves to `first` iff `first` matches the slug pattern, and to null otherwise. |
| CollegeUtils.CollegeHostRoundTrip | frontend/src/lib/college-utils.ts:17-32 | `<slug>.collabity.tech` resolves back to `slug` for every valid slug label. |
| CollegeUtils.GetCollegeSlug | frontend/src/lib/college-utils.ts:38-54 | Returns the resolved slug. Caches a found subdomain in the override slot and otherwise leaves storage alone. Starts no navigation. |
| CollegeUtils.SetCollegeSlugOverride | frontend/src/lib/college-utils.ts:59-64 | Writes the slug to the override slot, then reloads the page. |
| CollegeUtils.ClearCollegeSlugOverride | frontend/src/lib/college-utils.ts:69-72 | Removes only the override slot. |
| CollegeUtils.ResolveCases | frontend/src/lib/college-utils.ts:42-53 | A subdomain wins over any stored value and is cached. Without a subdomain the stored value (or null) is returned and storage is unchanged. |
| CollegeUtils.ResolveIdempotent | frontend/src/lib/college-utils.ts:38-54 | Resolving twice gives the same slug and the same storage as resolving once. |
| CollegeUtils.OverrideOnLoopback | frontend/src/lib/college-utils.ts:59-61 | On a loopback host a stored override resolves, and after clearing it nothing resolves. |
| EmailValidation.GetEmailDomain | frontend/src/lib/email-validation.ts:21-23 | Gives "" when there is no `@`. The result is lower-case and has no `@`. |
| EmailValidation.DomainOfAddress | frontend/src/lib/email-validation.ts:21-23 | The domain is the lower-cased text between the first and the second `@`. |
| EmailValidation.DomainIgnoresCase | frontend/src/lib/email-validation.ts:21-23 | Lower-casing the address first does not change its domain. |
| EmailValidation.Validate | frontend/src/lib/email-validation.ts:28-66 | Valid iff there is no error. A missing or empty slug gives the no-college error, and an empty domain gives "Invalid email address.". Otherwise valid iff the domain is non-empty and, for a configured slug, the domain is in its list. |
| EmailValidation.ListedNamesAreDomainNames | frontend/src/lib/email-validation.ts:5-16 | Every listed domain is a lower-case dotted domain name. |
| EmailValidation.CollegeEmailDomainsWellFormed | frontend/src/lib/email-validation.ts:5-16 | Every slug has at least one domain, and every domain is a domain name. |
| EmailValidation.DomainNameFacts | frontend/src/lib/email-validation.ts:5-16 | A domain name is lower-case and holds no `@`. |
| EmailValidation.RejectionNamesFirstDomain | frontend/src/lib/email-validation.ts:58-63 | The rejection message names the slug's first allowed domain and the slug. |
| EmailValidation.ListedDomainAccepted | frontend/src/lib/email-validation.ts:56 | An address at any listed domain of a configured slug is valid. |
| EmailValidation.NoSuffixMatching | frontend/src/lib/email-validation.ts:56 | A subdomain of an allowed domain is refused, because membership is exact. |
| EmailValidation.UnconfiguredSlugPermissive | frontend/src/lib/email-validation.ts:48-54 | For a slug absent from the table, validity means only that the domain is non-empty. |
| EmailValidation.UpperCaseSlugPermissive | frontend/src/lib/email-validation.ts:48-54 | The table lookup is by exact key and every key is lower case. So a slug holding any upper-case letter is not configured, and validation against it accepts exactly the addresses that have a domain. |
| EmailValidation.GetAllowedEmailDomains | frontend/src/lib/email-validation.ts:71-79 | [] without a slug. Otherwise the table entry, or [] for an unconfigured slug. |
| EmailValidation.AtAll | frontend/src/lib/email-validation.ts:95 | Each domain is prefixed with `@`, one entry per domain. |
| EmailValidation.DomainsText | frontend/src/lib/email-validation.ts:84-96 | Gives "your institutional email" for no domains, and exactly "@d" for one domain d. Otherwise it starts with `@` and the first domain, and contains every `@domain`. |
| EmailValidation.DomainsTextJoins | frontend/src/lib/email-validation.ts:95 | For two or more domains the text is `@first or ` followed by the rest joined in order with " or ". |
| EmailValidation.GetAllowedEmailDomainsText | frontend/src/lib/email-validation.ts:84-89 | Without a slug the text is "your institutional email". |
| CollegeEmailDomains.GetEmailDomain | backend/src/lib/college-email-domains.ts:14-16 | Gives "" when there is no `@`. The result is lower-case. |
| CollegeEmailDomains.Validate | backend/src/lib/college-email-domains.ts:18-39 | Valid iff there is no error. The order of errors is "No college specified", then "Missing email", then "Invalid email address". A valid result needs both a slug and an email. |
| CollegeEmailDomains.ConfiguredMeansExactMembership | backend/src/lib/college-email-domains.ts:28-38 | For a configured slug, valid iff the lower-cased domain is exactly in the list. |
| CollegeEmailDomains.TablesAgree | backend/src/lib/college-email-domains.ts:1-12 | The backend table equals the frontend table, key for key and list for list. |
| CollegeEmailDomains.DomainsAgree | backend/src/lib/college-email-domains.ts:14-16 | Both copies of `getEmailDomain` give the same domain for every address. |
| CollegeEmailDomains.ValidityAgrees | backend/src/lib/college-email-domains.ts:18-39 | For every address and slug, backend and frontend `isValid` agree. |
| CollegeEmailDomains.ValidityIgnoresCase | backend/src/lib/college-email-domains.ts:14-16 | Lower-casing the address does not change the validation result. |
| FirebaseAdmin.ExtractToken | backend/src/lib/firebase-admin.ts:112-122 | The result is null iff the header is null or empty, so every non-empty header yields a token. A result is never longer than the header. A result that differs from the header is what follows exactly "Bearer ". |
| FirebaseAdmin.BearerToken | backend/src/lib/firebase-admin.ts:116-119 | "Bearer t" with one space gives t. |
| FirebaseAdmin.BearerEmpty | backend/src/lib/firebase-admin.ts:116-119 | "Bearer " gives the empty token, which the callers treat as missing. |
| FirebaseAdmin.BareToken | backend/src/lib/firebase-admin.ts:121 | A bare token without spaces is returned unchanged. |
| FirebaseAdmin.OtherSchemeUnchanged | backend/src/lib/firebase-admin.ts:112-122 | A header whose first word is any space-free scheme other than exactly "Bearer" (such as "bearer" or "Basic") is returned unchanged. |
| FirebaseAdmin.TwoSpacesUnchanged | backend/src/lib/firebase-admin.ts:121 | "Bearer a b" is returned unchanged. |
| FirebaseAdmin.ManyPiecesUnchanged | backend/src/lib/firebase-admin.ts:121 | Any non-empty header that does not split into exactly two space-separated pieces is returned whole. |
| Http.AdminEmailCaseInsensitive | backend/src/app/api/admin/list-users/route.ts:25 | The administrator test is true exactly for addresses whose lower-case form is admin@mitaoe.ac.in. |
| Http.CheckAdmin | backend/src/app/api/admin/set-verification/route.ts:20-27 | The admin preamble ends with a missing token iff the extracted token is falsy, and with a thrown verification iff the verifier fails. It ends with 403 iff the verified address is not the administrator's. Admission carries the verified claims. |
| Http.AdmittedIffAdministrator | backend/src/app/api/admin/set-verification/route.ts:20-27 | A request is admitted iff it has a token that verifies to the administrator address. |
| Middleware.Decide | backend/src/middleware.ts:7-28 | Public prefixes pass. A rejection is a 401 for an `/api/` path without an Authorization header. |
| Middleware.NonApiPasses | backend/src/middleware.ts:16-27 | Paths outside `/api/` always pass. |
| Middleware.PresenceOnly | backend/src/middleware.ts:17-19 | Any two non-empty Authorization values give the same decision. |
| Middleware.EveryRootedPathPasses | backend/src/middleware.ts:5-13 | As written, every path beginning with "/" passes, so the 401 branch is unreachable. |
| Middleware.AdminRouteWithoutTokenPasses | backend/src/middleware.ts:5-25 | As written, an admin route without a token passes the middleware. |
| Middleware.DecideIntended | backend/src/middleware.ts:5-28 | Corrected decision, with "/" matching only itself: public paths pass. |
| Middleware.IntendedGuardsProtectedRoutes | backend/src/middleware.ts:16-25 | Under the corrected decision, a protected `/api/` path is refused with 401 iff it carries no Authorization header. |
| Middleware.IntendedRefusesAdminRouteWithoutToken | backend/src/middleware.ts:16-25 | Under the corrected decision, the admin route without a token gets the 401 message. |
| SetVerificationRoute.Decide | backend/src/app/api/admin/set-verification/route.ts:16-50 | The result is 401, 403 or 500 from the preamble, with no write. A JSON `null` body makes the destructuring throw, giving 500. Otherwise it is 400 iff admitted with a falsy uid. A write happens iff the request is admitted with a truthy uid, and it is a merge of `verified := (body.verified === true)` into users[uid]. |
| SetVerificationRoute.Post | backend/src/app/api/admin/set-verification/route.ts:16-50 | Responds with the decision and applies its write to `users` only. |
| SetVerificationRoute.OnlyVerifiedChanges | backend/src/app/api/admin/set-verification/route.ts:36-40 | On success only the `verified` field of users[uid] changes. Other documents and fields are untouched. |
| SetVerificationRoute.OnlyBooleanTrueVerifies | backend/src/app/api/admin/set-verification/route.ts:37-39 | The stored flag is true iff the body's value is the boolean true. |
| SetVerificationRoute.Idempotent | backend/src/app/api/admin/set-verification/route.ts:36-40 | Repeating the same request leaves the same users collection. |
| SetRedirectRoute.Decide | backend/src/app/api/admin/set-redirect/route.ts:12-55 | The result is 401, 403 or 500 from the preamble, then 400 for a falsy `redirectUrl`. It is 404 iff the email lookup fails when no uid is given. "Provide uid or email" (400) is returned iff the request is admitted with a truthy `redirectUrl` and neither uid nor email. A write happens iff the status is 200. That is iff the request is admitted with a truthy `redirectUrl` and either a truthy uid or an email that the lookup finds. The write merges only `redirectUrl`. |
| SetRedirectRoute.Post | backend/src/app/api/admin/set-redirect/route.ts:12-55 | Responds with the decision and applies its write to `users` only. |
| SetRedirectRoute.UidTakesPrecedence | backend/src/app/api/admin/set-redirect/route.ts:36-37 | With a uid present the lookup is never consulted, and the uid is the target. |
| SetRedirectRoute.EmailResolvesTarget | backend/src/app/api/admin/set-redirect/route.ts:38-44 | Without a uid, a write targets the uid that the email lookup returned. |
| SetRedirectRoute.OnlyRedirectChanges | backend/src/app/api/admin/set-redirect/route.ts:46-48 | A write changes only `redirectUrl` of the target document. |
| ListUsersRoute.Project | backend/src/app/api/admin/list-users/route.ts:34-54 | Copies uid and email. `verified` is false unless the stored field is truthy, and then it is that field. |
| ListUsersRoute.ProjectAll | backend/src/app/api/admin/list-users/route.ts:34 | One projected entry per auth record, in order. |
| ListUsersRoute.Decide | backend/src/app/api/admin/list-users/route.ts:16-64 | The result is 401, 403, or 500 "Failed to fetch users". A listing happens iff the caller is admitted and the account listing succeeds. It holds at most 1000 entries, in record order, and entry i is the projection of account i joined with its profile. |
| ListUsersRoute.UnverifiedDefault | backend/src/app/api/admin/list-users/route.ts:47 | A missing document, a missing field or a falsy field lists as `verified: false`. |
| ListUsersRoute.OnlyVerifiedFieldRead | backend/src/app/api/admin/list-users/route.ts:42-47 | The listing depends on the profile documents only through their `verified` field. |
| OnVerifyRoute.RequestSlug | backend/src/app/api/auth/on-verify/route.ts:42-43 | The slug is null iff the body's `collegeSlug` is falsy (absent or ""). Otherwise it is the body's slug, which is non-empty. |
| RegisterRoute.RequestSlug | backend/src/app/api/auth/register/route.ts:23 | The slug is null iff the body's `collegeSlug` is falsy (absent or ""). Otherwise it is the body's slug, which is non-empty. |
| OnVerifyRoute.Decide | backend/src/app/api/auth/on-verify/route.ts:22-84 | The result is 401 without a token, and 500 with the verifier's message when verification throws. It is 400 "Invalid token payload" iff the claims lack uid or email. A refused domain gives 400 with the validator's message (default "Email domain mismatch"). A write happens iff the status is 200. That is iff the token verifies with a uid and an email and the email's domain is valid for the request's college. The write creates the document for a new uid and updates it for an existing one. |
| OnVerifyRoute.Post | backend/src/app/api/auth/on-verify/route.ts:22-84 | Responds with the decision and applies its write to `users` only. |
| OnVerifyRoute.MissingSlugRefused | backend/src/app/api/auth/on-verify/route.ts:42-49 | Without a slug a verified request gets 400 and writes nothing. |
| OnVerifyRoute.SuccessfulUpsert | backend/src/app/api/auth/on-verify/route.ts:46-73 | After success the document holds the request slug, the verified email and `isEmailVerified: true`. |
| OnVerifyRoute.UpsertFields | backend/src/app/api/auth/on-verify/route.ts:57-73 | Both the created document and the merged refresh carry the slug, the email and `isEmailVerified: true`. |
| OnVerifyRoute.FirstSignInCreates | backend/src/app/api/auth/on-verify/route.ts:57-65 | A new document has `hasPassword: false` and `isEmailVerified: true`. |
| OnVerifyRoute.LaterSignInPreserves | backend/src/app/api/auth/on-verify/route.ts:66-73 | For an existing document, every field other than email, collegeSlug, isEmailVerified and lastLogin is kept. |
| OnVerifyRoute.RefusalWritesNothing | backend/src/app/api/auth/on-verify/route.ts:27-49 | Every non-200 outcome leaves the users collection unchanged. |
| RegisterRoute.CreateUser | backend/src/app/api/auth/register/route.ts:35-47 | An account is created only for an address no account holds. |
| RegisterRoute.NormalizedEmail | backend/src/app/api/auth/register/route.ts:20-21 | The email checked is trimmed and lower-case. |
| RegisterRoute.DecideFields | backend/src/app/api/auth/register/route.ts:25-72 | An empty email or password gives 400 "Missing email or password". An invalid domain gives 400 with the validator's message. An address already in use gives 400 "Email already exists", and any other create failure gives 500 "Failed to create user". An account and a profile write happen iff the status is 200. That is iff the fields are non-empty, the domain is valid, the address is unused and the identity service issues a uid. The success is 200 with the account (uid, email) and the initial profile stored under that uid. |
| RegisterRoute.Decide | backend/src/app/api/auth/register/route.ts:16-73 | A created account carries the normalised, lower-case email. |
| RegisterRoute.Post | backend/src/app/api/auth/register/route.ts:16-73 | Adds the chosen account and writes the chosen profile, and nothing else. |
| RegisterRoute.Perform | backend/src/app/api/auth/register/route.ts:39-62 | Creates the decided account, if any, then applies the decided profile write and returns the decided response; connections are untouched. |
| RegisterRoute.NormalizationFirst | backend/src/app/api/auth/register/route.ts:20-23 | Bodies whose emails normalise alike are decided alike. |
| RegisterRoute.InvalidDomainCreatesNothing | backend/src/app/api/auth/register/route.ts:30-33 | A refused domain gives 400 before any account or profile is created. |
| RegisterRoute.InitialProfileFields | backend/src/app/api/auth/register/route.ts:49-62 | The new profile has preVerified true, isEmailVerified false, hasPassword true, the normalised email and the slug. |
| RegisterRoute.InitialProfileOf | backend/src/app/api/auth/register/route.ts:49-62 | The same field facts, stated on the already-read email, password and slug. |
| RegisterRoute.ExistingAddressRefused | backend/src/app/api/auth/register/route.ts:42-44 | An address already in use gives 400 "Email already exists" with no effect. |
| RegisterRoute.NoSecondAccount | backend/src/app/api/auth/register/route.ts:35-47 | A created account's address was held by no existing account. |
| UserService.LocalPart | frontend/src/lib/user-service.ts:41 | The default name is a prefix of the email without `@`. |
| UserService.CreateUserProfile | frontend/src/lib/user-service.ts:20-64 | A new uid gets the default profile. An existing one only has `updatedAt` merged in. |
| UserService.DefaultNameIsLocalPart | frontend/src/lib/user-service.ts:41 | Without a display name, the name is the text before the first `@`. |
| UserService.NewProfileCollegeIsSlug | frontend/src/lib/user-service.ts:43-44 | `college` equals `collegeSlug`, and it is "" exactly when no slug is given. |
| UserService.ExistingProfileKeepsFields | frontend/src/lib/user-service.ts:58-63 | Every field other than `updatedAt` of an existing profile is kept. |
| UserService.FilterUsers | frontend/src/lib/user-service.ts:120-130 | The loop's result is the users whose name, email or college contains the term case-insensitively, in order. |
| UserService.SearchResultSpec | frontend/src/lib/user-service.ts:120-130 | The result is an order-preserving subsequence holding exactly the matching users. An empty term keeps everyone. |
| UserService.SortPair | frontend/src/lib/user-service.ts:247 | The pair is the two ids in sorted order. |
| UserService.ConnectionIdSymmetric | frontend/src/lib/user-service.ts:247-248 | id(a, b) = id(b, a). |
| UserService.ConnectWithUser | frontend/src/lib/user-service.ts:239-262 | Connecting to oneself fails and writes nothing. Otherwise the pair's document is merged, and users are untouched. |
| UserService.ConnectIdempotent | frontend/src/lib/user-service.ts:250-261 | Connecting twice leaves the same connections as connecting once. |
| UserService.SplitJoinedPair | frontend/src/lib/user-service.ts:248 | An id joined with "__" splits back into its two parts. |
| UserService.ConnectionIdInjective | frontend/src/lib/user-service.ts:247-248 | For ids without `_`, equal connection ids mean the same unordered pair. |
| UserService.DedupAppend | frontend/src/lib/user-service.ts:280-282 | Adding to a Set appends only a new element. |
| UserService.DedupSpec | frontend/src/lib/user-service.ts:275-286 | The Set holds exactly the input's elements, with no duplicates. |
| UserService.PartnerStep | frontend/src/lib/user-service.ts:279-283 | One step of the loop adds a member iff it is not the user and not yet present. |
| UserService.GetConnectionsForUser | frontend/src/lib/user-service.ts:267-287 | The loop computes the partner list. |
| UserService.AddPartners | frontend/src/lib/user-service.ts:279-283 | Adding one document's members gives the deduplicated partners of the members seen so far plus these, never the user. |
| UserService.FlattenMembership | frontend/src/lib/user-service.ts:275-284 | A member appears in the flattened list iff it belongs to some matched connection. |
| UserService.PartnersSpec | frontend/src/lib/user-service.ts:275-286 | The result holds exactly the members other than u of the matched connections. It never holds u and has no duplicates. |
| PostService.AvatarOf | frontend/src/lib/post-service.ts:67-69 | A truthy stored avatar is kept. Otherwise the avatar is the dicebear URL prefix followed by the author id, or by the document id when there is no author id. |
| PostService.Normalize | frontend/src/lib/post-service.ts:58-80 | Keeps the document id and the college slug as stored. Field by field, a missing value gets its default and a present one is kept: author id "", author name "Unknown builder", title "", visibility public, content "", tags and attachments [], and counters 0. The avatar is `AvatarOf`. `createdAt` is set iff the stored value is a timestamp, and it is then that time. |
| PostService.NormalizeAll | frontend/src/lib/post-service.ts:58 | One post per document, in order. |
| PostService.NormalizeAllKeepsIds | frontend/src/lib/post-service.ts:58-63 | The i-th post carries the i-th document's id. |
| PostService.EmptyDocDefaults | frontend/src/lib/post-service.ts:64-77 | An empty document reads as "Unknown builder", "" fields, public, no tags or attachments, zero counters and a dicebear avatar seeded by the id. |
| PostService.PostStore.CreatePost | frontend/src/lib/post-service.ts:86-110 | A post with an undefined field is refused and nothing is stored. Otherwise it is stored under the new id with zero counters and the id is returned. |
| PostService.CreatedPostReadsBack | frontend/src/lib/post-service.ts:58-107 | A stored post reads back with its fields, zero counters and its creation time. |
| PostComposer.AddTagKeepsValid | frontend/src/features/dashboard/components/post-composer.tsx:65-71 | Adding keeps the tags duplicate-free, non-empty, trimmed and lower-case. |
| PostComposer.AddTagListsTag | frontend/src/features/dashboard/components/post-composer.tsx:66-69 | A non-empty normalised tag is listed afterwards, and every earlier tag stays. |
| PostComposer.AddTagIdempotent | frontend/src/features/dashboard/components/post-composer.tsx:66-70 | Adding the same input twice adds it once. |
| PostComposer.AddTagNormalises | frontend/src/features/dashboard/components/post-composer.tsx:66 | Only the trimmed, lower-cased input matters. |
| PostComposer.RemoveTagSpec | frontend/src/features/dashboard/components/post-composer.tsx:73-75 | Removing keeps the tags valid and holds exactly the other tags. |
| PostComposer.RemoveUndoesAdd | frontend/src/features/dashboard/components/post-composer.tsx:65-75 | Removing a newly added tag restores the previous list. |
| PostComposer.AuthorName | frontend/src/features/dashboard/components/post-composer.tsx:40 | The author name is never empty, and the profile name wins. |
| PostComposer.AuthorAvatar | frontend/src/features/dashboard/components/post-composer.tsx:42-45 | The avatar is never empty, and the profile avatar wins. |
| PostComposer.BuildPostAsWritten | frontend/src/features/dashboard/components/post-composer.tsx:34-51 | As written: it fails without a user or profile, or with blank content. The content is trimmed. `tags` is undefined iff the list is empty, and `collegeSlug` is undefined iff there is no slug. |
| PostComposer.OmitUndefined | frontend/src/features/dashboard/components/post-composer.tsx:48-49 | Dropping an undefined property keeps its value and leaves nothing undefined. |
| PostComposer.BuildPost | frontend/src/features/dashboard/components/post-composer.tsx:34-51 | The same guards, and a built post holds no undefined field. |
| PostComposer.UntaggedPostRefused | frontend/src/features/dashboard/components/post-composer.tsx:48 | As written, a post without tags carries an undefined field, which the store refuses. |
| PostComposer.ComposedPostReadsBack | frontend/src/features/dashboard/components/post-composer.tsx:34-51 | A composed post is accepted and reads back with the trimmed content, its tags, the author and zero counters. |
| PostComposer.PostDisabled | frontend/src/features/dashboard/components/post-composer.tsx:138 | The Post button is disabled iff a submission is pending or the text is entirely whitespace. |
| PostComposer.EnabledButtonPassesContentGuard | frontend/src/features/dashboard/components/post-composer.tsx:138 | When the Post button is enabled, the content guard passes. |
| PostComposer.Composer.SetContent | frontend/src/features/dashboard/components/post-composer.tsx:92 | Sets only the content. |
| PostComposer.Composer.SetTagInput | frontend/src/features/dashboard/components/post-composer.tsx:103 | Sets only the tag input. |
| PostComposer.Composer.HandleAddTag | frontend/src/features/dashboard/components/post-composer.tsx:65-71 | The tags become the added list and stay valid. The input is cleared iff the tags changed. |
| PostComposer.Composer.HandleRemoveTag | frontend/src/features/dashboard/components/post-composer.tsx:73-75 | The tags are filtered in order and stay valid. |
| PostComposer.Composer.SubmitBuilt | frontend/src/features/dashboard/components/post-composer.tsx:34-58 | A failed build or a post the store refuses leaves the composer and the store unchanged. An accepted post is stored under the fresh id, and the composer is emptied and closed. |
| PostComposer.Composer.Submit | frontend/src/features/dashboard/components/post-composer.tsx:34-58 | As written: the argument is `BuildPostAsWritten`. A failure changes nothing, and a success stores the post and resets and closes the composer. A signed-in user's non-blank post without tags is refused, and the dialog stays open with its text. |
| PostComposer.Composer.SubmitCorrected | frontend/src/features/dashboard/components/post-composer.tsx:34-58 | Corrected: the argument is `BuildPost`. A guard failure changes nothing, and every post that passes the guards is stored, with the composer reset and closed. |
| PostComposer.Composer.Reset | frontend/src/features/dashboard/components/post-composer.tsx:52-57 | Content, tag input and tags are cleared and the dialog is closed. |
| Dashboard.Render | frontend/src/features/dashboard/routes/dashboard-route.tsx:420-435 | "just now" renders as itself. A count renders as its digits followed by the unit suffix. |
| Dashboard.ElapsedMinutes | frontend/src/features/dashboard/routes/dashboard-route.tsx:416-419 | Gives 0 under one minute, including future dates. Otherwise it is the floor of the difference in minutes. |
| Dashboard.BucketAsWritten | frontend/src/features/dashboard/routes/dashboard-route.tsx:419-435 | As written: "just now" iff under a minute. |
| Dashboard.FormatRelativeTimeAsWritten | frontend/src/features/dashboard/routes/dashboard-route.tsx:414-436 | As written: an undefined date gives "just now". |
| Dashboard.ZeroCountsAsWritten | frontend/src/features/dashboard/routes/dashboard-route.tsx:428-435 | As written, 28–29 days give 0 months and 360–364 days give 0 years. |
| Dashboard.TwentyEightDaysAsWritten | frontend/src/features/dashboard/routes/dashboard-route.tsx:428-431 | As written, a post 28 days old reads "0mo". |
| Dashboard.Bucket | frontend/src/features/dashboard/routes/dashboard-route.tsx:419-435 | Corrected bucketing: "just now" iff under a minute. |
| Dashboard.BucketCounts | frontend/src/features/dashboard/routes/dashboard-route.tsx:420-435 | Each unit's count is the floor quotient and at least 1: minutes under 60, hours under 24, days under 7, weeks under 30 days, months under 365 days, then years. |
| Dashboard.BucketAgreesOutsideZeroCounts | frontend/src/features/dashboard/routes/dashboard-route.tsx:420-435 | The corrected bucketing equals the written one outside the two zero-count ranges. |
| Dashboard.FormatRelativeTime | frontend/src/features/dashboard/routes/dashboard-route.tsx:414-419 | An undefined date or one under a minute old gives "just now". |
| Dashboard.NoZeroCount | frontend/src/features/dashboard/routes/dashboard-route.tsx:420-435 | Corrected: any date at least a minute old renders a count of at least 1. |
| Dashboard.FallbackFeed | frontend/src/features/dashboard/routes/dashboard-route.tsx:27-86 | Three posts, created 2, 5 and 24 hours ago. |
| Dashboard.FeedItems | frontend/src/features/dashboard/routes/dashboard-route.tsx:119-120 | Remote posts iff there is at least one, otherwise the fallback feed. |
| Dashboard.FeedNeverEmpty | frontend/src/features/dashboard/routes/dashboard-route.tsx:119-120 | The feed is never empty, and no fallback post reads "just now". |
| CollegeSelector.FilteredColleges | frontend/src/features/college/components/college-selector-modal.tsx:36-41 | The filtered list keeps the table's order. |
| CollegeSelector.FilteredCollegesSpec | frontend/src/features/college/components/college-selector-modal.tsx:36-41 | A college is kept iff the lower-cased query is in its lower-cased name, slug or location. |
| CollegeSelector.EmptyQueryListsAll | frontend/src/features/college/components/college-selector-modal.tsx:36-41 | An empty query lists every college. |
| CollegeSelector.QueryCaseIgnored | frontend/src/features/college/components/college-selector-modal.tsx:36-41 | The case of the query does not matter. |
| CollegeSelector.SlugFacts | frontend/src/features/college/components/college-selector-modal.tsx:14-25 | The table lists ten colleges, with these slugs in this order. |
| CollegeSelector.SlugsUnique | frontend/src/features/college/components/college-selector-modal.tsx:14-25 | No slug occurs twice. |
| CollegeSelector.SlugsHaveEmailDomains | frontend/src/features/college/components/college-selector-modal.tsx:14-25 | Every slug is configured in the e-mail domain table. |
| CollegeSelector.SlugsAreLabels | frontend/src/features/college/components/college-selector-modal.tsx:14-25 | Every slug matches the tenant label pattern. |
| CollegeSelector.TargetUrl | frontend/src/features/college/components/college-selector-modal.tsx:44-51 | The target is `https://<slug>.collabity.tech/auth/<mode>`. |
| CollegeSelector.HandleSelectCollege | frontend/src/features/college/components/college-selector-modal.tsx:43-55 | On a loopback host it stores the override and goes to `/auth/<mode>`. Elsewhere it goes to the college URL without touching storage. |
| CollegeSelector.SelectedCollegeResolves | frontend/src/features/college/components/college-selector-modal.tsx:43-55 | After selection the college resolves, from its host or, on loopback, from the override. |
| CollegeSelector.SlugHostResolves | frontend/src/features/college/components/college-selector-modal.tsx:44 | Any valid slug's college host resolves to that slug. |
| GlobalSearch.SearchPosts | frontend/src/components/layout/global-search.tsx:41-55 | An empty term gives no posts. Results keep the feed's order. |
| GlobalSearch.SearchPostsSpec | frontend/src/components/layout/global-search.tsx:47-52 | A post is found iff its content, author name or a tag contains the term case-insensitively. |
| GlobalSearch.SearchPeople | frontend/src/components/layout/global-search.tsx:32-39 | An empty term gives no people. Otherwise the result keeps the order of the fetched page (the first 20 profiles by name, with no college filter). It holds exactly the fetched profiles whose name, email or college contains the term, ignoring case. |
| GlobalSearch.ShownPeople | frontend/src/components/layout/global-search.tsx:127 | The first five people. |
| GlobalSearch.ShownPosts | frontend/src/components/layout/global-search.tsx:163 | The first five posts. |
| GlobalSearch.ShownTags | frontend/src/components/layout/global-search.tsx:185 | The first three tags. |
| GlobalSearch.DisplayCaps | frontend/src/components/layout/global-search.tsx:127-185 | At most five people, five posts and three tags are shown, as a prefix. |
| GlobalSearch.ResultsPanel | frontend/src/components/layout/global-search.tsx:109-199 | The prompt shows iff the term is empty. "No results" shows iff both lists are loaded and empty. |
| GlobalSearch.NoResultsOnlyWhenEmpty | frontend/src/components/layout/global-search.tsx:199 | "No results" never shows alongside a result. |
| GlobalSearch.SearchDialog.SetSearchTerm | frontend/src/components/layout/global-search.tsx:19 | Sets only the typed term. |
| GlobalSearch.SearchDialog.Settle | frontend/src/components/layout/global-search.tsx:24-30 | The debounced term catches up with the typed term. |
| GlobalSearch.SearchDialog.HandleClose | frontend/src/components/layout/global-search.tsx:57-61 | Closes the dialog and resets both terms. |
| GlobalSearch.SearchDialog.HandleUserClick | frontend/src/components/layout/global-search.tsx:63-66 | Navigates to the user's profile and closes. |
| GlobalSearch.SearchDialog.HandlePostClick | frontend/src/components/layout/global-search.tsx:68-73 | Navigates to the dashboard and closes. |
| Discover.Dispatch | frontend/src/features/discover/routes/discover-route.tsx:30-45 | A non-empty term always searches. The college query uses the profile's non-empty college, and "available" asks for open. |
| Discover.FilterDispatch | frontend/src/features/discover/routes/discover-route.tsx:35-44 | Each filter's query, with "college" falling back to all users. |
| Discover.VisibleStudents | frontend/src/features/discover/routes/discover-route.tsx:152-153 | The visible list keeps the order of the fetched list. |
| Discover.VisibleStudentsSpec | frontend/src/features/discover/routes/discover-route.tsx:152-153 | A user is visible iff fetched and not the current user. |
| Discover.ConnectLabel | frontend/src/features/discover/routes/discover-route.tsx:239 | "Connected" iff connected, and "Connecting..." iff processing and not connected. |
| Discover.ConnectDisabled | frontend/src/features/discover/routes/discover-route.tsx:246 | The card button is disabled iff the connections are loading or its label is not "Connect" (connected, or its own request pending). |
| Discover.EnabledButtonReadsConnect | frontend/src/features/discover/routes/discover-route.tsx:239-246 | An enabled button reads "Connect". |
| Discover.OnConnect | frontend/src/features/discover/routes/discover-route.tsx:203-207 | An already connected student is skipped. Otherwise the mutation of lines 60-65 runs: without a user, it fails and writes nothing. A signed-in user connecting with themself gets "You cannot connect with yourself." and nothing is written. Otherwise it merges the pair's connection. |
| Discover.CardsNeverSelfConnect | frontend/src/features/discover/routes/discover-route.tsx:152-153 | No card shown offers the user to themself. |
| AuthContext.ProfileAfter | frontend/src/features/auth/auth-context.tsx:23-31 | A failed load gives null, and a load gives the profile read. |
| AuthContext.AdminAgreesWithBackend | frontend/src/features/auth/auth-context.tsx:50-51 | The frontend's admin flag agrees with the backend's admin preamble for the same account. |
| AuthContext.AuthProvider.constructor | frontend/src/features/auth/auth-context.tsx:18-21 | Starts signed out, not admin and loading. |
| AuthContext.AuthProvider.MountWithoutAuth | frontend/src/features/auth/auth-context.tsx:40-44 | Without an auth instance, loading ends. |
| AuthContext.AuthProvider.LoadUserProfile | frontend/src/features/auth/auth-context.tsx:23-31 | The profile becomes the load's result. |
| AuthContext.AuthProvider.OnAuthStateChanged | frontend/src/features/auth/auth-context.tsx:46-59 | Sets the user and the admin flag and ends loading. Sign-out clears the profile and the flag. |
| AuthContext.AuthProvider.RefreshProfile | frontend/src/features/auth/auth-context.tsx:33-37 | Without a user it does nothing. With one, the profile is reloaded. |
| CollegeContext.RequireCollege | frontend/src/features/college/college-context.tsx:57-65 | Fails iff not loading and there is no college. Otherwise it returns the slug. |
| CollegeContext.RequireAfterMount | frontend/src/features/college/college-context.tsx:20-65 | After mount it fails iff neither host nor storage gives a slug. An empty stored override counts as a college. |
| CollegeContext.CollegeProvider.constructor | frontend/src/features/college/college-context.tsx:17-18 | Starts with no slug and loading. |
| CollegeContext.CollegeProvider.Mount | frontend/src/features/college/college-context.tsx:20-24 | The slug becomes the resolved slug, loading ends, and storage is updated as resolution does. |
| CollegeContext.CollegeProvider.Require | frontend/src/features/college/college-context.tsx:37-65 | Fails iff not loading and `hasCollege` is false. |
| ThemeProvider.InitialTheme | frontend/src/components/theme/theme-provider.tsx:47-50 | The stored theme when present, else the default. |
| ThemeProvider.Resolve | frontend/src/components/theme/theme-provider.tsx:52-83 | Always light or dark. It follows the system preference for "system" with system support on, and otherwise it is dark iff the theme is dark. |
| ThemeProvider.Toggled | frontend/src/components/theme/theme-provider.tsx:67-69 | Light iff the theme was dark, and dark otherwise. |
| ThemeProvider.ToggleTwice | frontend/src/components/theme/theme-provider.tsx:67-69 | Toggling twice restores light or dark. "system" toggles to dark, then light. |
| ThemeProvider.WithThemeClass | frontend/src/components/theme/theme-provider.tsx:89-94 | The light and dark classes are removed and every other class is kept. The applied class is added iff `classList.add` accepts it, that is, iff it is non-empty and holds no ASCII whitespace. Otherwise the add throws and only the removal happens. |
| ThemeProvider.StoredMalformedThemeLeavesNoThemeClass | frontend/src/components/theme/theme-provider.tsx:47-94 | A stored theme that is "" or holds whitespace is read back unchanged (`??` replaces only null) and applied. The add then throws, and the element is left with neither light nor dark. |
| ThemeProvider.AppliedIsResolved | frontend/src/components/theme/theme-provider.tsx:85-96 | For an offered theme, the applied class is the resolved theme. |
| ThemeProvider.Provider.constructor | frontend/src/components/theme/theme-provider.tsx:47-55 | Starts with the initial theme, resolved. |
| ThemeProvider.Provider.SetTheme | frontend/src/components/theme/theme-provider.tsx:57-65 | Sets the theme and writes it to the storage key. |
| ThemeProvider.Provider.ToggleTheme | frontend/src/components/theme/theme-provider.tsx:67-69 | Sets and stores the toggled theme. |
| ThemeProvider.Provider.SyncResolvedTheme | frontend/src/components/theme/theme-provider.tsx:71-83 | The resolved theme is recomputed. |
| ThemeProvider.Provider.ApplyThemeClass | frontend/src/components/theme/theme-provider.tsx:85-96 | Root and body lose light and dark and carry the applied class. When the applied theme is "" or holds whitespace, the effect throws after both removals and neither element gets a class. |
| ThemeProvider.Provider.RunEffects | frontend/src/components/theme/theme-provider.tsx:71-96 | Both effects in order: the resolved theme is recomputed, then the classes are applied, with the throw of `ApplyThemeClass` reported. |
| ThemeProvider.ChoiceRestored | frontend/src/components/theme/theme-provider.tsx:47-65 | A stored choice is the initial theme of the next page load. |

## Left out

- Cloud Firestore and Firebase Authentication are not modelled as libraries. A collection is a map, account creation is a map plus a supplied new id, and lookups and token verification are functions passed in. Server-side `orderBy`, `where` and `limit`, and `increment`, are not modelled. `serverTimestamp()` is a sentinel value.
- Token signatures are not modelled. `verifyIdToken` is a trusted function that returns claims or an error.
- `initializeFirebaseAdmin` and frontend/src/lib/firebase.ts are credential bootstrapping and are not modelled.
- The verify, me, delete-account and health routes are not modelled. Their only logic is the `extractToken` gate, which is modelled.
- The CORS header constants are not modelled.
- frontend/src/lib/post-reactions.ts (server-side increments) and frontend/src/lib/api.ts (fetch plumbing) are not modelled.
- The `setTimeout` debounce in the global search is the `Settle` step, and its timing is not modelled.
- The redirect delay in the verify-email page is not modelled.
- Navigations are an abstract log.
- `matchMedia` listeners are replaced by the system preference as a parameter.
- `Promise.all` in list-users is sequential, because the per-record reads are independent.
- React rendering, the remaining routes and components, and frontend/src/lib/utils.ts (`cn`, `formatDate`) are display code or library wrappers.
- Call sites whose arguments differ from the service signatures are not modelled as queries; the services are modelled as declared. They are:
  - frontend/src/features/dashboard/routes/dashboard-route.tsx:115 calls `getLatestPosts(20)`, so 20 binds to `collegeSlug`. The query then filters on `collegeSlug == 20`, which no stored post (whose slug is a string) matches. The dashboard therefore receives no remote posts and shows the fallback feed. `Dashboard.FeedItems` takes the remote posts as a parameter and does not derive this.
  - frontend/src/components/layout/global-search.tsx:36 and frontend/src/features/discover/routes/discover-route.tsx:32 call `searchUsers(term)` without a college, so the query has no college filter; `GlobalSearch.SearchPeople` takes that unfiltered page.
  - frontend/src/components/layout/global-search.tsx:45 calls `getLatestPosts()` without a college, so the search reads the latest posts of every college.
- `getUsersByCollege`, `getAllUsers`, `getUsersBySkill`, `getUsersByAvailability` and `updateUserProfile` are store queries and are not modelled. The discover page's choice among them is `Discover.Dispatch`. `getUserProfile` is a supplied read outcome.
- Async interleaving in the auth-state callback is not modelled. A profile load that resolves after a later sign-out is not modelled, and the callback runs to completion.
- `onError` alerts and console logging are not modelled.
- JSON values of other types in string fields of request bodies are not modelled. The fields are strings or absent, except set-verification's `verified`, which keeps its JSON value because `=== true` is compared.
- `Record` lookup of inherited keys such as "constructor" is not modelled. The domain table is a plain map.
- `toLowerCase` is modelled for ASCII letters only. Other Unicode case mappings are not modelled.
- The default string sort compares code points, which equals JavaScript's UTF-16 order inside the Basic Multilingual Plane.
- ThemeProvider.AppliedIsResolved: stated for the three offered themes. A stored value outside them is applied as a class verbatim when it is a valid class token; when it is "" or holds whitespace, the add throws (`ThemeProvider.WithThemeClass`). What React does with the thrown error is not modelled.
- PostService.PostStore.CreatePost: stores the post under a supplied fresh id. The store's id generation is not modelled.
- ListUsersRoute.Decide: the page of at most 1000 records is the supplied account list cut at 1000, and further pages are not modelled (the source does not fetch them either).
- Dashboard.FallbackFeed: only the count and creation times of the placeholder posts are stated. Their text is a constant.
- Dashboard.FallbackFeed: the placeholder posts are dated from the `now` passed in. The source computes `Date.now()` once, when the module loads, so its placeholders keep the load-time dates across renders.
- A store write that fails (a rejected `set` or `update` in any route) is not modelled. The store always accepts the write, so the routes' 500 response for a failed write does not appear.

## Findings

| source | as written | input that shows it | evidently intended | confidence | as-written member | corrected member |
|---|---|---|---|---|---|---|
| backend/src/middleware.ts:5-11 | "/" is a public prefix, and `startsWith("/")` holds for every path, so every request passes and the 401 branch is unreachable | `/api/admin/list-users` without an Authorization header passes | "/" exempts only the root page, and other `/api/` paths need the header | high, not executed | Middleware.EveryRootedPathPasses | Middleware.IntendedGuardsProtectedRoutes |
| frontend/src/features/dashboard/routes/dashboard-route.tsx:428-435 | weeks are shown only under 4 weeks, and months are `floor(days/30)`, so 28–29 days give 0 months; years are `floor(days/365)` after 12 months, so 360–364 days give 0 years | a post 28 days old reads "0mo"; on the dashboard as shipped this stays hidden, because `getLatestPosts(20)` at dashboard-route.tsx:115 yields no remote posts, so only the fallback posts (2, 5 and 24 hours old) are formatted, and it shows once that call is fixed | every relative time shows a count of at least 1 | high, not executed | Dashboard.TwentyEightDaysAsWritten | Dashboard.NoZeroCount |
| frontend/src/features/dashboard/components/post-composer.tsx:48-49 | `tags: tags.length > 0 ? tags : undefined` and `collegeSlug: collegeSlug || undefined` are passed through to `addDoc`, and frontend/src/lib/firebase.ts:57 obtains the store with plain `getFirestore`, which refuses undefined field values; `Composer.Submit` then leaves the dialog open, while `Composer.SubmitCorrected` stores the post | any post without tags, or posted without a college | absent tags and slug are omitted from the document | medium, not executed (depends on the store client's default refusal of undefined values) | PostComposer.UntaggedPostRefused | PostComposer.ComposedPostReadsBack |
