# Pink Collar recruiting backend — a Dafny model

This project models the core of the Pink Collar applicant-tracking admin backend, a Rails application, in four parts:

- **Dashboard aggregation** (`DashboardController`). It covers percentages and period-over-period trends, birth-year cohorts, the function × industry table, the top cities, attachment counts and drop-off, the resume/video ratio and the previous period.
- **Candidate validations** (`Candidate`). It covers the enum tables and the closed industries list, presence rules including the conditional ones, email format and uniqueness, the photo and resume attachments, and email normalisation. `coordinates` and `experience_label` are modelled too.
- **Candidate list** (`CandidatesController`). It covers the exact-match condition map, the institute and city substring filters, the industry overlap, newest-first ordering, the free-text search with `distinct`, the CSV export projection, `sanitize_sql_like` and the order of the checks in `validate_email`.
- **Invitations and admin accounts** (`Invitation`, `InvitationsController` and the admin actions of `DashboardController`). The model is a state machine over a users table keyed by email and an invitations table keyed by token.

Database queries become filters and counts over a `seq` of candidate records. `Candidate.where` is `Seqs.Filter` and a `count` is `Seqs.Count`. A `GROUP BY` becomes a distinct list of keys, each mapped to its count.

Files:

| file | module | contents |
|---|---|---|
| `wrappers.dfy` | `Wrappers` | `Option` |
| `strings.dfy` | `Strings` | Ruby's `blank?`/`present?`, `strip` and `downcase`; email normalisation; case-insensitive substring search; the `URI::MailTo::EMAIL_REGEXP` format |
| `seqs.dfy` | `Seqs` | filter, count, map, a stable descending sort, order-preserving `distinct` |
| `params.dfy` | `RequestParams` | a request parameter that may be a string or an array |
| `sql_like.dfy` | `SqlLike` | PostgreSQL `ILIKE` with `%`, `_` and backslash escapes |
| `candidate.dfy` | `CandidateModel` | the `Candidate` record and its validations; the class `CandidateForm` runs the validators one by one, appending to `errors` |
| `dashboard.dfy` | `DashboardController` | the dashboard payload; `FunctionDistribution` is the loop over candidate rows |
| `candidates_controller.dfy` | `CandidatesController` | filters, search, export, `sanitize_sql_like`, `validate_email` |
| `accounts.dfy` | `Accounts` | invitation expiry, the invitation actions, the admin actions; the class `Store` holds both tables and changes them in place |

Every imperative piece follows the same pattern. A method is proved equal to a specification function, and the properties are proved about that function. Examples:

- `FunctionDistribution` ensures `dist == Distribution(rows)`, and its inner loop `CountIndustries` ensures `r == AddIndustries(counts, tags)`.
- `CandidateForm.Validate` ensures `errors == Errors(record, takenEmails)`.
- Each `Store` method ensures `(State(), response) == XStep(old(State()), …)`.

## Model

| member | source | states |
|---|---|---|
| `DashboardController.Percentage` | app/controllers/dashboard_controller.rb:156-159 | 0 when the total is 0; otherwise the result times the total equals 100 × count |
| `DashboardController.PercentageBounds` | app/controllers/dashboard_controller.rb:156-159 | for 0 ≤ count ≤ total the percentage lies in [0, 100], and it is exactly 100 when count = total > 0 |
| `DashboardController.Trend` | app/controllers/dashboard_controller.rb:274-277 | 0 when the previous value is 0; otherwise result × previous = (current − previous) × 100 |
| `DashboardController.TrendDirection` | app/controllers/dashboard_controller.rb:274-277 | with a positive previous value, the trend is positive, zero or negative exactly when the current value is above, equal to or below it |
| `DashboardController.Cohort` | app/controllers/dashboard_controller.rb:192-198 | a year that gets a generation lies in that generation's range |
| `DashboardController.GenerationNamesDistinct` | app/controllers/dashboard_controller.rb:193-197 | different cohorts have different names, so keying the breakdown by cohort is keying it by the name the query yields |
| `DashboardController.CohortRangesDisjoint` | app/controllers/dashboard_controller.rb:193-197 | no year lies in the ranges of two different generations |
| `DashboardController.CohortExact` | app/controllers/dashboard_controller.rb:192-198 | the CASE yields generation g exactly for the years in g's range, and NULL exactly for years before 1946 or after 2025 |
| `DashboardController.GenerationalBreakdown` | app/controllers/dashboard_controller.rb:199-209 | every bucket has a positive count of at most the number of rows, and its percentage is `Percentage` of that count against the rows |
| `DashboardController.BreakdownKeys` | app/controllers/dashboard_controller.rb:201-209 | a generation, the NULL one included, is a key of the breakdown exactly when some row has it; its bucket holds that group's count and percentage |
| `DashboardController.NullGenerationKept` | app/controllers/dashboard_controller.rb:192-202 | a row with no birth year, or one outside every range, puts the NULL key in the breakdown |
| `DashboardController.BreakdownPartition` | app/controllers/dashboard_controller.rb:199-202 | the counts of the five generations and the NULL group add up to the number of rows |
| `DashboardController.IndustryKeyInjective` | app/controllers/dashboard_controller.rb:230 | different industries get different `"<industry>_applicants"` keys |
| `DashboardController.CountIndustries` | app/controllers/dashboard_controller.rb:228-232 | the inner loop leaves exactly `AddIndustries(counts, tags)`: one more per non-blank tag |
| `DashboardController.FunctionDistribution` | app/controllers/dashboard_controller.rb:213-236 | the loop over the candidates builds exactly the table `Distribution(rows)` |
| `DashboardController.Distribution` | app/controllers/dashboard_controller.rb:213-236 | every function in the table has between 1 and \|rows\| applicants |
| `DashboardController.AddIndustriesCounts` | app/controllers/dashboard_controller.rb:228-232 | each non-blank tag adds exactly its number of occurrences to its industry key |
| `DashboardController.DistributionKeys` | app/controllers/dashboard_controller.rb:221-224 | a function is a key exactly when some candidate has it; candidates with no function are skipped |
| `DashboardController.DistributionApplicants` | app/controllers/dashboard_controller.rb:224-225 | `applicants_count` under f equals the number of candidates whose function is f |
| `DashboardController.DistributionIndustries` | app/controllers/dashboard_controller.rb:228-232 | the count under f for a non-blank industry equals the number of times that tag occurs among f's candidates |
| `DashboardController.AddIndustriesKeys` | app/controllers/dashboard_controller.rb:228-232 | a counter exists only if it was there before or belongs to a non-blank tag among those added; blank tags are skipped |
| `DashboardController.DistributionIndustryKeys` | app/controllers/dashboard_controller.rb:221-232 | every industry counter under a function is the `_applicants` key of a non-blank tag that occurs among that function's candidates |
| `DashboardController.TopCitiesOrderedWithCoordinates` | app/controllers/dashboard_controller.rb:264-266 | top cities are in non-increasing percentage order, and each has both coordinates |
| `DashboardController.CityGroups` | app/controllers/dashboard_controller.rb:251-262 | at most one group per row, each with `Percentage` of its count against the rows |
| `DashboardController.TopCities` | app/controllers/dashboard_controller.rb:251-266 | at most one entry per row; every entry has both coordinates and `Percentage` of its count |
| `DashboardController.TopCitiesEntriesAreGroups` | app/controllers/dashboard_controller.rb:251-262 | each entry is the (city, latitude, longitude) group of some row, with that group's count, which is positive |
| `DashboardController.TopCitiesComplete` | app/controllers/dashboard_controller.rb:251-266 | the group of every row that has both coordinates appears among the top cities |
| `DashboardController.CountAttachments` | app/controllers/dashboard_controller.rb:137-141 | the resume, video and completed counts are counts of rows; completed ≤ resume ≤ total and completed ≤ video ≤ total |
| `DashboardController.ResumeToVideoRatio` | app/controllers/dashboard_controller.rb:239-247 | (0, 0) when total + video is 0; otherwise each side is its share of total + video, times 100 |
| `DashboardController.RatioSumsToHundred` | app/controllers/dashboard_controller.rb:239-247 | when total + video > 0 the two shares add up to 100 |
| `DashboardController.DayStart` | app/controllers/dashboard_controller.rb:130 | the start of the day lies on a day boundary at or before t, less than a day before it |
| `DashboardController.FilteredCandidates` | app/controllers/dashboard_controller.rb:161-183 | a candidate is kept exactly when it is in the date range (if one is given), has the function (if present) and shares an industry with the parameter (if present) |
| `DashboardController.MinCreatedAt` | app/controllers/dashboard_controller.rb:281 | the result is the smallest `created_at` among the candidates |
| `DashboardController.PreviousPeriodIsEverythingBefore` | app/controllers/dashboard_controller.rb:279-292 | the previous period, from the first candidate's day to the end of the day before the start date, holds exactly the candidates created before the start day |
| `DashboardController.PreviousPeriod` | app/controllers/dashboard_controller.rb:143-147 | previous counts exist exactly when a date range is given; their total is the size of the previous period and their attachment counts are `CountAttachments` of it |
| `DashboardController.Rate` | app/controllers/dashboard_controller.rb:12-33 | an upload rate is the percentage of its count; its trend compares it with the previous period's percentage and exists exactly when there is a previous period |
| `DashboardController.DropOff` | app/controllers/dashboard_controller.rb:37-54 | four stages: all applicants at 100, then the resume, video and completed counts, each with `Percentage` of its count against the total; the completed count is at most the others |
| `DashboardController.Index` | app/controllers/dashboard_controller.rb:6-58 | the total is the number of filtered candidates; every trend is present exactly when both dates are set, the total's trend compares with the previous period's size and each upload rate is `Rate` of the filtered counts against the previous period; the drop-off is `DropOff` of the filtered total and attachment counts; the breakdown, distribution, top cities and ratio are those of the filtered candidates; the echoed date range starts at the beginning of the start day and keeps the end |
| `CandidateModel.EnumKey` | app/models/candidate.rb:7-16 | the key is found exactly when some entry has the ordinal, and the key returned is that entry's label |
| `CandidateModel.EnumReadIsKeyLookup` | app/models/candidate.rb:7-55 | for a table numbered 0, 1, 2, … reading a stored ordinal gives the same key as a lookup by value |
| `CandidateModel.ExperienceEnumConsecutive` | app/models/candidate.rb:7-16 | the experience enum numbers its labels 0, 1, 2, … in order |
| `CandidateModel.FunctionEnumConsecutive` | app/models/candidate.rb:18-45 | the function enum numbers its labels 0, 1, 2, … in order |
| `CandidateModel.EducationEnumConsecutive` | app/models/candidate.rb:47-55 | the education enum numbers its labels 0, 1, 2, … in order |
| `CandidateModel.ExperienceLabel` | app/models/candidate.rb:120-133 | a label exists exactly for the ordinals 0..7 |
| `CandidateModel.ExperienceLabelMatchesEnum` | app/models/candidate.rb:120-133 | the `experience_label` CASE gives exactly the key of the `experience` enum for every ordinal |
| `CandidateModel.FreshIsOrdinalZero` | app/models/candidate.rb:173-175 | `fresh_experience?` holds exactly when the stored experience is 0 |
| `CandidateModel.Coordinates` | app/models/candidate.rb:101-103 | `[lat, lng]` exactly when both are present, with those values; nil otherwise |
| `Strings.NormalizedEmail` | app/models/candidate.rb:150-152 | the result has no upper-case letter and no surrounding whitespace; the same normalisation is what Devise applies to a user's email |
| `Strings.NormalizedEmailIdempotent` | app/models/candidate.rb:150-152 | normalising twice is the same as normalising once |
| `CandidateModel.BlankErrors` | app/models/candidate.rb:82 | no error exactly when every listed attribute is present; each blank one gets a "can't be blank" error, and every error is such an error on a listed blank attribute |
| `CandidateModel.PresenceErrors` | app/models/candidate.rb:82 | the same, both directions, for the thirteen always-required attributes |
| `CandidateModel.EmailErrors` | app/models/candidate.rb:83-84 | the format error exactly when the email does not match, and the "already used" error exactly when it is taken |
| `CandidateModel.PhotoErrors` | app/models/candidate.rb:89 | the photo error alone exactly when no photo is attached |
| `CandidateModel.ResumeErrors` | app/models/candidate.rb:177-186 | no error exactly when one resume slot is filled; otherwise one error, "both" when the resume is attached and "neither" when it is not |
| `CandidateModel.IndustryErrors` | app/models/candidate.rb:163-171 | one error per tag outside `INDUSTRIES`, in order, and none for an empty list |
| `CandidateModel.Message` | app/models/candidate.rb:168 | an industry error's message starts with the rejected tag |
| `CandidateModel.IndustryMessagesDistinct` | app/models/candidate.rb:168 | two different rejected tags never render the same message |
| `CandidateModel.ConditionalErrors` | app/models/candidate.rb:85-87 | employed ⇒ salary and employer required; "Fresh" ⇒ function and expected salary required; no error exactly when those hold; every error is a "can't be blank" on one of those four blank attributes whose guard holds |
| `CandidateModel.InvalidIndustryErrors` | app/models/candidate.rb:166-170 | at most one error per tag |
| `CandidateModel.InvalidIndustryErrorsAreFilter` | app/models/candidate.rb:166-170 | the errors are exactly one `InvalidIndustry(t)` for each tag t outside `INDUSTRIES`, repeats included, in the order of the tags |
| `CandidateModel.InvalidIndustryErrorsExact` | app/models/candidate.rb:163-171 | no error exactly when every tag is in `INDUSTRIES`; an error names a tag exactly when that tag is not in the list; every error is an industry error |
| `CandidateModel.ErrorsEmptyIffValid` | app/models/candidate.rb:82-91 | the error list `Errors` (every validation, in declaration order) is empty exactly when the record satisfies `Valid`, the rules stated one by one |
| `CandidateModel.AttachmentRules` | app/models/candidate.rb:177-186 | both resumes, or neither, is an error; a missing photo is an error |
| `CandidateModel.ConditionalPresence` | app/models/candidate.rb:85-87 | each conditional blank field shows up among the record's errors |
| `CandidateModel.EmptyIndustriesCaughtByPresence` | app/models/candidate.rb:163-164 | an empty industries list yields no industry error, but a "can't be blank" error on industries |
| `CandidateModel.CandidateForm.NormalizeEmail` | app/models/candidate.rb:150-152 | only the email changes, to its normalised form |
| `CandidateModel.CandidateForm.ValidatePresence` | app/models/candidate.rb:82 | appends exactly the presence errors |
| `CandidateModel.CandidateForm.ValidateEmail` | app/models/candidate.rb:83-84 | appends exactly the format and uniqueness errors |
| `CandidateModel.CandidateForm.ValidateConditionalPresence` | app/models/candidate.rb:85-87 | appends exactly the conditional errors |
| `CandidateModel.CandidateForm.ValidatePhoto` | app/models/candidate.rb:89 | appends the photo error exactly when no photo is attached |
| `CandidateModel.CandidateForm.ValidateResumeAttachment` | app/models/candidate.rb:177-186 | appends exactly the resume errors |
| `CandidateModel.CandidateForm.ValidateIndustries` | app/models/candidate.rb:163-171 | the loop appends one error per unknown tag, in order, and nothing for an empty list |
| `CandidateModel.CandidateForm.Validate` | app/models/candidate.rb:82-93 | normalises the email first; the errors are then exactly `Errors`, and the answer is true exactly when the record is valid |
| `SqlLike.PercentMatchesAll` | app/controllers/candidates_controller.rb:124 | the pattern `%` matches every string |
| `SqlLike.LeadingPercent` | app/controllers/candidates_controller.rb:124 | a leading `%` matches exactly when the rest matches some suffix |
| `CandidatesController.FilterConditions` | app/controllers/candidates_controller.rb:109-120 | a key is in the map exactly when its parameter is present, and it maps to that parameter |
| `CandidatesController.ConditionsMatchParams` | app/controllers/candidates_controller.rb:102 | a candidate satisfies the condition map exactly when it equals every present parameter |
| `CandidatesController.EscapeRoundTrip` | app/controllers/candidates_controller.rb:140-143 | un-escaping the escaped string gives back the original |
| `CandidatesController.EscapeShape` | app/controllers/candidates_controller.rb:142 | escaping adds exactly one character per `\`, `%` or `_` |
| `CandidatesController.Escape` | app/controllers/candidates_controller.rb:142 | the escaped string is never shorter than the input |
| `CandidatesController.SanitizeSqlLike` | app/controllers/candidates_controller.rb:140-143 | blank input gives ""; otherwise the result un-escapes to the input |
| `CandidatesController.SanitizedContains` | app/controllers/candidates_controller.rb:140-143 | `ILIKE '%' + sanitize(p) + '%'` matches exactly when p occurs in s, ignoring case |
| `CandidatesController.UnderscoreMatchesAnyCity` | app/controllers/candidates_controller.rb:127-129 | with the raw parameter "_", a Lahore candidate passes the city filter although "Lahore" does not contain "_" |
| `CandidatesController.TextSearchAsWritten` | app/controllers/candidates_controller.rb:122-132 | as written: a candidate is kept exactly when its institute and city match the raw `%param%` patterns |
| `CandidatesController.ApplyTextSearchFilters` | app/controllers/candidates_controller.rb:122-132 | the result is the input restricted to the candidates whose institute and city contain the present parameters, ignoring case: same order, each kept candidate as often as in the input |
| `CandidatesController.IndustryFilter` | app/controllers/candidates_controller.rb:134-138 | the input restricted, in order and with multiplicity, to the candidates that share an industry with the parameter; all of it when the parameter is absent |
| `CandidatesController.NewestFirst` | app/controllers/candidates_controller.rb:99 | a permutation of all candidates, ordered by non-increasing `created_at` |
| `CandidatesController.FilteredCandidates` | app/controllers/candidates_controller.rb:98-107 | the newest-first order of the table restricted to the candidates that pass the exact-match, the corrected (sanitised) text and the industry filters; as a multiset it is exactly the selected rows of the table, so no candidate is repeated or lost |
| `CandidatesController.Search` | app/controllers/candidates_controller.rb:10-15 | newest first; a candidate is listed exactly when it is selected and, with a term, matches the stripped term (`MatchesSearch`); with a term no candidate appears twice; without one the result is, as a multiset, exactly the selected rows |
| `CandidatesController.ExportRowColumns` | app/controllers/candidates_controller.rb:17-19 | an export row never holds id, created_at, updated_at, longitude or latitude, and holds every other column with the model's value for it |
| `CandidatesController.Cells` | app/controllers/candidates_controller.rb:17-19 | one value per column of `Candidate.column_names` |
| `CandidatesController.ExportRow` | app/controllers/candidates_controller.rb:17-19 | every column of an export row is a table column that is not excluded |
| `CandidatesController.Index` | app/controllers/candidates_controller.rb:8-35 | the CSV rows exactly when `export` downcases to "true" and there is no term, and a server error when there is one; a search result has no duplicates; the listing is exactly the selected candidates matching the stripped term (`MatchesSearch`: a case-insensitive substring of one of the eight fields), newest first, and without a term it is the selected rows with their multiplicity; the CSV rows are the export rows of such a newest-first listing, which as a multiset is exactly the selected rows, and hold no excluded column |
| `CandidatesController.ValidateEmailAsWritten` | app/controllers/candidates_controller.rb:60-79 | blank is rejected first, then an undeliverable address, then a stripped string already stored; otherwise available |
| `CandidatesController.ValidateEmail` | app/controllers/candidates_controller.rb:60-79 | the same order of checks, with the existence check on the normalised email |
| `CandidatesController.AsWrittenMissesUppercaseDuplicate` | app/controllers/candidates_controller.rb:74 | when only the normalised form is stored, the as-written check says available, while the corrected one and the model's uniqueness validation both reject it |
| `Strings.UppercaseEmailNormalized` | app/models/candidate.rb:150-152 | "A@x.io" is stored as "a@x.io", so it differs from the stripped parameter |
| `CandidatesController.AvailableEmailIsUnique` | app/controllers/candidates_controller.rb:73-76 | an email the corrected check reports available does not trip the uniqueness validation on save |
| `Accounts.EmptyValid` | app/models/invitation.rb:7-8 | empty tables satisfy the table invariant |
| `Accounts.GenerateToken` | app/models/invitation.rb:31-33 | keeps an existing token; otherwise takes the random one |
| `Accounts.GenerateTokenKeepsToken` | app/models/invitation.rb:31-33 | generating again never replaces a token once set |
| `Accounts.ExpireStep` | app/models/invitation.rb:16-27 | nothing changes unless the invitation is pending and past `expires_at`; then it becomes expired, and its user is removed only when it exists with a pending invite status |
| `Accounts.ExpireIdempotent` | app/models/invitation.rb:16-27 | checking again at the same time changes nothing; once expired, no later check changes anything |
| `Accounts.ExpirePreservesValid` | app/models/invitation.rb:16-27 | expiry keeps keys, token presence, email uniqueness and "a pending invitation has its user" |
| `Accounts.CreateStepAsWritten` | app/controllers/invitations_controller.rb:4-29 | as written: an email typed exactly as an existing user's is refused with nothing changed; otherwise both records are saved or neither is, the user under the Devise-normalised email and the invitation under the email as typed |
| `Accounts.MixedCaseInvitationOrphansUser` | app/controllers/invitations_controller.rb:12-24 | inviting "A@x.io" into empty tables succeeds but breaks the table invariant; registration then faults, and a later expiry check leaves the placeholder user behind |
| `Accounts.MixedCaseInvitationCreated` | app/controllers/invitations_controller.rb:12-24 | inviting "A@x.io" stores the user as "a@x.io" and the invitation as "A@x.io" |
| `Accounts.CreateStep` | app/controllers/invitations_controller.rb:4-29 | corrected: the email is normalised before the existence check, the user and the invitation; an existing user's email is refused with nothing changed; otherwise both records are saved (a pending user and a pending invitation expiring a day later) or neither is |
| `Accounts.CreateAgreesOnNormalizedEmail` | app/controllers/invitations_controller.rb:4-29 | for an email already in normalised form the corrected and the as-written create give the same tables and response |
| `Accounts.CreatePreservesValid` | app/models/invitation.rb:6-8 | the corrected creation keeps the table invariant, "a pending invitation has its user" included |
| `Accounts.ExpiredEmailCannotBeReinvited` | app/models/invitation.rb:7 | an email whose invitation has expired cannot be invited again in any spelling that normalises to it, and the refusal changes nothing |
| `Accounts.AcceptStep` | app/controllers/invitations_controller.rb:31-41 | unknown token: not found; otherwise expiry is applied and the redirect goes to the front end exactly when the invitation is still pending, else "Invalid or expired invitation" |
| `Accounts.AcceptRedirectsOnlyLiveInvitations` | app/controllers/invitations_controller.rb:31-41 | a redirect happens exactly when the invitation is pending and not yet past `expires_at` |
| `Accounts.AcceptPreservesValid` | app/controllers/invitations_controller.rb:31-41 | accepting keeps the table invariant |
| `Accounts.RegisterStep` | app/controllers/invitations_controller.rb:43-60 | success exactly when the invitation is still pending after expiry, its user exists and the password is accepted; the user then takes the names, contact and password and becomes accepted, and the invitation becomes accepted; a rejected reset on a pending invitation whose user exists answers the reset's error sentence; any other outcome changes nothing beyond expiry |
| `Accounts.NonPendingInvitationChangesNothing` | app/controllers/invitations_controller.rb:57-58 | an invitation that is no longer pending yields "Invalid or expired invitation", and both actions change nothing |
| `Accounts.RegisterNeverFaults` | app/controllers/invitations_controller.rb:47-48 | when the tables are valid, the invited user always exists, so registration never raises; tables built by the corrected create stay valid, while the as-written create can break this (`MixedCaseInvitationOrphansUser`) |
| `Accounts.RejectedPasswordKeepsInvitationPending` | app/controllers/invitations_controller.rb:50-56 | a rejected password reset leaves the invitation pending |
| `Accounts.RegisterPreservesValid` | app/controllers/invitations_controller.rb:43-60 | registration keeps the table invariant |
| `Accounts.DeactivateStep` | app/controllers/dashboard_controller.rb:96-100 | unknown admin: not found; otherwise only that user changes, to inactive and "deactivated" |
| `Accounts.ActivateStep` | app/controllers/dashboard_controller.rb:102-110 | refused with nothing changed while the invite is pending; otherwise only that user changes, to active and "accepted" |
| `Accounts.DeactivateThenActivateSkipsRegistration` | app/controllers/dashboard_controller.rb:96-110 | deactivating and then activating a still-pending admin marks it accepted and active while its invitation stays pending |
| `Accounts.DeleteStep` | app/controllers/dashboard_controller.rb:112-120 | the user is removed along with every invitation sent to that email; all other records stay as they were |
| `Accounts.DeleteRemovesAtMostOneInvitation` | app/controllers/dashboard_controller.rb:112-116 | in valid tables, of any two invitations at least one survives the delete |
| `Accounts.ActivatePreservesValid` | app/controllers/dashboard_controller.rb:102-110 | activation keeps the table invariant |
| `Accounts.DeactivatePreservesValid` | app/controllers/dashboard_controller.rb:96-100 | deactivation keeps the table invariant |
| `Accounts.DeletePreservesValid` | app/controllers/dashboard_controller.rb:112-120 | deletion keeps the table invariant |
| `Accounts.DeactivatedCannotSignIn` | app/controllers/users/sessions_controller.rb:11-13 | a deactivated admin cannot sign in, and can again once re-activated |
| `Accounts.Store.CheckExpiration` | app/models/invitation.rb:16-27 | the tables become `ExpireStep` of the old ones |
| `Accounts.Store.Create` | app/controllers/invitations_controller.rb:4-29 | the tables and response are those of the corrected `CreateStep`; the user write is rolled back when the invitation is invalid |
| `Accounts.Store.Accept` | app/controllers/invitations_controller.rb:31-41 | the tables and response are `AcceptStep`'s |
| `Accounts.Store.RegisterInvitedUser` | app/controllers/invitations_controller.rb:43-60 | the tables and response are `RegisterStep`'s |
| `Accounts.Store.ActivateAdmin` | app/controllers/dashboard_controller.rb:102-110 | the tables and response are `ActivateStep`'s |
| `Accounts.Store.DeactivateAdmin` | app/controllers/dashboard_controller.rb:96-100 | the tables and response are `DeactivateStep`'s |
| `Accounts.Store.DeleteAdmin` | app/controllers/dashboard_controller.rb:112-120 | the tables and response are `DeleteStep`'s |

Candidates outside every birth-year range get NULL from the CASE and are grouped under a nil key, which `NullGenerationKept` states.

With a search term, `index` adds `distinct` to a query ordered by `created_at`, and the export then selects every column except `created_at`. PostgreSQL refuses a `SELECT DISTINCT` whose ORDER BY expression is not in the select list, so the export of a search ends in the 500 envelope. `CandidatesController.Index` returns `ExportRejected` in that case.

## Left out

- Rounding: `.to_f` and `.round(2)` in the percentage, trend and ratio code are left out. Values are exact reals, so the ensures state the formulas and zero guards, not two-decimal rounding.
- Time is an integer count of seconds in UTC:
  - `DateTime.parse` and its "Invalid date format" error are left out; dates arrive already parsed.
  - `beginning_of_day` and `end_of_day` are whole days of 86400 seconds.
  - The `10.years.ago` fallback of the previous period is left out. It only applies when there are no candidates, and then the previous period is empty anyway.
- Memoisation in instance variables (`@filtered_candidates ||= …`) does not change any value, so it is not modelled.
- The `ransack` sort parameter, `pagy` pagination and `admins_list` are left out. The listing is the whole filtered result.
- The multi-field `_cont` search is case-insensitive substring containment of the stripped term over the eight fields. Ransack's own escaping of the term is not modelled.
- `ILike` does not model a pattern that ends in a lone backslash. PostgreSQL rejects such a pattern with an error.
- Case folding covers ASCII letters only; Unicode case rules are left out. `strip` removes NUL, tab, line feed, vertical tab, form feed, carriage return and space.
- The email format is a scanner for `URI::MailTo::EMAIL_REGEXP`. Devise's own email regexp is not modelled; its lower-casing and stripping of a user's email is `NormalizedEmail`. The Devise configuration is taken to be its defaults (`case_insensitive_keys` and `strip_whitespace_keys` both `[:email]`); `config/initializers/devise.rb` is not part of this model.
- `where` with an unknown enum label: the behaviour of Rails on such a label is not modelled. The model's exact-match conditions compare the parameter with the stored value's label, so nothing matches.
- The `education_text` ransacker is not modelled. Its SQL has no `CASE` keyword, so it is not a valid expression.
- `CandidatesController.Cells` and `CandidatesController.ExportRow` export the model's record, not the database row: `dob` is kept only as its birth year, so the export shows the year where `as_json` gives the date, and a nil text column is held as "", so the export shows `Text("")` where `as_json` gives `null`.
- Attachments are booleans, one per slot. Active Storage, `url_for`, and the counting of attachment rows by SQL join are left out.
- External calls are left out:
  - geocoding, since latitude and longitude are given fields
  - the MX-record check of ValidEmail2, which is the `deliverable` parameter of `ValidateEmail`
  - `SecureRandom`, since the token and temporary password are parameters
  - the invitation and confirmation mails
- Accounts:
  - Devise's password handling is the `PasswordReset` outcome parameter. JWT sessions are reduced to `CanSignIn`.
  - Admins are addressed by email, not by database id. Emails are unique among users, so `User.find(id)` is a lookup by email.
  - The response envelopes, rendering and the exception handler's messages are the `Response` datatype. A failed validation is `Unprocessable`, without its message.
  - The migrations shown do not create `invitations.expires_at`. The model gives every invitation an `expiresAt`, as the model and controller code use it.
- `Accounts.DeleteStep`: `find_by(email:)` destroys one invitation; the model removes every invitation with that email. Under the table invariant that is at most one (`DeleteRemovesAtMostOneInvitation`).
- `Accounts.RegisterStep` does not model the password check itself or a user `update!` that fails validation. User validations are email-only, and the names and contact are not validated.
- `CandidatesController.FilteredCandidates` and `CandidatesController.Index` use the corrected text filter `ApplyTextSearchFilters`, which escapes `%`, `_` and `\` in the institute and city parameters. The program puts them into the pattern raw (`TextSearchAsWritten`), so for a parameter holding `%` or `_` it keeps more candidates than these two members.
- `Accounts.CreateStep` and `Accounts.Store.Create` model the corrected `create`, which normalises the invitation's email as Devise normalises the user's. The program as written is `CreateStepAsWritten`: for an email with an upper-case letter it stores an invitation whose `invited_user` does not exist, so `CreatePreservesValid` and `RegisterNeverFaults` hold only for the corrected create.

## Findings

| source | as written | input that shows it | evidently intended | confidence | as-written member | corrected member |
|---|---|---|---|---|---|---|
| app/controllers/candidates_controller.rb:122-132 | the institute and city parameters go into the `ILIKE` pattern raw, although `sanitize_sql_like` is defined right below, so `_` and `%` act as wildcards | `city=_` keeps a candidate from "Lahore" | a case-insensitive substring search for the literal parameter | medium, not executed | `CandidatesController.UnderscoreMatchesAnyCity` | `CandidatesController.ApplyTextSearchFilters` |
| app/controllers/candidates_controller.rb:61-76 | `validate_email` looks up the stripped but not downcased email, while stored emails are normalised to lower case | `A@x.io` when `a@x.io` has applied: reported available, but the application is then refused on save | the same normalisation as `normalize_email` before the lookup | high, not executed | `CandidatesController.AsWrittenMissesUppercaseDuplicate` | `CandidatesController.ValidateEmail` |
| app/controllers/invitations_controller.rb:5-24 | the invitation keeps the email as typed, while Devise lower-cases and strips the placeholder user's email before saving it, and `invited_user` matches the emails exactly | inviting `A@x.io`: the user is stored as `a@x.io`, registration calls `reset_password` on nil (500), and the expiry check never removes the placeholder | the invitation stores the email in the same normalised form as the user | medium, not executed | `Accounts.MixedCaseInvitationOrphansUser` | `Accounts.CreateStep` |
