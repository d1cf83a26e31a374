# authrs: a verified model of its core

authrs is a multi-tenant authentication and authorization service. PostgreSQL, Redis and Cedar are
foreign to it; what it adds are rules on top of them. This project models those rules in Dafny and
proves what they guarantee. `dafny verify dfyconfig.toml` checks everything.

| component | modules | main results |
|---|---|---|
| RSQL queries | `Rsql`, `RsqlLanguage`, `RsqlPrinter`, `Sql`, `SqlTokens`, `SqlText`, `Filter`, `FilterMeaning`, `ListQueries`, `OrderBy`, `Like` | the parser accepts exactly the texts of a language put together from pieces, with their trees, and parser and printer undo each other; the WHERE text, read as SQL character by character, selects exactly the tenant's rows that satisfy the filter |
| Login and second factors | `Mfa`, `MfaVerify`, `MfaInterleaving`, `MfaAlone`, `MfaManage`, `MfaRedemption`, `MfaConfirm`, `MfaAttempts`, `MfaRace`, `Auth`, `Lockout`, `LoginTrace`, `ForcedChange`, `Guessing`, `Oauth` | a first factor, one challenge and one second factor behind every MFA session, under every interleaving of SQL statements; every code accepted in it is the secret's or a stored one; the exact attempt cap; for how long a changed password is the password; replay and lockout rates and the entry points under which the latter holds; account linking over whole runs |
| Roles | `RoleNames`, `RoleUids`, `Roles`, `RoleChanges`, `RoleRace`, `EffectiveRoles` | the role table is always a forest, what a new role inherits, and how far requests may interleave; the recursive queries are least fixpoints; what a session carries |
| Policies | `Resource`, `Sorting`, `Schema`, `Policy`, `PolicyIds`, `Authorization`, `Packages`, `ActionNames` | the decision taken on compiled Cedar policies is the direct reading of the documents; which documents compile and which schema is in use; the action listing |
| Interchangeable stores | `Sessions`, `RateLimit` | when the two session stores, and the two rate limiters, give the same answers |

`Prelude` holds `Option`, `Result` and a few facts about sequences.

## How the model is built

- Code that moves a cursor or updates tables is a class with methods (`Rsql.Parser`,
  `Filter.Builder`, `Roles.RolesRepo`, the stores, the services), each proved equal to a function of
  the old state; the theorems are then about those functions, over all inputs and all runs.
- `Sql` is a reader of WHERE texts that knows nothing of the builder: it lexes characters, gives AND
  precedence over OR, takes `BETWEEN x AND y` as one predicate and evaluates in three-valued logic.
  `Resource.Glob`, `Like.Match`, `Policy.Satisfied` and `Authorization.Covers` play the same
  independent part elsewhere.
- Login is modelled twice. In `MfaInterleaving` every SQL statement is an atomic step and requests
  interleave freely, with arbitrary clocks and choices. In `Auth` a request is one step, which is
  what the lockout bound needs. A request whose statements run with nothing between them is that one
  step (`MfaAlone`). The attempt check and its increment are separate statements
  (`src/services/auth.rs:332` and `:344`), so the cap of a challenge is stated in both.
- Clocks, random tokens, new ids, HMAC, hashes, Argon2 verdicts, value casts and the order of query
  results are parameters. The facts used about random values are that tokens and new row ids do not
  repeat.

## What holds only under a condition

- A group with no children makes the builder write `()`, which is not SQL. The glued text reads back
  exactly when no group is empty (`ListQueries.GluedReads`), and the parser never makes such a group
  (`ListQueries.UserListEndToEnd`).
- `=contains=`, `=starts=` and `=ends=` do not escape `%`, `_` and backslash: the patterns mean
  substring, prefix and suffix if and only if the text has none of the three (`Like.ContainsExact`,
  `Like.StartsExact`, `Like.EndsExact`).
- The session stores agree on runs whose times to live, per user, stay within 86400 seconds of each
  other, and for two given times to live only then (`Sessions.DayIsExact`).
- The rate limiters give the same answers on a run with a non-decreasing clock if and only if no call
  with limit 0 opens a window (`RateLimit.SameAnswersIff`): the in-memory one always allows the first
  call of a window.
- The generated schema parses if and only if no table is named by underscores alone
  (`Schema.ParsesIff`): such a table's `get` action would be declared twice with different types. A
  rebuild that does not parse leaves the old schema in use, which then differs from the stored
  registry (`Schema.InUseIsCurrentIff`); decisions follow the schema in use (`Authorization.Check`).
- A document compiles if and only if every statement that emits anything has one principal and no
  text `sid-action-resource` occurs twice (`PolicyIds.CompilesIff`): policy ids omit the principal.
- The comment at `src/services/auth.rs:316-319` says that wrong codes count toward the lockout so that
  repeating the first factor gains nothing. The code clears the counter when a password login or an
  identity login succeeds (`src/services/auth.rs:379`, `:1021`). Over all runs of wrong codes the
  lockout rate holds if and only if neither of these two entry points is used
  (`Guessing.RateHoldsIff`); with either, any number of wrong codes is checked at one moment without
  a lock (`Guessing.AnyNumberOfCodes`).
- The cap of five attempts holds in every interleaving if and only if at most one request is between
  the check and the count of a challenge; with m such requests it is 4 + m (`MfaRace.CapHoldsIff`).
- `force_change_password` re-checks the access expiry only. Sessions with closed gates come from it
  alone, exactly for inactive or locked accounts (`LoginTrace.ClosedGatesIff`), as in
  `LoginTrace.InactiveMemberEnters`.
- `confirm_enrollment` ignores the answer of `mark_step_used`, so section 5.2 of RFC 6238 is kept for
  the codes `verify` accepts, but not by confirmations: a used step confirms if and only if the
  ignored answer is negative (`MfaConfirm.ConfirmsUsedIff`), as in the run of two confirmations that
  both read the row before either marks it (`MfaConfirm.UsedCodeConfirms`).
- `set_parent` checks for a cycle and updates in two statements. The roles stay a forest in every
  interleaving if and only if at most one `set_parent` is between the two
  (`RoleRace.StaysForestIff`).
- The comment at `src/services/packages.rs:92-101` promises a table's own actions at table scope, and
  the table's path for every CRUD action. The code lists everything registered for the package: the
  list at a table holds its own actions only if and only if nothing else is registered for the
  package (`Packages.TableScopeIff`), and another table's CRUD action comes with the package path
  (`Packages.OtherTableListed`).
- One document that does not compile makes the loading of every set with it fail; documents with
  UUIDs for ids load if and only if each compiles (`Authorization.LoadsIff`).

## Model

| member | source | states |
|---|---|---|
| Rsql.ParseRsql | src/query/rsql.rs:82-98 | the cursor parser ends on every input with the value of the recursive grammar, error cases and positions included, and only ever returns a well-formed tree; which texts those are is `RsqlLanguage.ParseIff` |
| RsqlLanguage.ParseIff | src/query/rsql.rs:82-98 | for every input and tree: parsing answers with the tree if and only if the input without surrounding white space is a text of it, built by concatenation from names, operator spellings, bare and quoted values, lists, `true`/`false` in any case, and parentheses, needed or not |
| RsqlLanguage.RefusedIff | src/query/rsql.rs:82-98 | every other input is refused: parsing fails if and only if the input is no text of any tree |
| RsqlLanguage.WhiteIs | src/query/rsql.rs:83-83 | the white space dropped around a query is the 25 characters of Unicode's |
| Rsql.Parser.ParseOr | src/query/rsql.rs:160-173 | outcome and new cursor are those of the grammar rule for a comma-separated disjunction; a single member is not wrapped |
| Rsql.Parser.ParseAnd | src/query/rsql.rs:175-188 | outcome and new cursor are those of the rule for a semicolon-separated conjunction |
| Rsql.Parser.ParseAtom | src/query/rsql.rs:190-202 | outcome and new cursor of a parenthesised expression or a leaf |
| Rsql.Parser.ParseLeaf | src/query/rsql.rs:204-229 | outcome and new cursor of field, operator and values, with `=null=` turned into its boolean |
| Rsql.Parser.ParseSelector | src/query/rsql.rs:231-245 | takes the longest run of identifier characters, and fails on none |
| Rsql.Parser.ParseOperator | src/query/rsql.rs:247-303 | outcome and new cursor of the three operator spellings, with the unterminated and unknown cases |
| Rsql.Parser.ParseArguments | src/query/rsql.rs:305-334 | one value, or a parenthesised list with at least one |
| Rsql.Parser.ParseValue | src/query/rsql.rs:336-371 | a quoted value up to the next quote, or a bare one up to a reserved character |
| Rsql.Value | src/query/rsql.rs:336-371 | a value read is quote-free, or starts with no quote and holds no reserved character |
| Rsql.LeafAt | src/query/rsql.rs:204-229 | a leaf read has an identifier field and as many values as its operator takes |
| Rsql.OrAt | src/query/rsql.rs:160-173 | an expression read is well formed and reading moves forward |
| RsqlPrinter.PrintThenParse | src/query/rsql.rs:82-98 | every well-formed tree, printed with the fewest inner parentheses, parses back to itself |
| RsqlPrinter.RangeIsWellFormed | src/query/rsql.rs:153-371 | the trees the parser can return are exactly the well-formed ones |
| RsqlPrinter.OperatorReads | src/query/rsql.rs:38-59 | the display form of every operator is read as that operator |
| Filter.Build | src/query/filter.rs:275-319 | the stateful builder returns the WHERE text, parameters and ORDER BY text of the specification, or its first error |
| Filter.Builder.Ph | src/query/filter.rs:143-151 | writes the next placeholder and pushes exactly that value |
| Filter.Builder.BuildLeaf | src/query/filter.rs:169-264 | text, pushed parameters and errors of one leaf, for every operator and field type |
| Filter.Builder.BuildNode | src/query/filter.rs:153-167 | text and pushed parameters of a tree, numbered from where the builder stood |
| Filter.BuildOrder | src/query/filter.rs:290-310 | the loop over sort fields stops at the first unknown or sensitive one, else maps each to its column and direction |
| FilterMeaning.BuildAccepts | src/query/filter.rs:60-121 | `build` succeeds if and only if every leaf names a known non-sensitive field with a valid operator and value count and every sort field is known and non-sensitive; the parameters are the tree's values in reading order |
| FilterMeaning.EmitAccepts | src/query/filter.rs:153-264 | the same for a subtree at any starting number |
| FilterMeaning.SortAccepts | src/query/filter.rs:290-310 | sorting is accepted exactly for known non-sensitive fields |
| FilterMeaning.OperatorsOfTypes | src/query/filter.rs:74-121 | null tests and equality take every type, membership all but booleans, order and ranges numbers and times, text patterns text alone |
| FilterMeaning.CastsOfTypes | src/query/filter.rs:33-44 | a parameter is cast to its column's type, except text and the patterns of text operators |
| OrderBy.OrderReads | src/query/filter.rs:292-312 | the ORDER BY text, read back as SQL, names for each sort key in order the column of the first field of that name and the direction asked for, and never a sensitive field's |
| FilterMeaning.NodeRefs | src/query/filter.rs:142-264 | the placeholders in the condition are start, start+1, … in reading order, each once, as many as the parameters; every column in it is a non-sensitive one |
| FilterMeaning.NodeLex | src/query/filter.rs:153-264 | lexed character by character, the text of an accepted tree is the fully parenthesised token text of its condition |
| FilterMeaning.LeafMeans | src/query/filter.rs:191-264 | a leaf's predicate is true in three-valued logic exactly when the two-valued reading holds; a NULL column fails every test but `=null=true` |
| FilterMeaning.NodeMeans | src/query/filter.rs:153-167 | the condition of a whole tree is true exactly when the plain reading of the tree holds |
| SqlTokens.PrimaryReads | src/query/filter.rs:153-167 | a parenthesised condition without empty groups is read back as itself whatever follows it |
| SqlTokens.PrimaryFails | src/query/filter.rs:153-167 | one with an empty group anywhere is not read at all |
| ListQueries.UserListWhere | src/repo/users.rs:140-158 | the text appended to in place is tenant test, archived test unless asked for, then the filter |
| ListQueries.UserFieldsOk | src/repo/users.rs:17-35 | every column of the user field table is a single SQL word and no keyword |
| ListQueries.SecretsStayOut | src/repo/users.rs:14-35 | no user list is built from a filter that mentions the password hash or the MFA secret anywhere in its tree, nor from a sort by them |
| ListQueries.GluedReads | src/repo/users.rs:140-158 | any scope conjunction glued before a built filter is read as scope AND tree and nothing else, if and only if no group of the tree is empty |
| ListQueries.UserListMeans | src/repo/users.rs:131-171 | over any table of one-word columns, the user list selects a row if and only if the tenant matches, it is not archived (unless asked for) and the filter holds of it |
| ListQueries.UnfilteredListMeans | src/repo/users.rs:131-171 | without a filter it selects exactly the tenant's rows, archived ones only if asked for |
| ListQueries.UserListEndToEnd | src/repo/users.rs:131-171 | from query text to rows: every text that parses and builds gives readable SQL that selects exactly the tenant's rows satisfying the parsed tree |
| ListQueries.GroupListMeans | src/repo/users.rs:173-209 | the same for a group's members, with tenant and group fixed |
| Like.ContainsExact | src/query/filter.rs:222-226 | `%v%` under ILIKE is substring ignoring case if and only if v has no `%`, `_` or backslash |
| Like.StartsExact | src/query/filter.rs:227-231 | `v%` is prefix ignoring case under exactly that condition |
| Like.EndsExact | src/query/filter.rs:232-236 | `%v` is suffix ignoring case under exactly that condition |
| Like.MatchContains | src/query/filter.rs:222-226 | for plain text the general LIKE matcher accepts `%v%` exactly on texts in which v occurs |
| Like.MatchIs | src/query/filter.rs:210-236 | the matcher symbol by symbol: `%` any run, `_` any one character, a backslash quotes the next, anything else itself |
| Like.SpecialTextMisfires | src/query/filter.rs:222-231 | for every text with a metacharacter, a value that matches without containing it |
| Like.SpecialSuffixMisfires | src/query/filter.rs:232-236 | for every text with a metacharacter, a value on which `%v` and suffix differ |
| RoleNames.MakeUid | src/repo/roles.rs:438-456 | the loop with its flag derives, from an ASCII name, a slug: letters and digits in groups separated by single underscores |
| RoleNames.UidsAreSlugs | src/repo/roles.rs:438-456 | the uids ASCII names can get are exactly the slugs, and a slug is its own uid |
| RoleUids.JoinedUid | src/repo/roles.rs:438-456 | the uid of two names with a gap of other characters between them is their uids with one underscore between, or the one that is not empty |
| RoleUids.WordUid | src/repo/roles.rs:438-456 | a name of letters and digits is its own uid, in lower case |
| RoleUids.GapUid | src/repo/roles.rs:438-456 | a name without letters and digits has an empty uid |
| RsqlLanguage.LowerIs | src/repo/roles.rs:439-439 | lower case replaces the 26 capitals and nothing else |
| Roles.RolesRepo.ValidateParent | src/repo/roles.rs:380-432 | the checks in order: parent in the tenant, not itself, child not above the parent |
| Roles.RolesRepo.WalkFinds | src/repo/roles.rs:404-428 | the upward walk ends, and finds the child exactly when it is the parent or above it |
| Roles.RolesRepo.Create | src/repo/roles.rs:154-188 | the new table, with the trimmed name, the uid derived from it and the parent asked for, or the error; nothing changed on error, forest kept |
| Roles.RolesRepo.SetParent | src/repo/roles.rs:191-224 | the new table or the error, nothing changed on error, forest kept |
| Roles.RolesRepo.Delete | src/repo/roles.rs:227-236 | removes the role if it is the tenant's, and its children become roots |
| Roles.RolesRepo.GetRoleAncestors | src/repo/roles.rs:239-267 | the ancestors root first; none for a role of another tenant |
| Roles.SetParentExact | src/repo/roles.rs:191-224 | for existing roles of the tenant, the change is accepted if and only if the result is acyclic |
| Roles.CycleIffAbove | src/repo/roles.rs:404-428 | in an acyclic table a new edge keeps it acyclic exactly when the child is not the parent nor above it |
| Roles.SetParentKeeps | src/repo/roles.rs:191-224 | accepted changes keep a forest inside tenants, and unique uids |
| Roles.DeleteKeeps | migrations/20250101000014_role_hierarchy.up.sql:1-1 | deletion keeps both, and every child of the deleted role is a root afterwards |
| Roles.CreateKeeps | src/repo/roles.rs:154-188 | creation keeps both |
| RoleChanges.CreateIff | src/repo/roles.rs:154-188 | creation is accepted if and only if the name is not blank, no role of the tenant has its uid and a parent given is a role of the tenant; it then adds exactly the row with that tenant, name, uid and parent and leaves every other row |
| RoleChanges.CreateError | src/repo/roles.rs:160-172 | a refusal names the first of these that fails |
| RoleChanges.CreateInherits | src/repo/roles.rs:27-83 | the ancestors of the new role are its parent and the parent's, nobody else's change, and a session holding it carries it and everything the parent carries besides what it carried before |
| RoleChanges.ClosureIs | src/repo/roles.rs:27-83 | what a session carries is the tenant's held roles and their ancestors in it |
| RoleChanges.SetParentIs | src/repo/roles.rs:191-224 | a change of parent writes that one column of that one role, or is refused with the first reason that applies |
| RoleChanges.SetParentInherits | src/repo/roles.rs:191-224 | under its new parent a role has that parent and the parent's ancestors |
| RoleChanges.DeleteIs | src/repo/roles.rs:226-236 | deletion removes the row, clears the parent of its children and leaves every other row; a role of another tenant stays |
| RoleChanges.AncestorsRootFirst | src/repo/roles.rs:239-267 | the list of ancestors starts at a root, each entry is the parent of the next, the last is the role's own parent, and each ancestor appears once |
| Roles.Run | src/repo/roles.rs:154-236 | every table reachable by create, set_parent and delete, one request at a time, is a forest with tenant-internal edges and unique uids |
| Roles.ReachableForest | src/repo/roles.rs:239-267 | in every reachable table every ancestor chain is repeat-free, stays in the tenant and ends at a root |
| Roles.ChainFacts | src/repo/roles.rs:239-267 | the chain of a role lists exactly its ancestors, each the parent of the one before, without repeats |
| RoleRace.StaysForestIff | src/repo/roles.rs:191-224 | with each SQL statement atomic and creates, deletes and set_parents interleaved freely, the table stays a forest if and only if at most one set_parent is between its cycle check and its update |
| RoleRace.BothLinked | src/repo/roles.rs:212-223 | a run from the empty table after which two roles are each other's parent |
| RoleRace.InvAlways | src/repo/roles.rs:154-236 | the invariant with at most one: a forest in which no pending update would close a cycle, and parents checked in a tenant stay in it |
| RoleChanges.InsertIs | src/repo/roles.rs:174-186 | in any interleaving the INSERT adds exactly the row asked for, parent included, unless a key refuses it |
| RoleChanges.InsertInherits | src/repo/roles.rs:174-186 | and while the table is a forest the new role has the parent's ancestors and a session holding it carries what the parent carries |
| RoleChanges.SetParentAlone | src/repo/roles.rs:191-224 | with nothing between them, the four statements of a change of parent do what the whole request does |
| RoleChanges.CreateAlone | src/repo/roles.rs:154-188 | with nothing between them, the three statements of a creation do what the whole request does |
| EffectiveRoles.RoleAncestors | src/repo/roles.rs:301-327 | the iteration of the recursive query ends, on any table, with the least set holding the assigned roles of the tenant and closed under parent |
| EffectiveRoles.LeastIsUnique | src/repo/roles.rs:61-83 | so its result does not depend on evaluation order |
| EffectiveRoles.ClosureIsLeast | src/repo/roles.rs:61-83 | that least set is the set of roles reached by walking up from an assigned role |
| EffectiveRoles.ClosureOfUnion | src/repo/groups.rs:376-438 | closing direct and group assignments separately and uniting them is closing them together |
| EffectiveRoles.DedupChain | src/services/auth.rs:22-25 | the merge lists both inputs' elements once each, first occurrences in order, and starts with a repeat-free first input |
| EffectiveRoles.QueryRoles | src/repo/roles.rs:27-83 | the uid query and the permission query list the roles reached from the held ones, and the permissions attached to them |
| EffectiveRoles.SessionRoles | src/services/auth.rs:404-416 | computed with the recursive queries, whatever order each returns its rows in, a session carries without repeats exactly the uids of the closure of direct and group roles together and exactly the tenant's permissions attached to it |
| RateLimit.InMemoryRateLimit.Check | src/middleware/rate_limit.rs:67-95 | answer and new windows are those of the specification |
| RateLimit.RedisRateLimit.Check | src/middleware/rate_limit.rs:29-45 | answer and live counters are those of an increment that sets the expiry on its first count |
| RateLimit.SameAnswersIff | src/middleware/rate_limit.rs:27-96 | on every sequence of calls with a non-decreasing clock, any keys, limits and windows, both limiters answer alike if and only if no call with limit 0 opens a window, read off the calls |
| RateLimit.SameAnswers | src/middleware/rate_limit.rs:27-96 | in particular whenever all limits are at least 1 |
| RateLimit.ZeroLimitDiffers | src/middleware/rate_limit.rs:74-92 | a first call with limit 0 is answered differently |
| RateLimit.AnswerIff | src/middleware/rate_limit.rs:67-95 | a call that opens a window passes, any other if and only if, with it, the calls for its key since the window opened are at most its limit; it opens one if and only if it comes no earlier than the last window's end |
| RateLimit.FirstCallPasses | src/middleware/rate_limit.rs:67-95 | the first call for a key opens a window and passes |
| RateLimit.WindowBound | src/middleware/rate_limit.rs:67-95 | no window of a key lets more than limit calls through |
| RateLimit.IntervalBound | src/middleware/rate_limit.rs:67-95 | no half-open interval of a window's length lets more than twice the limit through |
| Sessions.RedisSessionStore.SetSession | src/repo/sessions_redis.rs:54-78 | the key with its TTL, the token in the user's set, the set's life reset to TTL plus a day; a zero TTL is refused |
| Sessions.RedisSessionStore.DeleteSession | src/repo/sessions_redis.rs:80-89 | the key goes, the user's set keeps its token; true exactly for a live key |
| Sessions.RedisSessionStore.DeleteAllForUser | src/repo/sessions_redis.rs:91-110 | the loop removes exactly the keys in the user's live set, and the set |
| Sessions.RedisSessionStore.Get | src/repo/sessions_redis.rs:39-52 | the payload of a live key |
| Sessions.PostgresSessionStore.Get | src/repo/sessions.rs:79-93 | the payload of a row neither revoked nor expired |
| Sessions.PostgresSessionStore.SetSession | src/repo/sessions.rs:95-112 | a new unrevoked row |
| Sessions.PostgresSessionStore.RevokeByToken | src/repo/sessions.rs:51-59 | flips exactly that row |
| Sessions.PostgresSessionStore.RevokeAllForUser | src/repo/sessions.rs:61-75 | flips exactly the user's rows of the tenant, and counts them all, revoked before or not |
| Sessions.StoresAgree | src/repo/sessions_redis.rs:39-110 | on every run with fresh tokens and a user's times to live within a day of each other, `get` answers alike at every later time, for every token |
| Sessions.GetIff | src/repo/sessions.rs:79-120 | after any operations `get` answers with a payload if and only if a set of the token with it was followed by no other set or delete of the token and no delete-all of its user, and it has not expired |
| Sessions.InvAlways | src/repo/sessions_redis.rs:54-78 | every live session key is in a user set that lives at least as long, and live keys are exactly the unrevoked unexpired rows |
| Sessions.DayIsExact | src/repo/sessions_redis.rs:74-76 | for two positive times to live, the stores agree on all runs using them if and only if they differ by at most 86400 seconds |
| Sessions.GapRunDiffers | src/repo/sessions_redis.rs:91-110 | beyond a day, a run of three operations after which a delete-all misses a live session |
| Mfa.MatchingStep | src/services/mfa.rs:60-65 | the earliest step within one of the clock's whose code matches, and none only if none of the three matches |
| Mfa.MfaRepo.MarkStepUsed | src/repo/mfa.rs:71-81 | true, and the marker moved, exactly when the step is above the marker |
| Mfa.MfaRepo.ConsumeBackupCode | src/repo/mfa.rs:110-121 | true exactly when an unused row matches, and then one such row is spent and nothing else changes |
| Mfa.MfaRepo.RedeemChallenge | src/repo/mfa.rs:173-180 | true exactly when the challenge was there, and it is gone afterwards |
| Mfa.MfaRepo.Verify | src/services/mfa.rs:165-183 | accepts if and only if MFA is on and either the code is six digits and the earliest step of the three around the clock's that gives it under the stored secret is above the marker, or it is ten characters whose hash an unused row of the identity holds; the new tables are the specification's |
| Mfa.MfaRepo.ConfirmEnrollment | src/services/mfa.rs:144-161 | on a matching pending code marks the step, whatever the marker says, turns MFA on and replaces the codes |
| Mfa.GatesIff | src/services/auth.rs:272-287 | the gates are open exactly for an active member of an active identity that is not locked and whose access has not ended; closed, they name the first of these that fails |
| Mfa.VerifyIff | src/services/mfa.rs:165-183 | the same acceptance for the row the database picks, as a statement on tables, identity, code and clock alone |
| Mfa.EnrollmentWrites | src/repo/mfa.rs:29-108 | enrollment, confirmation and turning off write the MFA columns of the one identity, and its backup codes become exactly the issued hashes, unused |
| MfaVerify.VerifySpends | src/services/mfa.rs:165-183 | an accepted time code moves the marker to its step, an accepted backup code spends its row, and nothing else changes; a refused code changes nothing |
| MfaVerify.ConfirmIff | src/services/mfa.rs:144-161 | enrollment is confirmed by a step if and only if MFA is off, a secret is pending and this is the earliest step of the three that gives the six-digit code under it |
| MfaVerify.DashDropped | src/services/mfa.rs:25-30 | a dash anywhere in a code makes no difference, so a backup code may be typed as it was shown |
| MfaVerify.AcceptedIsRight | src/services/mfa.rs:165-183 | in every interleaving, each accepted time code is what the stored secret of the row its request loaded gives at that step for the code the request submitted, and each accepted row holds the hash of the submitted code |
| MfaRedemption.SessionsAreExplained | src/services/auth.rs:320-353 | in every interleaving: an MFA session follows the deletion of its challenge and an accepted second factor of its identity, both by its own request; a deleted challenge was issued to that user by another request; an issued challenge follows a first factor passed on a row with MFA on and no forced change; any other session follows a first factor passed on a loaded row with MFA off and no forced change |
| MfaRedemption.TwoFactors | src/services/auth.rs:291-353 | so before every MFA session, in this order: a first factor passed, the challenge issued, the challenge redeemed; the first two by another request than the last, all for one user and one identity |
| MfaRedemption.SessionsAreDistinct | src/repo/mfa.rs:69-121 | two MFA sessions have different requests, different challenges and different second factors |
| MfaRedemption.InvAlways | src/services/auth.rs:291-353 | the invariant on tables, running requests and events behind both, kept by every statement in every order |
| MfaRedemption.RunKeeps | src/services/mfa.rs:144-208 | one statement of any request keeps it |
| MfaRedemption.TotpRate | src/services/mfa.rs:165-183 | between two resets of the marker the steps `verify` accepts strictly increase, and at clock readings in [t1, t2] at most ⌊t2/30⌋ − ⌊t1/30⌋ + 3 are accepted, under any interleaving |
| MfaRedemption.UsedStepsStayUsed | src/services/mfa.rs:165-183 | a step `verify` accepted after another was accepted, or was used to confirm enrollment, is strictly later than it |
| MfaConfirm.MarkRefusesIff | src/repo/mfa.rs:69-81 | in every interleaving `mark_step_used` refuses a step if and only if it or a later one was used, to verify or to confirm, since the last reset of the marker |
| MfaConfirm.ConfirmsUsedIff | src/services/mfa.rs:144-161 | a confirmation takes a used step if and only if the answer it ignores is negative |
| MfaConfirm.UsedCodeConfirms | src/services/mfa.rs:144-161 | a run from the empty database in which one code confirms twice; MFA is on and the backup codes handed out first are replaced |
| MfaInterleaving.EffectIsVerify | src/services/mfa.rs:165-183 | the statement of a `verify` in an interleaving does to the tables what the whole method does |
| MfaAlone.CompleteAlone | src/services/auth.rs:320-353 | with nothing between them, the statements of `complete_mfa_login` leave the tables of the whole request and mint a session exactly when it answers with one |
| MfaAlone.LoginAlone | src/services/auth.rs:461-481 | the same for the logins that end in `finalize_login` |
| MfaAlone.ConfirmAlone | src/services/mfa.rs:144-161 | the same for the confirmation of an enrollment |
| MfaManage.ChangesAreEarned | src/services/mfa.rs:185-208 | in every interleaving: the statement that turns MFA off or replaces backup codes belongs to a request whose own code was accepted for that identity, and the one that turns it on to a request whose code confirmed its enrollment |
| MfaManage.ManageAlone | src/services/mfa.rs:185-208 | with nothing between them, the statements of turning off or replacing codes write if and only if `verify` accepts |
| MfaManage.EnrollAlone | src/services/mfa.rs:115-127 | with nothing between them, the statements of starting an enrollment store the new secret if and only if MFA is off |
| MfaAttempts.AtMostFourMore | src/services/auth.rs:326-346 | in every interleaving with at most m requests between the attempt check and its count, at most 4 + m wrong codes are checked against one challenge |
| MfaAttempts.AttemptsBounded | src/repo/mfa.rs:155-172 | the invariant behind it: the counter plus the attempts not counted yet are the wrong codes, and with those still to be checked stay within 4 + m |
| MfaRace.FourMore | src/services/auth.rs:326-346 | for every m of at least 1 an interleaving from the empty database on, through enrollment and login, that reaches 4 + m with the identity not locked |
| MfaRace.CapHoldsIff | src/services/auth.rs:326-346 | the cap of five holds of all interleavings with at most m requests in flight if and only if m is at most 1 |
| Auth.AuthService.RegisterFailedAttempt | src/services/auth.rs:385-394 | the counter goes up by one, and the lock is set when the loaded counter was at four or more |
| Auth.AuthService.ClearFailedAttempts | src/repo/identities.rs:176-184 | counter zero, lock gone, nothing else |
| Auth.AuthService.FinalizeLogin | src/services/auth.rs:291-314 | forced change before MFA before session; a change token replaces the user's old ones and lives fifteen minutes, a challenge lives five and purges the expired |
| Auth.AuthService.DoPasswordLogin | src/services/auth.rs:355-381 | the whole new state and answer, every refusal included |
| Auth.AuthService.LoginIdentity | src/services/auth.rs:994-1031 | the whole new state and answer of the tenant-less login |
| Auth.AuthService.CompleteMfaLogin | src/services/auth.rs:320-353 | the whole new state and answer of the second step |
| Auth.AuthService.LoginWithVerifiedOtp | src/services/auth.rs:461-481 | the whole new state and answer once the code is verified and the user found |
| Auth.AuthService.SelectTenant | src/services/auth.rs:1078-1096 | refused exactly without a membership of the identity in the tenant; otherwise the whole new state and answer of the shared tail for that membership |
| Auth.AuthService.ForceChangePassword | src/services/auth.rs:829-870 | the whole new state and answer: a live change token, then only the access expiry, then the new password, the token gone; what it stores is `ForcedChange.ChangeStores` |
| Lockout.CounterStep | src/services/auth.rs:272-287 | what any request does to any identity's counter and lock: counted failures come from the three entry points, never while locked, and set the lock from the fifth on; clears come from the same three, never while locked, and empty both; nothing else touches either |
| Lockout.ClearsIff | src/services/auth.rs:351-379 | a request clears the counter if and only if, on the tables before it, it carries the right password with the gates open or completes a second factor |
| Lockout.FailuresSpaced | src/services/auth.rs:385-394 | from a counter at zero, now or when the identity appears, and without a clear, the counter is the number of failures and from the fifth on consecutive ones are at least 15 minutes apart |
| Lockout.LockoutRate | src/services/auth.rs:355-394 | in any run from zero failures, of identities there or yet to be created, in which no request meets the condition for a clear, over all entry points, the n-th failure (n > 5) comes at least 15·(n−5) minutes after the fifth |
| Lockout.FiveAttempts | src/services/auth.rs:326-346 | no run of whole requests checks more than five wrong codes against one challenge |
| Guessing.RateHoldsIff | src/services/auth.rs:316-381 | for any password check that accepts something: the lockout rate holds of all runs of wrong codes if and only if they use neither password logins nor identity logins, the other first factors being free |
| Guessing.RoundGuessed | src/services/auth.rs:340-381 | from any tables in which a member can sign in up to MFA: the first factor again and four wrong codes at one clock reading count four failures, lock nothing and leave the member able to sign in |
| Guessing.AllCodesChecked | src/services/auth.rs:340-381 | so any list of wrong codes is checked at one moment, with a fresh token per four |
| Guessing.AnyNumberOfCodes | src/services/auth.rs:340-381 | for every n, a run with 4n wrong codes at time zero and no lock after any request, through either entry point |
| LoginTrace.SessionIff | src/services/auth.rs:272-381 | a request mints a session for a user if and only if, on the tables before it, it passes the first factor with MFA off and no change due, or completes a live challenge of that user under its cap with the gates open and a code that verifies |
| LoginTrace.ChallengeIff | src/services/auth.rs:291-314 | a challenge is issued if and only if a first factor is passed with MFA on and no change due, under a new token |
| LoginTrace.ChangeIff | src/services/auth.rs:815-827 | a change token is issued if and only if a first factor other than a change is passed with a change due, under a new token |
| LoginTrace.ChallengeEffect | src/repo/mfa.rs:133-153 | a new challenge is the user's, untried, for five minutes; other live challenges stay as they were and expired ones go |
| LoginTrace.ChangeEffect | src/repo/force_change_tokens.rs:17-40 | a new change token is the user's, for fifteen minutes, and replaces that user's others alone |
| LoginTrace.WrongIff | src/services/auth.rs:320-381 | a failure is counted against an identity if and only if a wrong password is tried with the gates open and the method allowed, or a wrong code against a live challenge of a member with open gates |
| LoginTrace.SignedInIff | src/services/auth.rs:994-1031 | the tenant-less login accepts if and only if the identity is active, not locked, and the password is right |
| LoginTrace.TooManyIff | src/services/auth.rs:326-332 | too many attempts is answered exactly for a live challenge with five |
| LoginTrace.RefusedKeeps | src/services/auth.rs:291-381 | a refused request, its new token being unused, changes nothing, except that running out of attempts deletes the challenge |
| LoginTrace.RefusalIs | src/services/auth.rs:272-381 | a refused login names the first reason that applies, in the order member, gates, method, password |
| LoginTrace.OutsideIs | src/repo/identities.rs:104-126 | a new identity starts without failures and lock, managing MFA replaces the identity's backup codes, changing a member writes that member |
| LoginTrace.SecondFactorEffect | src/services/auth.rs:340-353 | of the challenges, a completed second factor deletes its own, a wrong one adds an attempt to it, and neither touches another |
| LoginTrace.ClosedGatesIff | src/services/auth.rs:855-868 | a session is minted with closed gates if and only if by a forced change, for an inactive or locked account |
| LoginTrace.InactiveMemberEnters | src/services/auth.rs:855-868 | a run after which an inactive member of an inactive identity has a session |
| LoginTrace.SessionTrace | src/services/auth.rs:291-381 | over every run from tables with nothing pending: a session not by MFA belongs to a request that passed the first factor, itself or by a change token given to a sign-in of the same member less than 900 seconds before; a session by MFA completes a challenge given less than 300 seconds before to such a request of the same member, with MFA on and no change due |
| LoginTrace.PendingTraced | src/repo/force_change_tokens.rs:17-56 | every challenge and change token pending after a run was issued in it, to that member, with that expiry |
| ForcedChange.ChangeStores | src/repo/identities.rs:128-139 | with a live token, an accepted password and unexpired access, the identity has the new hash and the flag off, the token is gone, and every other column and row is as it was |
| ForcedChange.ChangeAnswers | src/services/auth.rs:861-870 | the answer is then a session, or with MFA on a challenge for five minutes; no other challenge changes but for the expired ones |
| ForcedChange.RefusedChange | src/services/auth.rs:829-860 | in every other case it is refused and nothing changes |
| ForcedChange.ColumnsStep | src/services/auth.rs:320-381 | for every request and identity: password and flag change only by an accepted change, active, MFA flag and secret by no login, and writes from elsewhere set every column but the counter and the lock |
| ForcedChange.NewPasswordRules | src/services/auth.rs:355-381 | over every run: after an accepted change and until another hash is written, an allowed password login with open gates, through any membership, passes the first factor if and only if the new hash accepts what is typed, and is otherwise a counted failure |
| ForcedChange.NewPasswordSignsIn | src/services/auth.rs:994-1031 | likewise at the tenant-less login, for an active identity that is not locked |
| ForcedChange.ChangeTokensOnce | src/repo/force_change_tokens.rs:17-56 | two accepted changes of a run spend different tokens |
| Oauth.OauthService.GetByEmail | src/repo/identities.rs:76-85 | the one identity with that email ignoring case, or none |
| Oauth.SameEmailIff | migrations/20250101000015_create_identities.up.sql:33-46 | two emails count as one if and only if they differ at most in the case of letters |
| Oauth.OauthService.LoginOauth | src/services/auth.rs:486-575 | the whole new state and answer: link first, then verified email, then sign-up |
| Oauth.OauthService.EnterTenant | src/services/auth.rs:560-575 | membership needed or created, status checked, nothing else changed |
| Oauth.RunKeeps | migrations/20250101000015_create_identities.up.sql:33-46 | over every run, emails stay unique ignoring case, links point to identities, and no link or identity email changes |
| Oauth.SameAccountSameIdentity | src/repo/oauth.rs:67-101 | a provider account once resolved resolves to the same identity ever after, whatever email it asserts and whatever happens between |
| Oauth.UnverifiedIsFresh | src/services/auth.rs:514-559 | an unlinked login without a verified email yields a new identity with no email, or a refusal that changes nothing |
| Oauth.VerifiedFindsOwner | src/services/auth.rs:514-559 | with a verified email it yields the owner of that email, an existing one exactly when there is one |
| Oauth.ResolvedIsMember | src/services/auth.rs:560-575 | whoever is let in is active and a member of the tenant; without sign-up no identity and no membership appears |
| Oauth.LoginAcceptedIff | src/services/auth.rs:486-575 | accepted if and only if the domain is allowed and the account is linked to an identity that may enter, or is unlinked and its verified email belongs to one, or is unlinked with sign-up on and its email, verified or not, belongs to nobody |
| Oauth.LoginEffect | src/services/auth.rs:514-575 | an accepted login leaves the account linked to whom it resolved to, that identity a member, and a new identity active with the verified email; nothing else changes |
| Oauth.RefusedEffect | src/services/auth.rs:514-575 | a refused one changes nothing but the link of an account whose verified email has an owner |
| Oauth.OutsideIs | src/repo/identities.rs:104-126 | sign-up elsewhere takes exactly a new id and an email nobody has, and switching an identity on or off writes that one column |
| Resource.LikePattern | src/policy/resource.rs:58-69 | the list it pushes matches a string exactly when the original matches as a glob, for any number and placement of stars |
| Resource.PatternIsGlob | src/policy/compiler.rs:98-109 | the same for the split list, with each star any run, slashes and the empty run included |
| Resource.BuildResourceChain | src/policy/engine.rs:153-188 | for paths free of quotes, backslashes and carriage returns, one entity per segment with the path so far, and as parent the one before where the schema allows it |
| Resource.UidsDistinct | src/policy/resource.rs:44-50 | the uids along a chain are pairwise distinct, for every path |
| Resource.ParentIs | src/policy/resource.rs:15-37 | a package hangs below a service, a table, query or view below a package, a column below a table: an entity's parent is that of the segment before it, if that is of this kind |
| Resource.ChainTexts | src/policy/engine.rs:153-188 | path and id of an entity, split at the slashes, are the segments up to its own, as they are and without their prefixes |
| Resource.LastEntity | src/policy/engine.rs:125-134 | the last entity is the request's resource and its path is the whole path |
| Resource.CanonicalUid | src/policy/resource.rs:15-50 | type and id of a canonical service, package, table, column, query or view path |
| Resource.UidDeterminesPath | src/policy/resource.rs:15-50 | on canonical paths, type and id determine the path |
| Resource.SplitPieces | src/policy/resource.rs:58-69 | splitting gives separator-free pieces that join to the original |
| Resource.SplitJoin | src/policy/resource.rs:44-50 | and joined separator-free pieces split into themselves |
| Schema.SchemaLines | src/policy/schema.rs:67-130 | pushed, sorted by their texts and deduplicated, the lines declare exactly the generated actions, in strictly increasing order of text |
| Schema.LinesKept | src/policy/schema.rs:112-114 | sorting and merging equal lines loses no declaration and adds none, since a line determines its declaration |
| Schema.DeclaredMeans | src/policy/schema.rs:67-110 | which action is declared for which resource type, in terms of tables, custom actions and builtins |
| Schema.ParsesIff | src/policy/schema.rs:67-130 | of the emitted lines no two declare one action if and only if no table's name is underscores only |
| Schema.PascalEmpty | src/policy/schema.rs:36-47 | the name derived from a table is empty exactly for such names |
| ActionNames.NameOfJoined | src/policy/schema.rs:34-47 | the name of two texts with an underscore between is the two names, one after the other |
| ActionNames.NameOfWord | src/policy/schema.rs:34-47 | a text without underscore keeps all but its first letter, and of that a to z become A to Z |
| ActionNames.BomMaterials | src/policy/schema.rs:34-35 | so `bom_materials` is named `BomMaterials` |
| ActionNames.DeclaredNames | src/policy/schema.rs:67-110 | declared are, by name, `get`, `post`, `patch`, `put`, `delete`, `archive` and `unarchive` followed by the name of a registered table, the registered actions but `run`, `get` and `refresh`, `run` for queries, and `get` and `refresh` for views |
| ActionNames.DeriveAction | src/policy/engine.rs:102-113 | from the method in lower case and the last table segment of the path, none if and only if there is none |
| ActionNames.DerivedIsDeclared | src/policy/engine.rs:102-113 | for a registered table and one of five HTTP methods in any case, that action is declared for every resource type |
| Schema.SchemaCell.Rebuild | src/services/packages.rs:68-76 | succeeds if and only if no table's name is underscores only; then the schema is the registry's, else the old one stays |
| Schema.InUseIsCurrentIff | src/services/packages.rs:36-76 | after a start and any number of syncs, the schema in use declares what the stored registry does if and only if that registry has no such table |
| Policy.Compile | src/policy/compiler.rs:11-34 | the four nested loops succeed if and only if all policy ids differ, and then yield every combination in order |
| Policy.DocumentLength | src/policy/compiler.rs:11-34 | that is the sum over statements of principals × actions × resources |
| PolicyIds.CompilesIff | src/policy/compiler.rs:11-34 | a document compiles if and only if every statement that emits anything has one principal and no text sid-action-resource is written twice, inside a statement or in two |
| PolicyIds.TwoPrincipalsNeverCompile | src/policy/compiler.rs:18-21 | a statement with two principals, an action and a resource never compiles |
| Authorization.LoadPolicies | src/services/permissions.rs:29-55 | loading a tenant succeeds if and only if ids differ across all its documents, and then holds exactly their policies |
| Authorization.LoadsIff | src/services/permissions.rs:131-146 | documents whose ids are pairwise different and of one length load if and only if each of them compiles |
| Authorization.OneFailsAll | src/services/permissions.rs:131-146 | with one document that does not compile, such as one with a two-principal statement, no set of documents loads |
| Authorization.Authorize | src/policy/engine.rs:25-100 | for names free of quotes, backslashes and carriage returns, the answer is the decision on schema, policies and the entities built for the request |
| Authorization.DecisionMeans | src/policy/engine.rs:25-100 | that decision is Allow if and only if the action is declared for the resource's type, some Allow statement covers principal, action and resource, and no Deny statement does |
| Authorization.Check | src/routes/admin.rs:804-870 | from registries, documents and request to the answer: none if and only if the service cannot start on its first registry or two policies share an id; else, for names free of quotes, backslashes and carriage returns, allowed if and only if the registry whose schema is in use declares the action for the resource's type, an Allow statement covers the request and no Deny statement does |
| Authorization.PrincipalMeans | src/policy/compiler.rs:70-86 | a compiled principal scope holds exactly of those the written principal names |
| Authorization.ResourceMeans | src/policy/compiler.rs:88-109 | a compiled resource clause with its `like` condition holds exactly of the paths the written resource covers |
| Authorization.PolicyMeans | src/policy/compiler.rs:36-68 | one compiled policy applies exactly when all three parts cover |
| Authorization.StatementMeans | src/policy/compiler.rs:11-34 | some policy of a statement applies exactly when the statement covers the request, and all carry its effect |
| Authorization.DeclaredInRegistry | src/policy/schema.rs:67-110 | the lines of the schema declare what the registry of tables and custom actions declares |
| Authorization.ChainConforms | src/policy/resource.rs:27-37 | every entity chain has distinct uids and only parent edges the schema allows |
| Authorization.ExactCoversItself | src/policy/engine.rs:125-134 | between canonical paths, a resource written without stars covers only itself |
| Packages.ParseResourceScope | src/services/packages.rs:216-227 | the last package segment and the last table segment |
| Sorting.SortByName | src/services/packages.rs:208-208 | sorted by name, and for every name the same entries in the same order as before |
| Sorting.DedupByName | src/services/packages.rs:209-209 | the in-place pass keeps the first of each run of equal names |
| Sorting.DedupSummary | src/services/packages.rs:208-209 | on a sorted list that leaves strictly increasing names, each with the first entry of that name and no name lost |
| Packages.ActionsForResource | src/services/packages.rs:105-212 | query and view resources list their builtins; any other lists each name once, strictly sorted, with the first entry collected for it |
| ActionNames.EndsInIff | src/services/packages.rs:105-135 | a path is a query's or a view's if and only if the text after its last slash starts with that tag |
| Packages.ListingMeans | src/services/packages.rs:105-212 | exactly the in-scope actions are listed; one derived from an in-scope table carries the path of the first such table in registry order, any other the package path of its first registration in scope |
| ActionNames.ListedIff | src/services/packages.rs:105-212 | from the segments of the path: listed are the standard actions of the tables it asks for, their three extensible-fields actions where one is stored, and the actions registered for the packages it asks for |
| ActionNames.PathsAre | src/services/packages.rs:105-212 | and the paths paired with them: the service segment of the asked path, if any, the package, and the table for a table's action |
| Packages.TableScopeIff | src/services/packages.rs:92-102 | at the scope of a registered table the list holds that table's own actions only if and only if every action registered for its package is one of them |
| Packages.OtherTableListed | src/services/packages.rs:92-102 | in every registry with tables a and b of a package and b's `getB` stored, the list at a contains `getB`, a CRUD action, with the package path |
| Packages.FirstTableRow | src/services/packages.rs:152-207 | among the collected entries of a name, the first in-scope table's comes before every other table's and every package's |

## Left out

- `parse_sort` and pagination clamping: short string functions, which would only add easy members.
- Policy conditions (`build_conditions`): their meaning depends on how Cedar's JSON reader treats variable names; all theorems are about documents without conditions.
- Cedar's own schema parser and evaluator: only the declared actions, and permit and forbid with `==`, `in`, `like` and no scope, are evaluated; the one parse failure modelled is an action declared twice, so quotes inside table and action names are not.
- Authorization.Authorize: says nothing about names with quotes, backslashes or carriage returns, whose unescaping is a parameter, and takes the context to be empty.
- Resource.BuildResourceChain: says nothing about paths with quotes, backslashes or carriage returns, for the same reason.
- RoleNames.MakeUid: exact for ASCII names; the letters and digits of other alphabets, which the original keeps, become underscores.
- RoleNames.UidsAreSlugs: about ASCII names, for the same reason.
- RoleUids.JoinedUid: its gaps are of characters other than ASCII letters and digits, for the same reason.
- ActionNames.NameOfWord: the original also raises first letters beyond ASCII, which here stay as they are.
- Case folding and code lengths beyond ASCII: lower-casing, upper-casing and ILIKE fold ASCII letters only, and a TOTP code's length is counted in characters.
- Cryptography and randomness: HMAC, hashing, encryption and Argon2 are parameters; random tokens and new ids that repeat are refused in the model, where the database would refuse them.
- Like.EndsExact: a pattern whose matching reaches a lone trailing backslash is an error in PostgreSQL, here a non-match.
- Like.SpecialSuffixMisfires: for text ending in a lone backslash its witness is a value on which PostgreSQL may report that error.
- Auth.AuthService.SelectTenant: takes the identity as known; the identity token is not modelled.
- Value casts such as `$2::uuid`: total functions of type and text; a cast error in the database is not modelled.
- Interleaving inside the rate limiters and session stores: one call is one step; the Redis commands of one call are not interleaved with another's.
- RateLimit.RedisRateLimit.Check: does not model the 32-bit width of the counter, nor a crash between increment and expiry.
- Sessions.StoresAgree: compares `get` only; the return values of delete and delete-all differ between the stores and are stated per store.
- The JSON form of session payloads, the session audit row under Redis, and idle timeouts.
- Lockout.FiveAttempts: holds request by request; for interleaved statements see `MfaRace.CapHoldsIff`.
- Oauth.OauthService.LoginOauth: ends once the membership is known; the gates, allowed methods and session that follow are `Auth.GatedLoginSpec`, and the domain allowlist's verdict is an input.
- OAuth states, code exchange and ID-token checks: network and library behaviour.
- Auth.AuthService.LoginIdentity: takes the identity already looked up; the lookup by email and the identity token it issues are not modelled.
- Auth.AuthService.ForceChangePassword: whether the new password is acceptable is an input.
- Sign-up, invitations, password reset and the admin operations: appear as new identities, replaced backup codes and writes of other columns between requests, without what they check.
- EffectiveRoles.SessionRoles: a query that fails and is replaced by an empty list is not modelled; group membership is given as the set of roles it confers.
- Role assignment, and group create, update and membership: single-row writes.
- The role, group and permission lists: glued the same way over their own field tables; `ListQueries.GluedReads` covers any scope and any field table, and only the two user lists are spelled out.
- Update in place of vectors that are sorted: `Sorting.SortByName` and `Sorting.DedupByName` work on sequences, so the library's sort is replaced by a stable insertion sort with the same specification.
- Authorization.Check: has no request context, as when the body gives none; the schema declares none, so a request with another context is refused by Cedar's validation, which is not modelled. It starts from the documents of the user's roles.
- HTTP routes, OpenAPI, configuration, seeding, email, caches, the key-value store and one-shot migrations.
