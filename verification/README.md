# Qraft: verified models of the problem-generation core

Qraft generates, validates and stores programming problems. This project models the parts of it
where loops, state and interleaving carry the weight, and proves what they are for. It is written
for Dafny 4.11; `dafny verify dfyconfig.toml` covers all of it.

- **Statements** (`Statement`, `Sections`, `Imported`, `Patterns`, `Chars`, `Encoded`, `Text`): a statement
  is printed as Markdown with its samples inside fences that grow until they cannot clash with a body,
  and a line-driven parser reads the samples back, also those of the source importers. The parser inverts
  the printer, and the conditions on carriage returns and on samples hidden in other text are exact; a
  fence left open loses samples, and that is shown too.
- **Accounts** (`Accounts`, `AccountRuns`, `AccountRules`, `Limiter`): users, sessions and invitations as
  tables, each transaction one atomic step, logins split into reading a credential and opening a session.
  The invariants hold over every interleaving, and when a transaction is accepted, a session ends and an
  invitation closes is exact. The attempt limiter refines one without lazy expiry.
- **JSON and editorials** (`Utf8`, `Json`, `Wire`, `Editorial`, `Literals`, `Brackets`, `Layout`): the size
  predictor equals the length of an encoder (section 7 of RFC 8259 with the HTML escapes of Go, UTF-8 of
  sections 3 and 4 of RFC 3629), and a reader that knows the keys gets every response back; the lenient
  decoder and the bracket scanner accept exactly their grammars and undo the same encoder; which layout
  escapes break a line is exact, and normalising is idempotent.
- **Selection** (`Ordering`, `Concepts`, `Selector`, `MicroBatch`, `BatchExample`): the deterministic
  choice of three concepts obeys the max-min law stated on the distances, is unique, and does not depend
  on the order of its input.
- **Sandbox** (`OutputBudget`, `SandboxAudit`): two writers share one byte budget; concurrent requests
  share a semaphore and an append-only audit log whose writes may fail before, after or while the
  record reaches the file.
- **Workflows and jobs** (`Paging`, `ResetPoint`, `TestCounts`, `KnowledgePoints`, `Lowering`):
  permission-filtered paging over continuation tokens, the reset point of a failed import, and the
  proof that an accepted job request lowers to valid engine parameters.

Where the source changes state, the model does too: classes for the store, the limiter, the budget and
its writers, the audit sink, the semaphore and the test-data configuration, and methods with loops for
the builders, scanners and searches. Each such method is tied to a function of its inputs or of the old
state, and the results are about that function.

Where code and comment disagree the code is followed. The comment at
backend/internal/domain/editorial_markdown.go:454-456 wants commands such as `\nabla` preserved, but the
listed names are compared with the letters behind the `n`: `Layout.CommandSurvives` says exactly which
commands survive and `Layout.NablaIsBroken` that `\nabla` does not. The comment at
backend/internal/domain/tag.go:19 lets algorithm problems start at 800; the range in line 104 starts at 1300.

Some promises hold only under a condition, and the model shows both sides. A fence that a description
leaves open loses samples (`Statement.OpenFenceExample`), and a section may pass validation and hold a
sample of its own (`Statement.AcceptedSectionMayHoldSample`). A credential read before an account was
disabled opens a session once the account is enabled again (`AccountRuns.SessionOpensExactly`). A torn
audit write makes the next record unreadable, also when its request succeeds (`SandboxAudit.TornExample`).

Strings stand for characters in `Statement`, `Imported`, `Sections`, `Patterns`, `Ordering`, `Concepts`,
`Selector`, `MicroBatch`, `KnowledgePoints` and `Lowering`, and for bytes (characters 0 to 255) in `Utf8`, `Json`, `Wire`, `Layout`,
`Editorial`, `Literals`, `Brackets`, `Limiter` and `OutputBudget`; `Encoded` shows that both views cut, measure
and replace alike.

## Model

| member | source | states |
|---|---|---|
| Statement.RoundTrip | backend/internal/domain/oj_statement.go:106-188 | for every statement whose text before the last sample closes the fences it opens: parsing the printed Markdown gives exactly the samples in order, each body equal up to one final newline, if and only if no body holds CR LF or ends in CR and no text outside the bodies holds a sample of its own |
| Statement.UnfencedRoundTrip | backend/internal/domain/oj_statement.go:106-188 | the same round trip stated on the text a caller sees: no line of a section, of the notes or of an explanation begins, trimmed, with three backticks or tildes |
| Statement.UnfencedIsCalm | backend/internal/domain/oj_statement.go:143-188 | passages without fence lines are calm: each closes its fences and holds no sample |
| Statement.CalmIsBare | backend/internal/domain/oj_statement.go:106-188 | calm passages meet both conditions of the round trip |
| Statement.OpenFenceSwallows | backend/internal/domain/oj_statement.go:106-188 | why fences must be closed: whatever fence the first sections leave open, if it stands nowhere behind them the parse of the printed Markdown is empty |
| Statement.BackticksLoseSamples | backend/internal/domain/oj_statement.go:106-188 | the ordinary case, where it does stand behind them: with three backticks left open every printed fence changes roles, and no sample with plain lines is read back, however many there are |
| Statement.OpenFenceExample | backend/internal/domain/oj_statement.go:106-188 | a concrete statement with one sample whose printed Markdown gives no sample |
| Statement.ClosesIsNotNecessary | backend/internal/domain/oj_statement.go:106-188 | a concrete statement that leaves a fence open and still round-trips, because a remark closes the fence and repeats the sample |
| Statement.AcceptedSectionMayHoldSample | backend/internal/domain/oj_statement.go:33-47 | a section text that passes validation and holds a sample: the validator's heading pattern asks for a blank behind the marks, the parser does not |
| Statement.RenderedSamples | backend/internal/domain/oj_statement.go:106-188 | the exact parse of every printed statement that closes its fences, carriage returns included: the samples read back, and between them what the first sections, the remarks and the text at the end hold |
| Statement.GatheredIsSamples | backend/internal/domain/oj_statement.go:106-188 | that parse is the samples exactly when no other text holds one, is longer otherwise, and always contains every sample |
| Statement.BodySurvives | backend/internal/domain/oj_statement.go:123-127 | one body comes back up to one final newline exactly when its printed form holds no CR LF |
| Statement.FenceFrom | backend/internal/domain/oj_statement.go:119-122 | the fence search ends with the shortest fence of at least three backticks that the body does not contain |
| Statement.GrowFence | backend/internal/domain/oj_statement.go:119-122 | the growing loop terminates and finds that fence |
| Statement.FeedFenced | backend/internal/domain/oj_statement.go:119-188 | between its two fences exactly the printed body is collected: no line of it can close the fence |
| Statement.FeedBlock | backend/internal/domain/oj_statement.go:115-128 | one printed heading, fence, body and closing fence take the parser through opening, collecting and storing under the heading's label |
| Statement.FeedSamples | backend/internal/domain/oj_statement.go:112-132 | the printed samples feed the parser to exactly what is gathered in front of the next one, whatever their number, bodies and remarks |
| Statement.InputTitle | backend/internal/domain/oj_statement.go:176-185 | every numbered input heading is classified as input, for every number |
| Statement.OutputTitle | backend/internal/domain/oj_statement.go:176-185 | every numbered output heading is classified as output, for every number |
| Statement.SectionTitle | backend/internal/domain/oj_statement.go:176-185 | no section heading of the printer is classified as a sample heading |
| Statement.TitleClass | backend/internal/domain/oj_statement.go:176-185 | the exact class of every title on its text: five forms announce an output, five an input, and an output form counts more |
| Statement.TitleIsName | backend/internal/domain/oj_statement.go:177-177 | the title of any heading is its name in lower case, without the marks and without the asterisks, colons and blanks around it |
| Statement.Markdown | backend/internal/domain/oj_statement.go:106-139 | the builder loops print what the recursive definition of the Markdown says |
| Statement.PrintSample | backend/internal/domain/oj_statement.go:112-132 | one sample as printed: headings, fenced input, fenced output, remark |
| Sections.FrontReadsBack | backend/internal/domain/oj_statement.go:106-111 | under each of the first three headings of the printed text stands the trimmed text it announces, when no line of these texts looks like such a heading |
| Sections.LimitsReadBack | backend/internal/domain/oj_statement.go:133-139 | under the last heading stand the constraints and, behind an empty line, the notes, whatever the samples and remarks hold |
| Sections.ExplanationsPrinted | backend/internal/domain/oj_statement.go:129-131 | an explanation is printed, trimmed, straight behind the two bodies of its own sample; the next heading follows, and where there is no explanation it follows the bodies |
| Statement.ExtractStatementSamples | backend/internal/domain/oj_statement.go:143-188 | the line loop with its label, fence, body and pending input computes the fold of the one-line step; `Statement.TitleClass`, `Imported.AnyFence` and `Imported.ImportedSamples` say what that fold does |
| Imported.AnyFence | backend/internal/domain/oj_statement.go:143-175 | what a fenced block does, for backticks and tildes of any length from three, any text behind the opening run and any white space around: its lines become an input, complete a sample or do nothing, by the heading before it |
| Imported.ImportedSamples | backend/internal/sources/luogu.go:84-95 | behind any text that is at rest, numbered headings of the three namings that sources use, with bodies in fences they do not contain, extract to exactly those samples, in order and none more |
| Imported.BackIsBody | backend/internal/sources/nowcoder_api.go:68-82 | an imported body comes back up to one final newline exactly when its printed form holds no CR LF |
| Statement.FenceOf | backend/internal/domain/oj_statement.go:168-173 | the inner loop finds the whole run of the opening character |
| Statement.RetainsAll | backend/internal/domain/oj_statement.go:72-83 | the nested loops decide that every original has a canonically equal sample of origin original |
| Statement.Validate | backend/internal/domain/oj_statement.go:35-104 | accepts exactly the statements that meet every section, heading, sample, retention, figure and size condition against the source |
| Patterns.AcceptsExactly | backend/internal/domain/oj_statement.go:35-104 | exactly these statements are accepted against a source, in bytes and characters: sections with text, in bounds and without headings; samples found in the source up to line breaks at the end, or small; every extracted source sample and every source image kept |
| Patterns.CanonicalTells | backend/internal/domain/oj_statement.go:56-56 | two bodies have one canonical form exactly when they are the same up to CR LF and line breaks at the end |
| Patterns.HeadingExactly | backend/internal/domain/oj_statement.go:33-33 | the heading pattern matches exactly the texts with a line of blanks, perhaps a backslash, one to six marks and a blank |
| Patterns.FigureExactly | backend/internal/domain/oj_statement.go:31-31 | the image pattern finds an image at the front exactly where one of its two forms stands on the characters, the form in angle brackets first, with that target and that length |
| Patterns.FiguresBehind | backend/internal/domain/oj_statement.go:84-84 | text where no image begins changes nothing about the images behind it |
| Statement.ShowsAll | backend/internal/domain/oj_statement.go:84-99 | the nested loops decide that every figure of the source has its target among the figures of the text |
| Patterns.NoFigureLost | backend/internal/domain/oj_statement.go:84-99 | an accepted statement prints the target of every image of its source between the brackets of an image |
| Statement.NothingLost | backend/internal/domain/oj_statement.go:53-83 | if a statement that closes its fences is accepted against a source, every sample found in the source is found again, canonically equal, in the rendered Markdown |
| Statement.CanonicalSurvives | backend/internal/domain/oj_statement.go:53-83 | printing and reading a body keeps its canonical form |
| Accounts.Store.constructor | backend/internal/identity/store.go:24-24 | an empty set of tables meets the uniqueness constraints |
| Accounts.Store.Bootstrap | backend/internal/identity/store.go:69-90 | the first administrator, or a conflict once any account exists (the whole new state) |
| Accounts.Store.FindByEmail | backend/internal/identity/store.go:91-95 | finds the one account with that address |
| Accounts.Store.ReadCredential | backend/internal/identity/store.go:91-95 | the stored credential of an address, or unauthorized |
| Accounts.Store.CreateSession | backend/internal/identity/store.go:96-125 | the credential is compared again under the row lock, a session is added, at most a hundred old rows are deleted and all of them when there are fewer, nothing else changes (the whole new state) |
| Accounts.Store.RevokeSession | backend/internal/identity/store.go:131-134 | marks one session as revoked and keeps an earlier mark (the whole new state) |
| Accounts.Store.ChangePassword | backend/internal/identity/store.go:135-158 | compares the old hash, stores the new one, revokes the account's sessions and its unused reset invitations (the whole new state) |
| Accounts.Store.UpdateUser | backend/internal/identity/store.go:175-225 | needs an enabled administrator, keeps the last one, revokes sessions on a role or status change and invitations on disabling (the whole new state) |
| Accounts.Store.IssueInvitation | backend/internal/identity/store.go:250-279 | refuses a register invitation for a known address and a reset for an unknown or disabled one, supersedes earlier ones of the same kind (the whole new state) |
| Accounts.Store.ConsumeInvitation | backend/internal/identity/store.go:283-314 | consumes only a live unexpired invitation of that kind: a new member account, or a new password for an enabled account, and its sessions are revoked (the whole new state) |
| Accounts.Store.RevokeInvitation | backend/internal/identity/store.go:315-335 | needs an enabled administrator, marks one invitation as revoked (the whole new state) |
| AccountRuns.InvRun | backend/internal/identity/store.go:69-335 | over every interleaving of two-step logins with all other operations: unique addresses, at most one live invitation per address and kind, live invitations fit the accounts, accounts counted, an enabled administrator, fresh sessions |
| AccountRuns.InvStep | backend/internal/identity/store.go:69-335 | the invariants are inductive together, one transaction at a time |
| AccountRuns.SessionsAreFresh | backend/internal/identity/store.go:96-158 | whoever authenticates is enabled and the session was created against the current password hash and the current role |
| AccountRuns.FreshStep | backend/internal/identity/store.go:96-158 | each transaction keeps every unrevoked session tied to the current hash and role of an enabled account |
| AccountRuns.EnabledFilterIsRedundant | backend/internal/identity/store.go:126-130 | an unrevoked, unexpired session always authenticates: the filter on disabled accounts never decides |
| AccountRuns.OneLiveStep | backend/internal/identity/store.go:250-279 | each transaction keeps at most one live invitation per address and kind |
| AccountRuns.LiveFitsStep | backend/internal/identity/store.go:198-220 | each transaction keeps a live register invitation without an account and a live reset invitation with an enabled one |
| AccountRuns.LiveInvitationIsGood | backend/internal/identity/store.go:283-314 | a live unexpired invitation can always be consumed, whatever happened since it was issued |
| AccountRuns.AccountsAreAccounted | backend/internal/identity/store.go:283-314 | after the bootstrap there is one account more than used register invitations, and an enabled administrator remains |
| AccountRuns.CountedStep | backend/internal/identity/store.go:283-314 | each transaction keeps that count |
| AccountRuns.GovernedStep | backend/internal/identity/store.go:184-200 | each transaction leaves an enabled administrator |
| AccountRuns.SomeAdminLeft | backend/internal/identity/store.go:184-200 | the count of enabled administrators that the update reads suffices to keep one of them |
| AccountRuns.BootstrapHappensOnce | backend/internal/identity/store.go:69-90 | at most one bootstrap of a run has an effect |
| AccountRuns.AccountsStay | backend/internal/identity/store.go:69-335 | no operation deletes an account |
| AccountRuns.AccountStep | backend/internal/identity/store.go:135-225 | what any step does to an account: address and name stay, role and standing become what an accepted update asks for, the hash changes only where the password is set |
| AccountRuns.NewAccountStep | backend/internal/identity/store.go:69-90 | a new account is enabled, is the first administrator or a member invited under that address, and holds the hash handed in |
| AccountRuns.ActorsAreAdmins | backend/internal/identity/store.go:175-335 | an update or an invitation step that changes anything was done by an enabled administrator |
| AccountRules.UpdateAcceptedExactly | backend/internal/identity/store.go:175-225 | an update is accepted exactly when an enabled administrator asks, the account exists, its new role is one of the two, and some enabled administrator remains; the count that is read decides exactly that |
| AccountRules.PasswordAcceptedExactly | backend/internal/identity/store.go:135-158 | a password is changed exactly for an enabled account whose current hash was presented |
| AccountRules.HashChangesOnlySo | backend/internal/identity/store.go:135-314 | over any step an account's hash changes only by its current hash or by an open reset invitation for its address, and to the hash handed in |
| AccountRules.IssueAcceptedExactly | backend/internal/identity/store.go:250-279 | a register invitation is issued exactly for an address without an account, a reset exactly for one with an enabled account, by an enabled administrator, under a new token and id |
| AccountRules.ConsumeAcceptedExactly | backend/internal/identity/store.go:283-314 | an invitation is consumed exactly when it is open and fits the accounts; it makes one account or sets one password and touches no other account |
| AccountRules.WithdrawalAcceptedExactly | backend/internal/identity/store.go:315-335 | an invitation is withdrawn exactly by an enabled administrator; no other row changes |
| AccountRules.BootstrapAcceptedExactly | backend/internal/identity/store.go:69-90 | the first account is made exactly in empty tables |
| AccountRules.CredentialReadExactly | backend/internal/identity/service.go:122-161 | a credential is handed out exactly for an enabled account, and is its own |
| AccountRules.DeletedWasLongOver | backend/internal/identity/store.go:96-125 | only sessions that were expired or revoked for more than seven days are ever deleted |
| AccountRules.LongOverIsDeleted | backend/internal/identity/store.go:96-125 | opening a session deletes all of them when they are fewer than a hundred |
| AccountRuns.OldSessionsStayOut | backend/internal/identity/service.go:122-161 | after a password change, a reset, a role change, a disabling or an enabling, no session opened before authenticates again, whatever follows |
| AccountRuns.SessionEndsExactly | backend/internal/identity/store.go:126-225 | over any steps a session that authenticates keeps authenticating, as the same user, if and only if no step ends it: its own logout, or a change of its user's password, role or standing |
| AccountRuns.LogoutIsFinal | backend/internal/identity/store.go:131-134 | after its logout a recorded session token never authenticates again, whatever follows |
| AccountRuns.LogoutIsLocal | backend/internal/identity/store.go:131-134 | a logout leaves every other token authenticating, or not, as before |
| AccountRuns.SessionOpensExactly | backend/internal/identity/service.go:122-161 | the two halves of a login, a registration or the bootstrap with any steps in between, under hashes that never repeat: the session opens and authenticates if and only if the account is enabled at the end and no step in between set its password anew; otherwise nothing changes. Disabling and enabling again does not invalidate the credential |
| AccountRuns.HashTells | backend/internal/identity/store.go:96-108 | the stored hash is still the one handed out exactly when no step in between set the password anew |
| AccountRuns.SpentForever | backend/internal/identity/store.go:283-314 | an invitation used or revoked once is never consumed again |
| AccountRuns.InvitationClosesExactly | backend/internal/identity/store.go:135-335 | over any steps a live invitation stays consumable until it expires if and only if no step closes it: its use, its withdrawal, a newer one of its kind, a password change of the account it would reset, or a disabling |
| AccountRuns.WithdrawnForever | backend/internal/identity/store.go:315-335 | an invitation that an administrator withdrew is never consumable again |
| AccountRuns.ResetsDieWithPassword | backend/internal/identity/store.go:135-158 | after a password change no reset invitation issued before for that address is ever consumable |
| AccountRuns.IssuedIsLive | backend/internal/identity/store.go:250-279 | an issued invitation is live and carries what was asked for; accounts and sessions stay |
| AccountRuns.ConsumedWasLive | backend/internal/identity/store.go:283-314 | only a live, unexpired invitation of the asked kind is ever consumed, it is used up, and no other invitation changes |
| Limiter.AttemptLimiter.constructor | backend/internal/identity/service.go:364-369 | an empty limiter with a capacity of at least one |
| Limiter.AttemptLimiter.Allow | backend/internal/identity/service.go:370-401 | one call as a function of the map: the key's own expired counter goes, the others only when the map is full; never above capacity |
| Limiter.AttemptLimiter.RemoveExpired | backend/internal/identity/service.go:383-387 | the loop removes exactly the expired counters |
| Limiter.LazyRefinesEager | backend/internal/identity/service.go:370-401 | for every sequence of calls under a non-decreasing clock the answers are, call for call, those of a limiter that removes every expired counter first, and the map stays within capacity |
| Limiter.LiveCounterStays | backend/internal/identity/service.go:370-401 | a live counter is never evicted and never restarted |
| Limiter.RateBound | backend/internal/identity/service.go:370-401 | any half-open interval of one window admits at most twice the limit for a key, whatever other keys do |
| Limiter.CounterBound | backend/internal/identity/service.go:370-401 | one counter admits at most the limit |
| Limiter.AdmissionsGrouped | backend/internal/identity/service.go:370-401 | the admissions of a key come in groups of at most the limit, each starting a window after the one before |
| Limiter.AdmitsExactly | backend/internal/identity/service.go:370-401 | a call is admitted exactly when its key, limit and window are in order and its live counter is below the limit, or it has none and fewer than capacity keys have a live one |
| Limiter.RefusalHasCause | backend/internal/identity/service.go:370-401 | no call of a run is refused without cause: the key had limit admissions within the last window, or capacity keys have live counters |
| Utf8.WidthIsStandard | sandbox/server.go:498-509 | a sequence is taken at the front of a byte string exactly when the encoding of a scalar value by section 3 of RFC 3629 stands there, of one value only, and the width is its length |
| Utf8.ValidIsStandard | sandbox/server.go:498-509 | valid text is exactly the encodings of scalar values, one behind the other |
| Utf8.SanitizeIsId | backend/internal/domain/editorial_markdown.go:158-212 | replacing error bytes by U+FFFD changes nothing exactly on valid UTF-8 |
| Utf8.TrimTwice | backend/internal/domain/editorial_markdown.go:394-399 | trimming white space of byte strings twice is trimming once |
| Utf8.SpaceIsWhite | backend/internal/domain/editorial_markdown.go:394-399 | the white space cut at the front is exactly an encoding of one of the white-space characters |
| Utf8.SpaceAtEndIsWhite | backend/internal/domain/editorial_markdown.go:394-399 | ... and so it is at the end |
| Encoded.TrimAgrees | backend/internal/domain/editorial_markdown.go:394-399 | cutting white space from characters and from their UTF-8 bytes is the same, so both tables of white space are one |
| Encoded.UnixAgrees | backend/internal/domain/oj_statement.go:57-57 | replacing CR LF in characters and in their bytes is the same |
| Encoded.ByteLengthIsUtf8 | backend/internal/domain/oj_statement.go:40-49 | the length that limits compare is the number of UTF-8 bytes |
| Encoded.LowerLetters | backend/internal/domain/oj_statement.go:177-177 | lower-casing writes the small letter for each ASCII capital and changes nothing else |
| Json.EncodedStringSize | sandbox/server.go:478-512 | for every byte string the loop's sum is the length of the JSON string: short escapes, HTML escapes, U+2028 and U+2029, six bytes for an error byte |
| Json.FirstSize | sandbox/server.go:478-512 | the size table, one encoded character at a time |
| Json.ClearAudit | sandbox/server.go:464-476 | what clearing the audit strings takes from the encoding; the optional profile stays |
| Json.ClearCompile | sandbox/server.go:450-462 | what clearing the compile strings takes from the encoding |
| Json.ClearCase | sandbox/server.go:428-440 | what clearing one case takes, the omitted empty signal included |
| Json.ClearCases | sandbox/server.go:428-440 | the same for all cases, in the loop |
| Json.SumExtra | sandbox/server.go:444-447 | the closing loop adds back what the cleared strings took |
| Json.CompileResponseSize | sandbox/server.go:404-416 | the predicted size of a compile response is the length of its JSON encoding |
| Json.ExecuteResponseSize | sandbox/server.go:418-448 | the predicted size of an execute response is the length of its JSON encoding, null results and empty results told apart |
| Json.PrepareSuccess | sandbox/server.go:373-391 | a response is refused before it is encoded exactly when its encoding exceeds the wire limit; otherwise the encoding is returned, which reads back as the response by `Wire.ResponseReadsBack` |
| Wire.ResponseReadsBack | sandbox/protocol.go:24-81 | a reader of JSON objects that knows the keys gets every field of every response back, case by case, error bytes replaced and an absent signal empty: nothing is lost, exchanged or added |
| Wire.CaseReads | sandbox/protocol.go:65-74 | one encoded case is read as a value that holds every field of the case |
| Wire.ValidCaseReadsBack | sandbox/protocol.go:65-74 | a case whose texts are valid UTF-8 comes back as it is |
| Editorial.DecodeLenient | backend/internal/domain/editorial_markdown.go:158-212 | the index loop with its builder computes the recursive meaning of a lenient JSON string, with the exact end index |
| Editorial.DecodesEncoded | backend/internal/domain/editorial_markdown.go:158-212 | for every byte string and every suffix, lenient decoding of its JSON encoding returns it with error bytes replaced and ends just behind the closing quote |
| Editorial.DecodeUndoesEncode | backend/internal/domain/editorial_markdown.go:158-212 | decoding returns the string itself if and only if it is valid UTF-8 |
| Literals.LiteralMeans | backend/internal/domain/editorial_markdown.go:158-212 | every string literal, not only encoded ones, is decoded to what its bytes and escapes stand for: eight short escapes, others kept with their backslash, four digits in any case, surrogates replaced; the decoder stops behind the quote |
| Literals.LiteralExactly | backend/internal/domain/editorial_markdown.go:158-212 | exactly the texts that begin with such units and a quote are decoded |
| Editorial.ParseFieldAt | backend/internal/domain/editorial_markdown.go:126-149 | one round of the search: blanks, colon, blanks, string, closing text |
| Editorial.ParseLenientField | backend/internal/domain/editorial_markdown.go:119-152 | the search loop returns the first editorial field that reads as one |
| Editorial.FieldFound | backend/internal/domain/editorial_markdown.go:119-152 | behind any text without quotes, with any blanks around the colon and any closing text behind, the field of an encoded string is found and decoded |
| Literals.ClosesExactly | backend/internal/domain/editorial_markdown.go:140-149 | behind white space the value must be followed by the end, a closing bracket or a comma |
| Editorial.ParseEditorial | backend/internal/domain/editorial_markdown.go:19-41 | the parser as a function of the text and of its later attempts |
| Editorial.ParseExactly | backend/internal/domain/editorial_markdown.go:19-41 | the order of the attempts on the trimmed text, and exactly which texts are refused as broken JSON |
| Editorial.EnvelopeParses | backend/internal/domain/editorial_markdown.go:19-41 | whatever the later attempts would do, the JSON envelope of a string parses to the normalised string and is refused as empty exactly when nothing is left of it |
| Editorial.StoredIsStable | backend/internal/domain/editorial_markdown.go:47-55 | a parsed text is a fixed point of the normaliser, and the read path returns a stored text unchanged unless it is itself an envelope |
| Editorial.BalancedCandidate | backend/internal/domain/editorial_markdown.go:349-392 | the bracket loop with its stack and string flags computes the recursive scan |
| Editorial.ScanSkipsString | backend/internal/domain/editorial_markdown.go:349-392 | the scanner passes over an encoded string whatever brackets, quotes and backslashes it holds |
| Editorial.EnvelopeIsCandidate | backend/internal/domain/editorial_markdown.go:349-392 | inside any text the balanced candidate that starts at an envelope is the envelope |
| Editorial.CandidateIsLocal | backend/internal/domain/editorial_markdown.go:349-392 | a candidate does not depend on what stands behind it |
| Brackets.CandidateExactly | backend/internal/domain/editorial_markdown.go:349-392 | where a bracket opens, the scanner stops behind n bytes exactly when these are a group of a grammar with loose bytes, quoted strings and nested groups of both kinds of brackets |
| Layout.LayoutEscape | backend/internal/domain/editorial_markdown.go:432-469 | whether an escape counts as a line break, from the byte before it and the text behind it; exactly when is `Layout.BreakExactly` |
| Layout.DecodeLayoutEscapes | backend/internal/domain/editorial_markdown.go:405-430 | the character-wise copying loop decodes what the byte-wise definition decodes |
| Layout.DecodedTwice | backend/internal/domain/editorial_markdown.go:405-469 | decoding is idempotent although each decision looks left and right |
| Layout.RefusedTail | backend/internal/domain/editorial_markdown.go:432-469 | an escape that was refused is refused again after the text behind it has been decoded |
| Layout.CutStable | backend/internal/domain/editorial_markdown.go:405-469 | cutting white space off decoded text leaves nothing to decode |
| Layout.NormalizeText | backend/internal/domain/editorial_markdown.go:394-399 | the normaliser is line endings, escapes, trimming, in this order |
| Layout.NormalizeTwice | backend/internal/domain/editorial_markdown.go:394-469 | normalising is idempotent on every byte string |
| Layout.BreaksAreAlike | backend/internal/domain/editorial_markdown.go:394-399 | CR LF, LF and CR alone are one line break to the normaliser |
| Layout.CommandSurvives | backend/internal/domain/editorial_markdown.go:453-467 | a command of n and letters keeps its backslash exactly when the letters behind the n are one of the listed names |
| Layout.BreakExactly | backend/internal/domain/editorial_markdown.go:432-469 | the escape at the front of any text becomes a newline exactly when no backslash stands before it and no quote and none of the seven names, as the whole run of letters, behind it; otherwise it stays, and the rest is decoded alike |
| Layout.CrLfBreakExactly | backend/internal/domain/editorial_markdown.go:432-469 | the same for the four-byte escape, of which the second half is an escape of its own behind a refused one |
| Layout.NablaIsBroken | backend/internal/domain/editorial_markdown.go:453-467 | the comment promises to preserve a command that the code breaks |
| Ordering.LessIsStrict | backend/internal/diversity/selector.go:256-264 | Go's string order is strict and total |
| Ordering.LessIsTransitive | backend/internal/diversity/selector.go:256-264 | Go's string order is transitive |
| Ordering.LessIsLexicographic | backend/internal/diversity/selector.go:256-264 | the order is decided by the first place where two strings differ, a missing character first |
| Ordering.SortedOrderIsUnique | backend/internal/diversity/selector.go:78-80 | sorting by keys that are distinct has one result, whatever the sorting algorithm does |
| Ordering.CanonicalIsTidy | backend/internal/diversity/contract.go:539-541 | canonical text is tidy, and tidy text is exactly what canonicalising leaves alone |
| Ordering.CanonicalExactly | backend/internal/diversity/contract.go:539-541 | word by word: white space alone becomes empty, and a word behind white space stands in front of a blank and the canonical rest, or alone |
| Ordering.LowerSetTwice | backend/internal/diversity/contract.go:556-563 | the canonical lower-cased set of a canonical set is the set itself |
| Concepts.CanonicalSpecTwice | backend/internal/diversity/contract.go:353-369 | canonicalising a concept spec is idempotent |
| Concepts.NewSignatureIsValid | backend/internal/diversity/signature.go:46-131 | the signature made of a valid spec passes its own validation |
| Concepts.SignatureTells | backend/internal/diversity/signature.go:46-131 | two specs have the same signature exactly when they state the same facts up to white space, case and the order of states and wrong-solution families, field by field |
| Concepts.CoarseDistance | backend/internal/diversity/signature.go:164-174 | the loop over the coarse family adds two for every known difference |
| Concepts.StructuralDistance | backend/internal/diversity/signature.go:156-188 | the distance, or an error exactly when a signature is invalid |
| Concepts.DistanceLaws | backend/internal/diversity/signature.go:153-199 | the distance is symmetric, at most 26, and zero exactly when the two sides agree on every structural fact both know |
| Concepts.FactWeights | backend/internal/diversity/signature.go:153-199 | a coarse fact known on both sides and different weighs two points, a fine one four |
| Concepts.FactsAddUp | backend/internal/diversity/signature.go:153-199 | the distance is the sum over the facts, one by one |
| Concepts.WeakSignalsDoNotCount | backend/internal/diversity/signature.go:153-188 | confidence, complexity, constraints and wrong-solution families never contribute |
| Concepts.AttemptOrderFree | backend/internal/diversity/contract.go:195-211 | two attempts with the same concepts in any order have one canonical form when the concept indices are distinct |
| Concepts.PoolOrderFree | backend/internal/diversity/contract.go:185-219 | pools that differ in the order of attempts or concepts have the same canonical form as soon as it is valid |
| Selector.ScoreCombination | backend/internal/diversity/selector.go:230-254 | the nested loops compute minimum, total and joined ids of a triple, or fail exactly on an invalid signature |
| Selector.BetterIsStrict | backend/internal/diversity/selector.go:256-264 | of two different scores exactly one is better |
| Selector.BetterIsTransitive | backend/internal/diversity/selector.go:256-264 | better is transitive |
| Selector.JoinedIsInjective | backend/internal/diversity/selector.go:250-253 | ids without NUL are determined by their join |
| Selector.BestViableCombination | backend/internal/diversity/selector.go:167-191 | for lists of any size the triple loop finds a triple of candidates that no triple beats, and fails exactly when a list is empty; what beating means is `Selector.BestIsMaxMin` |
| Selector.BestIsMaxMin | backend/internal/diversity/selector.go:167-191 | without scores: the chosen triple is one to which every triple yields, by its closest pair, then the sum of its distances, then its ids slot by slot, and every such triple may be chosen |
| Selector.BestRunnerUp | backend/internal/diversity/selector.go:193-228 | the best stand-in of another concept, viable if there is one, else uncertain; fails exactly when there is none; `Selector.RunnerUpIsMaxMin` says what best means |
| Selector.RunnerUpIsMaxMin | backend/internal/diversity/selector.go:193-228 | the same law for a stand-in among those eligible for its slot |
| Selector.BestIsUnique | backend/internal/diversity/selector.go:167-191 | the optimum over all triples is unique |
| Selector.BestIgnoresOrder | backend/internal/diversity/selector.go:167-191 | the optimum does not depend on the order in which candidates are listed |
| Selector.RunnerUpIsUnique | backend/internal/diversity/selector.go:193-228 | the best stand-in is unique |
| Selector.Validate | backend/internal/diversity/selector.go:302-355 | the loop with its seen sets accepts exactly the valid reservations |
| Selector.ReservationExactly | backend/internal/diversity/selector.go:302-355 | exactly these reservations are valid: header, slots in order, digests, tiers, and six different concepts in three different slots |
| MicroBatch.CollectPool | backend/internal/diversity/selector.go:107-128 | the loop over one pool collects its non-invalid and its viable candidates and refuses a concept id seen before |
| MicroBatch.CollectBatch | backend/internal/diversity/selector.go:96-132 | the loop over the ranked pools passes exactly when indices, batch, revision, slot ids and concept ids fit and every slot has a viable candidate |
| MicroBatch.ChooseRunnersUp | backend/internal/diversity/selector.go:149-159 | runner-ups exist for all slots exactly when every pool has a viable concept and another usable one |
| MicroBatch.SelectMicroBatch | backend/internal/diversity/selector.go:60-165 | accepts exactly the batches that pass the barrier, and then returns the assembled optimum with its runner-ups, which is valid; `MicroBatch.SelectedIsMaxMin` says it is max-min, `MicroBatch.SelectedComesFromInput` where it comes from |
| MicroBatch.SelectedIsMaxMin | backend/internal/diversity/selector.go:60-165 | whatever is reserved names winners to which every triple of viable concepts yields and stand-ins to which every eligible one yields; minimum and total are the closest pair and the sum |
| MicroBatch.SelectedComesFromInput | backend/internal/diversity/selector.go:60-165 | every slot of a reservation is about one of the pools as sent, with its index, ids and digests, and reserves two different concepts that this pool offers, the first viable, the second not invalid |
| MicroBatch.CandidatesExactly | backend/internal/diversity/selector.go:107-128 | the viable candidates of a pool are exactly its viable concepts, all candidates its viable and uncertain ones |
| MicroBatch.ChoiceIsValid | backend/internal/diversity/selector.go:274-355 | once runner-ups exist the reservation is canonical already and passes its own Validate |
| MicroBatch.ChoiceIsUnique | backend/internal/diversity/selector.go:133-160 | winners and runner-ups are determined by the ranked pools |
| MicroBatch.RankedIgnoresOrder | backend/internal/diversity/selector.go:60-132 | permuting pools, attempts or concepts changes neither acceptance nor ranking |
| MicroBatch.SelectionIgnoresOrder | backend/internal/diversity/selector.go:58-165 | the same pools in any order, with attempts and concepts in any order, give the same reservation or the same refusal |
| BatchExample.ExampleIsAccepted | backend/internal/diversity/selector.go:60-165 | three concrete pools are accepted: the statements about accepted batches speak of something |
| OutputBudget.Budget.constructor | sandbox/engine.go:1026-1028 | a fresh budget: the limit remains, nothing exceeded, nothing cancelled |
| OutputBudget.BudgetWriter.constructor | sandbox/engine.go:1030-1032 | a writer of that budget with an empty buffer |
| OutputBudget.BudgetWriter.Put | sandbox/engine.go:1045-1066 | one write: the new budget and the new buffer; it always claims the whole write |
| OutputBudget.CaptureRun | sandbox/engine.go:598-605 | two writers on one budget, called in any interleaving, leave what the fold over the writes says |
| OutputBudget.CapturesPrefix | sandbox/engine.go:1019-1066 | for every interleaving the buffers hold, stream by stream, exactly the first limit bytes of the interleaved log |
| OutputBudget.StreamsKeepPrefixes | sandbox/engine.go:1019-1066 | each buffer is a prefix of its own stream |
| OutputBudget.CancelsOnce | sandbox/engine.go:1045-1066 | the run is cancelled once and only if the budget is exceeded, which is the case exactly when more than the limit was written or an empty write came when nothing was left |
| OutputBudget.ExceededMeansTooMuch | sandbox/engine.go:1045-1066 | without empty writes: exceeded exactly when more than the limit was written |
| OutputBudget.RunCase | sandbox/engine.go:510-543 | stdout, stderr or the bounded sandbox log, and the verdict of one case |
| OutputBudget.CaseExactly | sandbox/engine.go:510-543 | what one case returns, from what the process wrote and how it ended: the first limit bytes of each stream, the log in place of an empty error stream, and for each verdict exactly when |
| OutputBudget.LogKeepsEnd | sandbox/engine.go:854-860 | a long log keeps its last bytes behind three dots, a short one everything |
| OutputBudget.ExecuteCases | sandbox/engine.go:261-269 | the loop returns the cases before the first fault |
| OutputBudget.CasesAreRuns | sandbox/engine.go:261-269 | one case for each run, in order, up to the first fault |
| OutputBudget.CaseIsBounded | sandbox/engine.go:510-543 | one case returns at most the limit and 4099 bytes |
| OutputBudget.AdmitBatch | sandbox/server.go:288-325 | which complaint comes first, or admission |
| OutputBudget.AdmittedExactly | sandbox/server.go:288-325 | exactly the batches within every one of the limits are admitted |
| OutputBudget.BatchIsBounded | sandbox/server.go:320-323 | whatever the programs print, an admitted batch returns at most 64 MiB and 4099 bytes for each case |
| SandboxAudit.AuditSink.constructor | sandbox/audit.go:74-83 | an open sink with an empty log |
| SandboxAudit.AuditSink.Append | sandbox/audit.go:248-268 | a record is appended whole, in part or not at all, and the caller is told of success only if it was stored; a closed sink stores nothing |
| SandboxAudit.AuditSink.Close | sandbox/audit.go:85-97 | closing keeps the log |
| SandboxAudit.Semaphore.constructor | sandbox/server.go:75-83 | at least one slot, none in use |
| SandboxAudit.Semaphore.Acquire | sandbox/server.go:218-229 | the select: a free slot, a finished context, or busy only when neither is ready |
| SandboxAudit.Semaphore.Release | sandbox/server.go:231-231 | gives one slot back |
| SandboxAudit.InvRun | sandbox/server.go:121-231 | the joint invariant of slots, log, runs and requests holds after every interleaving of handler steps with any outcome of every write, torn ones included |
| SandboxAudit.InvStep | sandbox/server.go:121-231 | one handler step keeps the invariant |
| SandboxAudit.SlotsAreHolders | sandbox/server.go:218-231 | in every reachable state the slots in use are the requests between acquire and release and never exceed the capacity |
| SandboxAudit.EngineAfterAttempt | sandbox/server.go:187-198 | when the engine is called the log holds the attempt of that run and nothing else of it |
| SandboxAudit.RunsAreRecordedOnce | sandbox/audit.go:138-181 | every run has at most one attempt record followed by at most one terminal record among those written whole |
| SandboxAudit.OkAfterTerminal | sandbox/server.go:206-215 | a request answered with 200 has its attempt and behind it a terminal record of status success or compile_error in the log |
| SandboxAudit.ResponseMatchesRecord | sandbox/audit.go:209-224 | the answer about to be sent is 200 exactly when the stored terminal status is success or compile_error |
| SandboxAudit.OkExactly | sandbox/server.go:187-215 | over any interleaving a request is answered with 200 exactly when its handler responded and the engine had reported no failure, and then both audit writes of its run were stored |
| SandboxAudit.StartedWasStored | sandbox/server.go:187-198 | the engine only ever runs for a run id whose attempt write was stored; no failed write counts |
| SandboxAudit.TerminalSays | sandbox/audit.go:209-224 | which terminal status is recorded for which outcome, each exactly |
| SandboxAudit.ReadableIsOf | sandbox/audit.go:248-268 | a reader of the log finds every whole record of a run on a line of its own exactly when none stands behind a torn write; otherwise fewer |
| SandboxAudit.OkIsReadable | sandbox/server.go:187-215 | a request answered with 200 has both its records readable exactly when no torn write stands before either of them |
| SandboxAudit.TornExample | sandbox/audit.go:248-268 | a concrete run in which a request is answered with 200 and its attempt is unreadable, glued to the torn record of another request |
| Paging.TakePage | backend/internal/handler/workflow_handler.go:132-156 | one page filtered by permission, in order; fails exactly on a broken permission lookup |
| Paging.HandleList | backend/internal/handler/workflow_handler.go:100-164 | the paging loop with its page cap and shrinking page size computes the recursive listing, its failures included |
| Paging.ListingIsExact | backend/internal/handler/workflow_handler.go:120-164 | a listing is exactly what the member may see between two positions, at most limit entries; it makes progress, has read exactly fifty pages when it is not full and carries a token, and fails only if a call fails |
| Paging.FailureSays | backend/internal/handler/workflow_handler.go:120-156 | a failed listing has its own cause: a failed call of the store, or a failed permission lookup behind the start; behind a listing that succeeds no lookup of its part failed |
| Paging.VisibleOne | backend/internal/handler/workflow_handler.go:139-152 | what one execution contributes to what a member sees |
| Paging.Walk | backend/internal/handler/workflow_handler.go:105-164 | following the token until it is empty yields the permission-filtered list, in order, nothing dropped and nothing twice, in at most one call more than there are executions |
| ResetPoint.ImportedProblemResetPoint | backend/internal/handler/workflow_handler.go:1082-1155 | the scan with its maps and shared activity records and the choice after it compute the function of the history |
| ResetPoint.ChoosePoint | backend/internal/handler/workflow_handler.go:1118-1155 | the choice behind the scan loop, from the store, the last activity or the first completed task |
| ResetPoint.PointIsTask | backend/internal/handler/workflow_handler.go:1082-1155 | for every list of events a returned point is a workflow-task event of it |
| ResetPoint.ScanIsFaithful | backend/internal/handler/workflow_handler.go:1091-1117 | with growing ids the scan holds every activity, and its last completion, as the history shows it |
| ResetPoint.StoredProblemIsKept | backend/internal/handler/workflow_handler.go:1124-1142 | once the store was completed, the point is the earliest workflow-task event after that completion, and there is none exactly when there is no such event |
| ResetPoint.UnfinishedStoreIsRescheduled | backend/internal/handler/workflow_handler.go:1118-1137 | while the store is not completed the point is the task that scheduled it, exactly when the history shows that task as completed before |
| ResetPoint.LastActivityDecides | backend/internal/handler/workflow_handler.go:1138-1150 | without a store the last activity decides: the earliest workflow task behind its completion, or else the task that scheduled it, exactly when the history shows that task as completed before |
| ResetPoint.FreshImportRestarts | backend/internal/handler/workflow_handler.go:1151-1155 | without any activity the point is the first completed workflow task, and there is none exactly when there is no such task |
| ResetPoint.EarlierActivitiesAreKept | backend/internal/handler/workflow_handler.go:1118-1150 | in a sequential history every activity completed before the anchor was scheduled is retained, and a point is missing only behind a completed store |
| TestCounts.TestDataConfig.NormalizeForGeneration | backend/internal/domain/testcase.go:197-251 | the new configuration and the answer, also where a refused configuration was changed |
| TestCounts.NormalizingKeepsMeaning | backend/internal/domain/testcase.go:197-323 | an accepted configuration is normalised idempotently, its range stays the same and is not empty, and the same generated counts are accepted before and after |
| TestCounts.ValidMeansNormalizes | backend/internal/domain/testcase.go:327-346 | Validate accepts exactly what normalising accepts |
| TestCounts.AcceptedExactly | backend/internal/domain/testcase.go:197-251 | exactly these configurations are accepted, in numbers |
| TestCounts.NormalForm | backend/internal/domain/testcase.go:197-251 | what normalising leaves behind, field by field: an explicit count without bounds, or the bounds spelled out |
| TestCounts.AcceptedCounts | backend/internal/domain/testcase.go:253-323 | exactly these numbers of generated cases are accepted |
| KnowledgePoints.CanonicalKnowledgePointSlugs | backend/internal/domain/knowledge_point_combination.go:30-59 | the loop with its seen set returns the arranged slugs, or nothing exactly on a bad mode, an empty or a repeated slug |
| KnowledgePoints.ConformMeansMatch | backend/internal/domain/knowledge_point_combination.go:94-114 | observed slugs conform exactly when they are the requested ones: any order for a set, primary first and the rest in any order for mixed, same order otherwise |
| KnowledgePoints.RequiredIsArranged | backend/internal/domain/knowledge_point_combination.go:61-90 | a valid request is distinct, non-empty and arranged already |
| KnowledgePoints.ContractExactly | backend/internal/domain/knowledge_point_combination.go:61-90 | exactly these contracts are valid: slugs in lower case without space around them, distinct, not empty, in the order of the mode, of a fitting number |
| Lowering.ValidateUniqueNonEmpty | backend/internal/generationapi/contract.go:326-342 | the loop with its seen set accepts exactly non-empty lists of distinct non-blank values |
| Lowering.AcceptedRequestsLower | backend/internal/generationapi/job_v1.go:340-434 | every request that ValidateV1 accepts is lowered to parameters that ProblemGenParams.Validate accepts, for all four combination modes and both count modes |
| Lowering.AcceptedExactly | backend/internal/generationapi/job_v1.go:106-194 | ValidateV1 accepts exactly the requests that meet every listed condition, read off the request as it was sent |
| Lowering.ParamsAreRequested | backend/internal/generationapi/job_v1.go:340-434 | every lowered parameter is what the request asks for: its own numbers, limits and flags, its names in lower case, its lists canonical |
| Lowering.ExampleIsAccepted | backend/internal/generationapi/job_v1.go:106-194 | a concrete request that is accepted |
| Lowering.DomainLowers | backend/internal/generationapi/job_v1.go:250-270 | the knowledge points of a valid canonical domain satisfy the combination contract |
| Lowering.ConstraintsLower | backend/internal/generationapi/job_v1.go:352-374 | the lowered test-data configuration normalises |
| Lowering.EvidenceIsValid | backend/internal/generationapi/job_v1.go:375-393 | the standard evidence contract passes its validation |
| Lowering.AcceptedIsCanonicalOnce | backend/internal/generationapi/job_v1.go:211-248 | an accepted request is a fixed point of Canonical after one application and lowers alike before and after |
| Lowering.LoweredCountsAreRequested | backend/internal/generationapi/job_v1.go:352-374 | the generated counts that the lowered parameters accept are those the request asks for |

## Left out

- Selector.BestViableCombination: with an invalid signature among the candidates nothing is said of failure beyond that a returned triple is optimal, because the batch never holds one (`MicroBatch.ReadyCandidates`); the same goes for `Selector.BestRunnerUp`.
- Statement.RoundTrip: no exact condition for statements that leave a fence open before a later sample, because a remark can close the fence and repeat the sample (`Statement.ClosesIsNotNecessary`); `Statement.OpenFenceSwallows` and `Statement.BackticksLoseSamples` say what is lost.
- Editorial.ParseEditorial: the later attempts (complete fences, strict JSON documents, documents inside prose, up to depth eight) are one parameter, because they rest on `json.Unmarshal` of arbitrary documents.
- Unicode case folding: lower-casing acts on ASCII letters; other letters are kept.
- Invalid UTF-8 in the character models; the byte models have it.
- SQL text, isolation levels and locks: each transaction is one step; address and invitation-id uniqueness are schema constraints. The audit table, listing endpoints, account and session ids for display, address normalisation and password rules are not modelled.
- Which hundred old rows the clean-up in CreateSession picks: any choice is allowed.
- bcrypt, SHA-256, random tokens and UUIDs: opaque values that are compared. Session tokens and run ids never repeat; digests are 64 hexadecimal characters.
- The pool of password-hashing slots and the HTTP layer of the identity service.
- Monotonic clocks: the limiter's results assume that time does not run backwards.
- Failures of `json.Marshal`, and integers beyond 64 bits; sums of usage and durations are unbounded integers.
- Concept pool validators are stated as the predicates they decide, without their loops; NaN and infinite confidences are not modelled; error texts are not distinguished.
- The encoded reservation and its digest, which are functions of the reservation.
- `sort.Slice` promises no order among equal keys; equal keys are refused afterwards.
- nsjail, cgroups, process control, timing, the compile stage and its own output.
- The contents of audit records beyond run, phase and status; the disabled sink, which records nothing.
- Decoding and validation of a sandbox request before its attempt record are one step that may refuse; the engine and the preparation of the response are one step with any result.
- Continuation tokens are positions and stay valid; the visibility list and the permissions do not change during a walk. Encoding of the cursor and the status filter are not modelled.
- The Temporal service itself and the other endpoints of the workflow handler.
- Metadata extras, provider settings, test groups and boundary settings of the engine parameters, and the digest that binds a request to its idempotency key.
- Deduplication observations, generation-job handlers, embeddings, migrations, desktop and web code.
