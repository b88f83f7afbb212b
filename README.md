# WaterlooStar backend core, modelled in Dafny

WaterlooStar is a forum backend written in Go. This project models its core:

- **E-mail verification**: a store maps each address to the last code sent to it and when that code expires. The auth service sends six-digit codes and checks them.
- **Accounts**: registration and login in the auth service, against a user repository.
- **Demo session login**: the API server issues random bearer tokens and keeps an in-memory token → session table. `/me` resolves the `Authorization: Bearer <token>` header against that table and deletes a session once it is seen expired.
- **Post feed**: the handler normalises a page request (page, page size, sort field and direction, RFC 3339 time filters). The repository filters, counts, orders and windows the posts. The service attaches the posts' authors, and the handler shapes each post into an item with an excerpt and an author name.
- **Post creation**: trims and validates title, body and creator, and keeps the non-blank image URLs.

Modules follow the source files:

| module (file) | models |
|---|---|
| `VerificationCodes` (verification_store.dfy) | `internal/service/verification_store.go` |
| `Api` (api.dfy) | the session store, handlers and helpers of `cmd/api/main.go` |
| `AuthService` (auth_service.dfy) | `internal/service/auth_service.go` |
| `PostRepo` (post_repo.dfy) | `internal/repo/post_repo.go`, over an abstract sequence of rows |
| `PostService` (post_service.dfy) | `internal/service/post_service.go` |
| `PostHandler` (post_handler.dfy) | `internal/handler/post_handler.go` |
| `UserRepo`, `UserDomain`, `PostDomain` | the user repository's logic and the records it uses |
| `GoTypes`, `GoStrings`, `Strconv`, `Hex`, `Wrappers` | the Go library behaviour the core relies on |

The stores are classes with a `map` field, and their methods say exactly how the map changes. Each method is tied to a pure step function (`Check`, `Me`), and the lemmas are about those functions.

Collaborators are parameters. The user repository's queries and bcrypt are functions of their arguments. The random source is `Option<seq<byte>>`, where `None` means a failed read. `time.Now` is an `Instant`. RFC 3339 parsing and formatting are function parameters. A database failure is a `Fault` value.

Register, Login, SendVerificationCode and VerifyCode also return the list of repository calls they made. Their contracts can therefore say when the repository is consulted at all, and in which order.

## Model

| member | source | states |
|---|---|---|
| VerificationCodes.VerificationStore.constructor | internal/service/verification_store.go:19-24 | a new store is empty and keeps the given ttl |
| VerificationCodes.VerificationStore.Set | internal/service/verification_store.go:26-33 | the address's entry is replaced by the new code, expiring ttl after now; other entries unchanged |
| VerificationCodes.VerificationStore.Verify | internal/service/verification_store.go:35-52 | answer and new table are those of `Check`: absent → false; expired → false and removed; wrong code → false and kept; right code → true and removed |
| VerificationCodes.Check | internal/service/verification_store.go:35-52 | the reference for Verify: true exactly when the entry exists, has not expired and holds the code. The table is kept, or loses only that address, exactly when the code was accepted or had expired. VerifyAfterSet to OnlyLatestCodeVerifies are proved about it |
| VerificationCodes.VerifyAfterSet | internal/service/verification_store.go:26-52 | a freshly set code verifies at any instant up to and including its expiry, and is then consumed |
| VerificationCodes.SetOverwrites | internal/service/verification_store.go:29-32 | after a second Set, the earlier different code no longer verifies |
| VerificationCodes.VerifyAbsent | internal/service/verification_store.go:39-42 | an address with no entry is refused, and the table is unchanged |
| VerificationCodes.VerifyExpired | internal/service/verification_store.go:43-46 | an entry seen after its expiry is refused and deleted |
| VerificationCodes.WrongGuessKeepsEntry | internal/service/verification_store.go:47-49 | a wrong guess changes nothing, so the right code still verifies later within its lifetime |
| VerificationCodes.SingleUse | internal/service/verification_store.go:50-51 | a code that verified once never verifies again |
| VerificationCodes.OtherEmailsUntouched | internal/service/verification_store.go:26-52 | Set and Verify on one address leave every other address's entry as it was |
| VerificationCodes.SuccessesBoundedBySets | internal/service/verification_store.go:26-52 | over any run of operations, an address's successful verifications never exceed the codes set for it (each success consumes one) |
| VerificationCodes.StoredIsLatest | internal/service/verification_store.go:29-32 | starting empty, a stored entry is always the one the latest Set for that address installed |
| VerificationCodes.OnlyLatestCodeVerifies | internal/service/verification_store.go:35-52 | a successful verification used the latest code sent to that address, no later than ttl after it was sent |
| Api.Respond | cmd/api/main.go:192-199 | the envelope carries status, message and data, and `success` holds exactly when status < 400 |
| Api.SessionStore.constructor | cmd/api/main.go:52-56 | a new session store is empty |
| Api.SessionStore.Set | cmd/api/main.go:58-62 | the session is stored under its own token, replacing any earlier one |
| Api.SessionStore.Get | cmd/api/main.go:64-69 | found exactly when the token is present; a miss returns the zero session |
| Api.SessionStore.Delete | cmd/api/main.go:71-75 | exactly that token is removed |
| Api.GetAfterSet | cmd/api/main.go:58-69 | Get after Set returns the session just stored |
| Api.SessionDuration | cmd/api/main.go:155-158 | 7 days with remember, otherwise 24 hours |
| Api.DeleteOnlyThatToken | cmd/api/main.go:71-75 | Delete removes the token and leaves every other token's session as it was |
| Api.GenerateToken | cmd/api/main.go:201-207 | a token exists exactly when the read succeeds; it is 64 lower-case hex digits that decode back to the 32 random bytes |
| Hex.HexRoundTrip | cmd/api/main.go:206 | hex decoding inverts the encoding used for tokens |
| Hex.HexEncodeInjective | cmd/api/main.go:201-207 | different random bytes never give the same token |
| Api.LoginHandler | cmd/api/main.go:149-167 | a failed read is a 500 that leaves the store alone; otherwise the new session expires after 24 hours, or after 7 days with remember, and is stored and returned with 200 |
| Api.BearerWithoutSpace | cmd/api/main.go:209-213 | a header without a space carries no token |
| Api.BearerAccepted | cmd/api/main.go:209-215 | a first word equal to "Bearer" in any case yields the trimmed rest of the header |
| Api.BearerRejected | cmd/api/main.go:209-213 | any other first word yields no token |
| Api.ExtractBearerToken | cmd/api/main.go:209-215 | a non-empty token comes from a header that has a space; it is shorter than the header and has no surrounding white space. BearerWithoutSpace, BearerAccepted and BearerRejected give its three cases |
| Api.BearerRoundTrip | cmd/api/main.go:201-215 | a generated token sent as "Bearer <token>" is read back unchanged |
| Api.MeHandler | cmd/api/main.go:170-190 | response and new table are those of `Me`: a missing token or an unknown token is a 401 and changes nothing; an expired session is a 401 and is deleted; a live one is a 200 with its user |
| Api.Me | cmd/api/main.go:170-190 | the reference for MeHandler; MeOnlyDeletesExpired and SessionLifecycle are proved about it |
| Api.MeOnlyDeletesExpired | cmd/api/main.go:170-190 | /me changes the table only by deleting the presented token when it has expired; it reports success exactly on 200 |
| Api.SessionLifecycle | cmd/api/main.go:155-190 | a session issued at login is accepted by /me up to its expiry, and afterwards refused as expired and removed |
| AuthService.AuthService.constructor | internal/service/auth_service.go:35-40 | the service keeps the given repository and store |
| AuthService.Register | internal/service/auth_service.go:42-75 | fields are trimmed, with the e-mail lower-cased first. A blank field is the required-fields error, with no repository call. Otherwise the username is looked up first: taken → duplicate username after that one call; another repository error → passed on. Then the e-mail: taken → duplicate e-mail; other error → passed on. A bcrypt failure is passed on, and so is a create failure. Success holds exactly when both lookups are not-found, hashing succeeds and the create of the normalised name, e-mail and hash succeeds |
| AuthService.UsernameCheckedFirst | internal/service/auth_service.go:51-58 | when username and e-mail are both taken, duplicate username is reported after a single lookup |
| AuthService.RegisteredUserLogsIn | internal/service/auth_service.go:42-107 | a user Register created logs in with the same password, by e-mail or by username, once the repository returns the stored record with that hash and bcrypt accepts the password for it |
| AuthService.Login | internal/service/auth_service.go:77-107 | a blank password, or a blank username and e-mail, is invalid credentials with no call. Otherwise exactly one lookup, by e-mail whenever one is given, else by username. Not-found is invalid credentials; another repository error is passed on; a found user whose hash does not match is invalid credentials. Success holds exactly when the user is found and bcrypt accepts the password, and returns that user |
| AuthService.VerificationCode | internal/service/auth_service.go:161-165 | the code is six digits whose value is the big-endian 32-bit value of the bytes mod 10^6 |
| AuthService.GenerateVerificationCode | internal/service/auth_service.go:156-166 | a failed read is an error; otherwise a six-digit code as above |
| AuthService.EveryCodeReachable | internal/service/auth_service.go:161-165 | every code 000000..999999 comes out for some 4 bytes |
| AuthService.CodeOfValue | internal/service/auth_service.go:165 | bytes whose value is below 10^6 yield exactly that value, zero-padded to six digits |
| Strconv.ZeroPadded | internal/service/auth_service.go:165 | `%06d` of n < 10^6 is six digits denoting n |
| AuthService.DigitsUnpadded | internal/service/auth_service.go:137 | trimming leaves a digit code unchanged |
| AuthService.AuthService.SendVerificationCode | internal/service/auth_service.go:109-133 | a blank address is user-not-found with no lookup; not-found and repository errors are reported; a missing store is its own error; otherwise a failed random read is the random-failure error after the one lookup; the store changes only on success, with a fresh code under the normalised address |
| AuthService.AuthService.VerifyCode | internal/service/auth_service.go:135-154 | blank inputs or a missing store are invalid-verification and touch nothing; otherwise the store does what `Check` does; only an accepted code leads to MarkVerified, whose not-found is user-not-found |
| AuthService.SendThenVerify | internal/service/auth_service.go:109-154 | a code sent to an address verifies when typed back for the same address in any case and spacing before expiry |
| UserRepo.GetByIds | internal/repo/user_repo.go:44-60 | no query for an empty id list. Otherwise a query failure is passed on. On success, every found row is present under its own id, and every entry is one of the found rows |
| UserRepo.KeyById | internal/repo/user_repo.go:55-57 | every found row is keyed by its id, and every key maps to a found row with that id |
| UserRepo.MarkVerified | internal/repo/user_repo.go:62-73 | succeeds exactly when the update succeeds and touches a row; touching none is not-found; a failed update passes its error through |
| PostRepo.Filtered | internal/repo/post_repo.go:83-88 | keeps exactly the stored rows inside the inclusive time window, never more rows than stored |
| PostRepo.FilteredAppend | internal/repo/post_repo.go:83-88 | filtering distributes over concatenation, so the kept rows stay in storage order |
| PostRepo.FilterConditions | internal/repo/post_repo.go:83-88 | the WHERE conditions added admit exactly the rows of the filters' window |
| PostRepo.WhereIsFiltered | internal/repo/post_repo.go:83-88 | conditions that admit the window's rows select exactly the filtered rows |
| PostRepo.ColumnNamed | internal/repo/post_repo.go:101-104 | only created_at, views, likes, stars and comment_number are accepted as ORDER BY columns |
| PostRepo.SelectOrder | internal/repo/post_repo.go:95-105 | no sort, or an unlisted field, gives created_at DESC; otherwise that column, ascending exactly when the direction is "asc" |
| PostRepo.DefaultOrderClause | internal/repo/post_repo.go:95 | the default order is "created_at DESC" (example) |
| PostRepo.Insert | internal/repo/post_repo.go:109 | inserting into an ordered result keeps it ordered and adds exactly that row |
| PostRepo.SortBy | internal/repo/post_repo.go:109 | the result is ordered by the selected column and is a permutation of the rows |
| PostRepo.Window | internal/repo/post_repo.go:110-111 | LIMIT/OFFSET: the rows from offset on, at most limit of them |
| PostRepo.PageOf | internal/repo/post_repo.go:73-118 | the reference for a healthy ListPage; PageBounds, PageRowsMatch and UnfilteredTotal are proved about it |
| PostRepo.ListPage | internal/repo/post_repo.go:73-118 | when healthy, the page is the ordered window of the filtered rows, and the total is their count; a failing count or fetch returns the empty result and the error |
| PostRepo.List | internal/repo/post_repo.go:26-45 | the newest-first window, with limit ≤ 0 read as 20 and a negative offset as 0; a failing fetch returns no posts and the error |
| PostRepo.PageBounds | internal/repo/post_repo.go:73-93 | a page holds at most the clamped limit; the total counts every matching row and never exceeds the stored rows |
| PostRepo.WindowKeepsOrder | internal/repo/post_repo.go:109-111 | a window of an ordered result is ordered |
| PostRepo.PageRowsMatch | internal/repo/post_repo.go:81-117 | every row on a page is a stored row inside the window; the page follows the selected order |
| PostRepo.UnfilteredTotal | internal/repo/post_repo.go:83-93 | without filters, the total is the number of stored rows |
| PostRepo.PagesCover | internal/repo/post_repo.go:110-111 | walking consecutive windows yields every row once, in order |
| PostRepo.PagesCount | internal/repo/post_repo.go:110-111 | there is one window per started block of rows |
| PostRepo.PageAt | internal/repo/post_repo.go:110-111 | the k-th window starts at offset + k·size |
| PostService.CollectCreatorIds | internal/service/post_service.go:87-98 | the dedup loop computes `CreatorIds` |
| PostService.CreatorIdsMembers | internal/service/post_service.go:87-98 | an id is listed exactly when it is the non-empty creator of some post |
| PostService.CreatorIdsDistinct | internal/service/post_service.go:87-98 | no id is listed twice and none is empty |
| PostService.CreatorIdsFirstSeen | internal/service/post_service.go:87-98 | ids are in first-seen order: a post by a later-listed author always comes after some post by each earlier-listed author |
| PostService.GetPostPage | internal/service/post_service.go:81-113 | a list failure is returned with no lookup; with no user repository or no ids, authors are empty and there is no lookup; otherwise one lookup with exactly the deduplicated ids, whose failure empties the result |
| PostService.AuthorsAreCreators | internal/service/post_service.go:87-106 | every returned author is keyed by its own id, and every looked-up id is a non-empty creator of a post on the page |
| PostService.GetPosts | internal/service/post_service.go:34-36 | passes the repository's List through unchanged |
| PostService.KeptUrlsAppend | internal/service/post_service.go:65-71 | URL filtering distributes over concatenation, so relative order is kept |
| PostService.KeptUrlsMembers | internal/service/post_service.go:65-71 | a kept URL is exactly the non-blank trimmed form of some given URL |
| PostService.KeptUrlsTrimmed | internal/service/post_service.go:66-70 | every kept URL is non-blank and has no surrounding white space |
| PostService.ImagesOf | internal/service/post_service.go:70 | one image per kept URL, carrying that URL, in order |
| PostService.CollectImages | internal/service/post_service.go:63-72 | the image loop computes the images of the kept URLs |
| PostService.CreatePost | internal/service/post_service.go:38-79 | title, body and creator are trimmed and checked in that order with their own messages; an insert failure is returned; success exactly when all three are non-blank and the insert succeeds, giving the trimmed fields and the kept images |
| PostHandler.NormalizeSortField | internal/handler/post_handler.go:258-273 | the result is "" or a column the repository accepts |
| PostHandler.SortFieldSynonyms | internal/handler/post_handler.go:258-273 | each field's synonyms, compared after trimming and lower-casing, in both directions; anything else is "" |
| PostHandler.TimeIsCreatedAt | internal/handler/post_handler.go:259-261 | "Time" normalises to created_at (example) |
| PostHandler.IdIsNoSortField | internal/handler/post_handler.go:270-271 | "id" is not a sort field (example) |
| PostHandler.NormalizeSortDirection | internal/handler/post_handler.go:275-282 | the result is "asc" or "desc" |
| PostHandler.SortDirectionSpellings | internal/handler/post_handler.go:275-282 | "asc" exactly for asc, ascend and ascending in any case and spacing |
| PostHandler.UpperAscIsAsc | internal/handler/post_handler.go:276-278 | "ASC" is ascending (example) |
| PostHandler.EmptyDirectionIsDesc | internal/handler/post_handler.go:279-280 | a missing direction is descending (example) |
| PostHandler.ChosenSort | internal/handler/post_handler.go:241-256 | no sort exactly when the map is empty or the first key visited is not a sort field. Otherwise the sort is that key's normalised field with its value's normalised direction, an accepted column and "asc" or "desc" |
| PostHandler.NormalizePostListSort | internal/handler/post_handler.go:241-256 | the loop returns on the first key it visits, computing `ChosenSort` |
| PostHandler.ChosenSortIsApplied | internal/handler/post_handler.go:130-136 | a sort the handler chooses is the order the repository applies |
| PostHandler.UnchosenSortIsDefault | internal/handler/post_handler.go:130-136 | when no sort is chosen, the repository orders newest first |
| PostHandler.ParseBoundShape | internal/handler/post_handler.go:223-236 | a bound is absent when blank after trimming, its parse otherwise, and an error naming the key when the parse fails |
| PostHandler.EmptyFiltersHaveNoBound | internal/handler/post_handler.go:219-221 | an empty filter map has no bounds |
| PostHandler.EmptyFiltersParsed | internal/handler/post_handler.go:219-221 | the early return for an empty map agrees with parsing both bounds |
| PostHandler.FiltersParsed | internal/handler/post_handler.go:217-239 | the filters parse exactly when both bounds do, into those bounds; time_from's error wins over time_to's |
| PostHandler.FilterErrorsDistinct | internal/handler/post_handler.go:284-286 | the two error messages differ, so each names the field that failed (example) |
| PostHandler.BlankFiltersMatchAll | internal/handler/post_handler.go:217-239 | blank bounds parse to no constraint and admit every post |
| PostHandler.ParsePostListFilters | internal/handler/post_handler.go:217-239 | an empty filter map is two absent bounds; FiltersParsed and ParseBoundShape give the rest |
| PostHandler.ExcerptShape | internal/handler/post_handler.go:288-301 | the excerpt is the longest prefix of the trimmed body that has no line break and at most 200 characters |
| PostHandler.ExcerptEmpty | internal/handler/post_handler.go:288-301 | the excerpt is empty exactly when the body is all white space |
| PostHandler.ExcerptFromBody | internal/handler/post_handler.go:288-301 | at most 200 characters; ExcerptShape and ExcerptEmpty give its meaning |
| PostHandler.ParseIntDefault | internal/handler/post_handler.go:200-209 | the default for empty or unparsable text, otherwise the parsed value |
| PostHandler.ParseIntDefaultReadsBack | internal/handler/post_handler.go:200-209 | a written 64-bit integer is read back whatever the default |
| PostHandler.ParseIntDefaultRejects | internal/handler/post_handler.go:204-207 | text with a non-digit after its first character falls back to the default |
| Strconv.AtoiFormatInt | internal/handler/post_handler.go:204 | Atoi reads back every 64-bit value Itoa writes |
| Strconv.AtoiRejectsNonDigit | internal/handler/post_handler.go:204-207 | a non-digit after the first character is a syntax error |
| Strconv.AtoiRejectsBadLead | internal/handler/post_handler.go:204-207 | the first character must be a digit or a sign |
| PostHandler.NormalizePage | internal/handler/post_handler.go:114-117 | a page below 1 is page 1; any other page is kept |
| PostHandler.NormalizePageSize | internal/handler/post_handler.go:118-121 | a page size below 1 is 20; any other size is kept |
| PostHandler.Offset | internal/handler/post_handler.go:122 | the offset plus one page is page·pageSize, computed exactly |
| PostHandler.OffsetAgrees | internal/handler/post_handler.go:122 | while page·pageSize fits in 64 bits, the wrapping computation is the exact one |
| PostHandler.OffsetOverflows | internal/handler/post_handler.go:122 | a huge page number wraps the written offset to the most negative int64 |
| PostHandler.OffsetAsWritten | internal/handler/post_handler.go:122 | the as-written offset: congruent to (page − 1)·pageSize mod 2^64, as Go's wrapping `int` multiplication gives |
| GoTypes.Wrap64 | internal/handler/post_handler.go:122 | the int64 congruent to the exact value mod 2^64, equal to it when it fits |
| PostHandler.CeilDiv | internal/handler/post_handler.go:144-147 | the least page count whose pages cover the total |
| PostHandler.CeilDivUnique | internal/handler/post_handler.go:144-147 | the ceiling is the only block count that covers n with less than a block to spare |
| PostHandler.TotalPagesAgrees | internal/handler/post_handler.go:146 | while total + pageSize − 1 fits in 64 bits, the written total is the exact ceiling |
| PostHandler.TotalPagesOverflows | internal/handler/post_handler.go:146 | total 2 with page size MaxInt64 reports −1 pages instead of 1 |
| PostHandler.TotalPagesAsWritten | internal/handler/post_handler.go:146 | the as-written page count, with wrapping int64 addition and truncating division. TotalPagesAgrees and TotalPagesOverflows say when it is right and when it is wrong |
| PostHandler.TotalPagesExamples | internal/handler/post_handler.go:144-147 | 0 rows give 0 pages; 40 and 41 rows at 20 per page give 2 and 3 pages (example) |
| PostHandler.TotalPagesCountsPages | internal/handler/post_handler.go:144-147 | totalPages is the number of windows the rows fall into |
| PostHandler.PageNumbering | internal/handler/post_handler.go:114-147 | page k (from 1, up to totalPages) is the k-th window of the rows |
| PostHandler.PastLastPage | internal/handler/post_handler.go:114-147 | a page past totalPages is empty |
| PostHandler.ImageUrls | internal/handler/post_handler.go:156-159 | one URL per image, in order |
| PostHandler.CollectImageUrls | internal/handler/post_handler.go:156-159 | the image loop computes `ImageUrls` |
| PostHandler.Items | internal/handler/post_handler.go:149-184 | one item per post, in page order |
| PostHandler.BuildItems | internal/handler/post_handler.go:149-184 | the item loop computes `Items` |
| PostHandler.ItemAuthor | internal/handler/post_handler.go:151-154 | an item's author id is the post's creator; the name is the found author's username, or "" when absent |
| PostHandler.NormalizeQuery | internal/handler/post_handler.go:114-136 | the normalised page, page size and repository query of the request |
| PostHandler.RespondWithPage | internal/handler/post_handler.go:138-197 | 500 "failed to fetch posts" when the page or the author lookup fails; otherwise 200 with the page meta (the exact page count, the request's sort and filters) and its items |
| PostHandler.ListPostsByPage | internal/handler/post_handler.go:107-198 | an unparsable filter is a 400 with its message; otherwise the response to the normalised query, as above |
| PostHandler.ListedPageBounds | internal/handler/post_handler.go:131-147 | a listed page holds at most pageSize items; the page count covers every matching row; the offset is never negative |
| PostHandler.GetPosts | internal/handler/post_handler.go:79-89 | limit and offset default to 20 and 0; a fetch failure is a 500; otherwise the newest-first window |
| GoStrings.TrimSpaceSurrounded | internal/service/post_service.go:43-45 | TrimSpace removes only white space, from both ends |
| GoStrings.TrimSpaceUnique | internal/service/post_service.go:43-45 | an unpadded slice with white space on both sides is the trimmed string |
| GoStrings.TrimSpaceIdempotent | internal/service/post_service.go:66 | trimming twice is trimming once |
| GoStrings.TrimSpaceOfUnpadded | internal/service/auth_service.go:137 | an unpadded string is its own trim |
| GoStrings.TrimSpaceEmpty | internal/service/post_service.go:47-55 | a string trims to empty exactly when it is all white space |
| GoStrings.ToLower | internal/service/auth_service.go:44 | letter-by-letter lower-casing that keeps the length |
| GoStrings.ToLowerNoUpper | internal/service/auth_service.go:44 | lower-casing leaves no upper-case letter and is idempotent |
| GoStrings.EqualFoldIsLowerEqual | cmd/api/main.go:211 | case-insensitive equality is equality of lower-cased forms |
| GoStrings.EqualFoldReflexive | cmd/api/main.go:211 | every string equals itself ignoring case |
| GoStrings.IndexByte | internal/handler/post_handler.go:294 | −1 exactly when the character is absent; otherwise its first position |
| GoStrings.SplitN2 | cmd/api/main.go:210 | one part when there is no separator; otherwise a head with no separator, then the separator, then the rest |
| GoStrings.SplitN2At | cmd/api/main.go:210 | the cut falls at the first separator |
| PostService.CreatorIds | internal/service/post_service.go:87-98 | the author ids to fetch; `CreatorIdsMembers`, `CreatorIdsDistinct` and `CreatorIdsFirstSeen` state they are exactly the non-empty creators, each once, in first-seen order |
| PostService.KeptUrls | internal/service/post_service.go:63-72 | the image URLs kept for a new post; `KeptUrlsMembers`, `KeptUrlsTrimmed` and `KeptUrlsAppend` state they are exactly the non-blank trimmed URLs, trimmed and in input order |
| PostHandler.ItemOf | internal/handler/post_handler.go:150-183 | one list item per post; `ItemAuthor` states its author, and `Items` puts it at the post's index |
| PostHandler.AuthorName | internal/handler/post_handler.go:151-154 | the creator's username when the creator was found, empty otherwise, as `ItemAuthor` states |
| PostHandler.ParseBound | internal/handler/post_handler.go:223-236 | `ParseBoundShape`: absent when blank after trimming, the parse otherwise, and an error naming the key when the parse fails; `EmptyFiltersHaveNoBound` for an empty map |
| PostHandler.ParseBounds | internal/handler/post_handler.go:223-238 | `FiltersParsed`: success exactly when both bounds parse, into those bounds; time_from's error is reported first |
| PostRepo.Where | internal/repo/post_repo.go:83-88 | the rows meeting every condition, in order; `WhereIsFiltered` shows the two conditions built from the filters select exactly `Filtered` |
| PostRepo.OrderClause | internal/repo/post_repo.go:95-105 | the ORDER BY text; `DefaultOrderClause` gives "created_at DESC" for the default, and `SelectOrder` states which order is chosen |
| AuthService.NormalizeEmail | internal/service/auth_service.go:110 | the address lower-cased, then trimmed; by the `TrimSpace` contract it is unpadded and no longer than the input. `Register`, `Login`, `SendVerificationCode` and `VerifyCode` state their contracts in terms of it |
| AuthService.NewUser | internal/service/auth_service.go:68-72 | the record Register creates: the given username, address and hash, other fields at zero values; `RegisteredUserLogsIn` shows it logs in afterwards |
| UserRepo.IsNotFound | internal/repo/user_repo.go:75-77 | an error is not-found exactly when it is the `NotFound` error; the Register, Login and SendVerificationCode contracts branch on it |
| GoStrings.TrimSpace | cmd/api/main.go:214 | the result is unpadded and no longer than the input; `TrimSpaceSurrounded` and `TrimSpaceUnique` identify it as the slice between the leading and trailing white space |
| GoStrings.EqualFold | cmd/api/main.go:211 | case-insensitive equality; `EqualFoldIsLowerEqual` equates it with equality of lower-cased forms, `EqualFoldReflexive` shows it is reflexive |
| Strconv.Atoi | internal/handler/post_handler.go:204 | a success is an optional sign then digits, in 64-bit range; `AtoiFormatInt` reads back every formatted value, and `AtoiRejectsNonDigit` and `AtoiRejectsBadLead` reject malformed text |
| Hex.HexEncode | cmd/api/main.go:206 | two lower-case hex digits per byte; `HexRoundTrip` and `HexEncodeInjective` show it is decodable and injective |
| GoTypes.Quot | internal/handler/post_handler.go:146 | Go's truncating division: the remainder is below the divisor and takes the sign of the dividend |
| GoTypes.After | internal/service/verification_store.go:43 | strictly later; the `Check` and `Me` contracts use it to state expiry |

## Left out

- HTTP and JSON plumbing is not modelled: gin and net/http handlers, JSON decoding errors ("invalid JSON body", "Invalid login payload"), writeJSON and CORS. The auth handler's mapping of errors to statuses is not modelled either.
- The demo credentials check in loginHandler (`strings.EqualFold` on the demo e-mail and the password comparison) is not modelled. LoginHandler starts from accepted credentials, with the demo user as a parameter.
- The CreatePost HTTP handler is not modelled. It is JSON decoding around the service's CreatePost, plus a 400 that carries the service error's message.
- Server start-up, database setup, migrations, routing and the health handler are configuration, not logic.
- Concurrency is not modelled: the stores' mutexes serialise calls, and the model treats each call as atomic.
- Collaborators are parameters with no implementation: bcrypt hashing and comparison, crypto/rand reads, `time.Now`, and `time.Parse` / `Format` in the RFC 3339 layout.
- AuthService.Register: the user's ID, role and default columns are filled in by the database. The model's created record leaves them at zero values.
- PostService.CreatePost: the post's and images' IDs, timestamps and default counters are assigned by the database on insert. The model returns them as zero values.
- PostRepo.SortBy: the database leaves the order of rows with equal sort keys unspecified. The model keeps them in storage order, which is one of the orders the database may return.
- Comments and their images, which List preloads, are not modelled. Neither are the user's follow lists.
- PostHandler.ChosenSort: Go's map iteration order is unspecified. It is a parameter (`sortKeys`), and the contracts hold for every order.
- GoStrings.ToLower: only ASCII letters are case-mapped. Go maps all Unicode letters.
- GoStrings.EqualFold: only ASCII letters are folded, while Go also folds Unicode letters such as the Kelvin sign with k and the long s with s. At its one call site (main.go:211) one side is "Bearer", which has neither letter, so the model agrees with Go there.
- PostHandler.ExcerptFromBody / PostHandler.ExcerptShape: the source cuts the line at 200 bytes. The model cuts at 200 characters, which is the same only for ASCII text. A multi-byte character cut in half is not modelled.
- GoTypes.Add: `time.Time.Add` keeps times within Go's range near the ends of that range. This clamping is not modelled.
- Go's `int` is modelled as 64 bits, as on the platforms the server targets.
- PostHandler.ListPostsByPage: it uses the corrected `Offset` and `CeilDiv`. The 64-bit wrap-around of the code as written is modelled separately, under Findings.
- PostHandler.NormalizeQuery: it computes the exact `Offset`, not the wrapping `(page - 1) * pageSize` of the code as written (`OffsetAsWritten`).
- PostHandler.RespondWithPage: it reports the exact `CeilDiv` page count, not the wrapping formula of the code as written (`TotalPagesAsWritten`).
- PostRepo.PagesCover / PostHandler.PageNumbering: this coverage of every row, once and in order, holds for one fixed ordering of the rows. In the source, each page is a separate `ORDER BY … LIMIT/OFFSET` query without a tie-break. A database may order posts with equal sort keys differently from one request to the next, and the table may change between requests; either can make paging repeat or skip rows. The lemmas assume ties are ordered the same way on every request and the table does not change. The count and the fetch of one request are likewise treated as seeing the same rows.
- The generated code is the 32-bit random value mod 10^6, so low codes are very slightly more likely than high ones. Every code is still reachable (`AuthService.EveryCodeReachable`). A uniformity claim is not modelled.
- Every verification failure is one error, invalid-verification. The code does not tell an absent or expired code apart from a wrong one, and the model follows it.

## Findings

| source | as written | input that shows it | evidently intended | confidence | as-written member | corrected member |
|---|---|---|---|---|---|---|
| internal/handler/post_handler.go:122 | `offset := (page - 1) * pageSize` in 64-bit `int` | page = 0x4000000000000001, pageSize = 2 gives offset −2^63. The repository then clamps it to 0 and returns the first page. | the offset of the requested page: (page − 1)·pageSize, or an error past the last page | not executed | PostHandler.OffsetAsWritten (shown by PostHandler.OffsetOverflows) | PostHandler.Offset (with PostHandler.PageNumbering) |
| internal/handler/post_handler.go:146 | `(result.Total + int64(pageSize) - 1) / int64(pageSize)` in int64 | total = 2, pageSize = MaxInt64 wraps the numerator, and the reply says −1 total pages | ⌈total / pageSize⌉, here 1 | not executed | PostHandler.TotalPagesAsWritten (shown by PostHandler.TotalPagesOverflows) | PostHandler.CeilDiv (with PostHandler.TotalPagesCountsPages) |
