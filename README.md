# Prisma_demo core, modelled in Dafny

Prisma_demo is a NestJS news backend with three resources (news, categories, users), password
registration and login, and a bearer-token guard. This project models its decision logic:

- the **list query** shared by the three `getList` endpoints (`ListQuery`):
  - `Number(x) || default` normalisation of `items_per_page` and `page`;
  - substring search OR-ed over each entity's text fields;
  - per-entity ordering;
  - `skip`/`take` paging;
  - a `total` counted over the same filter;
- the **id-keyed operations** of the news, category and user services: `getDetail` and the
  writes, each with its success messages and the mapping of every storage failure to BAD_REQUEST
  (`NewsService`, `CategoryService`, `UserService`);
- the **auth core**: `register` (check, then insert, keyed by phone, storing `hash(password, 10)`)
  and `login` (one UNAUTHORIZED answer for an unknown phone and for a wrong password; token over
  `{id, name, phone}`; user returned without its password) (`AuthService`);
- the **bearer-header parsing** and outcome of `JwtAuthGuard.canActivate` (`Guard`);
- the **DTO validators**:
  - the Vietnamese mobile-number pattern, written as a regular-expression value and proved
    equivalent to a direct description, including the literal `|` its bracket classes admit;
  - length, required and integer rules, as sets of violation messages (`Regex`, `Validation`).

The database is an in-memory store, the class `Storage.Database`:
- one sequence of rows per table, plus the next id of each table;
- methods that either succeed or fail like Prisma does:
  - `RecordNotFound` for an absent id;
  - `ForeignKeyViolation` for a news with a dangling owner or category, and for deleting a
    category still referenced by a news (a schema assumption, see "Left out");
  - `UniqueViolation` for a duplicate phone;
  - a `fault` parameter for failures the model cannot see.
- `Valid()` keeps ids unique and below the next id, phones unique, and every news pointing to an
  existing user and category.

bcrypt and the JWT service are function-typed parameters (`Crypto`). The secrets and the clock
are parameters too.

Cross-component properties live in `AuthService` and `Flows`:
- registering and then logging in succeeds;
- the token from a successful login, presented as `Bearer <token>`, passes the guard with the
  user's claims.

Where the code and its description differ, the model follows the code. `register` and `create`
return the stored row with its password hash; of the three account operations only `login`
removes it (the user service's `getAll` never selects it either). The access token alone is
returned. The refresh token is signed and discarded.

## Model

| member | source | states |
|---|---|---|
| Tables.Find | src/news/news.service.ts:53 | `findUnique` by key: `None` exactly when no row has the key; otherwise a row of the table with that key |
| Tables.Replace | src/news/news.service.ts:81-84 | `update` by key: same length; every row with the key becomes the new row, every other row stays in place |
| Tables.Remove | src/news/news.service.ts:100 | `delete` by key: exactly the rows without the key remain, all from the table |
| Tables.RemoveOne | src/news/news.service.ts:100 | with unique keys, deleting a present key drops exactly one row |
| Tables.FindAfterReplace | src/news/news.service.ts:81-84 | after an update a lookup of the key gives the new row, and lookups of every other key are unchanged |
| Tables.FindAfterRemove | src/news/news.service.ts:100 | after a delete the key is absent, and lookups of every other key are unchanged |
| Tables.FindAfterAppend | src/news/news.service.ts:65 | after an insert under a fresh key that key finds the new row, and other lookups are unchanged |
| Tables.Filter | src/news/news.service.ts:24-30 | the `where` filter: the selected rows are exactly the table rows satisfying the predicate |
| Tables.FilterMultiset | src/news/news.service.ts:24-30 | a row's number of occurrences after filtering is its count in the table if it is selected, zero otherwise |
| Tables.FilterCongruent | src/news/news.service.ts:34-42 | two filters that agree on every row select the same rows, so `findMany` and `count` agree whenever their `where` clauses do |
| Text.Contains | src/news/news.service.ts:26 | `contains`: the empty search is contained in every string, and a contained search is never longer than the text |
| Text.ContainsIffOccurs | src/news/news.service.ts:26 | `contains: search` holds exactly when the search string occurs at some position |
| Text.EmptyContained | src/news/news.service.ts:17 | the default search `''` occurs in every string |
| Text.Split | src/auth/jwt.guard.ts:16 | `split(' ')` yields at least one piece, and no piece contains a space |
| Text.JoinSplit | src/auth/jwt.guard.ts:16 | joining the pieces with spaces gives back the header |
| Text.SplitJoin | src/auth/jwt.guard.ts:16 | splitting space-free pieces joined by spaces gives back the pieces |
| Text.SplitAfterPrefix | src/auth/jwt.guard.ts:16 | a space after a space-free prefix ends the first piece there |
| Text.SplitHead | src/auth/jwt.guard.ts:16 | the first piece is the longest space-free prefix |
| Ordering.Insert | src/news/news.service.ts:31 | inserting into a descending sequence keeps it descending and adds exactly one row |
| Ordering.SortDesc | src/news/news.service.ts:31 | `orderBy: desc`: the result is a permutation of the input, sorted by descending key |
| Ordering.SortDescSameRows | src/news/news.service.ts:31 | ordering neither adds nor drops rows |
| ListQuery.OrDefault | src/news/news.service.ts:15-16 | `Number(x) \|\| d`: a non-zero integer passes through unchanged (no clamping); absent, non-numeric or zero gives `d` |
| ListQuery.ItemsPerPage | src/news/news.service.ts:15 | `Number(items_per_page) \|\| 10` is never zero, is below one exactly when a negative number was sent, and a positive number passes through |
| ListQuery.CurrentPage | src/news/news.service.ts:16 | `Number(page) \|\| 1` is never zero, is below one exactly when a negative number was sent, and a positive number passes through |
| ListQuery.Search | src/news/news.service.ts:17 | `search \|\| ''` is the sent search, or a string every text contains |
| ListQuery.Skip | src/news/news.service.ts:19 | `(page - 1) * items_per_page` is zero exactly on the first page and never smaller than `page - 1` |
| ListQuery.PageableIff | src/news/news.service.ts:15-19 | the normalised page and size are positive exactly when neither input is a negative number |
| ListQuery.Slice | src/news/news.service.ts:22-23 | `skip`/`take`: at most `take` rows, exactly `min(take, n - skip)` of them, each the row at offset `skip + i` |
| ListQuery.MatchingIff | src/news/news.service.ts:24-30 | a row is selected iff it is in the table and the search occurs in one of its designated fields |
| ListQuery.Resolve | src/news/news.service.ts:14-50 | the envelope echoes the normalised page and size; `data` is at most one page of selected rows, sorted descending; `total` is the number of selected rows |
| ListQuery.ResolveWindow | src/news/news.service.ts:19-32 | `data` is exactly the window `[skip, skip + items_per_page)` of the ordered selected rows |
| ListQuery.TotalIgnoresPaging | src/news/news.service.ts:34-42 | `total` is the same for every page and page size with the same search |
| ListQuery.EmptyFilterIsDefault | src/news/news.service.ts:15-17 | `{}` behaves exactly like page 1, 10 per page, empty search, and the envelope says so |
| ListQuery.EmptySearchMatchesAll | src/news/news.service.ts:17 | an empty search selects every row |
| ListQuery.PastLastPageEmpty | src/news/news.service.ts:19-32 | a page past the last one has no data, while `total` still counts every selected row |
| ListQuery.SecondPageOfSix | src/news/news.service.ts:19-32 | with six selected rows and four per page, page 2 holds exactly the fifth and sixth ordered rows |
| ListQuery.RowOnItsPage | src/news/news.service.ts:19-32 | paging covers every row: the k-th ordered row is item k mod n of page k div n + 1 |
| Storage.NewUser | src/user/user.service.ts:95-97 | the inserted user has the given id and creation time, no `updatedAt`, and exactly the body's name, phone and password |
| Storage.Column | src/news/dtos/news.dto.ts:9-10 | an `@IsOptional()` text field fills its nullable column exactly when it is sent with a value; left out or `null`, the column is empty |
| Storage.NewNews | src/news/news.service.ts:65 | the inserted news has the given id and creation time and the body's title, status, owner and category; `content` is stored exactly when it was sent with a value |
| Storage.NewCategory | src/category/category.service.ts:60-62 | the inserted category has the given id and the body's name; `description` is stored exactly when it was sent with a value |
| Storage.PatchNews | src/news/news.service.ts:81-84 | an update overwrites the supplied columns and keeps id and creation time; `content` is kept when omitted, cleared when sent as `null`, and replaced when sent with a value |
| Storage.PatchCategory | src/category/category.service.ts:78-81 | an update overwrites the name and keeps the id; `description` is kept when omitted, cleared when sent as `null`, and replaced when sent with a value |
| Storage.Database.CreateUser | src/user/user.service.ts:95-97 | inserts the user under the next id unless the phone is taken (unique violation); keeps the invariant |
| Storage.Database.CreateNews | src/news/news.service.ts:65 | inserts the news under the next id exactly when it is fault-free and its owner and category exist; otherwise nothing changes |
| Storage.Database.UpdateNews | src/news/news.service.ts:81-84 | overwrites the keyed news exactly when it exists and its new references exist; otherwise nothing changes |
| Storage.Database.DeleteNews | src/news/news.service.ts:100 | removes the keyed news exactly when it exists and returns it; otherwise nothing changes |
| Storage.Database.CreateCategory | src/category/category.service.ts:60-62 | inserts the category under the next id unless a fault occurs |
| Storage.Database.UpdateCategory | src/category/category.service.ts:78-81 | overwrites the keyed category exactly when it exists; otherwise nothing changes |
| Storage.Database.DeleteCategory | src/category/category.service.ts:97-99 | removes the keyed category exactly when it exists and no news references it; otherwise nothing changes |
| NewsService.FieldsMatchIff | src/news/news.service.ts:25-29 | searching the title, owner name and category name is exactly the OR of the three `contains` conditions |
| NewsService.GetList | src/news/news.service.ts:14-50 | the envelope echoes page and size; `data` holds at most one page of matching news, newest first; `total` counts every matching news |
| NewsService.EmptySearchCountsAll | src/news/news.service.ts:17 | with an empty search, `total` is the number of news |
| NewsService.GetDetail | src/news/news.service.ts:52-61 | the news with the id exactly when one exists, else NOT_FOUND "Không tìm thấy bài viết! " |
| NewsService.DetailAfterCreate | src/news/news.service.ts:63-69 | after `create`, `getDetail` of the new id gives the new news; other ids are unaffected |
| NewsService.DetailAfterUpdate | src/news/news.service.ts:79-88 | after `update`, `getDetail` of the id gives the patched news; other ids are unaffected |
| NewsService.DetailAfterDelete | src/news/news.service.ts:98-103 | after `delete`, `getDetail` of the id is NOT_FOUND; other ids are unaffected |
| NewsService.Create | src/news/news.service.ts:63-77 | succeeds iff no fault and owner and category exist; then appends the news and replies "Đã tạo bài viết " + title; else BAD_REQUEST with the generic message and no change |
| NewsService.Update | src/news/news.service.ts:79-96 | succeeds iff no fault, the id exists and the references exist; then replaces only that news and replies "Đã cập nhật bài viết " + title; else BAD_REQUEST, no change |
| NewsService.Delete | src/news/news.service.ts:98-111 | succeeds iff no fault and the id exists; then removes only that news and replies "Đã xóa bài viết " + its title; else BAD_REQUEST, no change |
| CategoryService.GetList | src/category/category.service.ts:18-46 | the envelope echoes page and size; `data` holds at most one page of categories whose name contains the search, highest id first; `total` counts them all |
| CategoryService.EmptySearchCountsAll | src/category/category.service.ts:21 | with an empty search, `total` is the number of categories |
| CategoryService.GetDetail | src/category/category.service.ts:48-56 | the category with the id exactly when one exists, else NOT_FOUND "Không tìm thấy danh mục!" |
| CategoryService.DetailAfterCreate | src/category/category.service.ts:58-66 | after `create`, `getDetail` of the new id gives the new category; other ids are unaffected |
| CategoryService.DetailAfterUpdate | src/category/category.service.ts:76-85 | after `update`, `getDetail` of the id gives the patched category; other ids are unaffected |
| CategoryService.DetailAfterDelete | src/category/category.service.ts:95-102 | after `delete`, `getDetail` of the id is NOT_FOUND; other ids are unaffected |
| CategoryService.Create | src/category/category.service.ts:58-74 | succeeds iff no fault; then appends and replies "Tạo thành công danh mục " + name; else BAD_REQUEST with the generic message |
| CategoryService.Update | src/category/category.service.ts:76-93 | succeeds iff no fault and the id exists; then replaces only that category and replies "Cập nhật thành công danh mục " + name; else BAD_REQUEST, no change |
| CategoryService.Delete | src/category/category.service.ts:95-110 | succeeds iff no fault, the id exists and no news references it; then removes only that category and replies "Xóa thành công danh mục " + name; else BAD_REQUEST, no change |
| UserService.WithoutPassword | src/user/dtos/user.dto.ts:21-27 | `UserResponseDto` carries every column of the user except the password |
| UserService.GetAll | src/user/user.service.ts:20-36 | one entry per stored user in table order, without password; `updatedAt` is always present: the stored value, or `createdAt` when there is none |
| UserService.GetAllKeepsUpdated | src/user/user.service.ts:30-33 | an entry equals the stored user minus its password exactly when the user has an `updatedAt` |
| UserService.FieldsMatchIff | src/user/user.service.ts:48-50 | searching name and phone is exactly the OR of the two `contains` conditions |
| UserService.GetList | src/user/user.service.ts:38-66 | the envelope echoes page and size; `data` holds at most one page of stored user rows, password hash included, whose name or phone contains the search, newest first; `total` counts them all |
| UserService.EmptySearchCountsAll | src/user/user.service.ts:41 | with an empty search, `total` is the number of users |
| UserService.GetDetail | src/user/user.service.ts:68-79 | the user with the id exactly when one exists, else NOT_FOUND "Không tìm thấy người dùng!" |
| UserService.Hashed | src/user/user.service.ts:93-96 | the inserted row is the body with the password replaced by `hash(password, 10)` |
| UserService.Create | src/user/user.service.ts:82-103 | a taken phone gives BAD_REQUEST "Số điện thoại đã được đăng ký" and no change; otherwise appends the user with the hashed password and replies with the stored row |
| AuthService.ClaimsOf | src/auth/auth.service.ts:61-65 | the token payload is exactly the user's id, name and phone |
| AuthService.Register | src/auth/auth.service.ts:15-38 | a taken phone gives BAD_REQUEST and no change; otherwise appends the user with `hash(password, 10)` and replies "Đăng ký tài khoản thành công" with the stored row |
| AuthService.Login | src/auth/auth.service.ts:40-79 | succeeds iff a user has the phone and the password matches its hash; then the access token is signed over that user's claims with the access key for "30m" and the user is returned without password; otherwise UNAUTHORIZED "Tài khoản hoặc mật khẩu không hợp lệ!" |
| AuthService.LoginFailuresAlike | src/auth/auth.service.ts:45-59 | an unknown phone and a wrong password produce the identical answer |
| AuthService.LoginAfterRegister | src/auth/auth.service.ts:27-32 | after registering, logging in with the same phone and password succeeds for the new user, given that `compare(p, hash(p, 10))` holds |
| Guard.ExtractToken | src/auth/jwt.guard.ts:12-18 | a missing or empty header gives "Không tìm thấy token!"; any other rejected header gives "Token không hợp lệ!"; an extracted token is non-empty and space-free |
| Guard.ExtractTokenIff | src/auth/jwt.guard.ts:16-18 | a non-empty header yields token t exactly when it reads `Bearer`, one space, t, then nothing or a space |
| Guard.ExtraPiecesIgnored | src/auth/jwt.guard.ts:16 | anything after a second space is ignored |
| Guard.AcceptedShape | src/auth/jwt.guard.ts:16-18 | an accepted header is longer than seven characters, starts with `Bearer`, then one space, then a character that is not a space |
| Guard.LowerCaseSchemeMalformed | src/auth/jwt.guard.ts:18 | the scheme is case-sensitive: `bearer <t>` is rejected as malformed |
| Guard.NoSpaceMalformed | src/auth/jwt.guard.ts:16-18 | a non-empty header without a space, the bare `Bearer` included, is rejected as malformed |
| Guard.DoubleSpaceMalformed | src/auth/jwt.guard.ts:16-18 | `Bearer` followed by two spaces is rejected as malformed, whatever follows |
| Guard.Authenticate | src/auth/jwt.guard.ts:20-28 | admits exactly when a token is extracted and verifies with the access key, yielding its claims; a token that fails to verify gives "Token không tồn tại hoặc không hợp lệ!"; every rejection is UNAUTHORIZED |
| Guard.Request.constructor | src/auth/jwt.guard.ts:11-12 | a request carries its header and no user yet |
| Guard.CanActivate | src/auth/jwt.guard.ts:10-29 | returns true and attaches the verified claims as `request.user` exactly when authentication succeeds; otherwise the request is untouched and the error is the authentication error |
| Flows.LoginTokenOpensGuard | src/auth/jwt.guard.ts:16-24 | the access token of a successful login, sent as `Bearer <token>`, passes the guard with the logged-in user's id, name and phone |
| Regex.ClassHasIff | src/auth/dtos/auth.dto.ts:6 | a bracket class holds a character iff one of its items does |
| Regex.FiveHas | src/auth/dtos/auth.dto.ts:6 | `[6\|8\|9]` holds 6, 8, 9 and the character `\|` |
| Regex.SevenHas | src/auth/dtos/auth.dto.ts:6 | `[0\|6-9]` holds 0, 6 to 9 and the character `\|` |
| Regex.RangeHas | src/auth/dtos/auth.dto.ts:6 | a one-range class holds exactly the characters of the range |
| Regex.DigitsIff | src/auth/dtos/auth.dto.ts:6 | `[0-9]{n}` matches exactly the strings of n digits |
| Regex.CodeIff | src/auth/dtos/auth.dto.ts:6 | a digit followed by a class matches exactly two characters: that digit and a class member |
| Regex.CarrierIff | src/auth/dtos/auth.dto.ts:6 | the carrier group matches exactly 3[2-9], 5 then 6/8/9/`\|`, 7 then 0/`\|`/6-9, 8[1-9] and 9[0-9] |
| Regex.RestIff | src/auth/dtos/auth.dto.ts:6 | after the prefix, the pattern matches exactly a carrier code and seven digits |
| Regex.PrefixIff | src/auth/dtos/auth.dto.ts:6 | `(0\|\+84)` matches exactly `0` and `+84` |
| Regex.Assemble | src/auth/dtos/auth.dto.ts:6 | a prefix, a carrier code and seven digits form a mobile number |
| Regex.SoundAt | src/auth/dtos/auth.dto.ts:6 | any split of a matched string into prefix and rest gives a mobile number |
| Regex.PhonePatternSound | src/auth/dtos/auth.dto.ts:6 | every string the pattern accepts is a mobile number |
| Regex.PhonePatternComplete | src/auth/dtos/auth.dto.ts:6 | every mobile number is accepted |
| Regex.PhonePatternIff | src/auth/dtos/auth.dto.ts:6 | the anchored pattern, written as the `Regex` value `PhonePattern` and matched whole by `FullMatch`, accepts a string exactly when it is `0` or `+84`, a carrier code, then seven digits |
| Regex.MobileLength | src/auth/dtos/auth.dto.ts:6 | a mobile number has 10 characters after `0` and 12 after `+84` |
| Regex.PhoneLength | src/auth/dtos/auth.dto.ts:6 | every accepted number has length 10 (prefix `0`) or 12 (prefix `+84`) |
| Regex.PhoneAccepts | src/auth/dtos/auth.dto.ts:6 | `0358624125`, `+84912345678`, and `05\|1234567` and `07\|1234567` (the literal `\|`) are accepted |
| Regex.PhoneRejects | src/auth/dtos/auth.dto.ts:6 | carrier code 12, a nine-digit number and a missing `+` are rejected |
| Validation.Holds | src/auth/dtos/auth.dto.ts:5-16 | no decorator accepts null or undefined; the length and pattern decorators accept only strings, and the number decorators only numbers |
| Validation.Failing | src/news/dtos/news.dto.ts:12-14 | one violation per failing decorator: each failing decorator's message is reported, and nothing else is |
| Validation.Property | src/category/dtos/category.dto.ts:7-8 | an `@IsOptional()` property that is null or undefined has no violations; otherwise its violations are those of its failing decorators |
| Validation.RegisterViolations | src/auth/dtos/auth.dto.ts:3-18 | `RegisterDto`'s decorators, property by property; every violation names `phone`, `name` or `password` |
| Validation.LoginViolations | src/auth/dtos/auth.dto.ts:20-31 | `LoginDto`'s decorators; every violation names `phone` or `password` |
| Validation.CreateUserViolations | src/user/dtos/user.dto.ts:4-19 | `CreateUserDto`'s decorators; every violation names `phone`, `name` or `password` |
| Validation.NewsViolations | src/news/dtos/news.dto.ts:4-46 | the news DTO's decorators; every violation names `title`, `status`, `ownerId` or `categoryId`, never the optional `content` |
| Validation.CategoryViolations | src/category/dtos/category.dto.ts:3-17 | the category DTO's decorators; every violation names `name`, never the optional `description` |
| Validation.RegisterAccepts | src/auth/dtos/auth.dto.ts:3-18 | a `RegisterDto` passes iff the phone is a mobile number, the name has 2+ characters and the password 6+ |
| Validation.LoginAccepts | src/auth/dtos/auth.dto.ts:20-31 | a `LoginDto` passes iff the phone is a mobile number (same pattern) and the password has 6+ characters |
| Validation.PhoneRulesIff | src/auth/dtos/auth.dto.ts:5-9 | `@IsNotEmpty` plus `@Matches` with the phone pattern admit exactly the mobile numbers, whatever the messages |
| Validation.NameChecksIff | src/user/dtos/user.dto.ts:11-14 | the `CreateUserDto` name decorators admit exactly the strings of 6 to 30 characters |
| Validation.CreateUserAccepts | src/user/dtos/user.dto.ts:4-19 | a `CreateUserDto` passes iff the phone is a mobile number, the name has 6 to 30 characters and the password 6+ |
| Validation.CreateUserStricter | src/user/dtos/user.dto.ts:11-14 | every body `CreateUserDto` accepts is also accepted by `RegisterDto` |
| Validation.ShortNameRegistersOnly | src/user/dtos/user.dto.ts:16 | a two-letter name registers but fails `CreateUserDto` with "Tên phải có ít nhất 6 ký tự" |
| Validation.CategoryIdChecksIff | src/news/dtos/news.dto.ts:20-23 | the `categoryId` decorators admit exactly the integers |
| Validation.NonNumberCategoryId | src/news/dtos/news.dto.ts:20-23 | a `categoryId` that is not a number fails both `@IsInt` and `@IsNumber`, and both violations, with the same message, are reported |
| Validation.NewsAccepts | src/news/dtos/news.dto.ts:4-46 | a news body (create or update) passes iff the title has 1 to 100 characters and status, ownerId and categoryId are integers; `content` is unconstrained |
| Validation.CategoryAccepts | src/category/dtos/category.dto.ts:3-17 | a category body (create or update) passes iff the name is present and not `""`; `description` is unconstrained |
| Validation.MissingPhoneMessages | src/auth/dtos/auth.dto.ts:5-9 | a missing phone reports both "Không bỏ trống số điện thoại!" and "Số điện thoại không hợp lệ" |

## Left out

- Prisma's query engine and the database are modelled by the in-memory `Storage.Database`. Storage failures the model cannot see (connection loss and the like) arrive as the `fault` parameter.
- Text.Contains: the match is case-sensitive. Whether Prisma's `contains` ignores case depends on the database collation, which is not part of this model.
- ListQuery.Resolve: requires the normalised page and page size to be positive. A negative `page` or a negative `items_per_page` gives a negative `skip` or `take` (zero falls back to the default) whose effect is decided by Prisma and is not modelled. The same precondition applies to NewsService.GetList, CategoryService.GetList and UserService.GetList.
- ListQuery.OrDefault: `Number(x)` is modelled only as absent, not-a-number or an exact integer `Int(n)`, which stands for an integer of magnitude below 2^53. In the source the value is a double, so a larger input is rounded: `?page=9007199254740993` gives `current_page` 9007199254740992, while ListQuery.CurrentPage and ListQuery.ItemsPerPage pass it through unchanged. Fractional values and JavaScript's full numeric string grammar are not modelled either.
- ListQuery.Skip: `(page - 1) * items_per_page` is exact here and double arithmetic in the source. A `skip` or `take` beyond the integer range Prisma accepts makes `findMany` throw, and `getList` does not catch it, so the request fails. The model instead answers with a page: empty past the last match, as ListQuery.PastLastPageEmpty states. Out-of-range errors are not modelled.
- NewsService.GetList: requires unique user and category ids, which `Storage.Database.Valid` guarantees. It reads `findMany` and `count` from one snapshot.
- bcrypt and the JWT service: `hash`, `compare`, `signAsync` and `verifyAsync` are function-typed parameters. Salts, signatures, the clock and the expiry strings are not interpreted.
- AuthService.Login: does not model the refresh token. It is signed with the refresh key for "7d" and then discarded, so it has no observable effect on the reply.
- Guard.Authenticate: every `verifyAsync` failure (bad signature, expiry, malformed token) is one `None` from the verifier. The `iat`/`exp` claims a real verifier adds to the payload are not modelled.
- UserService.Create and AuthService.Register: storage failures other than a duplicate phone are not modelled. The source has no handler for them there.
- The check-then-insert race in `register` and `create` between concurrent requests is not modelled; the model is sequential.
- `getAll` of the news and category services returns the whole table unchanged, with no logic to model.
- Controllers and module wiring are not modelled: routes, guards, the `ValidationPipe` set-up (`whitelist` removes unknown properties) and CORS. The guard on the user list route is commented out (src/user/user.controller.ts:19), so that list is reachable without a token.
- Validation.Holds: lengths are counted in code points. class-validator does not count the Unicode variation selectors U+FE0E and U+FE0F; the model does. `Num(x)` stands for a finite double after `JSON.parse`, so `IsNumber` accepts every `Num`. An out-of-range literal such as `1e400` parses to Infinity, which `IsNumber` rejects, and a literal such as `1.00000000000000001` is rounded to an integer; neither overflow nor rounding is modelled.
- Ordering.SortDesc: ties between equal keys are broken by table position (the sort is stable by construction). The database promises no order among rows with equal `createdAt`, and may order them differently in separate `findMany` calls. So for news and users, ListQuery.ResolveWindow, ListQuery.SecondPageOfSix and ListQuery.RowOnItsPage hold only when the database breaks ties the same way. For categories the sort key is the unique id, so they hold as stated.
- Storage.Database.DeleteCategory: the `ForeignKeyViolation` when a news still references the category assumes the relation restricts deletes, Prisma's default. The schema is not part of this model; with `onDelete: Cascade` or `SetNull` the delete would succeed. CategoryService.Delete inherits this assumption.
- Common.HttpError: one shape for every error. `register`, `login` and `create` throw `HttpException({ message }, status)` (src/auth/auth.service.ts:21, src/user/user.service.ts:87), whose body is that object alone, with no `statusCode`. The other services pass a string, whose body is `{ statusCode, message }`. The body format is not modelled.
- Validation.Failing: returns a set of violations. `ValidationPipe` reports an ordered list of messages per property; the set keeps every failing decorator (each violation carries its rule, so `categoryId`'s two "Danh mục không hợp lệ" are two elements) but not their order.
- `console.log` calls and HTTP status numbers beyond the three statuses raised are not modelled.
