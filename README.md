# Cat community web app: a verified model of its logic

This project models, in Dafny, the parts of a Next.js web app for cat owners
that hold real logic rather than layout:

- **The login form on the home page** (`LoginValidation`, `HomePage`). It has
  two validators, written as regular expressions: one for e-mail addresses and
  one for passwords. It also has an input sanitiser that deletes the Hangul
  compatibility jamo U+3131–U+3163, the Hangul syllables U+AC00–U+D7A3 and
  `|`, a 16-character password cap, and the address composed from a
  user field and a domain field. A domain select offers a "type it yourself"
  mode, and a submit handler calls the login callback only when both fields
  are valid.
- **The product-search proxy** `GET /api/products` (`ProductsRoute`). The
  handler runs an ordered chain of guards: keyword, then credentials. It then
  signs a request to the marketplace search API, builds the `Authorization`
  header, sends the request and maps the upstream outcome to its own
  response.
- **The post cards of the community feed** (`Community`). Each card keeps a
  like counter and a liked flag that move together. It also keeps a comment
  list that grows only with non-blank comments.
- **The profile page** (`UserProfile`). It shows the user's posts, filtered
  from a fixed sample list, the post count derived from that list, and a
  follow toggle.

`JsString` gives the JavaScript string behaviour the code relies on:
`trim()` with ECMA-262's whitespace set and decimal rendering of a number in
a template literal. It also holds `IndexOf`, the first-occurrence search that
the model's e-mail matcher splits at. `Wrappers` holds
`Option`.

The five code paths are modelled as follows:

- **Regular expressions.** Each one is stated twice. The first is a reading of
  the pattern as written (`EmailPattern`, `PasswordPattern`): existential over
  its groups, with lookaheads as stated. The second is a matcher or a
  plain-words rule. Lemmas prove the two agree.
- **Handlers and effect.** The React component state of the form, the card
  and the profile page becomes classes whose fields are the `useState`
  variables. Each handler, and the e-mail effect, is one atomic method with a
  frame naming exactly the fields it sets.
- **Route.** The handler is a pure function. The HMAC digest
  (`hmacHex(key, message)`, the lower-case hex of HMAC-SHA256 as in section 2
  of RFC 2104), the clock reading (`new Date().toISOString()`, an input
  string) and `fetch` (a function from the outbound request to an `Upstream`
  outcome) are parameters. "Nothing is signed or fetched" is stated as "the
  answer is the same whatever the signer and the upstream would do".
- **Sanitiser.** The class `[ㄱ-ㅎ|ㅏ-ㅣ|가-힣]` contains a literal `|`, because
  `|` inside brackets is a character and not an alternation. So the sanitiser
  also deletes `|`. `|` is also one of the password's special characters. The
  model keeps the code's behaviour. `StoredPasswordNeedsOtherSpecial` and
  `BarOnlyPasswordIsLost` state the consequence: a password whose only special
  character is `|` passes the validator, but the form can never hold it.
- **Truthiness.** JavaScript truthiness of strings becomes `!= ""`. A missing
  query parameter or environment variable becomes `None`.

## Model

| member | source | states |
|---|---|---|
| `LoginValidation.ValidateEmail` | src/components/HomePage.tsx:21-26 | empty input gives the "enter e-mail" message; a non-empty input that does not match the pattern gives the format message; `''` exactly when the input is non-empty and matches local@groups.tld |
| `LoginValidation.MatchEmailCorrect` | src/components/HomePage.tsx:23-24 | the matcher that splits at the first '@' and at each '.' accepts exactly the strings described by `^[\w-\.]+@([\w-]+\.)+[\w-]{2,4}$` |
| `LoginValidation.MatchDomainComplete` | src/components/HomePage.tsx:23 | every string of dotted groups followed by a 2–4 character label is accepted by the domain matcher |
| `LoginValidation.MatchDomainSound` | src/components/HomePage.tsx:23 | every string the domain matcher accepts splits into labelled groups and a 2–4 character final label |
| `LoginValidation.ComposedEmailValid` | src/components/HomePage.tsx:21-26 | `user@domain` is valid exactly when `user` is a valid local part and `domain` a valid domain, whatever either contains |
| `LoginValidation.ValidatePassword` | src/components/HomePage.tsx:28-33 | empty input gives the "enter password" message; `''` exactly when the length is 8–16, there is no line terminator, and there is an ASCII letter, a digit and a listed special character; otherwise the format message |
| `LoginValidation.PasswordPatternIsRule` | src/components/HomePage.tsx:30 | the three lookaheads plus `.{8,16}$` accept exactly the plain-words password rule |
| `LoginValidation.Sanitize` | src/components/HomePage.tsx:46 | the output holds no Hangul compatibility jamo in ㄱ–ㅣ, no syllable in 가–힣 and no `\|`; it is never longer than the input; a clean input is returned unchanged |
| `LoginValidation.SanitizeIdempotent` | src/components/HomePage.tsx:51 | sanitising twice equals sanitising once |
| `LoginValidation.SanitizeConcat` | src/components/HomePage.tsx:46 | the sanitiser works character by character and keeps order: the result for `a + b` is the result for `a` followed by the result for `b` |
| `LoginValidation.SanitizeKeeps` | src/components/HomePage.tsx:77 | a character is in the output exactly when it is in the input and not in the stripped class |
| `LoginValidation.StoredPassword` | src/components/HomePage.tsx:75-82 | the stored password is the first min(16, length) characters of the sanitised input |
| `LoginValidation.StoredPasswordClean` | src/components/HomePage.tsx:77-81 | the stored password is at most 16 characters long and contains no stripped character |
| `LoginValidation.StoredPasswordNeedsOtherSpecial` | src/components/HomePage.tsx:75-84 | a stored password passes the validator only through a special character other than `\|` |
| `LoginValidation.StoredDropsTrailingBar` | src/components/HomePage.tsx:75-81 | a clean password of at most 15 characters typed with a trailing `\|` is stored without it |
| `LoginValidation.BarOnlyPasswordIsLost` | src/components/HomePage.tsx:75-84 | `abcdefg1\|` passes the validator, is stored as `abcdefg1`, and that stored value is rejected |
| `LoginValidation.ComposeEmail` | src/components/HomePage.tsx:36 | the composed address is `''` exactly in direct-input mode with a domain that trims to empty, and `user@domain` otherwise |
| `LoginValidation.ComposedEmailError` | src/components/HomePage.tsx:38-42 | the effect's error is cleared when both fields are empty, and is the validator's answer for the composed address otherwise |
| `LoginValidation.BlankDirectDomainAsksForEmail` | src/components/HomePage.tsx:35-43 | in direct-input mode a blank domain (empty or all whitespace) yields the "enter e-mail" message once either field is filled in |
| `LoginValidation.ComposedErrorClearedIff` | src/components/HomePage.tsx:35-43 | once either field is filled in, the effect clears the error exactly when the user part and the domain are both valid, in either domain mode |
| `LoginValidation.BlankIsNotDomain` | src/components/HomePage.tsx:23 | no all-whitespace string, the empty one included, matches the domain part `([\w-]+\.)+[\w-]{2,4}` |
| `HomePage.LoginForm.constructor` | src/components/HomePage.tsx:13-19 | initial state: empty fields, domain `naver.com`, select mode, no errors; the form invariant holds |
| `HomePage.LoginForm.SyncEmail` | src/components/HomePage.tsx:35-43 | `email` becomes the composed address and `emailError` the effect's error; nothing else changes |
| `HomePage.LoginForm.ChangeEmailUser` | src/components/HomePage.tsx:45-48 | the user field becomes the sanitised input; nothing else changes |
| `HomePage.LoginForm.ChangeDomain` | src/components/HomePage.tsx:50-53 | the domain becomes the sanitised input; nothing else changes |
| `HomePage.LoginForm.SelectDomain` | src/components/HomePage.tsx:55-64 | `direct` sets direct mode and an empty domain; any other value clears direct mode and becomes the domain |
| `HomePage.LoginForm.EmailBlur` | src/components/HomePage.tsx:66-69 | the error becomes the validator's answer for `user@domain` with no direct-input special case; it is cleared exactly when both parts are valid |
| `HomePage.LoginForm.PasswordBlur` | src/components/HomePage.tsx:71-73 | the password error becomes the validator's answer for the stored password |
| `HomePage.LoginForm.ChangePassword` | src/components/HomePage.tsx:75-84 | the password becomes the sanitised input cut to 16 characters, and its error that password's validation; the invariant (clean, at most 16 characters) is kept |
| `HomePage.LoginForm.IsFormInvalid` | src/components/HomePage.tsx:99-101 | the button is enabled exactly when the address is non-empty and matches the e-mail pattern and the password meets the password rule |
| `HomePage.LoginForm.Submit` | src/components/HomePage.tsx:86-97 | both errors are overwritten with fresh answers; the login callback is called exactly when both are `''`, which is exactly when the button was enabled |
| `JsString.Trim` | src/app/community/page.tsx:46 | `trim()` is empty exactly when the string is all ECMA-262 whitespace, and a non-empty result starts and ends with a non-whitespace character |
| `JsString.TrimIsSlice` | src/app/community/page.tsx:46 | `trim()` is one slice of the string, with only ECMA-262 whitespace before and after it |
| `JsString.DecimalRoundTrip` | src/app/api/products/route.ts:51 | reading the decimal rendering of a number back gives the same number |
| `ProductsRoute.Timestamp` | src/app/api/products/route.ts:23 | the timestamp is the first 19 characters of the clock string followed by `Z` (length 20 for any clock string of at least 19 characters) |
| `ProductsRoute.TimestampDropsFraction` | src/app/api/products/route.ts:23 | for a `toISOString` value the timestamp has the form `YYYY-MM-DDTHH:MM:SSZ`: the same instant with its milliseconds removed and no '.' |
| `ProductsRoute.SigningMessage` | src/app/api/products/route.ts:21-25 | the message is the datetime, then `POST`, then the fixed path, with no separators |
| `ProductsRoute.SigningMessageInjective` | src/app/api/products/route.ts:25 | different timestamps give different signing messages |
| `ProductsRoute.AuthorizationHeader` | src/app/api/products/route.ts:32 | the header is `CEA-HMAC-SHA256 AccessKey=<access>, SignedHeaders=x-cea-date, Signature=<sig>`, with each part at its fixed offset |
| `ProductsRoute.AuthorizationHeaderDeterminesSignature` | src/app/api/products/route.ts:27-32 | for a given access key the header determines the signature |
| `ProductsRoute.SignedRequest` | src/app/api/products/route.ts:21-46 | the outbound request goes to the gateway URL with method POST and JSON content type; `X-CEA-Date` is the timestamp and the signature is the HMAC of that same timestamp's message; the body carries the keyword and limit 50 |
| `ProductsRoute.Prepare` | src/app/api/products/route.ts:9-32 | no keyword gives 400 `Keyword is required`; a keyword without both credentials gives 500 `Server configuration error`; a request is sent exactly when all three are present |
| `ProductsRoute.UpstreamError` | src/app/api/products/route.ts:51 | the failure message is the fixed prefix followed by the upstream status in decimal, which has no leading zero and reads back as that status |
| `ProductsRoute.Relay` | src/app/api/products/route.ts:34-60 | a non-OK status passes through with its message when `NextResponse.json` accepts it with a body (200–599, not a null body status), and otherwise the throw becomes 500; OK with parsed JSON is relayed unchanged with 200; a rejected fetch, an unreadable body or an unparsable OK body gives 500 `Failed to fetch data from Coupang API` |
| `ProductsRoute.Get` | src/app/api/products/route.ts:5-61 | status 200 comes exactly with relayed data; every other answer is an `{ error }` object with a status of 300–599 that a `Response` accepts with a body (never 304) |
| `ProductsRoute.MissingKeywordRejected` | src/app/api/products/route.ts:9-11 | without a keyword the answer is 400 and does not depend on the credentials, the clock, the signer or the upstream |
| `ProductsRoute.MissingCredentialRejected` | src/app/api/products/route.ts:13-19 | with a keyword and a missing or empty credential the answer is 500 and does not depend on the clock, the signer or the upstream |
| `ProductsRoute.SignedRequestForwarded` | src/app/api/products/route.ts:21-55 | with all inputs present, exactly the signed request is sent and the answer is the upstream outcome's mapping |
| `ProductsRoute.UpstreamFailurePassesStatus` | src/app/api/products/route.ts:48-59 | on a readable non-OK reply the answer keeps the upstream status exactly when a `Response` accepts it with a body, with the status readable from the message; otherwise the answer is the generic 500 |
| `ProductsRoute.NotModifiedBecomesFetchFailed` | src/app/api/products/route.ts:51-59 | a 304 reply makes building the error response throw, so the answer is 500 `Failed to fetch data from Coupang API` |
| `Community.InitialPostKeysDistinct` | src/app/community/page.tsx:25-30 | the sample feed has four posts, and no two share the `id` used as the card's key |
| `Community.PostCard.constructor` | src/app/community/page.tsx:33-37 | the card starts with the post's likes, not liked, the post's comments and an empty field; the likes invariant holds |
| `Community.PostCard.HandleLike` | src/app/community/page.tsx:39-42 | flips the liked flag; decrements the counter when it was liked and increments it otherwise; keeps likes == initial + (liked ? 1 : 0) |
| `Community.LikeTwiceRestores` | src/app/community/page.tsx:39-42 | two likes in a row restore both the counter and the flag |
| `Community.PostCard.EditComment` | src/app/community/page.tsx:94 | the typed comment becomes the input value |
| `Community.PostCard.SendDisabled` | src/app/community/page.tsx:98 | the send button is disabled exactly when the typed comment is all whitespace |
| `Community.PostCard.HandleCommentSubmit` | src/app/community/page.tsx:44-50 | a non-blank comment is appended untrimmed as `{user: '나', text}` after the earlier ones and the field is cleared; a blank one changes nothing; likes never change and the list never shrinks |
| `UserProfile.UserPosts` | src/components/UserProfileClient.tsx:24 | the gallery is never longer than the list and holds only the user's posts from it |
| `UserProfile.UserPostsMembership` | src/components/UserProfileClient.tsx:24 | a post is in the gallery exactly when it is in the list and belongs to the user |
| `UserProfile.UserPostsConcat` | src/components/UserProfileClient.tsx:24 | the filter keeps the original order: filtering a concatenation concatenates the filtered parts |
| `UserProfile.UserPostsNone` | src/components/UserProfileClient.tsx:24 | a user with no posts gets an empty gallery |
| `UserProfile.Profile` | src/components/UserProfileClient.tsx:27-34 | the shown post count is the gallery's length; name, follower and following counts are as given |
| `UserProfile.SampleProfiles` | src/components/UserProfileClient.tsx:7-14 | in the sample data 냥집사123 has posts 1, 3 and 5 in that order, so the count is 3; 집사생활 has none, so the count is 0 |
| `UserProfile.FollowLabel` | src/components/UserProfileClient.tsx:47 | the label is 팔로잉 exactly when following, and 팔로우 otherwise |
| `UserProfile.ProfileView.constructor` | src/components/UserProfileClient.tsx:17 | `isFollowing` starts false |
| `UserProfile.ProfileView.HandleFollow` | src/components/UserProfileClient.tsx:19-21 | flips `isFollowing` |
| `UserProfile.FollowTwiceRestores` | src/components/UserProfileClient.tsx:19-21 | two follow clicks restore the original state |

## Left out

- Strings are sequences of Dafny `char`s, each standing for one UTF-16 code unit. Characters outside the Basic Multilingual Plane, which JavaScript counts as two code units in `length`, `slice` and `.`, and lone surrogates are not modelled.
- Rendering, styling, `cn`, icons and images are not modelled. React's scheduling is not modelled either: each handler and the e-mail effect is an atomic transition. The effect's run after the first render is `SyncEmail`, called like any other transition, and is not folded into the constructor.
- The background-image upload (`handleImageUpload`, `FileReader`) is browser I/O and is not modelled.
- `console.log` and `console.error` are not modelled. The upstream error body read by `response.text()` is only logged, so the model keeps only whether it could be read.
- `ProductsRoute.Relay`: which upstream statuses can arrive is up to `fetch`. The model allows any three-digit status from 200 to 999, but not the interim 1xx replies, which `fetch` consumes.
- HMAC-SHA256, `fetch`, JSON parsing and serialisation, and the system clock are parameters of `ProductsRoute.Get`. The model does not check that `hmacHex` really is HMAC-SHA256 or that it yields lower-case hex. The outbound body is a record `{keyword, limit}`, not its JSON text.
- `ProductsRoute.TimestampDropsFraction` covers `toISOString` values for years 0 to 9999. For the extended `±YYYYYY` form the first 19 characters cut into the time. `ProductsRoute.Timestamp` still models that cut exactly, but no lemma describes it.
- Likes are unbounded integers; JavaScript's 2^53 limit on exact integers is not modelled.
- The hospital finder (floating-point distances, the map SDK, `alert`), the navigation bar, the logged-in home page, the layout and the product category pages are not part of this model. The category slug-to-name table and the `고양이 ` keyword prefix live in a file that is not part of this model.
