# List-query construction of `GET /posts`

This project models the one piece of logic in the posts service: how the
`GET /posts` handler turns its optional query parameters `page`, `pageSize`,
`sortBy`, `sortOrder`, `keyword` and `tag` into the options object it hands to
`Post.findAll`. It also proves properties of that model.

- `wrappers.dfy`: `Option`, used for absent parameters and for NaN.
- `parse_int.dfy` (module `JsParseInt`): JavaScript's `parseInt` called without a radix,
  as section 19.2.5 of ECMA-262 defines it. It converts `undefined` to the string
  `"undefined"`, skips leading white space, takes an optional sign, switches to radix
  16 after a `0x`/`0X` prefix, and reads the longest run of leading digits. No digits
  gives NaN (`None`).
- `ilike.dfy` (module `ILike`): the PostgreSQL `ILIKE` pattern match that an `Op.iLike`
  condition stands for. `%` matches any run, `_` matches one character, a backslash
  escapes the next character, and letters compare ignoring ASCII case.
- `post_query.dfy` (module `PostQuery`): the parameters (`ListParams`), the options
  record (`QueryOptions`: `order`, `offset`, `limit`, and `where` as a map from
  `Op.or` or an attribute name to a condition), and the `||` fallbacks.
  `QueryOptionsFor` gives the options as a value. `BuildQueryOptions` follows the
  handler's statements: it creates the options with an empty `where`, then adds the
  `Op.or` entry and the `tag` entry by updating that local options value. `Matches` says which posts a `where`
  object selects: its entries are combined with AND.

The model follows the code, not a hardened variant:
- Only NaN and 0 fall back to the defaults 1 and 10. So a negative `page` or
  `pageSize` passes through, and so can a negative offset or limit.
- `sortBy` and `sortOrder` are copied unchanged when non-empty. No allow-list is applied.
- The keyword is placed inside `%…%` without escaping. So `%`, `_` and backslash in it
  act as pattern syntax: `?keyword=%` selects every post.

The code applies none of the usual hardenings: there is no allow-list for the sort
field, no check of the sort direction, no clamping of the page and no escaping of the
keyword. The model follows the code.

## Model

| member | source | states |
|---|---|---|
| `JsParseInt.ToJsString` | index.js:74-75 | `ToString` of a query value: an absent parameter becomes `"undefined"`, which parseInt reads as NaN (`ParseIntNaNExamples`) |
| `JsParseInt.ParseInt` | index.js:74-75 | the `parseInt(req.query.…)` call without a radix: skip white space, take an optional sign, switch to radix 16 after `0x`, read the longest digit run, NaN as None; its meaning is given by the lemmas below |
| `JsParseInt.LeadingDigits` | index.js:74-75 | the digits parseInt reads are the longest prefix of radix digits: all digits, and the next character (if any) is not one |
| `JsParseInt.TrimStartDropsLeadingWhitespace` | index.js:74-75 | parseInt's first step removes a prefix made only of white space, and leaves no white space at the start |
| `JsParseInt.ParseIntOfDecimal` | index.js:74-75 | parseInt inverts the decimal rendering: reading back `String(n)` gives n, for every integer n |
| `JsParseInt.ParseIntReadsNumericPrefix` | index.js:74-75 | parseInt reads only the numeric prefix: `String(n)` followed by a non-digit tail still gives n (except a `0` followed by `x`, which starts a hex number) |
| `JsParseInt.ParseIntReadsSignedDigits` | index.js:74-75 | for any white space, sign in {"", "+", "-"}, non-empty decimal digits z (leading zeros allowed) and a tail that does not start with a digit, the result is ±value(z); the only exception is a lone `0` followed by `x`, which starts a hex number |
| `JsParseInt.ParseIntWithoutLeadingDigit` | index.js:74-75 | NaN whenever the first character after the white space and an optional sign is not a decimal digit, whatever follows |
| `JsParseInt.ParseIntSkipsWhitespace` | index.js:74-75 | leading white space never changes the result |
| `JsParseInt.ParseIntWithoutDigits` | index.js:74-75 | a string containing no digit at all is NaN |
| `JsParseInt.ParseIntStopsAtLetter` | index.js:74-75 | `"12abc"` reads as 12 |
| `JsParseInt.ParseIntSkipsBlanks` | index.js:74-75 | `"  7"` reads as 7 |
| `JsParseInt.ParseIntTruncatesAtPoint` | index.js:74-75 | `"1.9"` reads as 1 |
| `JsParseInt.ParseIntKeepsMinus` | index.js:74-75 | `"-3"` reads as -3 |
| `JsParseInt.ParseIntLeadingZeros` | index.js:74-75 | `"007px"` reads as 7 |
| `JsParseInt.ParseIntLateDigit` | index.js:74-75 | `"abc1"` and `"px10"` are NaN |
| `JsParseInt.ParseIntHexPrefix` | index.js:74-75 | without a radix, `"0x1A"` reads as 26 and a bare `"0x"` is NaN |
| `JsParseInt.ParseIntNaNExamples` | index.js:74-75 | the empty string, `"abc"` and an absent parameter (`undefined`) are NaN |
| `ILike.Like` | index.js:98-99 | what `{ [Op.iLike]: pattern }` asks of a column value: PostgreSQL ILIKE with `%`, `_`, backslash escape and ASCII case folding |
| `ILike.LikeContainsPattern` | index.js:96-101 | for a keyword without `%`, `_` or backslash, `%keyword%` matches exactly the strings that contain the keyword, ignoring case |
| `ILike.UnderscoreMatchesAnyCharacter` | index.js:96-101 | the unescaped keyword `_` gives `%_%`, which matches exactly the non-empty strings |
| `ILike.PercentMatchesEverything` | index.js:96-101 | the unescaped keyword `%` gives `%%%`, which matches every string |
| `PostQuery.NumberOr` | index.js:74-75 | the fallback after `parseInt` (logical or with a default d): a nonzero number is kept; NaN and 0 give d; so a nonzero default never yields 0 |
| `PostQuery.StringOr` | index.js:78-85 | the fallback of a string parameter (logical or with a default d): a non-empty string is kept; absent and `""` give d; so a non-empty default never yields `""` |
| `PostQuery.Page` | index.js:74 | the normalised page: never 0, and either the default 1 or the number `parseInt` read from the parameter (`PageOfNumericPrefix`, `NonNumericPageIsFirst`, `NegativePageIsKept`) |
| `PostQuery.PageSize` | index.js:75 | the normalised page size: never 0, and either the default 10 or the number `parseInt` read from the parameter (`PageSizeOfNumericPrefix`, `WindowOfQuery`) |
| `PostQuery.SortBy` | index.js:78 | the sort field: never empty, and either `createdAt` or the request's own value (`OrderOfQuery`) |
| `PostQuery.SortOrder` | index.js:79 | the sort direction: never empty, and either `desc` or the request's own value (`OrderOfQuery`) |
| `PostQuery.Keyword` | index.js:82 | the keyword: empty exactly when the parameter is absent or empty, and otherwise the request's own value (`WhereEntriesOfQuery`) |
| `PostQuery.Tag` | index.js:85 | the tag: empty exactly when the parameter is absent or empty, and otherwise the request's own value (`WhereEntriesOfQuery`) |
| `PostQuery.KeywordPattern` | index.js:98-99 | the pattern is the keyword, unchanged and unescaped, between a leading and a trailing `%` (`LikeContainsPattern`, `PercentKeywordSelectsAll`) |
| `PostQuery.KeywordClause` | index.js:97-100 | the `Op.or` value holds exactly two clauses, on `title` and then `desc`, both with the keyword's pattern (`MatchesQuery`) |
| `PostQuery.WhereFor` | index.js:92-106 | the `where` object has only the `Op.or` and `tag` keys, `Op.or` exactly for a non-empty keyword, `tag` exactly for a non-empty tag |
| `PostQuery.QueryOptionsFor` | index.js:88-106 | the options object: one order pair with a non-empty field and direction, and a limit that is never 0 |
| `PostQuery.Matches` | index.js:109 | which posts `findAll` selects with a `where` object: every entry must hold (AND), `Op.or` needs one of its clauses, an attribute entry needs equality (its meaning for this handler is `MatchesQuery`) |
| `PostQuery.BuildQueryOptions` | index.js:74-106 | the handler's step-by-step construction yields exactly the options value `QueryOptionsFor(p)` |
| `PostQuery.AllAbsentGivesDefaults` | index.js:74-93 | with every parameter absent: order `[["createdAt","desc"]]`, offset 0, limit 10, empty `where` |
| `PostQuery.PageOfNumericPrefix` | index.js:74 | a page given as the decimal n followed by any tail that cannot continue it (as in `2abc`) is page n, except that 0 falls back to 1 |
| `PostQuery.PageSizeOfNumericPrefix` | index.js:75 | the same for the page size: n, except that 0 falls back to 10 |
| `PostQuery.PageWithTrailingText` | index.js:74 | `?page=2abc` is page 2 |
| `PostQuery.NonNumericPageIsFirst` | index.js:74-90 | an absent, empty or digit-free page is page 1, and the offset is then 0 |
| `PostQuery.NegativePageIsKept` | index.js:74-90 | `"-3"` stays page -3, and the offset is -4 times the page size |
| `PostQuery.WindowOfQuery` | index.js:88-91 | limit is the normalised page size and never 0; the page is never 0; offset = (page-1)*limit; page 1 gives offset 0 |
| `PostQuery.SecondPageOfFive` | index.js:74-91 | `?page=2&pageSize=5` gives offset 5 and limit 5 |
| `PostQuery.OrderOfQuery` | index.js:78-89 | the order is the single pair `[sortBy, sortOrder]`; absent or empty values become `createdAt` and `desc`, and any other value is copied unchanged |
| `PostQuery.WhereEntriesOfQuery` | index.js:82-106 | `where` has only the `Op.or` and `tag` keys; `Op.or` is present exactly when the keyword is non-empty and holds the two iLike clauses on title and desc; `tag` is present exactly when the tag is non-empty and holds that tag |
| `PostQuery.KeywordLeavesRestAlone` | index.js:96-101 | changing the keyword changes neither the `tag` entry nor the order, offset or limit |
| `PostQuery.TagLeavesRestAlone` | index.js:104-106 | changing the tag changes neither the `Op.or` entry nor the order, offset or limit |
| `PostQuery.MatchesQuery` | index.js:96-109 | a post is selected exactly when it passes the keyword test (no keyword, or title or desc matches `%keyword%`) AND the tag test (no tag, or the tags are equal) |
| `PostQuery.MatchesLiteralKeyword` | index.js:96-106 | for a keyword with no pattern characters, selection is a case-insensitive substring search in title or desc, combined with AND with exact tag equality |
| `PostQuery.PercentKeywordSelectsAll` | index.js:96-101 | because the keyword is not escaped, `?keyword=%` selects every post |
| `PostQuery.KeywordFooMatchesTitle` | index.js:96-101 | `?keyword=foo` selects a post titled "Food diary" |
| `PostQuery.KeywordFooMatchesDesc` | index.js:96-101 | `?keyword=foo` selects a post whose description is "contains FOO here" |
| `PostQuery.KeywordFooExcludesOthers` | index.js:96-101 | `?keyword=foo` excludes a post with "foo" in neither field |
| `PostQuery.TagDietExamples` | index.js:104-106 | `?tag=diet` selects tag "diet" only: not "Diet", not "diet-plan", not a post with no tag |

## Left out

- Express setup, JSON parsing, routing and the HTTP status and response of both routes (index.js:7-8, index.js:112-117) are framework plumbing.
- The database connection, the `Post` model definition, `sync()` and running `Post.findAll` (index.js:11-32, index.js:109, index.js:123) are library calls and I/O. `Matches` states what the `where` object asks for, not what the store returns.
- The store is configured as SQLite, and `Op.iLike` is a PostgreSQL operator. How SQLite handles it cannot be seen here. `Matches` gives the PostgreSQL reading.
- The order, offset and limit are modelled as values. How the store sorts and slices the rows is not modelled.
- `POST /posts`, the media-host upload and its configuration (index.js:35-68) form a thin wrapper over a remote API and one insert.
- Environment loading, port choice, logging and server start (index.js:1, index.js:122-127) are I/O.
- The model treats every parameter as one string or absent. A repeated parameter (`?page=1&page=2`), which Express turns into an array, is not modelled.
- JavaScript numbers are doubles. Results of `parseInt` beyond 2^53 and the product `(page - 1) * pageSize` are modelled as exact integers, without rounding.
- `parseInt("-0")` gives negative zero, which is falsy. The model's integer 0 falls back to the default in the same way.
- `ILike.Like`: PostgreSQL rejects a pattern that ends in the escape character, but here such a pattern matches nothing. The handler never builds one, because each of its patterns ends in `%`.
- `ILike.ToLower`: only ASCII letters are case-folded. PostgreSQL folds case according to the database locale.
- `PostQuery.EntryHolds`: only the two shapes of condition that the handler writes are given a meaning (a list of clauses under `Op.or`, and a plain value under an attribute). Any other shape selects nothing.
