# bytom: access tokens, query glue and static assets, in Dafny

This project models three pieces of the bytom node:

- **The access-token credential store** (`blockchain/accesstoken/accesstoken.go`). It issues, checks, lists and deletes API credentials in an injected ordered key-value store.
  - `AccessToken.CredentialStore` is a class whose field `db` is that store: a map from keys to stored values. Its methods `Create` and `Delete` update the map, `Check` is a function reading it, and `List` is a method that collects the values in key order and cuts a page out of them.
  - A key is the JSON encoding of a token id, that is the id in double quotes. A value is a `Token` record, or bytes that do not decode as one.
  - SHA3-256 is the injected function `hash`. The random secret, the random source's error and the creation time are parameters of `Create`.
- **The query handlers of the blockchain reactor** (`blockchain/query.go`):
  - the page-size default and last-page rule of `listAccounts` and `listAssets`;
  - the skip rule of `GetAccountUTXOs` and the stop rule of `listTransactions`;
  - the one-entry-per-output mapping of `listUnspentOutputs`;
  - the per-account, per-asset uint64 balances of `listBalances`. The nested map it builds in its first loop is proved, entry by entry, to hold the specified balance `Balance` of each account and asset (the invariant `Grouped`), and the response its second loop builds from that map is proved equal to the specification `Balances` over the decoded outputs.
- **The static asset handler** (`net/http/static/static.go`). The handler has a value receiver and only reads its fields, so it is a datatype. `Static.Serve` chooses between the exact path, the Index asset, the Default asset and not found.

Supporting modules:

| module | models |
|---|---|
| `HexFormat` | Go's `%x` on bytes, and its inverse. |
| `StrConv` | Go's 64-bit `int` addition with wrap-around, `strconv.Atoi` and `strconv.Itoa`. |
| `StringOrder` | Go's byte-wise string order. |
| `StringOrder.Sort` | `sort.Strings`, as an in-place insertion sort over an array. |
| `StringOrder.KeyOrder` | The order in which an ordered store, or a sorted key list, enumerates a set of keys. |

Behaviour of the credential store's code worth noting:

- `Create` keys the record by the JSON encoding of the id, not by the bare id.
- When the random source fills fewer than 32 bytes without reporting an error, `Create` returns no token and no error (`blockchain/accesstoken/accesstoken.go:71-74`). It does not return a random-source error.
- `List` accepts a negative cursor such as `"-1"`. On an empty store that cursor gives "No access token". On a non-empty store it passes the range check, and the slice expression panics. The model gives `ListPanic` for it (`AccessToken.NegativeCursorPanics`); it is not rejected as an invalid cursor. The same holds for a negative limit, and for an offset plus limit that overflows a 64-bit int.
- `Check` on a stored value that does not decode as a token returns the decoding error, modelled as `Undecodable`.
- The page's `last` flag is set whenever the store holds fewer than `defaultLimit` values, even when the page stops before the end (`AccessToken.LastFlagBeforeEnd`).

## Model

| member | source | states |
|---|---|---|
| HexFormat.Hex | blockchain/accesstoken/accesstoken.go:82 | `%x` renders each byte as two lowercase hexadecimal digits. |
| HexFormat.UnhexHex | blockchain/accesstoken/accesstoken.go:96 | Decoding the hexadecimal text of any byte sequence gives that sequence back. |
| HexFormat.HexInjective | blockchain/accesstoken/accesstoken.go:110 | Two byte sequences have the same `%x` text iff they are equal. |
| StrConv.Add | blockchain/accesstoken/accesstoken.go:166-167 | Go's `zafter+limit` is a 64-bit int congruent to the exact sum modulo 2^64: the exact sum when it fits, otherwise the sum shifted by 2^64 into range. |
| StrConv.AddUnique | blockchain/accesstoken/accesstoken.go:166-167 | Any 64-bit int congruent to the exact sum modulo 2^64 is Go's wrapped sum, so the congruence pins the result. |
| StrConv.Atoi | blockchain/accesstoken/accesstoken.go:142 | `strconv.Atoi` accepts only an optional `+` or `-` followed by one or more decimal digits; a `-` sign gives a value at most 0, and anything else a value at least 0. |
| StrConv.AtoiMinusItoa | blockchain/accesstoken/accesstoken.go:142 | A `-` before the decimal rendering of n, for 0 < n ≤ 2^63, parses to -n, so negative cursors such as `-1` are accepted. |
| StrConv.AtoiPlusItoa | blockchain/accesstoken/accesstoken.go:142 | A `+` before the decimal rendering of a non-negative int parses to that int. |
| StrConv.AtoiRejects | blockchain/accesstoken/accesstoken.go:142-146 | The empty string, a lone sign, a doubled sign, a leading space and a trailing letter are all rejected. |
| StrConv.AtoiOutOfRange | blockchain/accesstoken/accesstoken.go:142-146 | A decimal rendering above 2^63-1, or a negated one below -2^63, is rejected as out of range. |
| StrConv.Itoa | blockchain/accesstoken/accesstoken.go:173 | `strconv.Itoa` of a non-negative int is a non-empty digit string with no leading zero. |
| StrConv.AtoiItoa | blockchain/accesstoken/accesstoken.go:142-173 | Parsing the rendering of any non-negative int gives that int back, so a returned cursor survives the round trip. |
| StringOrder.Below | blockchain/query.go:156 | Go's string `<`: never holds between equal strings, and a proper prefix comes first. |
| StringOrder.BelowTotal | blockchain/query.go:156 | Go's string order is total: of two different strings, one is below the other. |
| StringOrder.BelowTransitive | blockchain/query.go:156 | Go's string order is transitive. |
| StringOrder.KeyOrder | blockchain/accesstoken/accesstoken.go:149-154 | The store's iteration order is strictly ascending and holds each key exactly once. |
| StringOrder.AscendingUnique | blockchain/accesstoken/accesstoken.go:149-154 | There is only one strictly ascending enumeration of a set of keys. |
| StringOrder.Sort | blockchain/query.go:156 | `sort.Strings` leaves the slice non-decreasing and a permutation of what it held. |
| StringOrder.SortedKeys | blockchain/query.go:152-156 | Collecting a map's keys in any order and then sorting them gives the ascending enumeration of the key set. |
| AccessToken.ValidIDChars | blockchain/accesstoken/accesstoken.go:36-38 | The id pattern `^[\w-]+$`: an id is valid iff it is non-empty and every character is an ASCII letter, digit, `_` or `-`; a valid id therefore holds no colon, double quote, backslash or space. |
| AccessToken.ValidIDExamples | blockchain/accesstoken/accesstoken.go:36-38 | `my_token-1` matches the pattern; the empty id and ids with a space, colon or dot do not. |
| AccessToken.Key | blockchain/accesstoken/accesstoken.go:66 | `json.Marshal(id)` of a valid id is the id between double quotes, with no quote or backslash inside that would need escaping. |
| AccessToken.KeyInjective | blockchain/accesstoken/accesstoken.go:66 | Distinct valid ids are stored under distinct JSON keys. |
| AccessToken.IdHex | blockchain/accesstoken/accesstoken.go:82 | `fmt.Sprintf("%s:%x", id, bytes)` is the id, a colon, then two lowercase hexadecimal digits per byte. |
| AccessToken.IdHexRoundTrip | blockchain/accesstoken/accesstoken.go:96 | A valid id holds no colon, so `id:hex` splits at its first colon back into the id and the bytes. |
| AccessToken.IdHexInjective | blockchain/accesstoken/accesstoken.go:110-126 | Over valid ids, two `id:hex` strings are equal iff the ids and the bytes are. |
| AccessToken.IssuedTokenShape | blockchain/accesstoken/accesstoken.go:96-97 | The issued string is the id, a colon and exactly 64 hexadecimal digits that decode to the secret. |
| AccessToken.Frame | blockchain/accesstoken/accesstoken.go:106-108 | Copying the secret into a zeroed 32-byte array keeps its first 32 bytes and pads with zeros. |
| AccessToken.FrameOfBlock | blockchain/accesstoken/accesstoken.go:108 | A 32-byte secret is hashed as it is. |
| AccessToken.FrameAgrees | blockchain/accesstoken/accesstoken.go:106-109 | Secrets with the same zero-padded 32-byte prefix are hashed identically. |
| AccessToken.Offset | blockchain/accesstoken/accesstoken.go:141-146 | The empty cursor is offset 0. |
| AccessToken.Paginate | blockchain/accesstoken/accesstoken.go:141-173 | The cursor, range and slice rule of List: a page starts at an offset inside the store and ends within it, and among the errors only "No access token" comes with `last` set. |
| AccessToken.PaginateOk | blockchain/accesstoken/accesstoken.go:141-173 | A page comes back iff the cursor parses to an offset inside the store, the limit is not negative and offset plus limit fits in an int. The page is then `[offset, min(count, offset+limit))`, the cursor is its end in decimal, and `last` is set iff the end is the count or the count is below `defaultLimit`. |
| AccessToken.PaginateErrors | blockchain/accesstoken/accesstoken.go:141-165 | An unparsable cursor gives "Invalid after" with `last` false. An empty store gives "No access token" with `last` true. An offset at or past the count gives "Invalid after" with `last` false. No other case errs. |
| AccessToken.PaginatePanics | blockchain/accesstoken/accesstoken.go:160-173 | Past the range check, the slice expression panics exactly for a negative offset, a negative limit or an overflowing offset plus limit. |
| AccessToken.NegativeCursorPanics | blockchain/accesstoken/accesstoken.go:141-173 | On a non-empty store the cursor `-1` parses, passes the range check and makes the slice expression panic. |
| AccessToken.PageSlice | blockchain/accesstoken/accesstoken.go:160-173 | A returned page is the slice of the values starting at the offset, and its cursor is the slice's end in decimal. |
| AccessToken.NextCursor | blockchain/accesstoken/accesstoken.go:141-173 | The returned cursor parses back to the offset just past the page. |
| AccessToken.CursorPastEnd | blockchain/accesstoken/accesstoken.go:160-164 | The cursor returned with a page that reaches the end of the store is rejected as "Invalid after". |
| AccessToken.NextPageFollows | blockchain/accesstoken/accesstoken.go:160-173 | Following the returned cursor gives the values right after the page: the two pages together are one slice. |
| AccessToken.PagingWalkthrough | blockchain/accesstoken/accesstoken.go:141-173 | For n ≥ 1 values: limit n lists everything as last; limit n-1 with default n leaves one value, which cursor `n-1` lists as last; cursor `n` is "Invalid after". |
| AccessToken.LastFlagBeforeEnd | blockchain/accesstoken/accesstoken.go:169-171 | A page that stops before the end is still flagged last in a store smaller than `defaultLimit`. |
| AccessToken.CutPage | blockchain/accesstoken/accesstoken.go:156-173 | The range checks, the slice, its cursor and its last flag, as List computes them after the iterator loop, are the pagination of the collected values. |
| AccessToken.ValuesAt | blockchain/accesstoken/accesstoken.go:152-154 | The iterator loop appends the value of each key in turn. |
| AccessToken.CredentialStore.constructor | blockchain/accesstoken/accesstoken.go:55-59 | A new store wraps the given key-value store. |
| AccessToken.CredentialStore.Create | blockchain/accesstoken/accesstoken.go:62-98 | An invalid id gives BadID and a stored one gives DuplicateID. A failed or short random read gives its error, which may be none. In all three cases there is no token and no write. Otherwise it writes one entry under the id's key, with digest `id:hex(hash(secret))`, the type verbatim and the creation time, and leaves every other key unchanged. It returns `id:hex(secret)`, which Check then accepts. |
| AccessToken.CredentialStore.Check | blockchain/accesstoken/accesstoken.go:101-131 | An invalid id gives BadID, an unstored valid id gives NoMatchID, and a stored value that does not decode gives its decoding error. A decodable record answers with no error, so a mismatch is `(false, nil)`. The answer is true iff a decodable record is stored under the id and its digest equals `id:hex(hash(framed secret))`. True never comes with an error. Check reads the store only. |
| AccessToken.CredentialStore.List | blockchain/accesstoken/accesstoken.go:134-174 | List's answer is the pagination of every stored value in ascending key order. It changes nothing. |
| AccessToken.CredentialStore.Iterate | blockchain/accesstoken/accesstoken.go:148-154 | The iterator loop collects every stored value, in ascending key order. |
| AccessToken.CredentialStore.Delete | blockchain/accesstoken/accesstoken.go:177-188 | An invalid id gives BadID and leaves the store unchanged. A valid id's key is removed with no error, stored or not, and every other key is unchanged. |
| AccessToken.CheckAgainstCreated | blockchain/accesstoken/accesstoken.go:106-130 | Once a token for a secret is stored, Check on its id never errs. It accepts exactly the secrets whose framing hashes like the original. |
| AccessToken.DeleteTwice | blockchain/accesstoken/accesstoken.go:185 | Deleting twice equals deleting once, and a deleted id's key is absent. |
| Query.PageLimit | blockchain/query.go:32-35 | The page size is the request's PageSize, or 100 when that is 0. |
| Query.ListAccounts | blockchain/query.go:31-57 | A store error is answered as an error. Otherwise the page holds the store's items and last flag, and the next query is the request with only `After` replaced by the store's cursor. |
| Query.ListAssets | blockchain/query.go:71-102 | As ListAccounts, except that the page is last iff the store said so or fewer items than the limit came back. |
| Query.DecodedConcat | blockchain/query.go:114-123 | Skipping undecodable records distributes over concatenation, so nothing is reordered. |
| Query.DecodedMembers | blockchain/query.go:114-123 | An output is kept iff it decoded from some record. |
| Query.DecodedCount | blockchain/query.go:114-123 | There is exactly one output per decodable record. |
| Query.GetAccountUTXOs | blockchain/query.go:105-126 | The outputs returned are the decodable records in iteration order. |
| Query.FirstUndecodable | blockchain/query.go:190-198 | Every record before the stop point decodes, and the record at the stop point does not. |
| Query.ListTransactions | blockchain/query.go:181-208 | The data is the raw text of the records before the first undecodable one. The status is FAIL iff some record does not decode. |
| Query.StopIsPrefixOfSkip | blockchain/query.go:190-200 | What the transaction listing keeps is a prefix of what skipping would keep, and all of it when every record decodes. |
| Query.ListUnspentOutputs | blockchain/query.go:211-231 | There is one rendered entry per decodable output, in order. |
| Query.BalanceIsSumModulo | blockchain/query.go:138-150 | Each accumulated balance is the sum of the matching amounts modulo 2^64. |
| Query.BalanceOfAbsent | blockchain/query.go:145-149 | An asset an account does not hold has balance 0, so a first output starts from its own amount. |
| Query.BalancesOnePerAccount | blockchain/query.go:152-172 | There is exactly one entry per account owning an output, in strictly ascending order, and none for other accounts. |
| Query.BalancesPerAsset | blockchain/query.go:159-168 | Within an account, each asset it holds appears exactly once, in strictly ascending order, with its sum modulo 2^64. No other asset appears. |
| Query.GroupStep | blockchain/query.go:138-150 | One more output adds its account to the accounts and its asset to that account's assets, and nothing else. |
| Query.BalanceStep | blockchain/query.go:142-149 | One more output changes only its own account and asset's balance, by a wrapping uint64 addition. |
| Query.Regroup | blockchain/query.go:138-150 | Replacing the output's account entry by its updated balances keeps the nested map equal to the balances of the outputs seen. |
| Query.AccountStep | blockchain/query.go:142-146 | After one more output, its account's map holds exactly the account's assets so far plus the output's asset, each with its balance. |
| Query.AssetStep | blockchain/query.go:142-146 | The output's asset gets its old balance plus the amount modulo 2^64, or the amount when the asset is new. Every other asset keeps its balance. |
| Query.CreditHeld | blockchain/query.go:142-144 | Adding to an asset the account already holds keeps the nested map equal to the balances. |
| Query.CreditNewAsset | blockchain/query.go:145-146 | A new asset of a known account starts at the output's amount, and the nested map stays equal to the balances. |
| Query.CreditNewAccount | blockchain/query.go:147-149 | A new account gets a map with the output's asset alone, and the nested map stays equal to the balances. |
| Query.Accumulate | blockchain/query.go:140-149 | One pass of the first loop: the nested map agrees with the balances of the outputs seen, this one included. |
| Query.GroupBalances | blockchain/query.go:135-150 | After the first loop, the nested map's keys are the accounts, each account's keys are its assets, and each entry is its balance. |
| Query.LineMatches | blockchain/query.go:159-168 | The asset line built from an account's map is that account's specified line. |
| Query.EntryMatches | blockchain/query.go:158-172 | The n-th account in key order, with its line, is the n-th specified entry. |
| Query.AssetLineOf | blockchain/query.go:159-168 | The line holds one entry per asset in the map, ascending, each with its amount. |
| Query.AmountsOf | blockchain/query.go:164-167 | The inner loop pairs each asset of the sorted list with its amount, in list order. |
| Query.BalanceLines | blockchain/query.go:152-172 | The second loop produces the specified balances, given a nested map that agrees with them. |
| Query.ListBalances | blockchain/query.go:128-176 | The response is the specified balances of the decodable outputs. |
| Static.Serve | net/http/static/static.go:31-46 | Not found happens iff the path is no asset, the Index rule does not apply and Default is empty. An exact path is served as is. Served content always carries `X-Frame-Options: SAMEORIGIN`. |
| Static.IndexServesEmptyPath | net/http/static/static.go:33-34 | A missing empty path with an Index serves the Index asset, or empty content when Index is not an asset. |
| Static.DefaultServesMissingPath | net/http/static/static.go:35-36 | Any other missing path serves the Default asset when Default is set, including the empty path when no Index is set. |
| Static.DefaultCatchesAll | net/http/static/static.go:35-40 | With a Default set, no path is answered with not found. |
| Static.ServedIsAnAsset | net/http/static/static.go:32-36 | Served content is one of the assets, or empty. |
| Static.ExactPathWins | net/http/static/static.go:32 | An asset under the requested path is the answer, whatever Index and Default say. |

## Left out

- JSON encoding and decoding are abstract:
  - a stored value is either a decodable `Token` record or not;
  - a wallet record is a decoded output or nothing;
  - a transaction record carries its raw text and whether it decodes.
  Marshalling errors (a creation time outside years 0-9999, page and response marshalling) are not modelled.
- The internals of SHA3-256 are not modelled; the hash is the injected function `hash`. No cryptographic property is claimed. In particular, the stored digest is never proved different from the secret's hexadecimal text.
- `crypto/rand` and `time.Now` are parameters of `Create`.
- AccessToken.CredentialStore.List: returns the stored values themselves rather than their raw bytes. Error detail strings are not modelled either.
- Logging, error detail text (`WithDetailf`) and the response `Msg` of `listTransactions` are not modelled.
- The HTTP machinery is not modelled: `resWrapper`, `httpjson`, `http.ServeContent` (content type, ranges, Last-Modified), the body of `http.NotFound`, and the `fmt` output formats of the UTXO and balance strings.
- Query.ListUnspentOutputs: rendering an output is the parameter `render`.
- Query.ListBalances: returns the balance entries rather than their JSON text.
- Query.ListAccounts and Query.ListAssets: the account and asset stores are function parameters, and the other request fields are the opaque `others`.
- The output record Go reuses across `json.Unmarshal` calls in `GetAccountUTXOs` is not modelled. Each record decodes on its own.
- Concurrency is not modelled, including the race between the existence check and the write in `Create`. The model is single-threaded.
- StringOrder.Sort: `sort.Strings` is modelled by an insertion sort. Only its result, a sorted permutation, matters to its callers.
- Go strings are byte strings. The model orders Dafny character sequences code point by code point, which agrees with Go's byte order on UTF-8 text.
- `blockchain/hsm.go` is not part of this model.
