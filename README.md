# Credential rotator model

This project models `jwt_token`, a small Go cloud function that rotates a signing
credential kept in Google Secret Manager. Each run mints a new token. The token
has a UUID key id, a 64-character random alphanumeric secret and a Unix creation
time. The run reads the latest version of the secret `TEST_JGW`, which holds the
credential history as a JSON list, newest first. It puts the new token in front
of that list and stores the result as a new secret version, with the CRC-32C
(Castagnoli) checksum of the payload attached.

Modules:

- `Primitives`: `Option` and the Go integer types the program uses (`byte`, `uint32`, `int64`).
- `Tokens`: the token record, the 62-symbol alphabet, `RandomString` (a loop filling
  a rune buffer) and the construction of a new token.
- `History`: the newest-first history, the prepend merge and repeated merging.
- `Locators`: the project id with its fallback, and the read and write resource names.
- `SecretStore`: the secret store, reduced to "read the latest version" and "add a
  version". `Vault` is a value snapshot of one secret. `Store` is the object whose
  version list grows in place.
- `Rotator`: one rotation as a specification function (`Rotation`) and as an
  imperative method on the store (`Jwt`), tied by `Jwt`'s postcondition. Lemmas
  cover single and repeated rotations.

Some collaborators are passed in as parameters: the JSON library (`Codec`:
`marshalIndent` and an `unmarshal` that can fail), the CRC-32C function, the
metadata server's answer (`Option<string>`), the new UUID and the clock reading.
Each random draw of `math/rand` is a nondeterministic choice of an index in
`[0, 62)`.

Two behaviours of the code are kept as written:

- A failed history fetch stops the rotation before anything is written.
- A history blob that does not decode is treated as an empty history. It is not
  reported as an error, so the new version holds the new token alone.

## Model

| member | source | states |
|---|---|---|
| `Tokens.AlphabetIsAlphanumeric` | rotator.go:82 | the alphabet has exactly 62 pairwise distinct symbols, and a character is in it if and only if it is in a-z, A-Z or 0-9 |
| `Tokens.RandomString` | rotator.go:81-89 | the result has exactly n characters, every one alphanumeric, and it is the string the random draws (each in [0, 62)) select, slot by slot |
| `Tokens.SpellInjective` | rotator.go:82-86 | two different draw sequences never produce the same string, so uniform draws give a uniform secret |
| `Tokens.SpellSurjective` | rotator.go:82-86 | every alphanumeric string of length n can be produced by some sequence of n draws |
| `Tokens.NewToken` | rotator.go:41-46 | the new token carries the given key id and creation time, and its secret is 64 alphanumeric characters |
| `History.UndecodableIsEmpty` | rotator.go:60-61 | an undecodable blob and a blob decoding to an empty list both give an empty prior history, and no other decode result does |
| `History.Merge` | rotator.go:63 | the merged history has one more entry than the old one, the new token is at index 0, old entry i is at index i+1, and the multiset of entries grows by exactly the new token (nothing is deduplicated) |
| `History.MergeSplits` | rotator.go:63 | dropping the head of a merge gives back the prior history, and a history is the merge of a token and a list exactly when it is that token followed by that list |
| `History.MergeAllIsNewestFirst` | rotator.go:60-63 | merging a run of tokens one after another yields the run in reverse order followed by the original history |
| `Locators.LatestLocator` | rotator.go:52 | the read locator is the write locator with "/versions/latest" appended |
| `Locators.LatestLocatorNamesSecret` | rotator.go:50-67 | the read locator is a secret's latest-version alias if and only if the write locator is that secret's name |
| `Locators.SecretLocatorDeterminesProject` | rotator.go:67 | for a fixed secret name, equal write locators imply equal project ids |
| `Locators.SecretLocatorIsInjective` | rotator.go:67 | for secret names without a slash, the write locator determines both the project id and the secret name |
| `SecretStore.AddedAppendsOne` | rotator.go:128-137 | a successful add keeps every existing version in place and makes the written payload the one the latest alias returns |
| `SecretStore.Store.AccessLatest` | rotator.go:99-109 | reading returns the newest version's payload when the latest alias of this secret is asked for and the read succeeds, and nothing otherwise |
| `SecretStore.Store.AddVersion` | rotator.go:127-143 | a write under this secret's name, of at most 64 KiB, that the store accepts appends exactly one version with the given payload and checksum; a refused write changes nothing |
| `Rotator.LatestVersionCarriesItsChecksum` | rotator.go:116-117 | after a successful rotation, the latest alias returns the newest version's bytes, and that version carries the CRC-32C of exactly those bytes |
| `Rotator.WrittenHistoryCases` | rotator.go:60-65 | the history written back is the new token followed by the decoded list when the blob decodes; it is the new token alone exactly when the blob does not decode or decodes to an empty list; for a blob that a round-tripping codec encoded from h, it is the new token followed by h |
| `Rotator.Rotation` | rotator.go:38-79 | the fetch fails exactly when the latest version cannot be read, and then nothing is written; the submit fails exactly when the read succeeded and either the store refuses writes or the new payload exceeds the 64 KiB limit, and then nothing is written; on success exactly one version is appended, its payload is the encoding of the new token followed by the decoded old history, and its checksum is the CRC-32C of that payload |
| `Rotator.AddSecretVersion` | rotator.go:112-144 | the payload is submitted to the given parent with its own CRC-32C attached; the store changes exactly as the add specifies |
| `Rotator.Jwt` | rotator.go:38-79 | the minted token is fresh (given key id and time, a 64-symbol alphanumeric secret), and the outcome and new store state are those of `Rotation` for the project id the lookup yields |
| `Rotator.RotationPrependsToStoredHistory` | rotator.go:53-69 | against a reachable store whose codec round-trips, a rotation whose new history encodes within 64 KiB succeeds and the history read back is the new token followed by the history read before |
| `Rotator.OversizedHistoryIsRefused` | rotator.go:63-75 | the history is never trimmed: when the new history's encoding exceeds 64 KiB, even a healthy store refuses the rotation and nothing is written |
| `Rotator.UnparsableHistoryIsReplaced` | rotator.go:60-65 | if the stored blob does not decode, the rotation still succeeds (given the one-token encoding fits) and writes the encoding of the new token alone, dropping every earlier credential |
| `Rotator.FailedLookupUsesFallback` | rotator.go:146-156 | a failed lookup rotates exactly as with the fallback id; the rotation succeeds when the store holds the fallback project's secret and the new history fits, and for any other project's secret the read misses and nothing is written |
| `Rotator.RotationsKeepEveryCredential` | rotator.go:53-69 | successive rotations against a reachable store with a round-tripping codec, while each history the run writes encodes within 64 KiB, all succeed, add one version each, and the history read back is the new tokens newest first followed by the original history |

## Left out

- Secret Manager client creation and the RPCs behind `GetSecret` and `addSecretVersion` are network I/O. They are modelled by the `SecretStore` values and class. Every failure outside the rotator (unreachable store, denied permission, client setup) is one of two flags, `readFails` and `writeFails`.
- A reported write failure is assumed to leave the store unchanged. The Go client can report an error from `AddSecretVersion` after the store has committed the version, for example when the reply is lost. `jwt` then reports failure although the history was extended, so a rotation is at-least-once. This ambiguous commit is not modelled: `SubmitFailed` always comes with an unchanged store.
- The store's payload-size limit is modelled as a fixed 64 KiB (`SecretStore.MaxPayloadSize`). The store's own check of the attached checksum is not modelled. The model records the checksum with the version and proves it is the CRC-32C of that payload.
- The metadata-server HTTP request in `GetProjectID` is network I/O. The model receives its result as an `Option<string>`. The HTTP status and the use of the response body as a `fmt.Sprintf` format string are not modelled.
- JSON encoding and decoding are library calls. They are function parameters (`Codec`). On a type error Go's decoder skips the offending field and decodes the rest. The model's `unmarshal` may return any list in that case. A syntax error leaves the list empty. The encoding of the single token on line 48 is only logged and is left out.
- The CRC-32C computation is a library call. It is a function parameter.
- `math/rand`, `uuid.New` and `time.Now` are ambient nondeterminism. They are a nondeterministic index choice and two method parameters. Uniqueness of the key ids is therefore not a property of the model.
- Logging, the `fmt.Printf` severity lines and the process exit in `log.Fatalf` are not modelled. A fatal fetch failure is the `FetchFailed` outcome, with no write.
- Functions-framework registration, the HTTP handler `jwtUpdater` and `main` only call `jwt` and discard its error. They are not modelled.
- Concurrent rotations are not modelled. The program does nothing to coordinate them.
- Rotator.RotationsKeepEveryCredential: the history is never trimmed, so each rotation's payload is larger than the last. The lemma promises that all rotations succeed only while each history the run writes encodes within the store's 64 KiB limit. `Rotator.OversizedHistoryIsRefused` states what happens past that point.
- Tokens.RandomString: takes a natural number, so it does not model Go's panic on a negative length. The program only ever asks for 64.
