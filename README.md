# file-linker-buddy: the store, the coin ledger and the checkout, in Dafny

file-linker-buddy is a browser app for sharing files. Users register and log in. Uploaded files
are kept in the browser's key-value store, and each gets a download link. Files above 100 MiB cost
one coin, and coins are bought through a hosted checkout. This project models the logic behind
these features:

- **The shared store** (`storage.dfy`) is one `map<string, Value>` behind a `LocalStorage` class.
  Each value is a parsed record: an account, credentials, a file or a purchase. `Garbage` stands
  for text that `JSON.parse` rejects. The keys are `user_<id>`, `credentials_<email>`,
  `file_<id>` and `purchase_<id>`, plus the session copy under `"user"`. The store invariants are
  predicates:
  - every key holds its own kind of record;
  - `user_<id>` holds the account whose id is `<id>`;
  - a session copy mirrors its account;
  - balances are non-negative;
  - account emails are unique.

  The fifth invariant, at most two accounts per address, is defined in `auth_context.dfy` beside
  the address count it depends on.
- **The coin ledger** (`coin_service.dfy`). `purchaseCoins` and `useCoin` are methods that change
  the store one write at a time. Each is proved equal to a pure effect function: what it resolves
  with, and the store it leaves. Lemmas show that both operations keep the store consistent and
  every balance non-negative, and that a purchase funds the next `useCoin`.
- **The account registry** (`auth_context.dfy`):
  - The duplicate-email scan and the per-address count are functions over the map.
  - The React provider is a class holding `user` and `isLoading`. Its methods `LoadStoredUser`,
    `Register`, `Login` and `Logout` work on the shared store: `LoadStoredUser` only reads it, and
    the other three write to it.
  - Lemmas cover the address cap, unique emails, consistency, and the register-then-login round
    trip.
- **The file record store** (`file_service.dfy`) covers:
  - the 100 MiB coin threshold;
  - the random file id;
  - the single write of an upload and its three failure messages;
  - the lookup by id, with an upload-then-lookup round trip;
  - the download link, shown to route back to its id.
- **The upload size gate** (`file_upload.dfy`): the 2 GiB limit of the file picker, and the rule
  that only the first file of an event is used.
- **The checkout function** (`create_coin_checkout.dfy`):
  - the package catalog;
  - the package check;
  - the customer lookup and the session request sent to the payment provider;
  - the success and cancel URLs;
  - the metadata and the HTTP response.
  
  A reference reader of the URLs, built from split and lookup, shows that the success URL carries
  the package's coin count and the user id. Decimal rendering is proved inverse to parsing.

Inputs the caller supplies:

- random ids (`Math.random` renderings);
- timestamps;
- the client address;
- what `FileReader` delivered;
- whether the upload's store write threw;
- the payment provider's two answers.

## Model

| member | source | states |
|---|---|---|
| Storage.KeysDistinct | src/context/AuthContext.tsx:101-106 | keys of different kinds never coincide, and `"user"` is not an account key, so a write under one kind leaves the others alone |
| Storage.EmptyStoreConsistent | src/context/AuthContext.tsx:23-33 | an empty store is consistent, has no negative balance and has unique emails |
| CoinService.SyncSession | src/services/coinService.ts:40-48 | the session copy gets the new balance only when its id is the account's; any other key is unchanged; unparseable session text makes the operation resolve false |
| CoinService.PurchaseEffect | src/services/coinService.ts:13-56 | the purchase record is always written; a readable account gains exactly `amount` with its other fields kept; an absent account still gives true; an unreadable one gives false after the purchase write; only three keys can change |
| CoinService.UseCoinEffect | src/services/coinService.ts:59-95 | a missing or unreadable account gives false with nothing written; a balance below 1 gives false and no change; otherwise exactly one coin is taken and the session copy follows; true implies a coin was taken |
| CoinService.PurchaseCoins | src/services/coinService.ts:13-56 | the step-by-step writes on the shared store give exactly the purchase effect |
| CoinService.UseCoin | src/services/coinService.ts:59-95 | the step-by-step writes on the shared store give exactly the useCoin effect |
| CoinService.PurchasePreservesConsistency | src/services/coinService.ts:31-48 | a purchase keeps every key's kind, keeps account keys matching their ids, and keeps the session copy equal to its account |
| CoinService.UseCoinPreservesConsistency | src/services/coinService.ts:77-88 | taking a coin keeps the store invariant |
| CoinService.UseCoinKeepsBalancesNonNegative | src/services/coinService.ts:71-78 | the balance guard means no balance ever becomes negative |
| CoinService.PurchaseKeepsBalancesNonNegative | src/services/coinService.ts:34-38 | buying a non-negative amount keeps every balance non-negative |
| CoinService.PurchaseThenUseCoin | src/services/coinService.ts:13-95 | after a successful purchase of at least one coin, the next useCoin succeeds and leaves old balance + amount - 1 |
| Auth.EmailHolders | src/context/AuthContext.tsx:75-82 | exactly the keys whose value carries the email, accounts and credentials alike; unparseable values are skipped |
| Auth.EmailTaken | src/context/AuthContext.tsx:84-86 | true if and only if some stored value carries the email |
| Auth.IpHolders | src/context/AuthContext.tsx:51-62 | exactly the keys whose value has a non-empty id and address equal to the given one, the session copy included |
| Auth.CheckIpLimit | src/context/AuthContext.tsx:49-69 | fails if and only if two or more counted values carry the address; otherwise yields the address |
| Auth.Registration | src/context/AuthContext.tsx:71-98 | the email check comes before the address check, in both directions; registration succeeds if and only if both checks pass, and the new user has the given id, email and time, one coin and the given address |
| Auth.RegisteredStore | src/context/AuthContext.tsx:100-106 | writes the account, the credentials and the session copy, and no other key |
| Auth.UsersWithEmail | src/context/AuthContext.tsx:137-141 | every account under a `user_` key with the email is a candidate, and every candidate is such an account |
| Auth.LoginOutcome | src/context/AuthContext.tsx:121-145 | missing credentials or a wrong password give "Invalid email or password"; matching credentials with no account give "User not found"; a parse failure arises exactly from unreadable credentials or, once they match, an unreadable account; matching credentials, readable accounts and a candidate give success with exactly the candidate set |
| Auth.RefusalMessages | src/context/AuthContext.tsx:84-145 | a taken email raises "Email already exists"; a full address raises the two-account limit message; missing credentials or a wrong password raise "Invalid email or password"; no account raises "User not found" |
| Auth.AuthProvider.constructor | src/context/AuthContext.tsx:19-20 | no user, loading |
| Auth.AuthProvider.LoadStoredUser | src/context/AuthContext.tsx:23-33 | a readable session copy becomes the user; a corrupt one leaves the user as it was; loading ends |
| Auth.AuthProvider.Register | src/context/AuthContext.tsx:71-119 | the result is the registration outcome; on success the store is the three-write store and the user is set; on failure nothing changes |
| Auth.AuthProvider.Login | src/context/AuthContext.tsx:121-161 | on failure the error is returned and nothing changes; on success a candidate becomes the user and the session copy, and only that key is written |
| Auth.AuthProvider.Logout | src/context/AuthContext.tsx:163-167 | the user is cleared and only the `"user"` key is removed |
| Auth.SessionCopyCountsTwice | src/context/AuthContext.tsx:51-66 | a logged-in account is counted through its record and its session copy, so its address is already at the cap |
| Auth.SecondRegistrationRefused | src/context/AuthContext.tsx:89-106 | right after a registration, another registration from the same address fails, whatever its email |
| Auth.AccountsFromIp | src/context/AuthContext.tsx:62 | the account keys from an address are a subset of the values counted for it |
| Auth.EmptyStoreMeetsIpCap | src/context/AuthContext.tsx:64-65 | an empty store has no address with more than two accounts |
| Auth.AccountsAfterRegister | src/context/AuthContext.tsx:101-106 | registration adds at most the new account to one address's accounts, and none to any other address |
| Auth.RegisterKeepsIpCap | src/context/AuthContext.tsx:64-65 | registration keeps every address at two accounts or fewer |
| Auth.RegisterKeepsEmailsUnique | src/context/AuthContext.tsx:84-86 | registration keeps account emails unique |
| Auth.RegisterPreservesConsistency | src/context/AuthContext.tsx:101-106 | registration keeps the store invariant |
| Auth.LoginDeterministic | src/context/AuthContext.tsx:141 | with unique emails, login has at most one candidate |
| Auth.LoginPreservesConsistency | src/context/AuthContext.tsx:147-148 | copying a found account into the session keeps the store invariant |
| Auth.LogoutPreservesConsistency | src/context/AuthContext.tsx:165 | removing the session copy keeps the store invariant |
| Auth.RegisterThenLogin | src/context/AuthContext.tsx:101-148 | after registering and logging out, logging in with the same email and password finds exactly the registered account |
| FileService.CheckFileSize | src/services/fileService.ts:13-19 | a coin is required if and only if the size exceeds 100 MiB; the size is echoed |
| FileService.Substring | src/services/fileService.ts:9 | JavaScript's clamping `substring`: exactly `min(end, len) - min(start, len)` characters, each taken from the input at its offset |
| FileService.GenerateFileId | src/services/fileService.ts:8-10 | an id is at most 26 characters, all base-36 digits when the renderings are |
| FileService.FileRecordFor | src/services/fileService.ts:35-43 | the record keeps the file's name, type, size, data and time; the owner is present exactly when the user id is a non-empty string |
| FileService.UploadEffect | src/services/fileService.ts:22-69 | resolves with the id if and only if the read gave text and the write succeeded, writing exactly `file_<id>`; a quota error gives "too large", another write error "Failed to store file.", a failed read "Failed to read file."; every failure leaves the store unchanged |
| FileService.UploadRejectionMessages | src/services/fileService.ts:26-68 | a failed read rejects with "Failed to read file.", a quota error with the too-large message, and another write error with "Failed to store file." |
| FileService.UploadFile | src/services/fileService.ts:22-69 | the method's result and store are exactly the upload effect for the generated id |
| FileService.GetFileById | src/services/fileService.ts:72-82 | null exactly when the key is absent or unparseable; otherwise the stored record, a file record under the store invariant |
| FileService.UploadThenGet | src/services/fileService.ts:35-77 | after a successful upload, looking up its id gives a file record with the same name, type, size and data |
| FileService.UploadPreservesConsistency | src/services/fileService.ts:47 | an upload keeps the store invariant |
| FileService.CreateDownloadLink | src/services/fileService.ts:85-87 | the link is the origin, then `/download/`, then exactly the id |
| FileService.DownloadRouteId | src/App.tsx:26 | a reference reader of download links: a URL yields an id only if it is the origin, `/download/` and a non-empty id |
| FileService.DownloadLinkRoundTrip | src/services/fileService.ts:85-87 | the link of a non-empty generated id routes back to that id |
| FileUpload.ValidateAndProcessFile | src/components/ui/file-upload.tsx:44-51 | a file is forwarded unchanged if and only if it is at most 2 GiB, 2 GiB included; otherwise "File size cannot exceed 2GB" |
| FileUpload.HandleFiles | src/components/ui/file-upload.tsx:29-42 | a missing or empty file list does nothing; otherwise the first file goes through the gate |
| FileUpload.OnlyFirstFileCounts | src/components/ui/file-upload.tsx:33-40 | files after the first make no difference |
| FileUpload.GateAndCoinThreshold | src/components/ui/file-upload.tsx:44-51 | a forwarded file needs a coin exactly when it is above 100 MiB; every rejected file would have needed one |
| Checkout.LookupPackage | supabase/functions/create-coin-checkout/index.ts:10-29 | exactly the three catalog ids are valid: starter gives 5 coins, regular 10 and value 20, each with its price id |
| Checkout.NatToString | supabase/functions/create-coin-checkout/index.ts:60 | the decimal text is non-empty digits with no leading zero |
| Checkout.ParseNatToString | supabase/functions/create-coin-checkout/index.ts:60 | the decimal text of a count parses back to the count |
| Checkout.SuccessUrlText | supabase/functions/create-coin-checkout/index.ts:56 | the success URL is the origin, `/store?success=true&coins=`, the package's coins, `&userId=`, the user id and `&session_id={CHECKOUT_SESSION_ID}` |
| Checkout.CancelUrlText | supabase/functions/create-coin-checkout/index.ts:57 | the cancel URL is the origin followed by `/store?canceled=true` |
| Checkout.SuccessUrlQuery | supabase/functions/create-coin-checkout/index.ts:56 | the success URL's query splits into its four parameters |
| Checkout.SuccessQueryLookups | supabase/functions/create-coin-checkout/index.ts:56 | each of the four parameters is found under its own name |
| Checkout.SuccessUrlCarriesPurchase | supabase/functions/create-coin-checkout/index.ts:56 | a reader of the success URL finds `success=true`, the package's coins, the user id and the session placeholder |
| Checkout.CancelUrlCarriesCancel | supabase/functions/create-coin-checkout/index.ts:57 | a reader of the cancel URL finds `canceled=true` |
| Checkout.SessionParamsFor | supabase/functions/create-coin-checkout/index.ts:46-62 | the session request names the found customer, sends the email only when no customer was found, buys one unit of the package's price in payment mode, and carries metadata whose coin text parses to the package's coins |
| Checkout.Serve | supabase/functions/create-coin-checkout/index.ts:16-75 | OPTIONS gives 200 with CORS and no provider call; an unparseable body or an invalid package gives a 500 before any provider call; the customer lookup happens exactly for a valid package and a non-empty email; a valid package with a usable customer answer always reaches the session request; a failed lookup or a failed session request answers 500 with that call's own message; success is a 200 carrying the session URL, and every other answer is a 500 with an error body |
| Checkout.CheckoutCarriesPackage | supabase/functions/create-coin-checkout/index.ts:46-62 | for a valid package the requested session's success URL carries its coins and the user id, its cancel URL `canceled=true`, and its metadata the same coin count |

## Left out

- The purchase `cost` (`amount * 0.99`) is floating point and is not stored in the model's purchase record. The one-second payment delay is not modelled either.
- Toast notifications and console logging are not modelled. A failure is modelled as the error value it carries.
- `Math.random`, `new Date()` and the client address lookup (`getIpAddress` with its `fetch`) are not modelled; their results are parameters. The `"unknown"` fallback address is one such value, so every failed lookup shares one cap.
- JSON text is not modelled: values are kept parsed. Two kinds of value are missing: empty-string values, and JSON that parses to a non-object.
- CoinService.SyncSession: a credentials, file or purchase record under `"user"` is treated like unparseable text, so the operation resolves false. JavaScript parses it and compares its `id`: it resolves true, and writes `coins` into the record when the ids match. No modelled operation writes such a value under `"user"`, and the store invariant rules it out.
- CoinService.PurchaseEffect: a value of another record kind under `user_<id>` is treated like unparseable text. JavaScript would add to an undefined `coins`. No modelled operation writes such a value. A non-account record under `"user"` is handled as in `CoinService.SyncSession`.
- CoinService.UseCoinEffect: a value of another record kind under `user_<id>` is treated like unparseable text, as in the purchase. A non-account record under `"user"` is handled as in `CoinService.SyncSession`.
- Auth.UsersWithEmail: only account records under `user_` keys are candidates. A credentials record under a `user_` key would also match in JavaScript. No modelled operation writes one.
- Auth.AuthProvider.LoadStoredUser: a session value that parses but is not an account is ignored. JavaScript would adopt it as the user.
- Writes other than the upload's are taken to succeed. Quota errors are modelled only in `uploadFile`.
- `FileReader` and data-URL encoding are not modelled. The reader's outcome is a parameter. The outer "Failed to process file." catch of `uploadFile` is not modelled, because nothing it guards can throw in the model.
- `downloadFile` and the upload component's display helpers are not modelled: they are DOM and UI work. This covers the anchor click, `formatFileSize`, drag-over handling and `triggerFileInput`.
- The payment provider's customer lookup and session creation are external. Their answers are parameters, and the model records what was sent to them. The secret key and API version are not modelled.
- Login's `find` takes the first match in key order, which is not modelled. The login method may choose any candidate; under unique emails `Auth.LoginDeterministic` shows there is at most one.
- Checkout.LookupPackage: property names the catalog object inherits, such as `toString`, are treated as unknown packages. In JavaScript they pass the guard.
- Checkout.Serve: request fields of a type other than string are not modelled. A body that does not parse is reduced to its error message.
- FileService.DownloadRouteId: this is a reference reader for the links `CreateDownloadLink` builds, not the router. The router matches only the pathname: it accepts a trailing slash, ignores a query and a fragment, and percent-decodes the id. The reader returns nothing for such URLs.
- Checkout.SuccessUrlCarriesPurchase: this holds only for an origin without `?` and a user id without `&`, because neither is escaped. The reference reader does not treat `#` as the start of a fragment. Nothing in the app reads these parameters back.
- Concurrent writes from other tabs are not modelled: the store has a single writer.
