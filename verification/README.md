# Civic-complaint app core, modelled in Dafny

A mobile client lets citizens file *denúncias* (civic complaints). Each one has a
category, a description, an address and an optional photo. This project models the
pure logic behind that client and proves properties about it:

- **DenunciationsStore** (`denunciations_store.dfy`): the in-memory list of complaints.
  It supports append, a newest-first copy, a merge-update of the first record with a given
  id, and clearing. Each operation maps the list to the next list; all but clearing also
  give the value handed back to the caller.
- **DenunciarScreen** (`denunciar_screen.dfy`): the complaint form.
  - the predefined categories and the title derived from the chosen one;
  - the required-field check;
  - the one-line address;
  - the record sent to the document store;
  - the banner and form state after a submission;
  - the address pre-fill from a location lookup.
- **ImageUpload** (`image_upload.dfy`): which local picture URIs are accepted, the
  storage path an upload is written to, the two shapes of an upload result, and the
  storage path a delete request is turned into.
- **FirebaseAuth** (`firebase_auth.dfy`): translation of backend error codes into
  Portuguese messages; the sign-in, sign-up, password-reset and sign-out flows; and the
  current-user snapshot.
- **FormRules**, **SignUpScreen**, **ForgotPasswordScreen**: the ordered validation chains
  of the account and password-reset forms. The first failing check alone decides the
  message, and the service is called only when every check passes.
- **JsText** (`jstext.dfy`): the JavaScript string behaviour these rely on:
  - `trim` with the full ECMAScript whitespace set;
  - `split` on one character;
  - `length` counted in UTF-16 code units;
  - decimal rendering of a millisecond clock value inside a template literal.

Backend calls (authentication, document store, file storage) are not modelled as code.
Each becomes a parameter describing its outcome: `AuthOutcome`, `ProfileRead`,
`WriteOutcome`, `AddOutcome`, `StorageOutcome`, or a plain `bool`. Clock readings
(`Date.now()`, `new Date()`) are integer milliseconds passed in, one parameter per
reading that reaches a modelled value. The server-assigned
creation time is the constant `ServerTimestamp`.

The code has no vote toggling and no geocoding: `LocationService` returns a fixed
sample address. The creation check tests only `selectedCategory`, so "outro" with empty
custom text passes (`DenunciarScreen.OtherWithoutTextIsAccepted`).

## Model

| member | source | states |
|---|---|---|
| JsText.Trim | SignUpScreen.tsx:21 | `trim` returns a slice `s[i..j]` of the input with only whitespace cut off before `i` and after `j`, and the slice neither starts nor ends with whitespace |
| JsText.TrimEmptyIff | SignUpScreen.tsx:21 | `!s.trim()` holds exactly when every character of `s` is JavaScript whitespace (the empty string included) |
| JsText.Utf16Length | SignUpScreen.tsx:36 | `length` counts UTF-16 code units: between `|s|` and `2·|s|`, and equal to `|s|` for text within the Basic Multilingual Plane |
| JsText.Split | ImageUploadService.ts:95-96 | `split(sep)` yields at least one piece and no piece contains the separator |
| JsText.SplitJoinRoundTrip | ImageUploadService.ts:95-96 | joining the pieces of a split with the separator gives back the original string |
| JsText.SplitLast | ImageUploadService.ts:95-96 | the last piece of a split is the text after the last separator |
| JsText.DecimalRoundTrip | ImageUploadService.ts:49 | reading back the decimal rendering of the clock value yields the same number |
| JsText.DecimalInjective | ImageUploadService.ts:49 | distinct clock values render as distinct digit strings |
| DenunciationsStore.Merge | DenunciationsStore.ts:33 | object spread: each field the update mentions overrides; each field it omits keeps its old value |
| DenunciationsStore.MergeLaws | DenunciationsStore.ts:33 | an update that mentions nothing changes nothing; applying one update twice equals applying it once |
| DenunciationsStore.Add | DenunciationsStore.ts:21-24 | push: the length grows by one, earlier records keep their positions, the new record is last, and the list is returned |
| DenunciationsStore.Get | DenunciationsStore.ts:26-28 | the list is unchanged; the copy holds the same records (as a multiset), newest first, with equal-time records in stored order |
| DenunciationsStore.SortIsStable | DenunciationsStore.ts:27 | for every timestamp, the sorted copy lists the records with that timestamp in their original order |
| DenunciationsStore.SortIsTheStableOrder | DenunciationsStore.ts:27 | any newest-first list that keeps equal-time records in stored order is exactly what `getDenunciations` returns |
| DenunciationsStore.FindIndex | DenunciationsStore.ts:31 | `findIndex` gives the first position holding the id, or -1 exactly when no record has it |
| DenunciationsStore.Update | DenunciationsStore.ts:30-36 | the length is unchanged and the updated list itself is returned |
| DenunciationsStore.UpdatePresent | DenunciationsStore.ts:31-34 | with the id present, its first record becomes the merge and every other record is unchanged |
| DenunciationsStore.UpdateAbsent | DenunciationsStore.ts:31-35 | with the id absent, the list is exactly as before |
| DenunciationsStore.Clear | DenunciationsStore.ts:38-40 | the list becomes empty, so a following `getDenunciations` returns an empty list; nothing is handed back |
| DenunciarScreen.FindCategory | DenunciarScreen.tsx:105 | `find` returns the first category with the id, or nothing exactly when no category has it |
| DenunciarScreen.CategoryIdsDistinct | DenunciarScreen.tsx:27-38 | no two predefined categories share an id |
| DenunciarScreen.CategoryTitle | DenunciarScreen.tsx:101-107 | "outro" gives the custom text, or "Outro problema" when that text is empty; another predefined id gives that category's label; an id that is not predefined (the empty one included) gives `""` |
| DenunciarScreen.MissingRequired | DenunciarScreen.tsx:115 | the check fails exactly when one of category, description, street, district, city or state is the empty string |
| DenunciarScreen.SpacesCountAsFilled | DenunciarScreen.tsx:115 | no trimming here: any form whose six required fields are non-empty passes the check, including fields of only whitespace that the account forms would call blank |
| DenunciarScreen.ReporterFor | DenunciarScreen.tsx:59-70 | the reporter is the signed-in user's id and name; the name defaults to "Usuário Anônimo", and so does the whole reporter when nobody is signed in |
| DenunciarScreen.NamelessAccountIsAnonymousUser | DenunciarScreen.tsx:62-65 | an account without a display name reports as "Usuário Anônimo" |
| DenunciarScreen.FullAddress | DenunciarScreen.tsx:123 | the address line starts with the street, ends with the state, and adds exactly seven separator characters |
| DenunciarScreen.BuildRecord | DenunciarScreen.tsx:126-144 | new record: status "Não Resolvido", no likes or dislikes, empty image URL; custom text kept only for "outro"; "Anônimo" when anonymous; user id "anonymous" when absent or empty |
| DenunciarScreen.HandleSubmit | DenunciarScreen.tsx:109-170 | a record is sent iff no required field is empty; on a missing field nothing is sent and the form stays; success clears the form; a failed store keeps it and shows the error |
| DenunciarScreen.OtherWithoutTextIsAccepted | DenunciarScreen.tsx:101-129 | "outro" with empty custom text passes the check and is titled "Outro problema" |
| DenunciarScreen.NoDoubleSubmit | DenunciarScreen.tsx:115-160 | after a successful submission the cleared form is rejected, so nothing is sent twice |
| DenunciarScreen.PrefillAddress | DenunciarScreen.tsx:73-98 | a lookup with an address sets exactly the four address fields; otherwise the form is untouched and the failure alert is shown |
| ImageUpload.ValidateImage | ImageUploadService.ts:110-119 | accepted exactly when the URI starts with `file://` or `content://`; the empty URI is rejected |
| ImageUpload.UploadPath | ImageUploadService.ts:49 | the upload path lies in the `denunciations/` folder and ends in `.jpg` |
| ImageUpload.UploadPathInjective | ImageUploadService.ts:49 | two uploads get the same path only for the same record id and the same millisecond |
| ImageUpload.UploadImage | ImageUploadService.ts:34-85 | the result is always well shaped; an empty URI fails with "URI da imagem não fornecida" and touches no storage; otherwise the file goes to the upload path and succeeds iff storage did |
| ImageUpload.UploadSkipsSchemeCheck | ImageUploadService.ts:43-49 | upload does not apply `validateImage`: every non-empty URI it rejects (an `http://` one among them) is still sent to storage at the upload path |
| ImageUpload.DeleteFileName | ImageUploadService.ts:95-96 | the derived file name contains neither `/` nor `?` |
| ImageUpload.DeleteFileNameSpec | ImageUploadService.ts:95-96 | the file name is the text after the last `/`, cut at its first `?` |
| ImageUpload.DeletePath | ImageUploadService.ts:95-97 | the delete path is the `denunciations/` folder followed by a name free of `/` and `?` |
| ImageUpload.DeleteImage | ImageUploadService.ts:90-105 | an empty URL returns true and touches no storage; otherwise the derived path is removed and the answer is whether that worked |
| ImageUpload.DeleteOfPlainUrl | ImageUploadService.ts:49-97 | for a URL ending in `/<upload name>?<query without />`, the delete path is the upload path |
| ImageUpload.DeletePathMissesUpload | ImageUploadService.ts:95-97 | given an upload's download URL, the delete path is the encoded path re-prefixed with the folder, never the uploaded path |
| ImageUpload.StoragePathOfDownloadUrl | ImageUploadService.ts:95-97 | decoding the file name of an upload's download URL gives back exactly the upload path |
| ImageUpload.DeleteImageByUrl | ImageUploadService.ts:90-105 | delete with the corrected path: no-op on the empty URL, otherwise removes the object the URL names |
| FirebaseAuth.ErrorMessage | FirebaseAuthService.ts:171-190 | total: every code, absent included, gets a non-empty message; the generic one exactly for absent or unlisted codes |
| FirebaseAuth.ErrorMessageMatchesTable | FirebaseAuthService.ts:173-186 | each of the seven listed codes gets its own message |
| FirebaseAuth.KnownMessagesDistinct | FirebaseAuthService.ts:173-188 | the seven dedicated messages are pairwise distinct and differ from the generic one |
| FirebaseAuth.SignInWithEmail | FirebaseAuthService.ts:15-48 | succeeds iff authentication, profile read and login stamp all succeed; a failing step's error is `getErrorMessage` of that step's own code |
| FirebaseAuth.MissingProfileIsGeneric | FirebaseAuthService.ts:42-46 | the internal "profile not found" error surfaces only as the generic message |
| FirebaseAuth.SignUpWithEmail | FirebaseAuthService.ts:51-88 | succeeds iff account creation and profile write succeed, with the new id and email, the given name and phone, and the two separate clock readings as creation and last-login dates; a rejected creation or write fails with `getErrorMessage` of its own code |
| FirebaseAuth.ResetPassword | FirebaseAuthService.ts:91-97 | fails iff the request failed, and then with `getErrorMessage` of the request's error code |
| FirebaseAuth.WeakPasswordMessage | FirebaseAuthService.ts:179-180 | the code `auth/weak-password` is translated to "Senha muito fraca" |
| FirebaseAuth.SignOut | FirebaseAuthService.ts:100-106 | fails iff the request failed, with the fixed "Erro ao fazer logout", which is outside the translated messages |
| FirebaseAuth.CurrentUser | FirebaseAuthService.ts:109-123 | nothing iff nobody is signed in; otherwise id and email of the account, name and phone or `""`, and two fresh clock readings as the dates |
| FormRules.BlankIff | ForgotPasswordScreen.tsx:25 | blank after trim means whitespace only; the empty string is blank |
| FormRules.EmailError | ForgotPasswordScreen.tsx:25-33 | blank gives "digite seu email"; non-blank without `@` gives "email válido"; otherwise no error |
| FormRules.UntrimmedAtPasses | SignUpScreen.tsx:26-34 | the `@` test reads the untrimmed text, so `" @ "` passes both email checks |
| SignUpScreen.SignUpError | SignUpScreen.tsx:21-49 | each message is reported exactly when its check fails and every earlier check passes; no error iff all six pass |
| SignUpScreen.HandleSignUp | SignUpScreen.tsx:19-85 | the service is called iff all checks pass and the probe said yes, with the untrimmed email, password, name and phone; a rejected creation or profile write shows exactly the service's translation of that error's code |
| SignUpScreen.WeakPasswordIsReported | SignUpScreen.tsx:79-82 | whenever the form reaches the service and account creation is rejected as a weak password, the alert shows "Senha muito fraca" |
| SignUpScreen.PasswordLengthBoundary | SignUpScreen.tsx:36-39 | six characters pass the length check, five do not |
| SignUpScreen.AstralPasswordPasses | SignUpScreen.tsx:36-39 | three characters outside the Basic Multilingual Plane have length 6 and pass |
| SignUpScreen.InvalidFormMakesNoCall | SignUpScreen.tsx:21-67 | a form failing any check never reaches the service |
| ForgotPasswordScreen.HandleResetPassword | ForgotPasswordScreen.tsx:24-53 | blank email: "digite seu email", no call; no `@`: "email válido", no call; otherwise the untrimmed email is sent and a failure shows the translation of the request's error code |
| ForgotPasswordScreen.UnknownAccountIsReported | ForgotPasswordScreen.tsx:37-49 | a reset rejected with `auth/user-not-found` shows "Usuário não encontrado" |
| ForgotPasswordScreen.WhitespaceEmailIsMissing | ForgotPasswordScreen.tsx:25-28 | a whitespace-only email is reported missing, not invalid, and nothing is sent |

## Left out

- Backend SDK calls (authentication, document reads and writes, file storage, `onAuthStateChanged`): remote I/O. Only their outcomes enter the model, as parameters.
- `updateUserData` and `getUserData` (FirebaseAuthService.ts:146-169): single remote calls with a fixed error message or `null` on failure.
- LocationService.ts: a permission prompt plus a timer that returns a fixed sample address. The screen's handling of its answer is modelled (`PrefillAddress`); coordinates are omitted because the form never reads them.
- `pickImage` and `getImageInfo` (ImageUploadService.ts:15-29, 124-137): native picker I/O, and a function that always returns `{}`.
- The connectivity probe run before sign-up: its answer is an opaque `bool`. A probe that throws is not distinguished from one that answers false.
- UI: rendering, styles, alerts as widgets, loading flags, navigation and its delays. Alert texts and banner messages are modelled as strings.
- Aliasing: `addDenunciation` and `updateDenunciation` return the store's own array. A caller mutating that array would mutate the store. The model returns a value copy.
- Date objects: record timestamps are integer milliseconds, so invalid dates (which make the sort comparator yield `NaN`) are not represented.
- JsText.IsJsWhitespace: uses the Unicode space-separator list current at the time of writing. Characters added to that category in later Unicode versions are not included.
- SignInWithEmail: the date written by the login stamp (FirebaseAuthService.ts:31-33) is not represented. Only whether that write succeeded is modelled. Its `now` is the separate reading placed in the returned profile (FirebaseAuthService.ts:37-40).
- SignInWithEmail: reads the profile through an abstract `ProfileRead`. Whether the backend can ever hand back a falsy snapshot is outside the model.
- DenunciarScreen.FullAddress: its own contract gives only the prefix, suffix and length. The exact template `rua, bairro, cidade - estado` is its definition, and `BuildRecord` stores exactly that string.
- DenunciationsStore.Merge: an update field explicitly set to `undefined` is not modelled, except for `imageUrl`. `Partial<Denunciation>` admits `{ title: undefined }`, and the spread would copy that `undefined` over the old value. A record with an undefined title, date or status is not a `Denunciation` of this model, so for every other field "set to undefined" and "not mentioned" are the same update here.
- Like and dislike lists: a new record gets empty `likes` and `dislikes`, and no modelled operation besides a merge-update touches them.

## Findings

| source | as written | input that shows it | evidently intended | confidence | as-written member | corrected member |
|---|---|---|---|---|---|---|
| ImageUploadService.ts:95-97 | the delete path is `denunciations/` plus the last `/`-segment of the URL, cut at `?` | the download URL of an upload, `<bucket address>/o/denunciations%2Fabc_5.jpg?alt=media&token=t`, gives `denunciations/denunciations%2Fabc_5.jpg` instead of `denunciations/abc_5.jpg`. The storage service percent-encodes the object path in its download URLs, and that URL format is not part of the source. | delete the object the stored download URL names, i.e. the upload path | medium, not executed | ImageUpload.DeletePathMissesUpload | ImageUpload.StoragePathOfDownloadUrl |
