# Upload policy mapper — a Dafny model

This project models the one piece of logic in the two upload test pages of
the app: `doUpload` and `detectKind` on the 18+ page
(`apps/web/pages/upload-test.tsx`) and on the minors page
(`apps/unga/pages/upload-test.tsx`). A signed-in user picks a bucket, a
visibility, a category and a file. The page then:

1. refuses the action without a signed-in user or without a file;
2. sanitises the file name, replacing each run of whitespace with `_`;
3. builds the key `<userId>/<Date.now()>-<safeName>`;
4. uploads the file to the chosen bucket, never overwriting;
5. only if the upload succeeded, inserts a `media_files` row. The row holds
   the kind read off the MIME type, and the adult-only, sensitive and
   category fields derived from the bucket. Moderation starts at `pending`.

One shared model covers both pages. It is parameterised by `Variant`
(`AdultSite` for the 18+ page, `YouthSite` for the minors page). The 18+
page derives the flags from the bucket: `adult-private` forces
`adult_only`, `is_sensitive` and category `adult`. The minors page
hard-wires both flags to false and passes the category through.
`Offered` records what each page's typed form can hold. The minors page
has no `adult-private` bucket, no `members` visibility and no `adult`
category.

Files and modules:

- `text.dfy`: `Optional` (an option type) and `Text`. `Text` holds the
  ECMAScript `\s` whitespace class, `startsWith`, the first index of a
  character, and the decimal rendering of the clock reading together
  with its inverse.
- `safe_name.dfy`: `SafeName`, the regex replacement `/\s+/g → "_"` and
  its properties.
- `media_kind.dfy`: `MediaKind`, `detectKind` and a reference
  classification by top-level media type.
- `storage_path.dfy`: `StoragePath`, the object key and its parser.
- `policy.dfy`: `UploadPolicy`, the enumerations, the `media_files` row
  and the bucket rules of both pages.
- `upload.dfy`: `Upload`, the guard → upload → insert sequence. It works
  over abstract answers from the two remote services. It also has a small
  model of the remote state, used to state the write-after-write
  invariant.

The remote services are inputs. `DoUpload` receives the store's answer
(`Stored` or `StoreError`) and the table's answer (`Inserted(id)` or
`InsertError`). It returns the requests the page issued, in order, and
how the action ended. The clock reading `Date.now()` is the `now` field
of the request.

The model keeps these details of the pages:

- The session guard is JavaScript truthiness (`!sessionUserId`), so an
  empty user id is refused just like a missing one (`SignedIn`).
- `mime_type` is `file.type || null`, so only the empty type becomes null.
- The MIME prefix test is case-sensitive, so `IMAGE/PNG` is `other`.
- On the 18+ page the `adult` category can be picked with any bucket.
  Outside `adult-private`, such a row is written with category `adult` and
  both flags false (`AdultCategoryOutsideAdultBucket`). So "category
  `adult` ⇒ adult-only" does not hold; only the converse does.

## Model

| member | source | states |
|---|---|---|
| `MediaKind.DetectKind` | apps/web/pages/upload-test.tsx:27-32 | `gif` exactly for `image/gif`; `image` exactly for other `image/` types; `video` exactly for `video/`; `audio` exactly for `audio/`; `other` exactly when none of these prefixes match, which includes the empty string |
| `MediaKind.DetectKindByMediaType` | apps/web/pages/upload-test.tsx:27-32 | for every string, the prefix tests give the same kind as classifying by the top-level type before the first `/` (with subtype `gif` singled out) |
| `MediaKind.EmptyTypeIsOther` | apps/unga/pages/upload-test.tsx:26-31 | a file whose type the browser leaves empty is classified `other` |
| `SafeName.Sanitize` | apps/web/pages/upload-test.tsx:44 | the sanitised name contains no whitespace and is no longer than the original |
| `SafeName.SanitizeLength` | apps/web/pages/upload-test.tsx:44 | the length is the number of non-whitespace characters plus the number of maximal whitespace runs, so each run becomes exactly one character |
| `SafeName.SanitizeKeepsText` | apps/web/pages/upload-test.tsx:44 | every non-whitespace character of the name appears in the result, in the original order |
| `SafeName.SanitizeOnlyAddsUnderscores` | apps/web/pages/upload-test.tsx:44 | with underscores removed, the result equals the name's non-whitespace text with underscores removed; the only inserted character is `_` |
| `SafeName.SanitizeRunInPlace` | apps/web/pages/upload-test.tsx:44 | after whitespace-free text, a maximal whitespace run becomes a single `_` in the same place, and the text after it is sanitised on its own |
| `SafeName.SanitizeFixedPoint` | apps/web/pages/upload-test.tsx:44 | a name is left unchanged if and only if it contains no whitespace |
| `SafeName.SanitizeIdempotent` | apps/unga/pages/upload-test.tsx:37 | sanitising an already sanitised name changes nothing |
| `SafeName.SanitizeSpaceBetween` | apps/web/pages/upload-test.tsx:44 | a single space between two whitespace-free words becomes `_` and nothing else changes |
| `SafeName.SanitizeExample` | apps/web/pages/upload-test.tsx:44 | `My File.png` becomes `My_File.png` |
| `Text.Decimal` | apps/web/pages/upload-test.tsx:45 | the rendered timestamp is a non-empty string of decimal digits with no leading zero; it starts with `0` only for zero, which is rendered as exactly `0` |
| `Text.CanonicalDecimalRoundTrip` | apps/web/pages/upload-test.tsx:45 | every digit text without a leading zero (or `0` itself) is the rendering of the number it denotes, so together with the round trip below the rendering of each clock reading is fixed |
| `Text.DecimalRoundTrip` | apps/web/pages/upload-test.tsx:45 | reading the rendered timestamp back as a decimal gives the clock reading |
| `StoragePath.BuildPath` | apps/web/pages/upload-test.tsx:45 | the key starts with `<userId>/`; it contains whitespace only if the user id or the file name does |
| `Upload.KeyHasNoWhitespace` | apps/unga/pages/upload-test.tsx:37-38 | the upload key contains no whitespace whenever the user id contains none, whatever whitespace the file name holds |
| `StoragePath.ParseBuildPath` | apps/unga/pages/upload-test.tsx:38 | the key splits back into exactly the user id, the timestamp and the sanitised name, for a user id without `/` |
| `StoragePath.BuildParsePath` | apps/web/pages/upload-test.tsx:45 | every key the parser accepts is exactly the key built from the parts it reads back; the parser accepts the timestamp only without zero padding, so the digit text of a key is the clock reading as the template literal writes it |
| `StoragePath.DistinctTimestampsDistinctPaths` | apps/web/pages/upload-test.tsx:45 | for one user and one file name, different timestamps give different keys, so a retry at a different millisecond never collides with an earlier upload |
| `UploadPolicy.MimeOrNull` | apps/web/pages/upload-test.tsx:65 | the stored MIME type is null exactly when the file type is empty, and is the file type otherwise |
| `UploadPolicy.BuildRecord` | apps/web/pages/upload-test.tsx:38-72 | the row has `is_sensitive == adult_only` and moderation `pending`. On the 18+ page `adult_only` holds iff the bucket is `adult-private`, and that bucket forces category `adult`; otherwise the category is the selection. On the minors page both flags are false and the category is passed through. User, bucket, path, kind, size and visibility come from the inputs |
| `UploadPolicy.AdultBucketIgnoresCategory` | apps/web/pages/upload-test.tsx:39-41 | on the 18+ page, two `adult-private` choices that differ only in category produce the same row |
| `UploadPolicy.YouthRowNeverAdult` | apps/unga/pages/upload-test.tsx:51-63 | for every choice the minors page offers, the row is neither adult-only nor sensitive, is not `adult`, and is not in `adult-private` |
| `UploadPolicy.VariantsAgreeOutsideAdultBucket` | apps/unga/pages/upload-test.tsx:51-63 | for any bucket other than `adult-private`, the two pages write identical rows |
| `UploadPolicy.AdultCategoryOutsideAdultBucket` | apps/web/pages/upload-test.tsx:39-41 | on the 18+ page, category `adult` in `profile-public` is written with category `adult` and both flags false |
| `Upload.DoUpload` | apps/web/pages/upload-test.tsx:34-78 | no signed-in user (null or empty id), or no file, means no request and the matching failure. Once both guards pass, the first request is the upload: to the chosen bucket, under `BuildPath(user, now, Sanitize(name))`, with the file's type, never upserting. A store error ends the action after that single request, reporting the store's message. A stored object is followed by exactly one insert of `BuildRecord` for that key. An insert error is reported with the table's message; success ends `Saved` with the table's id. There are never more than these two requests, and an insert always follows an upload of the same bucket and key. The row keeps `RowInvariant` and belongs to the session user |
| `Upload.CommitKeepsRowsBacked` | apps/web/pages/upload-test.tsx:47-76 | if every row in the backend has its object stored, that still holds after any run. The remote state takes the upload only when the store accepted it and the row only when the table accepted it, whatever the services answer |
| `Upload.StoreRefusalChangesNothing` | apps/web/pages/upload-test.tsx:47-56 | when the store refuses the upload, the remote objects and rows are unchanged, whatever the table would have answered, because the page stops before the insert |
| `Upload.InsertAfterRefusalLeavesRowUnbacked` | apps/web/pages/upload-test.tsx:53-58 | the early return matters: the same two requests answered with a store refusal and a table success would leave a row with no stored object |
| `Upload.SavedRunAddsRow` | apps/web/pages/upload-test.tsx:47-77 | after a fully successful run, the store's objects are the earlier ones plus the chosen bucket and key, and the table's rows are the earlier ones followed by exactly the row built for that key |
| `Upload.InsertFailureLeavesOrphan` | apps/web/pages/upload-test.tsx:53-76 | after a successful upload and a failed insert, the object is stored and no row was added |
| `Upload.YouthUploadNeverAdult` | apps/unga/pages/upload-test.tsx:33-69 | on the minors page, for every offered choice and every service answer, no upload targets `adult-private`, and no inserted row is adult-only, sensitive, `adult` or in `adult-private` |
| `Upload.AdultSiteFlags` | apps/web/pages/upload-test.tsx:38-70 | on the 18+ page, an inserted row for `adult-private` is adult-only, sensitive and `adult`, whatever category was picked. For any other bucket it is neither adult-only nor sensitive and keeps the picked category |
| `Upload.UploadExample` | apps/web/pages/upload-test.tsx:44-64 | user `u1` uploading `My File.png` (`image/png`, 10 bytes) at time `t` stores under `u1/<t>-My_File.png`, inserts a row of kind `image` and ends saved |

## Left out

- `signIn` (`signInWithPassword`) and its `AuthError` are not modelled. They are a call into the hosted auth service. The model takes the resulting session user id, possibly absent, as an input.
- The object store and table calls are foreign network calls (`storage.from(..).upload`, `from('media_files').insert(..).select('id').single()`). Only their success or failure is modelled, as `StoreReply` and `InsertReply`. The store's own reasons for failing are not modelled, such as a key collision while `upsert` is false, or access rules.
- The file's bytes are not modelled. They pass to the store unread; the model keeps only name, type and size.
- `Date.now()` is the input `now`. JavaScript writes numbers of 10^21 and above in exponent notation; `Text.Decimal` does not model that, since clock readings are far below it.
- `Text.IsWhitespace` covers ECMAScript's `\s` set with the space separators of Unicode 15. Dafny strings are sequences of Unicode scalar values, not UTF-16 code units, so lone surrogates are not modelled. None of them is whitespace.
- The log panel is presentation only and is not modelled: the Swedish messages and the prepend-to-log behaviour.
- React state, rendering and the `<select>` widgets are not modelled. The typed unions they fill become enumerations, and `UploadPolicy.Offered` restricts them per page.
- `StoragePath.DistinctTimestampsDistinctPaths` covers only different clock readings. `Date.now()` is not monotonic, so a retry in the same millisecond, or after the clock was set back, reuses a key. The store then refuses it because `upsert` is false, which the model reports as `StorageFailed`.
- Cleanup of an object orphaned by a failed insert is not modelled, because the pages do none. `Upload.InsertFailureLeavesOrphan` states the gap.
- `apps/web/lib/supabaseClient.ts` is not part of this model. It only reads two environment variables and builds the SDK client.
- The layouts `apps/admin/src/app/layout.tsx` and `apps/site/src/app/layout.tsx` are not part of this model. They are page scaffolding.
- The order in which `kind` and the flags are computed relative to the upload is not modelled. They are pure and do not affect which requests are issued.
