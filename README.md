# CROWN LINE PROPERTY site core, modelled in Dafny

This project models the logic of the CROWN LINE PROPERTY real-estate site:

- **The listing catalogue.** It is kept in browser storage under `featured_properties`. The model covers reading with a fallback to six seeded listings, saving, adding with the next free id, merging an update into the first record with a given id, deleting every record with an id, and lookup by id.
- **The footer contact block.** It is kept under `footer_contacts` and read with a fallback to a fixed default.
- **The admin panel's state and handlers.** This covers edit, add, cancel, save, delete, save contacts, add image and remove image, plus the statistics row.
- **The static contact page's script.** This covers the submit validation of the contact form (five checks, error marks, success banner and reset) and the `currentPage` derivation.
- **The country list endpoint.** It maps the upstream country list through a fixed table of 57 dial codes and builds flag emoji from regional indicator symbols. It sorts with the United Arab Emirates first and the rest by name, and filters by a search term.
- **The contact submission endpoint.** It checks the request, answers in dev mode, and otherwise composes the Telegram message and maps the upstream result to a reply.
- **The post-export path fixer.** It collects every `.html` file under the export directory and computes each file's relative prefix. It rewrites the absolute `/_next/` and `/logo.jpg` references and writes back only files whose content changed.

Each source file is one module:

| Source file | Module |
|---|---|
| `lib/properties.ts` | `Properties` |
| `lib/contacts.ts` | `Contacts` |
| `components/AdminPanel.tsx` | `AdminPanel` |
| `js/script.js` | `ContactForm` |
| `app/api/countries/route.ts` | `Countries` |
| `app/api/contact/route.ts` | `ContactRoute` |
| `scripts/fix-paths.js` | `FixPaths` |

Two modules are shared by the others:

- `Text` models the JavaScript string primitives the code relies on: the `\s`/`trim` white-space class, `trim`, `includes`, case mapping, UTF-16 `length` and `repeat`.
- `Wrappers` holds `Option`.

Where a component changes state in place, the model has a class with fields:

- `PropertyStore` and `ContactStore` – a storage slot and an event counter each.
- `Panel` – the admin page.
- `Page` – the contact form on the static page.
- `FileList` – the array that `findHtmlFiles` pushes to.

The rest is functions and lemmas.

Behaviours of the code that the model keeps as they are:

- `handleSave` with `isAdding` false and a falsy `editingId` (null or 0) calls no store function and shows no notice, but still reloads the list and leaves editing.
- `handleSave` ignores the result of `updateProperty`. It reports success even when no record has the id.
- `deleteProperty` drops every record with the id, not only the first.
- In the static page's script, the email pattern and the phone pattern are tested on the raw value, while the required checks use the trimmed value. So `" a@b.c"` passes the required check and then fails the pattern.
- The country sort comparator answers -1 whenever the left operand is `AE`, so the `AE` entry sorts first whatever the comparison of names says.
- The guarded rewrites of the path fixer leave a reference alone when the character before its opening quote is `:`. So a JSON value written as `"src":"/_next/…"` is not rewritten.

## Model

| member | source | states |
|---|---|---|
| Text.Trim | js/script.js:138 | `trim` is empty exactly when the value is all white space; otherwise its first and last characters are not white space; it is never longer than the value |
| Text.TrimStart | app/api/contact/route.ts:36 | the result is a suffix of the input, the dropped part is all white space, and the result does not start with white space |
| Text.TrimEnd | app/api/contact/route.ts:36 | the result is a prefix of the input, the dropped part is all white space, and the result does not end with white space |
| Text.TrimEndKeepsPrefix | app/api/contact/route.ts:27-36 | trimming the end of `a + b` keeps all of `a` when `b` has a non-space character |
| Text.TrimStartKeepsSuffix | app/api/contact/route.ts:27-36 | trimming the start of `a + b` keeps all of `b` when `a` has a non-space character |
| Text.Utf16Length | js/script.js:196 | JavaScript `length` counts UTF-16 units: at least the number of characters, at most twice it, and equal to it for text in the Basic Multilingual Plane |
| Text.Utf16Units | app/api/countries/route.ts:142-143 | splitting into units gives `length` units, each below 0x10000, and in the Basic Multilingual Plane they are the characters' own codes |
| Text.CharUnits | app/api/countries/route.ts:142-143 | one unit for a character below 0x10000 (the character itself), a pair of units above it |
| Text.Repeat | scripts/fix-paths.js:57 | `p.repeat(n)` has length `n·|p|` and consists of characters of `p` |
| Text.RepeatAt | scripts/fix-paths.js:57 | `p.repeat(n)` is `n` copies of `p` in order: position `k·|p| + j` holds `p[j]` for every copy `k < n` |
| Text.Lower | app/api/countries/route.ts:123 | definition of `toLowerCase` on Basic Latin and the basic Cyrillic block; used by `Countries.Matches` |
| Text.Upper | app/api/countries/route.ts:141 | definition of `toUpperCase` on Basic Latin; characterised by `Countries.FlagRoundTrip` |
| Properties.Load | lib/properties.ts:16-28 | nothing on the server; the stored array when the slot parses; otherwise the six seeded listings with ids 1 to 6 in order and no id repeated |
| Properties.DefaultProperties | lib/properties.ts:76-168 | definition of the six seeded listings; characterised by `Load` and `FirstNewIdIsSeven` |
| Properties.Merge | lib/properties.ts:54 | definition of `{ ...record, ...updates }`; characterised by `MergeUnits` and `UpdateKeepsOthers` |
| Properties.MergeUnits | lib/properties.ts:54 | spreading `{}` over a record changes nothing; spreading a whole record over it yields that record |
| Properties.MaxId | lib/properties.ts:41 | `Math.max` of the ids is the id of some record and no record has a larger one |
| Properties.NextId | lib/properties.ts:41 | the new id is 1 for an empty list, otherwise one more than some record's id, and larger than every id present |
| Properties.NextIdStaysSafe | lib/properties.ts:41 | while every id is an integer below `Number.MAX_SAFE_INTEGER` in size, the new id is at most that bound, so the double arithmetic of `Math.max(...) + 1` is exact |
| Properties.AddKeepsIdsUnique | lib/properties.ts:39-46 | the new id is not in use, and appending the new record keeps ids unique |
| Properties.FirstNewIdIsSeven | lib/properties.ts:76-168 | the first id given out after the six seeded listings is 7 |
| Properties.FindIndex | lib/properties.ts:51 | `findIndex` is -1 exactly when no record has the id; otherwise it is the first record with the id |
| Properties.FindById | lib/properties.ts:72 | `find … \|\| null` is null exactly when no record has the id; otherwise it is the first record with it |
| Properties.FindByIdAtIndex | lib/properties.ts:70-73 | lookup by id agrees with the record at `findIndex` |
| Properties.Without | lib/properties.ts:62 | the filter keeps exactly the records whose id differs; it is shorter exactly when some record has the id, and unchanged otherwise |
| Properties.WithoutConcat | lib/properties.ts:62 | filtering distributes over concatenation, so relative order is kept |
| Properties.WithoutKeepsIdsUnique | lib/properties.ts:60-67 | deleting keeps ids unique and leaves no record with the deleted id |
| Properties.UpdateKeepsOthers | lib/properties.ts:49-57 | an update changes only the record at the index, and keeps ids unique exactly when it carries no id or one used by no other record |
| Properties.PropertyStore.constructor | lib/properties.ts:13-19 | a tab with a given slot, server/client flag and no events yet |
| Properties.PropertyStore.Properties | lib/properties.ts:16-28 | definition: `Load` of the tab's slot; characterised by `Load` and `SaveProperties` |
| Properties.PropertyStore.SaveProperties | lib/properties.ts:31-36 | on the client the slot holds exactly the array, the next read returns it, and one event fires; on the server nothing changes |
| Properties.PropertyStore.AddProperty | lib/properties.ts:39-46 | the returned record is the draft with the next id; on the client the list becomes the old list plus that record and one event fires; on the server nothing is stored and the id is 1 |
| Properties.PropertyStore.UpdateProperty | lib/properties.ts:49-57 | true exactly when some record has the id; then the first such record is merged with the update and saved; otherwise nothing is written |
| Properties.PropertyStore.DeleteProperty | lib/properties.ts:60-67 | true exactly when some record has the id; then the filtered list is saved; otherwise nothing is written |
| Properties.PropertyStore.GetPropertyById | lib/properties.ts:70-73 | null exactly when no stored record has the id; otherwise a stored record with that id |
| Properties.FirstAddOnEmptySlot | lib/properties.ts:39-46 | adding to an empty slot stores the six seeded listings followed by the new one, which gets id 7 |
| Contacts.DefaultContacts | lib/contacts.ts:40-51 | the default record's three social links are the placeholder `#` |
| Contacts.Load | lib/contacts.ts:15-29 | the stored record on the client when the slot parses, the default record in every other case |
| Contacts.ContactStore.constructor | lib/contacts.ts:12 | a tab with a given slot, server/client flag and no events yet |
| Contacts.ContactStore.Contacts | lib/contacts.ts:15-29 | definition: `Load` of the tab's slot; characterised by `Load` and `SaveContacts` |
| Contacts.ContactStore.SaveContacts | lib/contacts.ts:32-37 | on the client the slot holds exactly the record, the next read returns it, and one event fires; on the server nothing changes |
| AdminPanel.DraftFromForm | components/AdminPanel.tsx:103-112 | the record passed to `addProperty` keeps title, location and price; an empty area becomes "0"; missing bedrooms, images and type default to 0, `[]` and `sale`; anything given is kept |
| AdminPanel.RemoveAt | components/AdminPanel.tsx:196 | exactly the image at the index is removed and the others keep their order; an index outside the list removes nothing |
| AdminPanel.WithImage | components/AdminPanel.tsx:145-148 | the URL is appended to the images (a missing list counts as empty) and no other key changes |
| AdminPanel.HasRequiredFields | components/AdminPanel.tsx:96 | definition of the title/location/price truthiness test; characterised by `Panel.HandleSave` |
| AdminPanel.SaleCount | components/AdminPanel.tsx:295 | definition; characterised by `SaleRentalPartition` |
| AdminPanel.RentalCount | components/AdminPanel.tsx:301 | definition; characterised by `SaleRentalPartition` |
| AdminPanel.PhotoCount | components/AdminPanel.tsx:307 | definition; characterised by `PhotoCountConcat` and `PhotoCountZero` |
| AdminPanel.SaleRentalPartition | components/AdminPanel.tsx:289-301 | the sale and rental counters add up to the total |
| AdminPanel.PhotoCountConcat | components/AdminPanel.tsx:307 | the photo total is additive over the list |
| AdminPanel.PhotoCountZero | components/AdminPanel.tsx:307 | the photo total is zero exactly when no listing has a photo |
| AdminPanel.StatsOf | components/AdminPanel.tsx:287-307 | the total counter is the number of listings, and sale plus rental equals it |
| AdminPanel.Panel.Valid | components/AdminPanel.tsx:23-34 | definition of the editing invariant; established by the constructor and preserved by `HandleEdit`, `HandleAdd`, `HandleCancel`, `HandleSave`, `AddImage` and `RemoveImage` |
| AdminPanel.Panel.constructor | components/AdminPanel.tsx:11-41 | the initial state (blank `sale` form, no editing, no notice) with both stores loaded |
| AdminPanel.Panel.CurrentStats | components/AdminPanel.tsx:289-307 | the statistics row of the shown list: total is its length, sale plus rental equals the total |
| AdminPanel.Panel.LoadProperties | components/AdminPanel.tsx:50-52 | the shown list becomes the stored list; nothing else changes |
| AdminPanel.Panel.HandleEdit | components/AdminPanel.tsx:67-71 | editing the listing's id with the whole record in the form, not adding; other state kept |
| AdminPanel.Panel.HandleAdd | components/AdminPanel.tsx:73-86 | adding on a blank `sale` form, not editing; other state kept |
| AdminPanel.Panel.HandleCancel | components/AdminPanel.tsx:88-93 | neither adding nor editing, form `{}`, URL input empty; other state kept |
| AdminPanel.Panel.HandleSave | components/AdminPanel.tsx:95-124 | without a title, location or price: error notice and nothing else changes. Adding: the stored list gains the defaulted draft with the next id. Adding fires one store event on the client and none on the server. Editing a truthy id: the first record with it is merged with the form, with one event exactly when some record has the id. Neither: no store write and no notice. After a store call the list is reloaded and editing ends. Unique ids stay unique |
| AdminPanel.Panel.HandleDelete | components/AdminPanel.tsx:126-136 | confirmed: the stored list loses every record with the id, one event fires when some record had the id, the list is reloaded, and a success notice is shown; declined: nothing changes |
| AdminPanel.Panel.HandleSaveContacts | components/AdminPanel.tsx:58-65 | the page's contact record is stored as a whole and a success notice is shown |
| AdminPanel.Panel.AddImage | components/AdminPanel.tsx:138-153 | a blank input changes nothing; a trimmed URL that parses is appended and the input cleared; otherwise an error notice and the images are kept |
| AdminPanel.Panel.RemoveImage | components/AdminPanel.tsx:192-198 | the form's images lose exactly the one at the index; nothing else changes |
| ContactForm.Rank | js/script.js:124 | the position of each input in the order the handler checks them |
| ContactForm.MatchesEmailPattern | js/script.js:148 | definition of the email regular expression; characterised by `EmailPatternIsShape` |
| ContactForm.MatchesPhonePattern | js/script.js:167 | definition of the phone regular expression; characterised by `PhoneCheck` |
| ContactForm.NameError | js/script.js:137-145 | definition; characterised by `NameCheck` |
| ContactForm.EmailError | js/script.js:147-163 | definition; characterised by `EmailCheck` |
| ContactForm.PhoneError | js/script.js:165-176 | definition; characterised by `PhoneCheck` |
| ContactForm.SubjectError | js/script.js:178-186 | definition: "Please select a subject" exactly when the value is empty |
| ContactForm.MessageError | js/script.js:188-203 | definition; characterised by `MessageCheck` |
| ContactForm.NameCheck | js/script.js:138-145 | "Name is required" exactly when the trimmed name is empty, no error otherwise |
| ContactForm.EmailPatternIsShape | js/script.js:148 | the email pattern matches exactly the values made of three non-empty runs without white space or `@`, joined by `@` and then `.` |
| ContactForm.EmailCheck | js/script.js:147-163 | blank after trimming gives "Email is required"; otherwise "valid email" fails exactly when the raw value is not of the email shape; no error exactly when it is |
| ContactForm.PhoneCheck | js/script.js:165-176 | a blank phone never fails; otherwise it fails exactly when some raw character is outside digits, white space, `-`, `+`, `(` and `)` |
| ContactForm.MessageCheck | js/script.js:188-203 | blank gives "Message is required"; ten characters after trimming always pass; fewer than five fail as too short |
| ContactForm.FlagShows | js/script.js:137-145 | flagging the next field adds it to the marked inputs, and to the shown error elements with its text when its element exists |
| ContactForm.PassShows | js/script.js:137-203 | a passing check leaves the marks as they were |
| ContactForm.ShowsAll | js/script.js:137-203 | after all five checks the marks are exactly the failed checks with their messages |
| ContactForm.Page.constructor | js/script.js:101-120 | a page with the given values, defaults, existing error elements and banner, with no marks |
| ContactForm.Page.ClearErrors | js/script.js:122-135 | no input marked, every existing error element empty and hidden, banner hidden, values untouched |
| ContactForm.Page.Flag | js/script.js:139-144 | one failed check: the input is marked and its error element, if it exists, gets the message and is shown |
| ContactForm.Page.CheckName | js/script.js:137-145 | after the name check the marks reflect it; the result is whether it passed |
| ContactForm.Page.CheckEmail | js/script.js:147-163 | after the email check the marks reflect the first two checks; the result is whether it passed |
| ContactForm.Page.CheckPhone | js/script.js:165-176 | after the phone check the marks reflect the first three checks; the result is whether it passed |
| ContactForm.Page.CheckSubject | js/script.js:178-186 | after the subject check the marks reflect the first four checks; the result is whether it passed |
| ContactForm.Page.CheckMessage | js/script.js:188-203 | after the message check the marks reflect all five checks; the result is whether it passed |
| ContactForm.Page.Submit | js/script.js:104-226 | valid exactly when no check fails; the marked inputs, shown elements and their texts are exactly the failures; when valid the form is reset and the banner shown if present, otherwise the values are kept and the banner hidden |
| ContactForm.Page.SubmitSucceeded | js/script.js:205-225 | the banner is shown if it exists and the values return to their defaults; the marks are kept |
| ContactForm.LastSegment | js/script.js:272 | the last `/`-separated segment: a suffix without `/`, preceded by `/` unless it is the whole path |
| ContactForm.CurrentPage | js/script.js:272 | never empty and without `/`; `index.html` for an empty path or one ending in `/`; otherwise the path's last segment |
| ContactRoute.CommentLine | app/api/contact/route.ts:33 | the comment line is empty exactly when the message is falsy |
| ContactRoute.Heading | app/api/contact/route.ts:27-35 | the fixed part of the message is non-empty and begins and ends with a non-space character |
| ContactRoute.Untrimmed | app/api/contact/route.ts:27-35 | definition of the template before `.trim()`; characterised by `MessageText` and `TrimmedTemplate` |
| ContactRoute.TrimmedTemplate | app/api/contact/route.ts:27-36 | trimming `"\n" + h + tail` keeps all of a solid `h` and is a prefix of `h + tail` |
| ContactRoute.MessageText | app/api/contact/route.ts:27-36 | the trimmed message starts with the title, the field lines and the clock, and is a prefix of those followed by the date |
| ContactRoute.MessageTextContents | app/api/contact/route.ts:27-36 | the message contains the name, phone and email lines; with a truthy message, the comment line just before the clock; without one, the email line just before the clock |
| ContactRoute.Post | app/api/contact/route.ts:3-63 | unreadable body: 500 with the send error; a falsy name, phone or email: 400 with the required-fields error and no call; a Telegram call exactly when all three fields, the token and the chat id are truthy; status 200 exactly when the body is a success; after a call, 200 if the upstream answered ok and 500 otherwise |
| ContactRoute.ValidationFirst | app/api/contact/route.ts:9-14 | with a missing field the outcome does not depend on the environment, the date or the upstream, and is a 400 |
| ContactRoute.DevModeAnswer | app/api/contact/route.ts:17-25 | complete fields without credentials give 200 with the dev-mode message and no call |
| ContactRoute.SentMessage | app/api/contact/route.ts:38-49 | the call carries the configured token and chat id, and its text contains the name, phone and email lines |
| Countries.DialCodeTableWellFormed | app/api/countries/route.ts:4-63 | every table key is two capital Latin letters and every dial code starts with `+` and has at least one more character |
| Countries.Lookup | app/api/countries/route.ts:74 | absent exactly when no key matches; otherwise a value paired with the key in the table |
| Countries.DialCode | app/api/countries/route.ts:73-75 | non-empty exactly when the code is in the table, and then that code's entry, starting with `+` |
| Countries.FlagEmoji | app/api/countries/route.ts:139-145 | the flag has one code point per UTF-16 unit of the code |
| Countries.FlagPerCharacter | app/api/countries/route.ts:139-145 | for codes in the Basic Multilingual Plane, each flag code point is 127397 plus the upper-cased character |
| Countries.FlagLetters | app/api/countries/route.ts:139-145 | decoding a flag gives one letter per code point |
| Countries.FlagRoundTrip | app/api/countries/route.ts:139-145 | for Latin letters the flag is regional indicator symbols, and decoding it gives back the upper-cased code |
| Countries.FlagsDistinguishCodes | app/api/countries/route.ts:139-145 | two Latin codes have the same flag exactly when they are equal once upper-cased |
| Countries.ToCountry | app/api/countries/route.ts:93-110 | dropped exactly when the code has no dial code; otherwise code and name from the upstream entry, the table's dial code and the code's flag |
| Countries.Convert | app/api/countries/route.ts:92-111 | mapping and dropping nulls never lengthens the list |
| Countries.ConvertConcat | app/api/countries/route.ts:92-111 | the conversion distributes over concatenation |
| Countries.ConvertMembers | app/api/countries/route.ts:92-111 | a country is in the result exactly when some upstream entry converts to it |
| Countries.ConvertedCountry | app/api/countries/route.ts:93-110 | every converted country has its table dial code, a two-letter code, and a two-symbol flag that decodes to the code |
| Countries.ConvertDrops | app/api/countries/route.ts:94-96 | an upstream entry is represented in the result exactly when its code is in the table |
| Countries.Insert | app/api/countries/route.ts:112-117 | inserting adds exactly one element |
| Countries.SortCountries | app/api/countries/route.ts:112-117 | the sorted list is a permutation of the input |
| Countries.InsertSorted | app/api/countries/route.ts:112-117 | insertion into a sorted list keeps it sorted when the name comparison is a total preorder |
| Countries.Before | app/api/countries/route.ts:112-117 | definition of the comparator (`AE` first, then `leq` on names); characterised by `SortSorted` and `SortPutsAEFirst` |
| Countries.SortSorted | app/api/countries/route.ts:112-117 | the result is sorted: `AE` before everything, the rest by name |
| Countries.SortPutsAEFirst | app/api/countries/route.ts:114-115 | whenever `AE` is present it comes first, whatever the name comparison |
| Countries.Filter | app/api/countries/route.ts:122-125 | keeps exactly the countries whose lower-cased name contains the lower-cased term or whose dial code contains the term |
| Countries.FilterIsSubsequence | app/api/countries/route.ts:122-125 | filtering keeps the order of the list |
| Countries.FilterSorted | app/api/countries/route.ts:120-126 | filtering a sorted list leaves it sorted |
| Countries.Search | app/api/countries/route.ts:120-126 | an empty term keeps the list; a non-empty one keeps exactly the matching countries; the order is kept |
| Countries.Matches | app/api/countries/route.ts:122-125 | definition of the search predicate; characterised by `Filter` and `Search` |
| Countries.Get | app/api/countries/route.ts:77-136 | a failed upstream gives exactly the 500 error; otherwise a subsequence of the sorted countries, and all of them for an empty or missing term |
| Countries.GetCountries | app/api/countries/route.ts:77-136 | the answer is sorted and carries only table dial codes; it lists exactly the converted countries, narrowed to the matching ones when a term is given |
| Countries.GetPutsAEFirst | app/api/countries/route.ts:112-128 | when the answer contains `AE`, it is the first entry |
| FixPaths.HtmlFilesExact | scripts/fix-paths.js:5-20 | a path is collected exactly when it lies below the directory, names a file in the tree and ends in `.html` |
| FixPaths.EntryFilesExact | scripts/fix-paths.js:8-17 | the same for one directory entry |
| FixPaths.HtmlFiles | scripts/fix-paths.js:5-20 | definition; characterised by `HtmlFilesExact` and `FileList.FindHtmlFiles` |
| FixPaths.EntryFiles | scripts/fix-paths.js:8-17 | definition; characterised by `EntryFilesExact` |
| FixPaths.FileList.constructor | scripts/fix-paths.js:5 | the list starts empty |
| FixPaths.FileList.FindHtmlFiles | scripts/fix-paths.js:5-20 | the list grows by exactly the HTML files of the tree, in traversal order |
| FixPaths.DirName | scripts/fix-paths.js:40 | the directory of a path is the path without its last segment: its prefix one segment shorter |
| FixPaths.CommonLength | scripts/fix-paths.js:49 | the length of the longest common prefix of two paths |
| FixPaths.Ups | scripts/fix-paths.js:49 | `n` segments, all `..` |
| FixPaths.Relative | scripts/fix-paths.js:49 | the relative path from a directory to itself is empty |
| FixPaths.UpCount | scripts/fix-paths.js:51 | the `..` count never exceeds the segment count, equals it when every segment is `..`, and is 0 when none is |
| FixPaths.Slashes | scripts/fix-paths.js:62 | every backslash becomes `/`, nothing else changes, and no backslash remains |
| FixPaths.PathPrefix | scripts/fix-paths.js:44-62 | the prefix contains no backslash |
| FixPaths.PrefixAtRoot | scripts/fix-paths.js:44-47 | a file in the export root gets `./` |
| FixPaths.PrefixBelow | scripts/fix-paths.js:47-58 | a file `n ≥ 1` directories below the root gets `../` repeated `n` times |
| FixPaths.RelativeToAncestor | scripts/fix-paths.js:49 | from `n` levels below a directory back to it is `n` times `..` |
| FixPaths.SlashesFree | scripts/fix-paths.js:62 | a prefix without backslashes is left as it is |
| FixPaths.ReplaceAllFree | scripts/fix-paths.js:65-68 | a global replace without any occurrence changes nothing |
| FixPaths.ReplaceAllFirst | scripts/fix-paths.js:65-68 | a global replace rewrites the leftmost occurrence and continues after it |
| FixPaths.GuardedFree | scripts/fix-paths.js:72-73 | the guarded replace without any guarded occurrence changes nothing |
| FixPaths.GuardedFirst | scripts/fix-paths.js:72-73 | the guarded replace keeps the captured character, rewrites the leftmost guarded occurrence and continues after it |
| FixPaths.ReplaceAll | scripts/fix-paths.js:65-68 | definition of a global replace; characterised by `ReplaceAllFree` and `ReplaceAllFirst` |
| FixPaths.GuardedReplace | scripts/fix-paths.js:72-73 | definition of the `([^:])` guarded global replace; characterised by `GuardedFree` and `GuardedFirst` |
| FixPaths.FixContent | scripts/fix-paths.js:64-73 | definition of the six rewrites in order; characterised by `FixContentFree` and by the lemmas of its two replace forms |
| FixPaths.NoAttribute | scripts/fix-paths.js:65-68 | an attribute rewrite cannot fire when the path does not occur |
| FixPaths.NoGuarded | scripts/fix-paths.js:72-73 | a guarded rewrite cannot fire when the path does not occur |
| FixPaths.FixContentFree | scripts/fix-paths.js:64-73 | a page containing neither `/_next/` nor `/logo.jpg` is left unchanged by all six rewrites |
| FixPaths.FixFile | scripts/fix-paths.js:36-78 | a file is written exactly when its rewritten content differs from the original, and then with the rewritten content |
| FixPaths.Rewrite | scripts/fix-paths.js:75-78 | at most one write per file |
| FixPaths.RewriteExact | scripts/fix-paths.js:75-78 | a file's write is its path with the rewritten content, present exactly when that content differs |
| FixPaths.Writes | scripts/fix-paths.js:35-79 | never more writes than files |
| FixPaths.WritesExact | scripts/fix-paths.js:35-79 | a write happens exactly when some file produces it |
| FixPaths.FixAll | scripts/fix-paths.js:35-79 | the loop over the files performs exactly the writes of the per-file rewrite, in file order |

## Left out

- Properties.AddKeepsIdsUnique: ids are unbounded integers in the model, JavaScript numbers (doubles) in the code. Uniqueness of new ids, here and in `AdminPanel.Panel.HandleSave`, holds in the code only while ids are integers below `Number.MAX_SAFE_INTEGER` (`NextIdStaysSafe`); past 2^53, `Math.max(...) + 1` can round back to an id in use. Non-integer ids from hand-edited storage are not represented.
- Properties.NextId: the `RangeError` that `Math.max(...spread)` throws on an array too large to spread is not modelled.
- Browser storage is a `Slot` value per key. `JSON.stringify`/`JSON.parse` are left out: a slot holds records, nothing, or text that does not parse. Stored JSON that parses to something other than the expected shape is not modelled.
- `window.dispatchEvent` is modelled as an event counter. `typeof window` is modelled as the `onClient` flag.
- Exceptions from the stores are left out: a full storage quota, for example. So are the `catch` branches of the admin handlers and their error notices, since the modelled stores never throw.
- `handleFileUpload` is left out. It reads files asynchronously through `FileReader` and depends on file types and sizes, which this model does not represent.
- The admin panel's three-second notice timer, `activeTab` and all markup are left out. The notice texts are an enumeration rather than their Russian wording.
- React state updates are modelled as taking effect at once, in the order the handler issues them.
- `window.confirm` in `handleDelete` is the parameter `confirmed`. The `new URL` test in `addImage` is the parameter `parsesAsUrl`.
- The static page's other features are left out: navbar scroll, mobile menu, reveal animation, smooth scrolling, card hover, lazy images, blur revalidation and nav link highlighting (only `currentPage` is modelled). So are the scroll into view and the five-second timer that hides the success banner.
- The five form inputs are taken to exist, since the script would throw without them. The error elements and the banner may be missing.
- Text.Lower: `toLowerCase` is modelled on Basic Latin and the basic Cyrillic block only; other characters are returned unchanged.
- Text.Upper: `toUpperCase` is modelled on Basic Latin only. Country codes are Latin letters.
- Text.Trim: the contract does not state that the result is the middle part of the input. `TrimStart` and `TrimEnd` state their halves.
- ContactForm.MessageCheck: trimmed messages of five to nine characters depend on how many of them lie outside the Basic Multilingual Plane. The exact rule is `MessageError`, which counts UTF-16 units.
- `fetch`, `response.json` and the parsing of `request.url` in the country endpoint are left out. The endpoint takes the search parameter and the upstream list as inputs, with `None` standing for any failure. `console` output is left out.
- An upstream entry without `name.common`, which would throw, is not modelled. A code equal to an inherited object key such as `constructor`, which `dialCodeMap[cca2]` would answer, is not modelled either.
- `localeCompare(…, 'ru')` is the parameter `leq`. The sorting lemmas assume it is a total preorder.
- Countries.SortCountries: the sort is an insertion sort and therefore stable, but stability is not stated. With several `AE` entries the source comparator is inconsistent, and the engine's order is not determined; the model fixes one.
- The contact endpoint's body is read as optional strings. Non-string JSON values and their interpolation are not modelled.
- The date from `toLocaleString('ru-RU', …)` is the parameter `date`. The outcome of the Telegram request is the parameter `upstreamOk`; a network error counts as not ok, as it leads to the same 500 reply.
- The Telegram request's `parse_mode` and headers are not recorded: the call holds the token, the chat id and the text.
- ContactRoute.MessageText: the contract bounds the trimmed text between the fixed part and the fixed part followed by the date. The exact text is `Trim(Untrimmed(…))`.
- The file system is left out:
  - The export tree is an `Entry` value. `readdirSync` order is the order of its entries.
  - File contents come in as pairs of path and content, and writes come out as a list.
  - `existsSync`, `process.exit` and the console are left out.
- Paths are sequences of segments. `path.join`/`normalize`/`relative` are modelled on segments. Separators, drive letters and symbolic links are not represented.
- FixPaths.FixContent: only the unchanged case is characterised. No idempotence or absence of remaining absolute references is stated for the six rewrites.
