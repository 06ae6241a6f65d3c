# Studio site admin: services and page logic in Dafny

This project models the logic of a design studio's marketing site and its small admin area. The site keeps four kinds of records in a hosted backend, each in one table:
- portfolio projects;
- partners;
- homepage hero slides;
- quick links.

Projects, partners and slides also own images in public storage buckets. The model covers three layers:

- **Services** (`PortfolioService`, `PartnerService`, `HeroService`, `LinkService`). These create, update, delete and list records against an abstract `Backend.Table` (a map from id to row) and an abstract `Backend.Bucket` (a set of object names). Every backend call may fail, and the model lets it fail nondeterministically. Each service method's postcondition says what is left behind on every path:
  - validation happens before any side effect;
  - uploads run one at a time, and a failed upload or insert triggers cleanup;
  - deletes remove the row first, then clean up storage on a best-effort basis;
  - object names are recovered from public URLs.
- **The public portfolio page** (`PortfolioGallery`): the category filter and the image carousel's index arithmetic, with JavaScript's `%` written out (`JsNumber.Remainder`).
- **The admin pages** (`PortfolioAdmin`, `HeroAdmin`, `LinkAdmin`, `PartnerAdmin`). Each page's component state is a `Manager` class. Its event handlers and mutation functions are methods that:
  - guard required fields;
  - keep the two preview lists aligned;
  - reset the form after success;
  - send negated flags;
  - call the services in the page's order.

Supporting modules:
- `Text`: JavaScript's `split(sep).pop()`, `indexOf` and `startsWith`, and ASCII `toUpperCase`;
- `JsNumber`: `parseInt(text) || 0` and `String(n)` over unbounded integers, with the proof that reading back a shown number gives the number;
- `Seqs`: `filter`, removal by index, and the stable order a backend `order by` returns;
- `Wrappers`: `Option`.

Three facts about the code shape the storage contracts:
- A stored object's path is recovered from its public URL. For projects and partners it is the last `/`-segment of the URL; for slides it is the last piece of `split('/hero-images/')`.
- The hero service's `deleteImage` throws storage errors, and the hero page removes the image before the row, so a failed removal keeps the row.
- Every cleanup removal ignores its result, and the hero upload has no cleanup at all. The model states exactly which objects can stay behind.

## Model

| member | source | states |
|---|---|---|
| Backend.LastSegmentOfPublicUrl | src/services/portfolio.ts:65 | the last '/'-segment of an object's public URL is the object's name, when that name is a single segment |
| Backend.ObjectNameSegment | src/services/portfolio.ts:54-56 | a stored name (token, '.', last '.'-segment of the file name) is non-empty and holds no '/' |
| Backend.Uuid | src/services/portfolio.ts:55 | a fresh id is 36 characters of hexadecimal digits and dashes, so it holds no '/' and no '.' |
| Backend.RandomBase36 | src/services/hero.ts:83 | the random token is base-36 digits, so it holds no '/' and no '.' |
| Backend.UuidObjectName | src/services/partners.ts:36-38 | the name made for a file is the fresh id, '.', and the file's extension, and is a single non-empty path segment |
| Backend.QueryContents | src/services/links.ts:28-32 | a filtered, ordered select returns rows sorted by the key, and a row appears exactly when it is stored and passes the filter |
| Backend.Table.Insert | src/services/hero.ts:41-47 | an insert adds one row with a new id holding exactly the data, and other rows are unchanged; a failure changes nothing |
| Backend.Table.Update | src/services/hero.ts:55-62 | an update of a missing id fails; otherwise only that row's data changes, by the patch, keeping id and created_at; a failure changes nothing |
| Backend.Table.Delete | src/services/hero.ts:70-75 | a delete removes the row with that id (a missing id is no error) or fails and changes nothing |
| Backend.Table.Select | src/services/links.ts:42-48 | a successful select returns the query over the current rows |
| Backend.Bucket.Upload | src/services/portfolio.ts:58-60 | an upload without upsert adds a name that was not there, or fails and changes nothing |
| Backend.Bucket.Remove | src/services/portfolio.ts:138-140 | a removal removes all the named objects, missing names included, or fails and removes none |
| Text.IndexOf | src/services/hero.ts:103 | a found position is an occurrence of the separator |
| Text.IndexOfFirst | src/services/hero.ts:103 | every occurrence is found, and none lies before the found position |
| Text.SplitLast | src/services/hero.ts:103 | the last piece of `split(sep)` holds no occurrence of the separator |
| Text.SplitLastSuffix | src/services/hero.ts:103 | the last piece is a suffix of the input |
| Text.SplitLastAfterChar | src/services/partners.ts:79 | splitting `p + c + q` at the character `c` yields `q` whenever `q` holds no `c`, whatever `p` holds |
| Text.SplitLastAfterMarker | src/services/hero.ts:103 | splitting `p + sep + q` yields `q` when `q` holds no separator and no occurrence starts inside `p` |
| Text.IndexOfChar | src/services/portfolio.ts:135 | a one-character separator is found exactly when the character occurs |
| Text.SplitLastChars | src/services/portfolio.ts:54 | the last piece has no character the input lacks |
| Text.UpperIdempotent | src/pages/admin/LinkManager.tsx:198 | upper-casing twice is upper-casing once |
| JsNumber.Remainder | src/pages/Portfolio.tsx:98 | JavaScript `%`: for a non-negative dividend it is the mathematical remainder, and for a negative one it is the value in (-n, 0] that differs from the dividend by a multiple of n |
| JsNumber.TrimStart | src/pages/admin/LinkManager.tsx:213 | `parseInt` skips leading white space: the rest is a suffix that starts with no space |
| JsNumber.DigitPrefix | src/pages/admin/LinkManager.tsx:213 | the digits `parseInt` reads are a prefix of the input, all digits of the radix |
| JsNumber.DecimalDigits | src/pages/admin/LinkManager.tsx:211 | `String(n)` of a natural number is a non-empty run of decimal digits |
| JsNumber.DecimalDigitsValue | src/pages/admin/LinkManager.tsx:211-213 | the digits `String(n)` writes have the value `n` |
| JsNumber.DecimalUnsigned | src/pages/admin/LinkManager.tsx:211-213 | the unsigned reading of `String(n)` is `n` |
| JsNumber.ParseDecimal | src/pages/admin/LinkManager.tsx:211-213 | `parseInt(String(n)) \|\| 0 == n` for every integer of the model, negative ones included, so the order field of this page and of the hero page (src/pages/admin/HeroManager.tsx:160-162) shows the stored number and reading it back gives that number |
| Seqs.Filter | src/pages/Portfolio.tsx:218 | a filter never lengthens its input |
| Seqs.FilterKeeps | src/pages/Portfolio.tsx:218 | an element survives the filter exactly when it is in the input and passes the test |
| Seqs.FilterAppend | src/pages/Portfolio.tsx:218 | filtering distributes over concatenation, so the input order is kept |
| Seqs.FilterKeepsAll | src/services/links.ts:42-45 | a filter that every element passes returns its input |
| Seqs.Without | src/pages/admin/PortfolioPage.tsx:155 | dropping an index in range shortens the list by one; any other index keeps its length |
| Seqs.WithoutSplices | src/pages/admin/PortfolioPage.tsx:155-156 | `filter((_, i) => i !== index)` splices out the element at an index in range and otherwise returns the list unchanged |
| Seqs.WithoutAt | src/pages/admin/PortfolioPage.tsx:155-156 | after dropping `index`, position `k` holds what position `k` or `k + 1` held, the same for every list |
| Seqs.InsertByElements | src/services/partners.ts:19 | one insertion step adds exactly the inserted element |
| Seqs.InsertBySorted | src/services/partners.ts:19 | one insertion step keeps a sorted list sorted |
| Seqs.SortByPermutes | src/services/partners.ts:19 | an ordered listing is a permutation of the rows |
| Seqs.SortBySorted | src/services/partners.ts:19 | an ordered listing is in key order |
| Seqs.SortByElements | src/services/partners.ts:19 | an ordered listing holds exactly the input's rows |
| Seqs.FilterInsertBy | src/services/links.ts:31-32 | filtering after an insertion equals inserting into the filtered sorted list |
| Seqs.SortFilterCommute | src/services/links.ts:31-32 | sorting then filtering equals filtering then sorting |
| PortfolioService.ApplyPatchIdempotent | src/services/portfolio.ts:112-122 | applying the same update twice is applying it once, and an empty update changes nothing |
| PortfolioService.Rejection | src/services/portfolio.ts:41-48 | a file is refused exactly when it is over 5MB or its type lacks the "image/" prefix; an oversize file is reported as too large, and an in-size non-image as not an image |
| PortfolioService.FirstRejectionIsFirst | src/services/portfolio.ts:41-48 | the batch passes exactly when every file passes; otherwise the error is that of a refused file all of whose predecessors pass |
| PortfolioService.ValidateImages | src/services/portfolio.ts:41-48 | the validation loop returns the first refusal in input order, or none |
| PortfolioService.Urls | src/services/portfolio.ts:74-78 | one public URL per stored name |
| PortfolioService.UrlsAt | src/services/portfolio.ts:78 | the k-th URL is the public URL of the k-th stored name |
| PortfolioService.FileNames | src/services/portfolio.ts:135 | every name derived from a URL is non-empty and a single segment |
| PortfolioService.FileNamesOfUrls | src/services/portfolio.ts:135 | the names a delete derives from a project's URLs are exactly the names its create stored, in order |
| PortfolioService.UploadStep | src/services/portfolio.ts:53-79 | one more successful upload extends the loop's facts: one more name, one more URL, still distinct and disjoint from the old objects |
| PortfolioService.ListingNewestFirst | src/services/portfolio.ts:19-26 | the listing is newest first and holds exactly the stored projects |
| PortfolioService.CleanupLeaves | src/services/portfolio.ts:97-106 | removing all but `kept` of what a call added leaves the bucket as before plus `kept` |
| PortfolioService.Service.FetchProjects | src/services/portfolio.ts:19-26 | a successful fetch returns every project, newest first |
| PortfolioService.Service.RemoveNamed | src/services/portfolio.ts:64-69 | one cleanup step removes the object its URL names, or leaves it and counts a failed removal |
| PortfolioService.Service.RemoveUploaded | src/services/portfolio.ts:99-104 | the cleanup loop removes every listed object except those whose removal failed, and leaves none behind when no removal failed |
| PortfolioService.Service.UploadFile | src/services/portfolio.ts:54-60 | one upload stores the file under a new single-segment name made from a fresh id and its extension, or changes nothing |
| PortfolioService.Service.AbortUploads | src/services/portfolio.ts:62-71 | after a failed upload the bucket is as before plus only leftovers of failed removals, each one an object this call uploaded; none remain when no removal failed |
| PortfolioService.Service.UploadAll | src/services/portfolio.ts:53-79 | on success there is one new object and one URL per file, in input order, named after the files; on failure the only objects left are ones this call uploaded whose removal failed |
| PortfolioService.Service.CreateProject | src/services/portfolio.ts:30-109 | a refused file fails before any upload or insert; success inserts one row with the given fields and one URL per file; on a failed upload or insert no row is added and the only objects left are ones this call uploaded whose removal failed |
| PortfolioService.Service.UpdateProject | src/services/portfolio.ts:112-122 | only the row with that id changes, by the given fields; a missing id fails; storage is untouched |
| PortfolioService.Service.DeleteProject | src/services/portfolio.ts:125-144 | a failed row delete changes nothing; otherwise the row is gone, and the derived names are removed unless the (logged) removal failed |
| PartnerService.LogoRejection | src/services/partners.ts:28-33 | a logo is refused exactly when it is over 2MB or not an image; an oversize logo is reported as too large, and an in-size non-image as an invalid type |
| PartnerService.ListingByDisplayOrder | src/services/partners.ts:15-22 | the listing is in ascending display order and holds exactly the stored partners |
| PartnerService.LogoUrlNamesObject | src/services/partners.ts:79 | the last '/'-segment of a stored logo URL is the uploaded object's name |
| PartnerService.Service.FetchPartners | src/services/partners.ts:15-22 | a successful fetch returns every partner by ascending display order |
| PartnerService.Service.UploadLogo | src/services/partners.ts:36-44 | the logo is stored under a new single-segment name made from a fresh id and its extension, or nothing changes |
| PartnerService.Service.CreatePartner | src/services/partners.ts:26-65 | a refused logo fails before any side effect; success stores one object and one row with the name and that object's public URL; a failed insert removes exactly that object unless the removal fails |
| PartnerService.Service.DeletePartner | src/services/partners.ts:68-87 | a failed row delete changes nothing; otherwise the row is gone, and the logo's last URL segment is removed unless empty or the (logged) removal failed |
| HeroService.StoredRoundTrip | src/services/hero.ts:40-48 | an insert naming every column stores exactly that slide, so every slide can be created as it is |
| HeroService.StoredIsPatchedDefaults | src/services/hero.ts:40-48 | an insert stores what an update with the same columns makes of the slide holding only the image and the table's defaults |
| HeroService.SlidePatchSets | src/services/hero.ts:54-64 | an update sets exactly the columns it names |
| HeroService.ListingByOrderIndex | src/services/hero.ts:27-35 | the listing is in ascending order index and holds exactly the stored slides |
| HeroService.PathOfPublicUrl | src/services/hero.ts:103 | the text after the marker in a public URL of the bucket is the object's path, when the project URL does not itself produce the marker |
| HeroService.UploadedImagePath | src/services/hero.ts:81-104 | a URL returned by `uploadImage` leads `deleteImage` back to the object it stored |
| HeroService.Service.FetchSlides | src/services/hero.ts:27-35 | a successful fetch returns every slide by ascending order index |
| HeroService.Service.CreateSlide | src/services/hero.ts:40-49 | one new row holds the input, with defaults; a failure adds nothing |
| HeroService.Service.UpdateSlide | src/services/hero.ts:54-64 | only the row with that id changes, by the given columns; a missing id fails |
| HeroService.Service.DeleteSlide | src/services/hero.ts:69-76 | the row is gone, or the call fails and nothing changes |
| HeroService.Service.UploadImage | src/services/hero.ts:81-97 | with no check on the file, it stores one new object under a random base-36 name and returns its public URL, or fails and changes nothing |
| HeroService.Service.DeleteImage | src/services/hero.ts:102-111 | an empty path does nothing; otherwise the object after the marker is removed, or the call fails with a storage error and changes nothing |
| LinkService.StoredRoundTrip | src/services/links.ts:54-63 | an insert naming every column stores exactly that link, so every link can be created as it is |
| LinkService.StoredIsPatchedDefaults | src/services/links.ts:54-63 | an insert stores what an update with the same columns makes of a link holding the table's defaults |
| LinkService.ActivityPatchSetsOnlyActivity | src/services/links.ts:95-97 | the toggle update sets the flag and nothing else, is idempotent, and toggling to the negation twice restores the link |
| LinkService.ActiveListing | src/services/links.ts:27-35 | the public listing is in ascending order index and holds exactly the active links |
| LinkService.ActiveIsFilteredAll | src/services/links.ts:27-48 | the public listing is the admin listing with the inactive links struck out, in the same order |
| LinkService.Service.FetchActiveLinks | src/services/links.ts:27-35 | a successful fetch returns the active links by ascending order index |
| LinkService.Service.FetchAllLinks | src/services/links.ts:41-48 | a successful fetch returns all links by ascending order index |
| LinkService.Service.CreateLink | src/services/links.ts:54-63 | one new row holds the input, with defaults; a failure adds nothing |
| LinkService.Service.UpdateLink | src/services/links.ts:68-78 | only the row with that id changes, by the given columns; a missing id fails |
| LinkService.Service.DeleteLink | src/services/links.ts:83-90 | the row is gone, or the call fails and nothing changes |
| LinkService.Service.ToggleActive | src/services/links.ts:95-97 | only that row's activity flag changes, to the given value; its id, timestamp and other columns stay |
| PortfolioGallery.FilteredContents | src/pages/Portfolio.tsx:215-218 | "All" shows the list unchanged; another tab shows exactly the projects of that category |
| PortfolioGallery.FilteredKeepsOrder | src/pages/Portfolio.tsx:215-218 | the filter keeps the list's order |
| PortfolioGallery.EmptyStateExactly | src/pages/Portfolio.tsx:327 | the empty state shows exactly when no project falls under the selected tab |
| PortfolioGallery.NextImage | src/pages/Portfolio.tsx:93 | the forward arrow stays in range and moves to the next image, wrapping from the last to the first |
| PortfolioGallery.PrevImage | src/pages/Portfolio.tsx:98 | the back arrow stays in range and moves to the previous image, wrapping from the first to the last |
| PortfolioGallery.NextPrevInverse | src/pages/Portfolio.tsx:93-98 | forward and back undo each other |
| PortfolioGallery.NextTimes | src/pages/Portfolio.tsx:93 | any number of forward presses stays in range |
| PortfolioGallery.NextTimesNoWrap | src/pages/Portfolio.tsx:93 | before the last image, k presses advance the index by k |
| PortfolioGallery.NextTimesCompose | src/pages/Portfolio.tsx:93 | a presses then b presses is a + b presses |
| PortfolioGallery.FullCycle | src/pages/Portfolio.tsx:93 | as many forward presses as there are images return to the start |
| PortfolioGallery.NavigationWhenItMoves | src/pages/Portfolio.tsx:137 | the arrows show exactly when the forward step moves the index away from the opening image |
| PortfolioAdmin.StatusColor | src/pages/admin/PortfolioPage.tsx:29-36 | unknown statuses get the gray badge and only they do; "Completed" is green, "In Progress" blue and "Concept" amber |
| PortfolioAdmin.StatusColorsDistinct | src/pages/admin/PortfolioPage.tsx:29-36 | the three known statuses get three different badges |
| PortfolioAdmin.OrElse | src/pages/admin/PortfolioPage.tsx:181-183 | `s \|\| fallback`: a present, non-empty string wins, otherwise the fallback |
| PortfolioAdmin.MissingStatusIsCompleted | src/pages/admin/PortfolioPage.tsx:392 | a missing or empty status shows the "Completed" badge; a present one shows its own |
| PortfolioAdmin.TextPatchKeepsImages | src/pages/admin/PortfolioPage.tsx:99-107 | an edit stores the seven text fields and keeps the project's images |
| PortfolioAdmin.EditFields | src/pages/admin/PortfolioPage.tsx:176-183 | the edit form takes the project's title, category, year and description, and its status is never empty |
| PortfolioAdmin.EditRoundTrip | src/pages/admin/PortfolioPage.tsx:176-183 | saving an untouched edit gives back the project, except that a missing location, client or status becomes "", "" or "Completed" |
| PortfolioAdmin.RemovePreviewAligned | src/pages/admin/PortfolioPage.tsx:154-159 | after `removePreview` the file and the preview at each position came from the same position before |
| PortfolioAdmin.AllWithinLimit | src/pages/admin/PortfolioPage.tsx:139-144 | the size loop accepts exactly when every chosen file is at most 5MB |
| PortfolioAdmin.Manager.constructor | src/pages/admin/PortfolioPage.tsx:40-55 | the page opens closed, not editing, with the initial fields and no files |
| PortfolioAdmin.Manager.ResetForm | src/pages/admin/PortfolioPage.tsx:161-174 | every field returns to its initial value: empty strings, status "Completed", empty lists, not editing, no id |
| PortfolioAdmin.Manager.HandleFileChange | src/pages/admin/PortfolioPage.tsx:134-152 | a batch with a file over 5MB leaves both lists unchanged; otherwise the batch replaces the files, with one preview per file |
| PortfolioAdmin.Manager.RemovePreview | src/pages/admin/PortfolioPage.tsx:154-159 | the same index is dropped from both lists, which stay equally long |
| PortfolioAdmin.Manager.HandleEdit | src/pages/admin/PortfolioPage.tsx:176-188 | the form takes the project's fields with defaults, keeps its images, and enters edit mode for its id |
| PortfolioAdmin.Manager.HandleOpenChange | src/pages/admin/PortfolioPage.tsx:199-202 | closing the dialog resets the form; opening it keeps the form |
| PortfolioAdmin.Manager.CreateProject | src/pages/admin/PortfolioPage.tsx:69 | a refused file changes nothing; success stores one new object per file and inserts one row holding all seven text fields and those objects' URLs, other rows unchanged; a failure adds no row and leaves behind only objects this call uploaded whose cleanup removal failed |
| PortfolioAdmin.Manager.CreateMutation | src/pages/admin/PortfolioPage.tsx:64-80 | a missing title, category, year or file fails before the service is called; success inserts the form's row with one new object and URL per file, other rows unchanged, then resets and closes the form; a failure adds no row, keeps the form and leaves behind only objects it uploaded whose removal failed |
| PortfolioAdmin.Manager.UpdateMutation | src/pages/admin/PortfolioPage.tsx:83-118 | with no project id it fails; otherwise it sends only the text fields, so the images stay, even when files are selected |
| PortfolioAdmin.Manager.HandleSubmit | src/pages/admin/PortfolioPage.tsx:190-197 | in edit mode a success replaces the edited row by the text update of it and storage is untouched; otherwise a success adds one fresh object per file to the bucket and inserts one new row holding the form's text and those objects' URLs, and a failure leaves only objects it uploaded whose removal failed; other rows never change, and a failure changes no row |
| PortfolioAdmin.Manager.DeleteMutation | src/pages/admin/PortfolioPage.tsx:419-423 | nothing happens without confirmation; a confirmed success removes the project's row and, when no removal failed, exactly the objects named by its image URLs, while a failed removal leaves the bucket as it was; a failure changes neither rows nor bucket |
| HeroAdmin.SlideInputOf | src/pages/admin/HeroManager.tsx:33-37 | the created slide holds every form field, empty strings included, and the uploaded image's URL |
| HeroAdmin.GlobalTextPatchFlips | src/pages/admin/HeroManager.tsx:241-245 | the global-text button flips that flag and nothing else, and pressing it twice restores the slide |
| HeroAdmin.Manager.constructor | src/pages/admin/HeroManager.tsx:14-21 | the page opens with no file and the initial form |
| HeroAdmin.Manager.HandleFileChange | src/pages/admin/HeroManager.tsx:84-88 | the first chosen file becomes the selection; no file keeps the old one |
| HeroAdmin.Manager.SetOrderIndex | src/pages/admin/HeroManager.tsx:161-163 | the order field stores `parseInt(value) \|\| 0` |
| HeroAdmin.Manager.UploadMutation | src/pages/admin/HeroManager.tsx:30-54 | with no file it fails before any upload; a failed create after the upload leaves the image stored; success stores the slide with the uploaded URL and resets the form |
| HeroAdmin.Manager.HandleUpload | src/pages/admin/HeroManager.tsx:90-96 | with no file the mutation is not started and neither rows, bucket nor form change; otherwise an upload adds exactly one fresh object, a success inserts one fresh row holding the form's slide with that object's URL and resets the form, and a failure after the upload is a database error that keeps the rows and the form |
| HeroAdmin.Manager.DeleteMutation | src/pages/admin/HeroManager.tsx:57-61 | the image is removed before the row: a failed image removal keeps the row and the image; a failed row delete keeps the row but the image is already gone |
| HeroAdmin.Manager.ToggleGlobalText | src/pages/admin/HeroManager.tsx:241-245 | only the slide's global-text flag changes, to the negation of the shown one |
| LinkAdmin.ColorPickerValue | src/pages/admin/LinkManager.tsx:197 | the picker shows the colour when it is '#' plus six characters, and "#000000" otherwise |
| LinkAdmin.PickedColor | src/pages/admin/LinkManager.tsx:198 | a picked colour keeps its length and holds no lower-case letter; lower-case letters become their upper-case forms and every other character stays |
| LinkAdmin.PickedColorShown | src/pages/admin/LinkManager.tsx:197-198 | a picked colour is shown by the picker as stored, and picking the shown colour again changes nothing |
| LinkAdmin.InputOf | src/pages/admin/LinkManager.tsx:106 | the created link holds the form exactly |
| LinkAdmin.Manager.constructor | src/pages/admin/LinkManager.tsx:39-47 | the page opens with the form closed and title "", url "", icon "Link", colour "#FF6B35", order 0, active |
| LinkAdmin.Manager.ToggleAdding | src/pages/admin/LinkManager.tsx:124 | the add button opens or closes the form |
| LinkAdmin.Manager.Cancel | src/pages/admin/LinkManager.tsx:240 | cancel closes the form |
| LinkAdmin.Manager.PickColor | src/pages/admin/LinkManager.tsx:198 | a pick stores the upper-cased value and changes no other field |
| LinkAdmin.Manager.SetOrderIndex | src/pages/admin/LinkManager.tsx:212-213 | the order field stores `parseInt(value) \|\| 0` |
| LinkAdmin.Manager.HandleCreate | src/pages/admin/LinkManager.tsx:101-107 | the mutation starts exactly when title and url are filled in; success stores the form and resets and closes it |
| LinkAdmin.Manager.ToggleVisibility | src/pages/admin/LinkManager.tsx:277-279 | only that link's flag changes, to the negation of the shown one |
| LinkAdmin.Manager.DeleteMutation | src/pages/admin/LinkManager.tsx:297 | the link's row is gone, or nothing changes |
| PartnerAdmin.Manager.constructor | src/pages/admin/Partners.tsx:22-24 | the page opens closed, with no name and no file |
| PartnerAdmin.Manager.HandleFileChange | src/pages/admin/Partners.tsx:64-74 | only the first file counts; one over 2MB is refused and the previous selection stays |
| PartnerAdmin.Manager.CreatePartner | src/pages/admin/Partners.tsx:36 | a refused logo changes nothing; success stores one new logo and one row with the dialog's name, that logo's public URL and the default order; a failure adds no row and leaves the uploaded logo behind only when its removal failed |
| PartnerAdmin.Manager.CreateMutation | src/pages/admin/Partners.tsx:33-48 | a missing name or logo fails before the service is called; success stores one fresh logo object and a row pointing at it, then clears the name and file and closes the dialog; a failure keeps the rows and the dialog as they were, and leaves the bucket unchanged or, when the cleanup removal failed, with just the uploaded logo added |
| PartnerAdmin.Manager.DeleteMutation | src/pages/admin/Partners.tsx:51-54 | nothing happens without confirmation; a confirmed success removes the partner's row and, when the URL names an object and its removal did not fail, exactly that object, else leaves the bucket as it was; a failure changes neither rows nor bucket |

## Left out

- The backend SDK, HTTP and row-level security are not modelled. A table is a map from ids to rows and a bucket is a set of names. Every call may fail, and the model does not distinguish why.
- The fresh-name sources `uuidv4()` and `Math.random().toString(36)` are arbitrary strings over their alphabets. Two calls may collide, and the bucket then refuses the second upload (no upsert).
- `created_at` is an arbitrary integer per insert, and row ids are numbered from a counter rather than generated.
- Listings break ties in their sort key by insertion order; the backend promises no order among equal keys.
- The `data || []` fallback of the fetches is not modelled: a successful select always returns a list.
- The column defaults the tables' schema supplies are not part of the source: `display_order` 0, hero slide order 0 and flags false, link order 0 and active true are assumed.
- React Query caching, invalidation and pending states, toasts, dialogs, JSX rendering and animation are not modelled. A mutation's `onSuccess` is modelled as the state change after a successful call.
- `confirm(...)` is a boolean parameter of the delete mutations.
- `URL.createObjectURL` is an arbitrary string per file.
- The plain text inputs (title, subtitle, name, url, icon, text colour, switches) are direct field assignments and are not modelled one by one.
- The project list of the public portfolio page is a parameter: its static contents are not modelled.
- JsNumber.ParseDecimal: numbers are unbounded integers. In JavaScript the round trip holds only up to 2^53 in magnitude: `parseInt` rounds longer digit runs, and `String` writes exponent notation from 10^21 on.
- Backend.PublicUrl: the public URL is the plain concatenation of the parts, without the `encodeURI` step the storage client applies. So Backend.LastSegmentOfPublicUrl, PortfolioService.FileNamesOfUrls, PartnerService.LogoUrlNamesObject, HeroService.PathOfPublicUrl and HeroService.UploadedImagePath hold only for object names that `encodeURI` leaves unchanged. A file extension with a space, '%' or a non-ASCII character is stored under one name and deleted under its encoded form, which orphans the object; the model does not show this.
- Backend.LastSegmentOfPublicUrl: holds only for object names that `encodeURI` leaves unchanged, as the Backend.PublicUrl line explains.
- PortfolioService.FileNamesOfUrls: holds only for object names that `encodeURI` leaves unchanged, as the Backend.PublicUrl line explains.
- PartnerService.LogoUrlNamesObject: holds only for object names that `encodeURI` leaves unchanged, as the Backend.PublicUrl line explains.
- HeroService.PathOfPublicUrl: holds only for object names that `encodeURI` leaves unchanged, as the Backend.PublicUrl line explains.
- HeroService.UploadedImagePath: holds only for object names that `encodeURI` leaves unchanged, as the Backend.PublicUrl line explains.
- Strings are sequences of characters: JavaScript's UTF-16 lengths, `toUpperCase` outside ASCII, and the browser's normalisation of number inputs are not modelled.
- Browser file names are assumed to hold no '/', a requirement on the service calls.
- PortfolioGallery.NextImage: requires at least one image. An empty project would make `%` give `NaN`, and the page shows no arrows for it.
- HeroService.PathOfPublicUrl: the round trip is proved under `MarkerOnlyAtPath`, which says the project URL cannot itself produce "/hero-images/" before the object path. JavaScript's non-overlapping split can then never cut the URL early.
- PortfolioService.Service.CreateProject: promises only that removal leftovers remain after a failure, not that the bucket is restored. The source ignores cleanup errors, so nothing stronger holds.
