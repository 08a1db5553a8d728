# Study-resource catalogue admin: a Dafny model

This project models the logic of the admin side of a study-resource catalogue.
The catalogue is a web application. Its records are study materials (notes,
papers, syllabi), called resources. They live in a hosted database table, and
their files live in a hosted storage bucket. The model covers five parts:

- **The record** (`src/types/resource.ts`). This is the `Resource` datatype,
  and `Payload` is the untyped JavaScript object a record travels in.
- **The storage configuration** (`src/config/supabase.ts`). This covers the
  constants and the public-URL builder `getStorageUrl`.
- **The data-access layer** (`src/services/mongodb.ts`). This covers the
  fix-ups applied to rows read and written, and the cleaning of update
  payloads (an imperative method over a copied map, with a loop). It also
  covers each function's error convention, the sanitised name an uploaded
  file is stored under, and the choice of its final URL.
- **The resources tab of the admin dashboard**
  (`src/components/admin/ResourcesTab.tsx`). This is the five-step filter
  pipeline, as a method proved against a specification function. It also
  covers the component state as a class whose methods are the handlers.
- **The stand-alone admin page** (`src/app/admin/resources/page.tsx`). This is
  a class whose fields are the page's state cells and whose methods are its
  handlers.

Some JavaScript semantics are spelled out in the `JsRuntime` module: numbers
that may be NaN, `===`, `toString`, `parseInt`, `Number`, `toLowerCase` and
`includes`.

Things from outside the program become parameters:

- Every call to the hosted service becomes a reply parameter (`Reply`,
  `StorageReply`, `StorageCall`). The database calls treat a reported error
  and a thrown exception alike, and `Reply.Failed` covers both. The storage
  upload treats them differently: it retries after a thrown exception but not
  after a reported error. So `StorageReply` keeps `StorageThrew` and
  `StorageFailed` apart.
- The clock becomes a parameter.
- The ISO timestamp becomes a parameter.
- The confirmation dialog becomes a parameter.
- The name of the file chosen in the form becomes a parameter.

The "all types" sentinel of the type filter is defined in a file that is not
part of this model. It is the parameter `allTypes` and the tab's constant
`allTypesValue`.

Object keys are the datatype `ResourceTypes.Key`. It has one constructor per
member name the code spells out, and `Other(name)` for any other name. The
type of `name` excludes the spelled-out names, so every property name has
exactly one key (`ResourceTypes.SpellingInjective`). `MemberOf` and `Spelling`
translate between keys and names. A payload is a `map<Key, Value>`, and
`Value` has an `Undefined` case.

Some behaviours of the code worth knowing when reading the model:

- Of the modelled code, only two writes remove `fields`, `field_id`, `fileName` and `fileSelected`:
  `updateResource` (src/services/mongodb.ts:114-119) and the tab's update handler
  (src/components/admin/ResourcesTab.tsx:161-163). The page writes its form
  unchanged (src/app/admin/resources/page.tsx:74, 97), as
  `AdminResourcesPage.PageWritesFieldId` shows. `createResource` inserts what it
  is given (src/services/mongodb.ts:81-90).
- The upload retries once after a thrown exception
  (src/services/mongodb.ts:258-278). A reported error makes it throw
  (src/services/mongodb.ts:282-285). See `ResourceService.UploadResourceFile`.
- A created row read back loses its given id (src/services/mongodb.ts:81-85).
  The id becomes the clock reading. The reads join the `fields` row that
  `field_id` names (src/services/mongodb.ts:34, 58), and a truthy name of that
  row replaces `field`. An empty `field` with no such name reads back as "BCA"
  (src/services/mongodb.ts:46). See `ResourceService.CreatedRowReadsBack`.
- A sanitised file name keeps the characters `[A-Za-z0-9.]` and turns every
  other character into `_` (src/services/mongodb.ts:250).
  See `ResourceService.SanitizeFileName`.

## Model

| member | source | states |
|---|---|---|
| `JsRuntime.NumEqIsFiniteEquality` | src/components/admin/ResourcesTab.tsx:89-90 | `===` on numbers holds exactly for equal finite numbers; it is symmetric and never true of NaN |
| `JsRuntime.ParseInt` | src/components/admin/ResourcesTab.tsx:84 | `parseInt` gives a number exactly when an optional sign is followed by a digit, and a negative one only after '-' |
| `JsRuntime.StringToNumber` | src/services/mongodb.ts:45 | `Number` of the empty string is 0; of any other string it gives a number exactly when an optional sign is followed by digits and nothing else, and then it agrees with `parseInt` |
| `JsRuntime.IntToString` | src/services/mongodb.ts:126 | `n.toString()` is never empty and starts with '-' exactly when `n` is negative |
| `JsRuntime.NumToString` | src/services/mongodb.ts:126 | `Number` reads back whatever `x.toString()` writes, NaN as well as every integer |
| `JsRuntime.DigitsValueOfNatToString` | src/services/mongodb.ts:83 | the decimal digits written for a natural number have that number as their value |
| `JsRuntime.LeadingDigits` | src/components/admin/ResourcesTab.tsx:84 | the digit run `parseInt` reads is a prefix made of digits, and the next character is not a digit |
| `JsRuntime.ParseIntOfIntToString` | src/components/admin/ResourcesTab.tsx:84 | `parseInt` reads back any integer `toString` wrote, whatever non-digit text follows |
| `JsRuntime.StringToNumberOfIntToString` | src/services/mongodb.ts:45 | `Number` reads back any integer `toString` wrote |
| `JsRuntime.ParseIntAndNumberDiffer` | src/components/admin/ResourcesTab.tsx:84 | "12abc" is 12 to `parseInt` and NaN to `Number` |
| `JsRuntime.Lower` | src/components/admin/ResourcesTab.tsx:95-99 | lower-casing keeps the length and lower-cases each ASCII letter in place |
| `JsRuntime.Includes` | src/components/admin/ResourcesTab.tsx:98-99 | `hay.includes(needle)` holds exactly when the needle occurs at some index of the hay |
| `ResourceTypes.KeyOfName` | src/app/admin/resources/page.tsx:59-64 | a property name and its key correspond: spelling the key a name denotes gives the name back |
| `ResourceTypes.SpellingInjective` | src/types/resource.ts:1-18 | every key is the key of its own property name, so two distinct keys never share a name |
| `ResourceTypes.Or` | src/services/mongodb.ts:46 | `a \|\| b` is one of its operands: `a` when `a` is truthy, and it is truthy exactly when one of them is |
| `ResourceTypes.MembersOfRecord` | src/types/resource.ts:2-17 | the nine required members of a record are always defined; no key outside the declared members has a value |
| `ResourceTypes.ResourceToPayload` | src/types/resource.ts:1-18 | a record as an object holds every required member, optional members only when set, no `undefined` value, and each member's value |
| `ResourceTypes.ResourcePayloadRoundTrip` | src/types/resource.ts:1-18 | a record copied into an object reads back as the same record |
| `ResourceTypes.ReadsBackFrom` | src/types/resource.ts:1-18 | any object whose members equal a record's reads back as that record |
| `ResourceTypes.RequiredRead` | src/types/resource.ts:2-10 | each required member is read back with its own kind and value |
| `ResourceTypes.OptionalRead` | src/types/resource.ts:11-17 | each optional member is read back as unset or as its value |
| `ResourceList.HasId` | src/components/admin/ResourcesTab.tsx:171 | `r.id === id` holds exactly when the id is a finite number equal to the record's |
| `ResourceList.ReplaceById` | src/components/admin/ResourcesTab.tsx:170-174 | the map keeps the length, every element whose id matches becomes the new record, and every other element is unchanged |
| `ResourceList.RemoveById` | src/components/admin/ResourcesTab.tsx:258-260 | the filter keeps an order-preserving subsequence; an element stays exactly when it is present and its id does not match |
| `ResourceList.RemoveByIdCounts` | src/components/admin/ResourcesTab.tsx:258-260 | every copy of a record whose id does not match stays, and every copy of a matching one goes |
| `ResourceList.AbsentIdChangesNothing` | src/app/admin/resources/page.tsx:135-137 | when no element has the id, both replace and remove leave the list as it is |
| `ResourceList.RemoveNaNIdChangesNothing` | src/components/admin/ResourcesTab.tsx:259 | removing with a NaN id removes nothing, since `!==` with NaN always holds |
| `ResourceList.RemoveByIdIdempotent` | src/app/admin/resources/page.tsx:135-137 | removing an id twice is removing it once |
| `StorageConfig.CleanPath` | src/config/supabase.ts:29 | the cleaned path is the path with one leading '/' removed when it starts with one, and the path itself otherwise |
| `StorageConfig.GetStorageUrl` | src/config/supabase.ts:24-33 | a path starting with "http" is returned as it is; otherwise the URL is the bucket's public folder followed by the cleaned path; the URL always starts with "http" and with the storage URL unless it was the input |
| `StorageConfig.GetStorageUrlIdempotent` | src/config/supabase.ts:24-32 | building a URL from a built URL, with any bucket, returns it unchanged |
| `StorageConfig.OneSlashRemoved` | src/config/supabase.ts:29-32 | "/a" and "//a" give the folder followed by "a" and by "/a": only one slash is removed |
| `ResourceService.ToNumber` | src/services/mongodb.ts:45 | `Number(v)` of a number is itself, of a string is what `Number` reads from it, of null is 0 and of `true`/`false` is 1/0; no other value gives a number |
| `ResourceService.JoinedName` | src/services/mongodb.ts:46 | `item.fields?.name` is the joined row's name when a row was joined and `undefined` otherwise; it is truthy exactly when a row with a non-empty name was joined |
| `ResourceService.ReadFixup` | src/services/mongodb.ts:43-47 | after a read the id is `Number(id)`, and `field` is the first truthy of the joined field's name, the stored field and "BCA", so it is never falsy; every other member is unchanged |
| `ResourceService.ReadFixupIdempotent` | src/services/mongodb.ts:43-47 | fixing up a row that was already fixed up changes nothing |
| `ResourceService.GetResources` | src/services/mongodb.ts:30-52 | an error or null data gives the empty list; otherwise each row is fixed up, in order |
| `ResourceService.GetResourceById` | src/services/mongodb.ts:54-77 | null exactly on an error or a null row, otherwise the fixed-up row |
| `ResourceService.DatePart` | src/services/mongodb.ts:84 | the date part is a prefix of the timestamp without 'T', followed by 'T' when it is shorter than the timestamp |
| `ResourceService.DatePartOfTimestamp` | src/services/mongodb.ts:84 | the date part of "date T time" is the date |
| `ResourceService.NewResourcePayload` | src/services/mongodb.ts:81-85 | the inserted row keeps the caller's members, with the id the clock reading as a string and `uploadDate` today's date |
| `ResourceService.CreateFixup` | src/services/mongodb.ts:99-103 | after an insert the id is `Number(id)`, and `uploadDate` is the stored one when truthy and otherwise the one sent |
| `ResourceService.CreateResource` | src/services/mongodb.ts:79-108 | throws on an error and on a null row (a `TypeError`); otherwise returns the fixed-up row |
| `ResourceService.CreatedRowReadsBack` | src/services/mongodb.ts:30-103 | a stored row read back, with the `fields` row its `field_id` names joined in, has the clock reading as a numeric id and today's date; its `field` is the joined row's name when truthy, otherwise the created `field` when truthy, otherwise "BCA"; every other member is as created |
| `ResourceService.StoredRowMembers` | src/services/mongodb.ts:43-47 | reading back a row holding the clock reading as a string id gives the numeric id, and keeps the date, the joined row and the other members |
| `ResourceService.StoredRowField` | src/services/mongodb.ts:46 | the `field` a stored row reads back with, in the three cases of the joined name and the created `field` |
| `ResourceService.StrippedBySpelling` | src/services/mongodb.ts:114-119 | a key is stripped exactly when its property name is `fields`, `field_id`, `fileName` or `fileSelected` |
| `ResourceService.StripKeys` | src/services/mongodb.ts:114-119 | exactly `fields`, `field_id`, `fileName` and `fileSelected` are removed, so no member of those names is left; the other members keep their values |
| `ResourceService.StripKeysIdempotent` | src/services/mongodb.ts:114-119 | stripping twice equals stripping once |
| `ResourceService.PruneUndefined` | src/services/mongodb.ts:129-134 | exactly the members whose value is `undefined` are removed |
| `ResourceService.UpdatePayload` | src/services/mongodb.ts:110-134 | the update payload has no member named `fields`, `field_id`, `fileName` or `fileSelected`, and no `undefined` value; its id is `id.toString()`, overriding the update's; every other defined member of the update survives unchanged, and every member other than the id is one of the update's with its value, so a member that is `undefined` in the update is left out |
| `ResourceService.DeleteUndefinedMembers` | src/services/mongodb.ts:129-134 | the key-by-key delete loop leaves exactly the members whose value is not `undefined` |
| `ResourceService.BuildUpdatePayload` | src/services/mongodb.ts:114-134 | the in-place deletes, the id override and the pruning loop build exactly the update payload |
| `ResourceService.WriteFixup` | src/services/mongodb.ts:151-155 | after an update the id is `Number(id)`, and `field` is the first truthy of the field sent, the stored field and "BCA"; every other member is unchanged |
| `ResourceService.UpdateResource` | src/services/mongodb.ts:136-159 | null exactly on an error or a null row, otherwise the fixed-up row |
| `ResourceService.FieldIdNeverWritten` | src/services/mongodb.ts:117 | `field_id` is a required member of every record, yet the payload of an update of that record never has a member of that name |
| `ResourceService.DeleteResource` | src/services/mongodb.ts:162-180 | true exactly when the delete went through; a failure gives false, never an exception |
| `ResourceService.SanitizeFileName` | src/services/mongodb.ts:250 | the sanitised name has the same length; allowed characters stay in place, every other one becomes '_' |
| `ResourceService.SanitizeFileNameIdempotent` | src/services/mongodb.ts:250 | sanitising twice equals sanitising once |
| `ResourceService.ObjectNameRoundTrip` | src/services/mongodb.ts:251 | the object name `id_timestamp_name` determines the timestamp and the sanitised name it was built from |
| `ResourceService.SplitOfParts` | src/services/mongodb.ts:251 | an object name assembled from an id, a digit run and a tail splits back into the digits' value and the tail |
| `ResourceService.ObjectName` | src/services/mongodb.ts:251 | the object name starts with the resource id and '_', and is as long as its three parts and two separators, since sanitising keeps the length |
| `ResourceService.DecidingReply` | src/services/mongodb.ts:258-278 | the first attempt decides unless it threw; after a throw the retry's reply decides, so a reported failure is not retried and the deciding reply is a thrown exception only when both attempts threw |
| `ResourceService.FinalUrl` | src/services/mongodb.ts:295-297 | the public URL when it starts with "http", otherwise the URL built from the stored path; the result always starts with "http" |
| `ResourceService.UploadResourceFile` | src/services/mongodb.ts:242-305 | without a file it throws "No file provided"; otherwise it uses the object name; it returns a URL exactly when the deciding attempt (the retry, when the first attempt threw) stored the file; the URL always starts with "http"; with a file, any error thrown is the storage error |
| `AdminResourcesTab.WithFilter` | src/components/admin/ResourcesTab.tsx:106-111 | the named filter takes the value and every other filter keeps its own; an unknown name changes nothing |
| `AdminResourcesTab.SemesterTarget` | src/components/admin/ResourcesTab.tsx:78-92 | the semester filter is off exactly for "" and "all"; a number is compared as it is, and any other text through `parseInt` |
| `AdminResourcesTab.SearchMatches` | src/components/admin/ResourcesTab.tsx:94-100 | an empty term matches every record, and a matching term is no longer than the title or the description |
| `AdminResourcesTab.Filtered` | src/components/admin/ResourcesTab.tsx:55-103 | the five successive narrowings only keep records of the catalogue |
| `AdminResourcesTab.KeepWhere` | src/components/admin/ResourcesTab.tsx:55-103 | each filter step keeps an order-preserving subsequence; a record stays exactly when it passes the step |
| `AdminResourcesTab.KeepWhereCounts` | src/components/admin/ResourcesTab.tsx:55-103 | every copy of a passing record stays and every copy of a failing one goes, so with the subsequence property the result is exactly the filter |
| `AdminResourcesTab.KeepWhereCompose` | src/components/admin/ResourcesTab.tsx:55-103 | filtering by some steps and then by others equals filtering once by all of them |
| `AdminResourcesTab.KeepWhereAllPass` | src/components/admin/ResourcesTab.tsx:55-103 | a step that every record passes (an inactive one) leaves the list as it is |
| `AdminResourcesTab.KeepWhereNonePass` | src/components/admin/ResourcesTab.tsx:55-103 | a step no record passes leaves nothing |
| `AdminResourcesTab.FilteredIsOnePass` | src/components/admin/ResourcesTab.tsx:55-103 | the five successive filters equal a single filter by all five steps |
| `AdminResourcesTab.FilteredIsSubsequence` | src/components/admin/ResourcesTab.tsx:55-103 | the filtered list is an order-preserving subsequence of the catalogue |
| `AdminResourcesTab.KeptIff` | src/components/admin/ResourcesTab.tsx:56-101 | a record is shown exactly when it is in the catalogue and matches every active filter: `field_id`, type, subject, the semester target with `===`, and the case-insensitive search in title or description |
| `AdminResourcesTab.ResetFiltersShowEverything` | src/components/admin/ResourcesTab.tsx:120-128 | with every filter at its reset value the whole catalogue is shown |
| `AdminResourcesTab.FilteredIdempotent` | src/components/admin/ResourcesTab.tsx:55-103 | filtering the result again with the same filters changes nothing |
| `AdminResourcesTab.FieldFilterComparesFieldId` | src/components/admin/ResourcesTab.tsx:56-60 | an active field filter drops every record with another `field_id`, whatever its `field` |
| `AdminResourcesTab.UnparseableSemesterKeepsNothing` | src/components/admin/ResourcesTab.tsx:78-92 | a semester string without leading digits parses to NaN, and then no record is shown |
| `AdminResourcesTab.SemesterTextIsParsed` | src/components/admin/ResourcesTab.tsx:80-85 | a semester string that starts with an integer selects that integer |
| `AdminResourcesTab.SearchIgnoresCase` | src/components/admin/ResourcesTab.tsx:94-100 | the search does not depend on the case of the term |
| `AdminResourcesTab.ApplyFilters` | src/components/admin/ResourcesTab.tsx:54-104 | the effect's step-by-step narrowing of `result` computes exactly the filter pipeline |
| `AdminResourcesTab.CreateRequest` | src/components/admin/ResourcesTab.tsx:215-224 | the create request has exactly the eight members, each the form's value except the file URL |
| `AdminResourcesTab.RequestUrl` | src/components/admin/ResourcesTab.tsx:201-212 | the file URL to be sent is the form's URL or "#" without a file, and the uploaded URL with one; it is absent when the upload threw, and is never falsy |
| `AdminResourcesTab.EditedRecord` | src/components/admin/ResourcesTab.tsx:145-159 | the edited record is unchanged without a file; after an upload it has the new URL and the file's name; it is absent when the upload threw |
| `AdminResourcesTab.CleanRecord` | src/components/admin/ResourcesTab.tsx:161-163 | the update payload is the record's members without `field_id`, `fields`, `fileName` and `fileSelected`; no member of those names is left |
| `AdminResourcesTab.AfterDeleteAsWritten` | src/components/admin/ResourcesTab.tsx:255-260 | as written, the rows with the id leave the list whatever `deleteResource` reported |
| `AdminResourcesTab.FailedDeleteStillRemovesRow` | src/components/admin/ResourcesTab.tsx:255-273 | a failed delete returns false instead of throwing, and the row still leaves the list |
| `AdminResourcesTab.AfterDelete` | src/components/admin/ResourcesTab.tsx:255-273 | corrected: the list changes only when the delete went through |
| `AdminResourcesTab.AfterDeleteKeepsListOnFailure` | src/components/admin/ResourcesTab.tsx:255-273 | after a delete the list is an order-preserving subsequence; a record stays exactly when it was there and either the delete failed or its id does not match |
| `AdminResourcesTab.ResourcesTab.constructor` | src/components/admin/ResourcesTab.tsx:23-47 | initial state: the whole catalogue shown, both modals closed, no record being edited, the empty upload form, every filter reset |
| `AdminResourcesTab.ResourcesTab.RunFilterEffect` | src/components/admin/ResourcesTab.tsx:54-104 | the shown list becomes the catalogue filtered by the current filters |
| `AdminResourcesTab.ResourcesTab.HandleFilterChange` | src/components/admin/ResourcesTab.tsx:106-111 | only the named filter changes |
| `AdminResourcesTab.ResourcesTab.HandleSearchChange` | src/components/admin/ResourcesTab.tsx:113-118 | only the search term changes |
| `AdminResourcesTab.ResourcesTab.ResetFilters` | src/components/admin/ResourcesTab.tsx:120-128 | every filter goes back to its reset value |
| `AdminResourcesTab.ResourcesTab.HandleEditClick` | src/components/admin/ResourcesTab.tsx:130-133 | the record is being edited and the edit form is open |
| `AdminResourcesTab.ResourcesTab.HandleEditCancel` | src/components/admin/ResourcesTab.tsx:340-343 | the edit form closes and no record is being edited |
| `AdminResourcesTab.ResourcesTab.OpenUploadModal` | src/components/admin/ResourcesTab.tsx:297 | the upload form opens |
| `AdminResourcesTab.ResourcesTab.CloseUploadModal` | src/components/admin/ResourcesTab.tsx:329 | the upload form closes |
| `AdminResourcesTab.ResourcesTab.HandleNewResourceChange` | src/components/admin/ResourcesTab.tsx:275-280 | only the named member of the upload form changes |
| `AdminResourcesTab.ResourcesTab.HandleUpdateResource` | src/components/admin/ResourcesTab.tsx:134-192 | without a record being edited nothing changes. Otherwise the cleaned edited record is sent unless the upload threw, and the matches are replaced only when a record comes back. The form closes either way |
| `AdminResourcesTab.ResourcesTab.HandleUpload` | src/components/admin/ResourcesTab.tsx:193-253 | the request carries the chosen file URL. Nothing is sent when the upload threw. A created record is prepended, then the form closes and is reset; a create that threw changes nothing |
| `AdminResourcesTab.ResourcesTab.ShowCreated` | src/components/admin/ResourcesTab.tsx:226-244 | the created record goes in front, and the upload form closes and is reset to "Notes", "Computer Programming", "BCA" |
| `AdminResourcesTab.ResourcesTab.HandleDeleteAsWritten` | src/components/admin/ResourcesTab.tsx:255-260 | as written: the rows with the id leave the shown list whatever the delete reported |
| `AdminResourcesTab.ResourcesTab.HandleDelete` | src/components/admin/ResourcesTab.tsx:255-273 | corrected: the rows with the id leave the shown list only when the delete went through |
| `AdminResourcesPage.EditFormData` | src/app/admin/resources/page.tsx:45-55 | the edit form has exactly the nine keys `id`…`field_id`, each with the record's value |
| `AdminResourcesPage.EditFormDataReadsBack` | src/app/admin/resources/page.tsx:42-57 | the edit form reads back as the record without its optional members |
| `AdminResourcesPage.PageWritesFieldId` | src/app/admin/resources/page.tsx:72-76 | the page's form holds `field_id` and is written as it is, while the data-access layer would strip it |
| `AdminResourcesPage.FirstRow` | src/app/admin/resources/page.tsx:84 | `data[0]` is a record exactly when the reply has a row, and then it is the first row |
| `AdminResourcesPage.AfterUpdateAsWritten` | src/app/admin/resources/page.tsx:80-87 | as written, every match becomes `data[0]`, which is `undefined` when no row came back |
| `AdminResourcesPage.EmptyUpdateReplyLeavesUndefined` | src/app/admin/resources/page.tsx:80-87 | an update answered with no row leaves `undefined` in place of the edited record |
| `AdminResourcesPage.AfterUpdate` | src/app/admin/resources/page.tsx:80-87 | corrected: with a row, the row replaces the matches and agrees with the code; without one, the list is unchanged |
| `AdminResourcesPage.AfterCreateAsWritten` | src/app/admin/resources/page.tsx:102-103 | as written, `data[0]` goes in front of the list |
| `AdminResourcesPage.EmptyCreateReplyPrependsUndefined` | src/app/admin/resources/page.tsx:103 | an insert answered with no row puts `undefined` at the head of the list |
| `AdminResourcesPage.AfterCreate` | src/app/admin/resources/page.tsx:102-103 | corrected: with a row, the row goes in front and agrees with the code; without one, the list is unchanged |
| `AdminResourcesPage.ResourcesAdmin.constructor` | src/app/admin/resources/page.tsx:9-13 | initial state: no records, loading, form closed, nothing edited, empty form |
| `AdminResourcesPage.ResourcesAdmin.FetchResources` | src/app/admin/resources/page.tsx:19-34 | the answered rows replace the list (none for null), an error keeps it, and loading ends either way |
| `AdminResourcesPage.ResourcesAdmin.HandleCreateResource` | src/app/admin/resources/page.tsx:36-40 | nothing is being edited, the form is empty and open |
| `AdminResourcesPage.ResourcesAdmin.HandleEditResource` | src/app/admin/resources/page.tsx:42-57 | the record is being edited, the form holds its nine persisted members, and the form is open |
| `AdminResourcesPage.ResourcesAdmin.HandleFormChange` | src/app/admin/resources/page.tsx:59-64 | only the named member of the form changes |
| `AdminResourcesPage.ResourcesAdmin.HandleFormSubmit` | src/app/admin/resources/page.tsx:66-122 | the form is written unsanitised. With rows answered, the list takes them in (an update of the edited record, otherwise a create), the form closes and nothing is being edited. On an error or a null reply nothing changes |
| `AdminResourcesPage.ResourcesAdmin.HandleDeleteResource` | src/app/admin/resources/page.tsx:124-151 | the delete is sent exactly when confirmed. A declined or failed delete keeps the list; otherwise every row with the id leaves it, in order |
| `AdminResourcesPage.ResourcesAdmin.HandleFormCancel` | src/app/admin/resources/page.tsx:153-156 | the form closes and nothing is being edited |

## Findings

| source | as written | input that shows it | evidently intended | confidence | as-written member | corrected member |
|---|---|---|---|---|---|---|
| src/app/admin/resources/page.tsx:80-87 | an update puts `data[0]` in place of every record with the edited id | an update whose `.select()` answers with no row, e.g. because no row matched the id | the list stays as it was when no row comes back | not executed | `AdminResourcesPage.AfterUpdateAsWritten` | `AdminResourcesPage.AfterUpdate` |
| src/app/admin/resources/page.tsx:102-103 | a create puts `data[0]` in front of the list | an insert whose `.select()` answers with no row | the list stays as it was when no row comes back | not executed | `AdminResourcesPage.AfterCreateAsWritten` | `AdminResourcesPage.AfterCreate` |
| src/components/admin/ResourcesTab.tsx:255-273 | the row leaves the list, and "Resource deleted" is shown, whatever `deleteResource` reported; `deleteResource` (src/services/mongodb.ts:162-180) reports failure by returning false, so the error branch cannot run | a delete the database rejects: `deleteResource` returns false | the row stays and the error is shown when the delete failed | not executed | `AdminResourcesTab.AfterDeleteAsWritten` | `AdminResourcesTab.AfterDelete` |

The empty-reply cases are shown by `AdminResourcesPage.EmptyUpdateReplyLeavesUndefined`
and `AdminResourcesPage.EmptyCreateReplyPrependsUndefined`. The failed delete is
shown by `AdminResourcesTab.FailedDeleteStillRemovesRow`. `AfterUpdate` and
`AfterCreate` agree with the code whenever a row comes back. `AfterDelete`
agrees with the code whenever the delete went through. When the delete
failed, it keeps the row on purpose. The
page's `HandleFormSubmit` uses the corrected list updates. The tab's `HandleDelete`
uses the corrected delete, and `HandleDeleteAsWritten` keeps the code's behaviour.

## Left out

- Calls to the hosted database and storage (`supabase.from(...)`, `.storage.upload`, `.getPublicUrl`) are not modelled. They are foreign library calls, so their replies are parameters.
- The clock (`Date.now()`, `new Date().toISOString()`) is not modelled. Its readings are parameters.
- React effect scheduling and asynchronous interleaving are not modelled. The filter effect runs when `RunFilterEffect` is called.
- AdminResourcesPage.ResourcesAdmin.HandleFormSubmit: runs the `setResources` updater in place. React runs it later, outside the handler's `try` (src/app/admin/resources/page.tsx:81-87, 103). So with a null `data` and no error, the code still closes the form and fails later, at render; the model keeps everything unchanged instead. It also applies the corrected `AfterUpdate`/`AfterCreate` (see "## Findings"): with an empty reply the code stores `data[0]`, which is `undefined`, and the model keeps the list as it was.
- The catalogue prop is fixed for the life of the tab. So the effect that copies it into the shown list when it changes (src/components/admin/ResourcesTab.tsx:49-52) reduces to the constructor. A list update lost when the prop changes is not modelled.
- `handleEditResourceChange` (src/components/admin/ResourcesTab.tsx:281-291) is not modelled. It stores a value of any kind under any name in the record being edited, and the `Resource` datatype cannot hold that.
- The file input of the DOM is not modelled. A chosen file appears only as its name (`selected`), and its contents are not modelled.
- `fileExt` (src/services/mongodb.ts:249) is left out. It is computed but never used.
- Toasts, `console` logging and rendering are not modelled. `window.confirm` is the boolean `confirmed`.
- `connectToMongoDB`, `authenticateAdmin` and `registerAdmin` are not modelled. They are connectivity and authentication calls into the hosted query API.
- `SUPABASE_URL` and `IS_BUCKET_PUBLIC` are declared as constants only. No modelled code reads them.
- Numbers are unbounded integers or NaN. Fractions and infinities never arise in the modelled code. Precision above 2^53 is not modelled, and neither is exponent notation for 1e21 and above. Ids (clock readings near 1.7e12) and semesters lie far below both limits.
- JsRuntime.ParseIntOfIntToString: holds in JavaScript only for integers below 1e21 in magnitude, since `toString` writes larger ones in exponent form and `parseInt` then reads only the leading digits.
- JsRuntime.StringToNumberOfIntToString: holds in JavaScript only for integers up to 2^53 in magnitude (`Number("9007199254740993")` is 9007199254740992).
- ResourceService.ObjectNameRoundTrip: holds in JavaScript only for clock readings up to 2^53; real readings are about 1.7e12.
- JsRuntime.ParseInt: an optional sign followed by a run of decimal digits. Leading white space and radix prefixes are not modelled.
- JsRuntime.StringToNumber: the empty string, or an optional sign followed by decimal digits. White space, decimals, exponents, the `0x`, `0o` and `0b` prefixes and "Infinity" are not modelled; the model gives NaN for them.
- Lower-casing covers ASCII letters only, and string lengths count characters, not UTF-16 code units.
- ResourceService.SanitizeFileName: replaces each character by one '_'. JavaScript's pattern has no `u` flag, so it replaces each UTF-16 code unit, and a character outside the Basic Multilingual Plane (an emoji, say) becomes "__". For such names, the object name and the storage URL built from it have one fewer '_' in the model than in the code.
- Object key order is not modelled, and nor is `===` between two objects. No modelled comparison needs either.
- The rows the tab receives from `createResource` and `updateResource` (the `created` and `updated` parameters) are records. In the data-access layer they are payloads, and what turns one into the other is not modelled.
- The rows the page stores are also records. No fix-up is applied to them.
- A `null` element inside a list of fetched rows (which would make `getResources` throw and return `[]`) cannot arise, because rows are payloads.
- The `file: null` member of the tab's upload form is a plain form member. Nothing reads it.
