# Admin console record lists

This project models the logic that the pages of the admin console run on their own
in-memory state, and proves properties of it. The pages are:

- **Customers.** A user table. It supports delete and an Active/Inactive toggle. Rows are
  filtered by search text, a status select and two column filters. The page also defines
  approve, disapprove, and an add handler that assigns `max id + 1`. Their buttons are
  commented out of the page, so they cannot be reached from it. They are modelled as
  written.
- **Providers.** A provider table with delete, the toggle and a status column filter. The
  add handler is modelled as written, but it cannot be reached from the page either: its
  button is commented out. Even with the button back, the phone field's `type: "number"`
  rule rejects every typed phone text, so the handler's continuation would not run.
- **Orders.** An order table with delete, a status tag colour, an amount sorter, category
  and status column filters, and a details modal.
- **Discount ranges.** A list of ranges. It supports add under `Math.max(0, ...ids) + 1`,
  edit that merges the form values into the range being edited, delete, and cancelling
  either modal.
- **Notifications.** A notification history. Add validates the form and puts the new
  notification first. The audience is stored as text: "All Users", or the selected users'
  names joined with ", ". Reschedule loads a notification back into the form, parsing that
  text back into user ids, and then deletes the original.
- **Ads.** Ads are split into owner tabs ("user"/"vendor") and inner tabs (image, video,
  plain link). A link ad's tab is chosen by its file extension. Each ad gets a matching
  preview, and a long link is cut to 30 characters. The Add modal checks its input before
  sending.

Each page is a class. Its fields are the page's state: the list and the modal flags. Its
methods are the page's handlers. Each method's postcondition ties the new state to a pure
function of the old one. The properties are proved as lemmas about those functions. Two
shared modules hold the list operations every page uses (`Records`: filter, map-by-id,
`max id + 1`) and the JavaScript string operations (`Text`: ASCII lower-casing,
`includes`, `endsWith`, `trim`, `join`, `split`).

Modelling choices:

- Form values. The add and edit forms hand over only their registered fields
  (`validateFields`). So the spread `...values` never carries an `id` or `approved` field.
  A new user is therefore always unapproved, and a new range's id is always the computed one.
- `Date.now()` is passed in as a parameter, and so is `moment().add(1, "day")`.
- The ads list is the server's, so `filteredAds` takes it as an `Option` (`None` while it
  has not arrived).

## Model

| member | source | states |
|---|---|---|
| Text.Lower | src/pages/Customers/CustomerManagement.tsx:126-131 | lower-casing keeps the length, turns each upper-case ASCII letter into its lower-case letter and keeps every other character |
| Text.IncludesAt | src/pages/Customers/CustomerManagement.tsx:128-130 | `includes` holds exactly when the needle stands at some position of the text |
| Text.IncludesEmpty | src/pages/Customers/CustomerManagement.tsx:128 | every text includes the empty search |
| Text.TrimStart | src/pages/Ads/Ads.tsx:65 | the result is a suffix; everything dropped is white space; it does not start with white space |
| Text.TrimEnd | src/pages/Ads/Ads.tsx:65 | the result is a prefix; everything dropped is white space; it does not end with white space |
| Text.TrimSpec | src/pages/Notification/NotifyMessages.tsx:74 | `trim()` is a piece of the text, has no white space at either end, and is empty exactly when the text is all white space |
| Text.Split | src/pages/Notification/NotifyMessages.tsx:127 | `split` with a non-empty separator always yields at least one piece; its full specification is SplitLeftmost (cut at the leftmost occurrence, the rest split again; with the helper OccursAtTail) together with JoinSplit |
| Text.JoinSplit | src/pages/Notification/NotifyMessages.tsx:127 | joining the pieces of any split with the same separator gives back the text |
| Text.SplitNoSeparator | src/pages/Notification/NotifyMessages.tsx:127 | no piece of a split contains the separator |
| Text.SplitLeftmost | src/pages/Notification/NotifyMessages.tsx:127 | `split` cuts at the leftmost occurrence: no occurrence starts inside the first piece, a single piece is the whole text, and otherwise the separator stands right after the first piece and the other pieces are the split of the text after it |
| Text.JoinStartsWithFirst | src/pages/Notification/NotifyMessages.tsx:95 | the first piece of a join starts the joined text |
| Text.Includes | src/pages/Customers/CustomerManagement.tsx:128-130 | `includes`; specified by IncludesAt |
| Text.EndsWith | src/pages/Ads/Ads.tsx:41-42 | the `$`-anchored suffix test of the extension patterns; used by ExtensionsDisjoint |
| Text.Trim | src/pages/Ads/Ads.tsx:65 | `trim()`; specified by TrimSpec, TrimStart and TrimEnd |
| Text.Join | src/pages/Notification/NotifyMessages.tsx:95 | `join`; specified by SplitJoin, JoinSplit, JoinHasSeparator and JoinStartsWithFirst |
| Text.SplitWhole | src/pages/Notification/NotifyMessages.tsx:127 | a text without the separator's first character splits into itself |
| Text.SplitFirst | src/pages/Notification/NotifyMessages.tsx:127 | the first piece ends at the first separator when it has no separator character |
| Text.SplitJoin | src/pages/Notification/NotifyMessages.tsx:95 | splitting a join gives back the pieces when no piece contains the separator's first character |
| Text.JoinHasSeparator | src/pages/Notification/NotifyMessages.tsx:95 | a join of two or more pieces has the separator right after the first piece |
| Records.Keep | src/pages/Customers/CustomerManagement.tsx:74 | `filter` keeps an element exactly when it is in the list and passes the test, and never lengthens the list |
| Records.KeepIsSubsequence | src/pages/Customers/CustomerManagement.tsx:122-135 | a filter keeps its elements in their order |
| Records.KeepConcat | src/pages/Customers/CustomerManagement.tsx:122-135 | filtering a concatenation is concatenating the filtered parts; a single element is kept exactly when it passes |
| Records.KeepAllIff | src/pages/Customers/CustomerManagement.tsx:122-135 | a filter returns the whole list exactly when every element passes |
| Records.KeepIdempotent | src/pages/Customers/CustomerManagement.tsx:122-135 | filtering twice with the same test is filtering once |
| Records.KeepSplit | src/pages/Customers/CustomerManagement.tsx:181-185 | two complementary filters together keep every element exactly once |
| Records.WithoutSpec | src/pages/Customers/CustomerManagement.tsx:73-75 | delete removes exactly the records with that id, keeps the rest in order, changes nothing for an absent id, and keeps ids distinct |
| Records.Without | src/pages/Customers/CustomerManagement.tsx:74 | the delete filter of every page; specified by WithoutSpec |
| Records.UpdateWhere | src/pages/Customers/CustomerManagement.tsx:79-88 | the map-by-id keeps the length, rewrites exactly the records with that id and leaves every other record as it was |
| Records.KeepDistinct | src/pages/SetDiscount/SetDiscount.tsx:68-70 | a filter of a list with distinct ids has distinct ids |
| Records.UpdateDistinct | src/pages/SetDiscount/SetDiscount.tsx:57-61 | a rewrite that keeps ids keeps them distinct |
| Records.UpdateTwice | src/pages/Customers/CustomerManagement.tsx:78-89 | a rewrite that undoes itself on the targeted records, applied twice, restores the list |
| Records.UpdateIdempotent | src/pages/Customers/CustomerManagement.tsx:92-104 | a rewrite that is idempotent on records is idempotent on the list |
| Records.MaxKeyAtLeast | src/pages/SetDiscount/SetDiscount.tsx:36 | `Math.max(lo, ...ids)` is at least `lo`, at least every id, and is `lo` or some record's id |
| Records.AppendFreshDistinct | src/pages/Customers/CustomerManagement.tsx:113 | appending a record whose id exceeds every id keeps ids distinct |
| Records.FlipStatus | src/pages/Customers/CustomerManagement.tsx:82-85 | the toggle always yields Active or Inactive, and Inactive exactly when the status was Active |
| Records.FlipStatusTwice | src/pages/Providers/ProvidersManagement.tsx:90-94 | toggling twice restores a status exactly when it was Active or Inactive |
| Customers.ToggleSpec | src/pages/Customers/CustomerManagement.tsx:78-89 | toggle (the per-user rewrite ToggleUser under UpdateWhere) flips the status of exactly the users with that id, changes no other field, and leaves other users unchanged |
| Customers.ToggleTwice | src/pages/Customers/CustomerManagement.tsx:78-89 | toggling the same id twice restores a list whose targeted users are Active or Inactive |
| Customers.ApproveSpec | src/pages/Customers/CustomerManagement.tsx:92-97 | approve (the per-user rewrite ApproveUser) sets `approved` on exactly the users with that id, changes nothing else, and is idempotent |
| Customers.DisapproveSpec | src/pages/Customers/CustomerManagement.tsx:99-104 | disapprove (the per-user rewrite DisapproveUser) clears `approved` on exactly the users with that id, changes nothing else, and is idempotent |
| Customers.NextId | src/pages/Customers/CustomerManagement.tsx:109 | the new id exceeds every id, is 1 for an empty list, and is otherwise one more than an existing id |
| Customers.AddSpec | src/pages/Customers/CustomerManagement.tsx:106-113 | add appends one unapproved user with the form's fields under an id no user has; the old list is the prefix; ids stay distinct |
| Customers.NewUser | src/pages/Customers/CustomerManagement.tsx:108-112 | the new user; specified by AddSpec and NextId |
| Customers.Visible | src/pages/Customers/CustomerManagement.tsx:122-135 | the row test of the table; specified by FilteredSpec |
| Customers.Filtered | src/pages/Customers/CustomerManagement.tsx:121-136 | `filteredUsers`, which the class's FilteredUsers reads off the page state; specified by FilteredSpec and FilteredShowsAll |
| Customers.FilteredSpec | src/pages/Customers/CustomerManagement.tsx:121-136 | a user is shown exactly when the status filter is All or its status, and the lower-cased search occurs in its lower-cased name, email or phone; shown users keep their order |
| Customers.FilteredShowsAll | src/pages/Customers/CustomerManagement.tsx:121-136 | with All and an empty search every user is shown |
| Customers.ColumnFiltersSpec | src/pages/Customers/CustomerManagement.tsx:163-185 | the Status and Approval column filters (the `onFilter` tests HasStatus and HasApproval) keep exactly the rows with the selected value, in order; the two approval values split the rows |
| Customers.CustomerManagement.constructor | src/pages/Customers/CustomerManagement.tsx:21-71 | the page starts with the five initial users, an empty search, All, and the modal closed |
| Customers.CustomerManagement.SetModalOpen | src/pages/Customers/CustomerManagement.tsx:311 | the modal's cancel handler sets the modal flag |
| Customers.CustomerManagement.HandleDelete | src/pages/Customers/CustomerManagement.tsx:73-75 | the new list is the delete of the old one; ids stay distinct |
| Customers.CustomerManagement.HandleToggleStatus | src/pages/Customers/CustomerManagement.tsx:78-89 | the new list is the toggle of the old one; ids stay distinct |
| Customers.CustomerManagement.HandleApprove | src/pages/Customers/CustomerManagement.tsx:92-97 | the new list is the approve of the old one; ids stay distinct |
| Customers.CustomerManagement.HandleDisapprove | src/pages/Customers/CustomerManagement.tsx:99-104 | the new list is the disapprove of the old one; ids stay distinct |
| Customers.CustomerManagement.HandleAddUser | src/pages/Customers/CustomerManagement.tsx:106-118 | the new user is appended, ids stay distinct, and the modal closes |
| Customers.CustomerManagement.SetSearchText | src/pages/Customers/CustomerManagement.tsx:258-261 | the search box sets the search text |
| Customers.CustomerManagement.SetStatusFilter | src/pages/Customers/CustomerManagement.tsx:268 | the select sets the status filter |
| Providers.ToggleSpec | src/pages/Providers/ProvidersManagement.tsx:87-99 | toggle (the per-provider rewrite ToggleProvider) flips exactly the providers with that id, changes no other field or provider, and twice restores Active/Inactive providers |
| Providers.NextId | src/pages/Providers/ProvidersManagement.tsx:104 | the new id exceeds every id, is 1 for an empty list, and is otherwise one more than an existing id |
| Providers.NewProvider | src/pages/Providers/ProvidersManagement.tsx:103-106 | the new provider; specified by AddSpec and NextId |
| Providers.AddSpec | src/pages/Providers/ProvidersManagement.tsx:101-107 | add appends a provider with the form's fields, no category or join date, and a fresh id; ids stay distinct |
| Providers.StatusFilterSpec | src/pages/Providers/ProvidersManagement.tsx:154 | the status filter (the `onFilter` test HasStatus) keeps exactly the providers with that status, in order, and keeps all exactly when all have it |
| Providers.ProvidersManagement.constructor | src/pages/Providers/ProvidersManagement.tsx:19-79 | the page starts with the six initial providers and the modal closed |
| Providers.ProvidersManagement.SetModalOpen | src/pages/Providers/ProvidersManagement.tsx:230 | the modal's cancel handler sets the modal flag |
| Providers.ProvidersManagement.HandleDelete | src/pages/Providers/ProvidersManagement.tsx:82-85 | the new list is the delete of the old one; ids stay distinct |
| Providers.ProvidersManagement.HandleToggleStatus | src/pages/Providers/ProvidersManagement.tsx:87-99 | the new list is the toggle of the old one; ids stay distinct |
| Providers.ProvidersManagement.HandleAddUser | src/pages/Providers/ProvidersManagement.tsx:101-112 | the new provider is appended, ids stay distinct, and the modal closes |
| Orders.StatusColor | src/pages/Orders/Orders.tsx:137-143 | green exactly for Completed, orange exactly for Pending, red exactly for Cancelled, default exactly for any other status |
| Orders.CompareAmount | src/pages/Orders/Orders.tsx:154 | the sorter is negative, zero or positive exactly when the first amount is smaller, equal or larger |
| Orders.CompareAmountConsistent | src/pages/Orders/Orders.tsx:154 | the sorter is antisymmetric and transitive |
| Orders.ColumnFiltersSpec | src/pages/Orders/Orders.tsx:119-136 | the category and status filters (the `onFilter` tests HasCategory and HasStatus) keep exactly the orders whose field equals the selected value, in order |
| Orders.ModalStep | src/pages/Orders/Orders.tsx:76-85 | what View and Close do to the modal, whatever its state; specified by ModalRunConsistent |
| Orders.ModalRunConsistent | src/pages/Orders/Orders.tsx:76-85 | after any sequence of View and Close clicks the modal is open exactly when an order is selected, and the last click decides which |
| Orders.OrdersPage.constructor | src/pages/Orders/Orders.tsx:15-73 | the page starts with the five initial orders and the modal closed with no selection |
| Orders.OrdersPage.ShowOrderDetails | src/pages/Orders/Orders.tsx:76-80 | the modal opens on the order; open iff selected is kept |
| Orders.OrdersPage.HandleModalClose | src/pages/Orders/Orders.tsx:82-85 | the modal closes and the selection is cleared; open iff selected is kept |
| Orders.OrdersPage.HandleDelete | src/pages/Orders/Orders.tsx:87-90 | the new list is the delete of the old one; ids stay distinct |
| Discounts.NextRangeId | src/pages/SetDiscount/SetDiscount.tsx:36 | the new id is at least 1, exceeds every id, and is 1 or one more than an existing id |
| Discounts.NewRange | src/pages/SetDiscount/SetDiscount.tsx:33-37 | `{ ...values, id }`; specified by AddSpec |
| Discounts.Merge | src/pages/SetDiscount/SetDiscount.tsx:59 | `{ ...item, ...values }`; specified by EditSpec |
| Discounts.Apply | src/pages/SetDiscount/SetDiscount.tsx:30-70 | the list change of each OK and Delete button; specified by AddSpec, EditSpec and DeleteSpec |
| Discounts.AddSpec | src/pages/SetDiscount/SetDiscount.tsx:30-42 | add appends the form values under a fresh id of at least 1; ids stay distinct; in-bounds values keep the list in bounds |
| Discounts.EditSpec | src/pages/SetDiscount/SetDiscount.tsx:55-64 | edit merges the form values into exactly the items with the edited id, keeps their id and every other item; ids stay distinct |
| Discounts.DeleteSpec | src/pages/SetDiscount/SetDiscount.tsx:68-70 | delete removes exactly the items with that id and keeps the rest in order; ids stay distinct |
| Discounts.ReplayKeepsValid | src/pages/SetDiscount/SetDiscount.tsx:30-70 | any sequence of add, edit and delete with in-bounds form values keeps ids distinct and ranges in bounds |
| Discounts.InitialValid | src/pages/SetDiscount/SetDiscount.tsx:15-18 | every list reachable from the initial ranges has distinct ids and ranges in bounds |
| Discounts.SetDiscount.constructor | src/pages/SetDiscount/SetDiscount.tsx:15-25 | the page starts with the two initial ranges, both modals closed and nothing being edited |
| Discounts.SetDiscount.ShowAddModal | src/pages/SetDiscount/SetDiscount.tsx:29 | the Add modal opens |
| Discounts.SetDiscount.HandleAddOk | src/pages/SetDiscount/SetDiscount.tsx:30-42 | the list becomes the add of the old one, the Add modal closes, ids stay distinct |
| Discounts.SetDiscount.HandleAddCancel | src/pages/SetDiscount/SetDiscount.tsx:43-46 | the list is unchanged and the Add modal closes |
| Discounts.SetDiscount.ShowEditModal | src/pages/SetDiscount/SetDiscount.tsx:50-54 | the Edit modal opens on the record |
| Discounts.SetDiscount.HandleEditOk | src/pages/SetDiscount/SetDiscount.tsx:55-64 | the list becomes the edit of the old one by the edited record's id, the Edit modal closes, ids stay distinct |
| Discounts.SetDiscount.HandleEditCancel | src/pages/SetDiscount/SetDiscount.tsx:65 | the list is unchanged and the Edit modal closes |
| Discounts.SetDiscount.HandleDelete | src/pages/SetDiscount/SetDiscount.tsx:68-70 | the list becomes the delete of the old one; ids stay distinct |
| Notifications.FindName | src/pages/Notification/NotifyMessages.tsx:92-93 | `find` by id succeeds exactly when some user has the id, and returns that user's name; that it is the first such user is FindNameFirst |
| Notifications.FindId | src/pages/Notification/NotifyMessages.tsx:129-130 | `find` by name succeeds exactly when some user has the name, and returns that user's id; that it is the first such user is FindIdFirst |
| Notifications.FindNameFirst | src/pages/Notification/NotifyMessages.tsx:92-93 | `find` by id returns the name of the FIRST user with the id: no earlier user has it |
| Notifications.FindIdFirst | src/pages/Notification/NotifyMessages.tsx:129-130 | `find` by name returns the id of the FIRST user with the name: no earlier user has it |
| Notifications.FindIdOfName | src/pages/Notification/NotifyMessages.tsx:91-95 | with distinct names, the id of the name of an id is that id |
| Notifications.FindIdOfMember | src/pages/Notification/NotifyMessages.tsx:129-130 | with distinct names, `find` by a user's name returns that user's id |
| Notifications.NameOrEmpty | src/pages/Notification/NotifyMessages.tsx:91-94 | a known id contributes its user's name and an unknown id contributes "" |
| Notifications.AudienceNames | src/pages/Notification/NotifyMessages.tsx:89-94 | one name per selected id |
| Notifications.Truthy | src/pages/Notification/NotifyMessages.tsx:132 | `.filter(Boolean)` keeps exactly the non-null, nonzero ids and never lengthens the list; TruthyConcat fixes the order |
| Notifications.TruthyConcat | src/pages/Notification/NotifyMessages.tsx:132 | `.filter(Boolean)` works entry by entry: it keeps the order, and one entry is kept exactly when it is a nonzero id |
| Notifications.TruthyKeepsKnown | src/pages/Notification/NotifyMessages.tsx:128-132 | over the lookups of rendered names, `.filter(Boolean)` keeps the known ids and drops the others, in order |
| Notifications.RenderedNamesFacts | src/pages/Notification/NotifyMessages.tsx:91-95 | rendered names have no comma and are not "All Users"; a known id's name leads back to it and an unknown id's "" to nothing |
| Notifications.RenderedNameFacts | src/pages/Notification/NotifyMessages.tsx:91-95 | the name one id renders as has no comma and is not "All Users"; it leads back to the id when the id is known, and to nothing otherwise |
| Notifications.ParseRenderAny | src/pages/Notification/NotifyMessages.tsx:87-132 | for any ids, parsing the rendered audience text gives back the known ids in order, dropping the unknown ones |
| Notifications.PieceIds | src/pages/Notification/NotifyMessages.tsx:128-131 | one id or null per piece |
| Notifications.DummyUsersFacts | src/pages/Notification/NotifyMessages.tsx:18-24 | the selectable users have distinct names, nonzero ids, no comma in a name and no name equal to "All Users" |
| Notifications.TruthyAllSome | src/pages/Notification/NotifyMessages.tsx:132 | `.filter(Boolean)` keeps a list of nonzero ids as it is |
| Notifications.AudienceNamesFacts | src/pages/Notification/NotifyMessages.tsx:91-95 | known users' names have no comma, are not "All Users", and lead back to their ids |
| Notifications.ParseRender | src/pages/Notification/NotifyMessages.tsx:87-132 | parsing the audience text built from known users' ids gives back the same ids in the same order |
| Notifications.ParseAudienceSpec | src/pages/Notification/NotifyMessages.tsx:123-132 | on any text the parse yields at most one id per piece, only ids of users named by a piece, and the id of every user a piece names; "All Users" yields none |
| Notifications.ParsedIdsNamed | src/pages/Notification/NotifyMessages.tsx:126-131 | every id read back from the pieces is nonzero and belongs to a user named by a piece |
| Notifications.NamedIdsParsed | src/pages/Notification/NotifyMessages.tsx:126-131 | every user named by a piece has its id among the ids read back |
| Notifications.AudienceText | src/pages/Notification/NotifyMessages.tsx:87-95 | the audience text; specified by ParseRender, ParseRenderAny and RescheduleRestoresForm |
| Notifications.ParseAudience | src/pages/Notification/NotifyMessages.tsx:123-132 | the ids read back on reschedule; specified by ParseAudienceSpec and ParseRenderAny |
| Notifications.FormFromRecord | src/pages/Notification/NotifyMessages.tsx:118-133 | the form reschedule loads; specified by RescheduleRestoresForm |
| Notifications.CheckForm | src/pages/Notification/NotifyMessages.tsx:74-85 | the checks before adding; specified by CheckFormSpec |
| Notifications.NewNotification | src/pages/Notification/NotifyMessages.tsx:97-103 | the new notification; specified by RescheduleRestoresForm |
| Notifications.RescheduleRestoresForm | src/pages/Notification/NotifyMessages.tsx:97-132 | rescheduling an added notification restores the form's title, description, time, audience type and users in order ("all" comes back with no users) |
| Notifications.CheckFormSpec | src/pages/Notification/NotifyMessages.tsx:74-85 | a form is refused for missing text exactly when the title or description is all white space, and for no audience exactly when otherwise individual with nobody selected |
| Notifications.ApplyEdit | src/pages/Notification/NotifyMessages.tsx:68-70 | an input change sets the edited field and keeps every other field |
| Notifications.ApplyEditIdempotent | src/pages/Notification/NotifyMessages.tsx:68-70 | repeating an input change is doing it once; setting any field to its own value changes nothing |
| Notifications.NotifyMessages.constructor | src/pages/Notification/NotifyMessages.tsx:28-54 | the page starts with the two initial notifications, an empty form and the modal hidden |
| Notifications.NotifyMessages.OpenModal | src/pages/Notification/NotifyMessages.tsx:56-65 | the form is reset and the modal shown |
| Notifications.NotifyMessages.CloseModal | src/pages/Notification/NotifyMessages.tsx:191 | the modal is hidden |
| Notifications.NotifyMessages.HandleInputChange | src/pages/Notification/NotifyMessages.tsx:68-70 | the form takes the edit |
| Notifications.NotifyMessages.AddNotification | src/pages/Notification/NotifyMessages.tsx:73-108 | a refused form changes nothing and reports why; otherwise the new notification is prepended and the modal hides |
| Notifications.NotifyMessages.DeleteNotification | src/pages/Notification/NotifyMessages.tsx:111-114 | the new list is the delete of the old one |
| Notifications.NotifyMessages.RescheduleNotification | src/pages/Notification/NotifyMessages.tsx:117-138 | the form holds the record read back, the modal shows, and the record's id is deleted |
| Ads.HasImageExtension | src/pages/Ads/Ads.tsx:42 | the image pattern's test; specified by ExtensionsDisjoint |
| Ads.HasVideoExtension | src/pages/Ads/Ads.tsx:41 | the video pattern's test; specified by ExtensionsDisjoint |
| Ads.SuffixesDisjoint | src/pages/Ads/Ads.tsx:41-42 | no text ends in both an image and a video extension |
| Ads.ExtensionsDisjoint | src/pages/Ads/Ads.tsx:41-42 | no link has both an image and a video extension |
| Ads.InnerTabsPartition | src/pages/Ads/Ads.tsx:113-133 | no ad is in two inner tabs, every link ad is in one, and an ad of another kind is in none |
| Ads.InInnerTab | src/pages/Ads/Ads.tsx:113-135 | the inner tab test; specified by InnerTabsPartition |
| Ads.FilteredAds | src/pages/Ads/Ads.tsx:109-136 | `filteredAds`, with its row test ShownIn, and AdsPage.Shown reading the tabs off the page state; specified by FilteredAdsSpec |
| Ads.FilteredAdsSpec | src/pages/Ads/Ads.tsx:109-136 | an ad is shown exactly when it has the active owner type and belongs to the inner tab; order is kept; no list shows nothing |
| Ads.LinkText | src/pages/Ads/Ads.tsx:168 | the link text is at most 30 characters: the link itself up to 30, else its first 27 characters and "..." |
| Ads.RenderPreview | src/pages/Ads/Ads.tsx:139-171 | `renderPreview`; specified by PreviewMatchesTab and LinkText |
| Ads.PreviewMatchesTab | src/pages/Ads/Ads.tsx:139-171 | an ad gets an image or video preview exactly when it is in the image or video tab, and a link ad gets a link exactly when it is in the link tab |
| Ads.AddAdItemSpec | src/pages/Ads/Ads.tsx:61-80 | addAdItem refuses exactly an all-white-space link and a missing file; it sends type "user" iff the active tab is "user", else "vendor", with the content type, the position and the trimmed link or the file |
| Ads.AddAdItem | src/pages/Ads/Ads.tsx:61-80 | `addAdItem`'s checks and fields; specified by AddAdItemSpec |
| Ads.LastOnly | src/pages/Ads/Ads.tsx:54-56 | the upload list keeps at most one file, the last picked, and is empty only when nothing was picked |
| Ads.SubmitModalSpec | src/pages/Ads/Ads.tsx:248-258 | OK sends exactly when a non-blank link is given, or a file is picked for an image or video; the first file is the one sent |
| Ads.SubmitModal | src/pages/Ads/Ads.tsx:248-258 | the OK button, which AdsPage.OnOk applies to the page's form state; specified by SubmitModalSpec |
| Ads.AdsPage.constructor | src/pages/Ads/Ads.tsx:32-38 | the page starts on the user and image tabs with the modal hidden and an empty image form |
| Ads.AdsPage.SetActiveTab | src/pages/Ads/Ads.tsx:178-180 | the owner tabs set the active tab |
| Ads.AdsPage.SetInternalTab | src/pages/Ads/Ads.tsx:195-197 | the inner tabs set the inner tab |
| Ads.AdsPage.OpenModal | src/pages/Ads/Ads.tsx:45-51 | the modal shows an empty image form |
| Ads.AdsPage.CloseModal | src/pages/Ads/Ads.tsx:247 | the modal is hidden |
| Ads.AdsPage.OnUploadChange | src/pages/Ads/Ads.tsx:54-56 | the file list becomes the last picked file only, so it never holds more than one |
| Ads.AdsPage.OnContentTypeChange | src/pages/Ads/Ads.tsx:262-266 | switching content type clears the file and the link |
| Ads.AdsPage.OnAdded | src/pages/Ads/Ads.tsx:85-87 | after the server accepts an ad the modal hides and its file and link are cleared |

## Left out

- The RTK Query api files (`src/redux/api/*.ts`): their caching, tag invalidation and request handling belong to a library that is not part of this model.
- Network calls: `addAd`, `deleteAd` and `refetch` on the ads page, and their toasts. The ads page's delete goes to the server and is not modelled. `OnAdded` models only what the page does after a successful upload.
- The `FormData` construction: `Ads.AddAdItem` returns the fields it would append instead.
- Toasts, `message.*` calls, navigation, rendering and styling. The discount page's `handleSubmit` only logs the list, so it is left out.
- The `localeCompare` name sorters and the `new Date(...)` date sorters depend on the locale and the date parser.
- Customers.FilteredSpec: uses ASCII lower-casing. JavaScript's `toLowerCase` also folds non-ASCII letters. The Ads extension tests are faithful, because a case-insensitive regular expression without the `u` flag folds only ASCII letters for these ASCII patterns.
- JavaScript strings are UTF-16. The model's strings are sequences of characters, so lengths (the 30-character link cut) agree only on text without astral characters.
- JavaScript numbers are modelled as unbounded integers. Ids, prices and amounts never reach the precision limit in these pages. The discount inputs have no precision setting, so min, max and discount may be fractional. The model drops fractions; no proved property depends on them.
- Form validation rules, such as the email and phone patterns and the required fields, are run by the form library before a handler sees the values. They are not modelled. Discounts.FormInBounds states the bounds the number inputs keep, and the list invariant holds for in-bounds values only.
- Discounts.SetDiscount.HandleEditOk: requires a range being edited. The page only shows the Edit modal after `showEditModal`, and with no range it would throw.
- `Date.now()` and `moment()` are parameters. Notification ids are therefore not claimed distinct: two adds in the same millisecond share an id.
- React's batching of state updates and stale closures. Each handler is modelled as one atomic step on the current state.
- The ads upload entry's `originFileObj` is taken to be present whenever the upload list is non-empty.
- The antd table applies the column filters on top of the table's data. Within one column, antd keeps a row when any of the checked values matches. Each `ColumnFiltersSpec` takes one selected value; neither several values in one column nor the combination of columns is modelled.
