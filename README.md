# JourneyBoard core, modelled in Dafny

JourneyBoard is a collaborative trip planner. Trips live in a document store:
each one has an owner plus lists of editors and viewers, and invitations are
documents keyed by trip and email address. This project models the parts of
the planner whose behaviour is decided by its own code and not by the UI
framework:

- **the trip store** (`TripStore`): the three-level access check; sharing,
  accepting and revoking; trip creation, deletion and bulk re-ownership; and
  the merge of the owned, edited and viewed queries that lists a user's trips,
  newest first;
- **the link markup** of activity texts (`LinkParser`, `QuickLink`): the
  `[label](url)` scanner, the serialiser and the maps search URL;
- **the fallback images** (`DefaultImages`, `TripImageView`): the keyword
  classifier over a trip's title and locations, and the banner's choice
  between the trip's own image and the default;
- **the template pages** (`TemplateCatalogue`, `SavedTemplates`,
  `AuthorProfileStats`, `Ratings`): filtering and stable sorting, the
  duration label, the saved list, the author's aggregate numbers and badges,
  star captions and helpful votes;
- **the dialogs and the home page** (`PublishDialog`, `DeleteDialog`,
  `ShareDialog`, `InvitationsList`, `HomePage`): each handler's checks, the
  store call it makes and the state it leaves behind.

Shared helpers are in `Text` (JavaScript's `trim`, `toLowerCase`, `includes`,
`join` and number formatting), `Arrays` (`filter` and a stable sort) and
`Options`.

Pure code is written as functions with lemmas beside them. React state, and
the store's document tables, are classes whose fields the handler methods
update. Every handler's `ensures` states its whole new state in terms of
specification functions, so the lemmas about those functions carry over.
The things the UI cannot decide for itself are method parameters:

- whether an awaited store call went through or threw (`storeOk`,
  `shareOk`, `createOk`, `loadOk`, `updateOk`, `publishOk`, `rateOk`,
  `callOk`, and in the store itself `writeOk`, `tripWriteOk`,
  `inviteWriteOk` and one `writeOks` entry per bulk update), or what it
  returned;
- the ids the store generates, the UUIDs, and the clock (`now`, `today`).

Dates are day numbers counted from 1970-01-01, and timestamps are integers.

## Model

| member | source | states |
|---|---|---|
| TripStore.AccessByRole | src/lib/firestore.ts:46-54 | a level is granted exactly when the user's strongest role (owner, editor, viewer) reaches it |
| TripStore.AccessMonotone | src/lib/firestore.ts:46-54 | owner access means `ownerId` matches; owner access implies edit access, which implies view access |
| TripStore.AddMember | src/lib/firestore.ts:269-277 | `arrayUnion`: the result holds exactly the old members plus the user, unchanged if already there, extends the old list, and keeps it free of repeats |
| TripStore.RemoveMember | src/lib/firestore.ts:300-308 | `arrayRemove`: the result holds exactly the old members other than the user, each as often as before; unchanged when the user is absent |
| TripStore.RemoveKeepsDistinct | src/lib/firestore.ts:300-308 | removal never lengthens a list and keeps a repeat-free list repeat-free |
| TripStore.RemoveAfterAdd | src/lib/firestore.ts:269-277 | removing a member just added to a list that lacked it restores the list |
| TripStore.RemoveAppend | src/lib/firestore.ts:300-308 | removal works element by element, so it distributes over concatenation |
| TripStore.GrantEffect | src/lib/firestore.ts:269-277 | accepting an edit invitation adds the user to `editors` only, a view invitation to `viewers` only; owner and the other fields stay |
| TripStore.RevokeEffect | src/lib/firestore.ts:300-308 | leaving removes the user from exactly the list named by the permission; everything else stays |
| TripStore.RevokeAfterGrant | src/lib/firestore.ts:269-277 | leaving right after joining through a fresh entry gives back the original trip |
| TripStore.InvitationKeyInjective | src/lib/firestore.ts:234 | the key `${tripId}_${email}` names one (trip, email) pair when trip ids carry no underscore |
| TripStore.Shared | src/lib/firestore.ts:234-241 | `setDoc` adds or replaces exactly the invitation under the key; it is pending with no acceptor, and every other invitation is untouched |
| TripStore.ShareAgainOverwrites | src/lib/firestore.ts:234-241 | sharing twice with the same address equals sharing once with the second permission and time; the table does not grow |
| TripStore.ShareResetsAccepted | src/lib/firestore.ts:234-241 | re-sharing an accepted invitation makes it pending again with no acceptance recorded |
| TripStore.NewTripRecord | src/lib/firestore.ts:145-160 | the created record keeps the draft's owner and title, lists default to empty, and both timestamps are the server time |
| TripStore.ReassignAllEffect | src/lib/firestore.ts:188-198 | bulk re-ownership keeps the set of documents, makes the user owner of each listed trip that exists, leaves unlisted trips alone, and leaves each re-owned id with its last listed copy, stamped now, keeping the stored creation time when no copy carries one |
| TripStore.ReassignedRecord | src/lib/firestore.ts:163-170 | `updateDoc` merges the copy into the stored document: the re-owned record is the last listed copy with that id, owned by the user and stamped now; its creation time is the copy's when it has one and the stored one when no copy has one |
| TripStore.AddAllWellFormed | src/lib/firestore.ts:86-105 | each `forEach` pass keeps the `Map` well formed: every key once, and every key has a value |
| TripStore.LastWithId | src/lib/firestore.ts:89-91 | the record the overwriting owned pass keeps is the last document with that id |
| TripStore.FirstWithId | src/lib/firestore.ts:94-105 | the record a `!allTrips.has` pass keeps is the first document with that id |
| TripStore.OverwritePass | src/lib/firestore.ts:89-91 | after the owned pass an id is present iff it was before or some document has it, with the last such document as its value |
| TripStore.KeepFirstPass | src/lib/firestore.ts:94-105 | after an edited or viewed pass an id is present iff it was before or some document has it, and an existing entry is never replaced |
| TripStore.MergedMap | src/lib/firestore.ts:86-105 | the merged map holds, for each id any query returned, the owned record if any, else the edited one, else the viewed one |
| TripStore.MergedProperties | src/lib/firestore.ts:86-107 | the merged list has each returned id exactly once, and for each id the record owned-before-edited-before-viewed picks |
| TripStore.MergeTrips | src/lib/firestore.ts:86-107 | the three `forEach` loops over a `Map` compute exactly the merged list |
| TripStore.UserTrips | src/lib/firestore.ts:57-114 | the merged and sorted list holds stored records with distinct ids, exactly the trips the user may view, ordered newest first |
| TripStore.ViewableIds | src/lib/firestore.ts:63-76 | the owner, editor and viewer queries together return exactly the ids of the trips the user has view access to |
| TripStore.MergedStored | src/lib/firestore.ts:86-107 | merging stored query results yields stored records |
| TripStore.SortKeepsRecords | src/lib/firestore.ts:110-114 | sorting stored records with distinct ids keeps them stored, distinct and with the same ids |
| TripStore.SortedIdsDistinct | src/lib/firestore.ts:110-114 | any permutation of a list with distinct ids has distinct ids |
| TripStore.Store.constructor | src/lib/firestore.ts:19-43 | an empty store is valid |
| TripStore.Store.ShareTrip | src/lib/firestore.ts:230-254 | success iff `setDoc` returns; then the invitation table becomes `Shared(...)`, otherwise it is unchanged; the trips are unchanged either way |
| TripStore.Store.AcceptInvitation | src/lib/firestore.ts:256-294 | success iff the invitation and its trip exist and both writes return; the trip gains the user in the right list whenever the invitation exists and the trip write returns, even when the invitation write then throws; the invitation is marked accepted by the user at `now` only on success; otherwise nothing changes |
| TripStore.Store.RemoveTripAccess | src/lib/firestore.ts:296-317 | success iff the trip exists and the write returns; then the user leaves the list named by the permission, otherwise the trips are unchanged; invitations are untouched |
| TripStore.Store.CreateTrip | src/lib/firestore.ts:145-160 | the store gains exactly the new record under the fresh id, which is returned |
| TripStore.Store.DeleteTrip | src/lib/firestore.ts:177-185 | the trip document is gone and nothing else changes; deleting a missing id is no error |
| TripStore.Store.UpdateAllTrips | src/lib/firestore.ts:188-198 | every listed trip whose `updateDoc` returned and whose document exists is re-owned, with fields merged into the stored record as `updateDoc` does; the writes that returned stay even when another throws; the call fails iff some listed id has no document or some write threw |
| TripStore.WrittenFacts | src/lib/firestore.ts:190-193 | the writes that landed are listed trips, no more than were listed; all of them when every call returns, none when none does |
| TripStore.Store.QueryTrips | src/lib/firestore.ts:63-83 | a `where` query returns each stored trip satisfying its condition exactly once, as stored |
| TripStore.Store.GetUserTrips | src/lib/firestore.ts:57-122 | the result is stored records with distinct ids, exactly the trips the user may view, sorted newest first by `createdAt` (missing means time 0) |
| LinkParser.GoogleMapsIff | src/components/LinkParser.tsx:42 | the maps flag holds iff the url contains `google.com/maps` or `maps.google.com` |
| LinkParser.FirstFrom | src/components/LinkParser.tsx:27 | the first position at or after `i` holding the character, or the end when none |
| LinkParser.MatchAt | src/components/LinkParser.tsx:27 | a match at `p` starts at `p` and spans its label, url and four markup characters within the text |
| LinkParser.MatchAtSound | src/components/LinkParser.tsx:27 | what the matcher finds is `[label](url)` with a non-empty label without `]` and a non-empty url without `)` |
| LinkParser.MatchAtComplete | src/components/LinkParser.tsx:27 | every occurrence of the markup at `p` is exactly the match the matcher returns: the expression has one reading |
| LinkParser.NextMatch | src/components/LinkParser.tsx:30-31 | `exec` finds the leftmost match starting at or after the cursor, and none is missed before it |
| LinkParser.SegmentsStep | src/components/LinkParser.tsx:30-52 | one iteration emits the text before the match (if non-empty), then the link, then continues after the match |
| LinkParser.ParseLinks | src/components/LinkParser.tsx:22-63 | the `exec` loop with its remainder step emits exactly the segments of the specification |
| LinkParser.RenderAppend | src/components/LinkParser.tsx:127-129 | writing segments back distributes over concatenation |
| LinkParser.RenderFrom | src/components/LinkParser.tsx:30-60 | the segments from a cursor on, written back, are the rest of the text |
| LinkParser.Reconstruction | src/components/LinkParser.tsx:22-63 | the segments of any text, written back as text and `createLinkString` markup, are that text exactly |
| LinkParser.GoodFrom | src/components/LinkParser.tsx:30-60 | every segment from a cursor on is well formed |
| LinkParser.SegmentsGood | src/components/LinkParser.tsx:22-63 | text segments are non-empty; links carry a valid label and url and their url's maps flag |
| LinkParser.NoMarkup | src/components/LinkParser.tsx:55-62 | a text without markup is one text segment, or no segment when empty |
| LinkParser.RoundTrip | src/components/LinkParser.tsx:127-129 | parsing `createLinkString(label, url)` gives back exactly that one link, for any valid label and url |
| LinkParser.CloseInUrlTruncates | src/components/LinkParser.tsx:27-52 | a url holding `)` is read back cut at its first `)`, and at least one more segment follows the link |
| LinkParser.MapsUrlReadBack | src/components/LinkParser.tsx:121-124 | stripping the fixed search prefix and decoding gives back the query, followed by the location when one is given; so two maps urls are equal only when they search for the same text |
| LinkParser.MapsUrlIsGoogleMaps | src/components/LinkParser.tsx:121-124 | every maps search url is flagged as a maps link when parsed back |
| QuickLink.ChosenUrl | src/components/QuickLinkHelper.tsx:26-30 | the trimmed custom url when that option is on and the url is not blank, the maps search url otherwise; never empty |
| QuickLink.EmittedLinkParses | src/components/QuickLinkHelper.tsx:22-33 | when the place name has no `]` and the chosen url no `)`, the emitted markup parses back as one link to the chosen url with the place name as label; a maps url is flagged |
| QuickLink.EmittedLinkTruncated | src/components/QuickLinkHelper.tsx:22-33 | when the chosen url holds `)` (a custom url, or a place name with parentheses, which URI encoding keeps), the emitted markup reads back as a link cut at that `)` followed by stray text |
| QuickLink.QuickLinkHelper.constructor | src/components/QuickLinkHelper.tsx:17-20 | the dialog starts closed with an empty form |
| QuickLink.QuickLinkHelper.HandleAddLink | src/components/QuickLinkHelper.tsx:22-40 | a blank place name changes nothing; otherwise the markup for the name and chosen url is emitted and the form is reset and closed |
| DefaultImages.ClassifyIsFirstHit | src/lib/defaultImages.ts:82-124 | the `if` chain equals "the first theme in priority order with a keyword in the text, else General" |
| DefaultImages.FirstHitSpec | src/lib/defaultImages.ts:82-124 | the chosen theme has a keyword in the text and no earlier theme does; General means none does |
| DefaultImages.ClassifySpec | src/lib/defaultImages.ts:76-125 | a theme is chosen exactly when one of its keywords occurs in the combined text and no keyword of a higher-priority theme does |
| DefaultImages.ResultInTable | src/lib/defaultImages.ts:4-73 | the result is an entry of the table, and every entry uses the same image url |
| DefaultImages.TitleKeyword | src/lib/defaultImages.ts:77-79 | a keyword in the lower-cased title is found whatever the locations |
| DefaultImages.LocationKeyword | src/lib/defaultImages.ts:78-79 | a keyword in any one lower-cased location is found too |
| DefaultImages.CaseInsensitive | src/lib/defaultImages.ts:77-78 | a title or locations differing only in letter case pick the same image |
| DefaultImages.LowerJoin | src/lib/defaultImages.ts:78 | lower-casing the locations before or after joining them gives the same text |
| DefaultImages.JapanParisIsAsia | src/lib/defaultImages.ts:82-89 | "japan paris" names an Asian and a European place, and Asia wins by priority |
| TripImageView.TripImage.constructor | src/components/TripImage.tsx:29-30 | the banner starts without an error and loading |
| TripImageView.TripImage.HandleImageError | src/components/TripImage.tsx:32-35 | a load error stops loading and switches to the default image |
| TripImageView.TripImage.HandleImageLoad | src/components/TripImage.tsx:37-39 | a load stops loading and keeps the error flag |
| TripImageView.TripImage.ImageSrc | src/components/TripImage.tsx:48-49 | the source is the default image's url when the default is used, the trip's own otherwise |
| TripImageView.ShownPair | src/components/TripImage.tsx:48-62 | source and alt both come from the default image or both from the trip; a real image that loads is shown as is; the fallback card appears iff the default is used |
| TripImageView.PlaceholderCases | src/components/TripImage.tsx:42 | an empty source or one containing either placeholder marker counts as a placeholder, and nothing else does |
| TemplateCatalogue.DurationClassesPartition | src/app/templates/page.tsx:89-101 | weekend, week-long and extended split the day counts 1 to 365 between them, each count in exactly one class, and any other class name means a weekend |
| TemplateCatalogue.FilterTemplates | src/app/templates/page.tsx:69-119 | narrowing `filtered` step by step and then sorting gives the specified list |
| TemplateCatalogue.ThreeFilters | src/app/templates/page.tsx:73-101 | three filters in a row keep what passes all three, in order |
| TemplateCatalogue.ShownIsFilteredPermutation | src/app/templates/page.tsx:69-119 | the shown list holds each template that passes every filter as often as it was loaded, and nothing else |
| TemplateCatalogue.NoFilterKeepsAll | src/app/templates/page.tsx:72-86 | a blank query with no category or duration filter shows every template |
| TemplateCatalogue.RatingSortDescending | src/app/templates/page.tsx:104-108 | rating sort puts higher ratings first, and ties keep the loaded order |
| TemplateCatalogue.UsageSortDescending | src/app/templates/page.tsx:104-110 | usage sort puts more-used templates first, and ties keep the loaded order |
| TemplateCatalogue.NewestSortDescending | src/app/templates/page.tsx:104-113 | publication sort puts newer templates first when every template has a time |
| TemplateCatalogue.UnknownSortKeepsOrder | src/app/templates/page.tsx:104-116 | an unknown key compares as a tie, so the filtered order is kept |
| TemplateCatalogue.DurationLabelShortReadBack | src/app/templates/page.tsx:121-123 | up to a week the label is the day count, which reads back as the days, followed by "day", plural unless it is one |
| TemplateCatalogue.DurationLabelWeeksReadBack | src/app/templates/page.tsx:124-127 | beyond a week the label opens with the week count and "week", plural unless one, and ends with the leftover day count when there is one; seven times the first number plus the second is the number of days |
| SavedTemplates.FindSaved | src/app/saved/page.tsx:89-90 | `find` returns the first record of that template when one exists, and none only when no record has it |
| SavedTemplates.EmptyQueryKeepsAll | src/app/saved/page.tsx:75-80 | an empty query shows every template |
| SavedTemplates.SearchIgnoresLocations | src/app/saved/page.tsx:76-80 | this page's search does not look at location names |
| SavedTemplates.ShownAreMatches | src/app/saved/page.tsx:75-95 | the shown list holds exactly the loaded templates the search keeps, each as often |
| SavedTemplates.RatingSortDescending | src/app/saved/page.tsx:81-85 | rating sort is descending |
| SavedTemplates.UsageSortDescending | src/app/saved/page.tsx:81-87 | usage sort is descending |
| SavedTemplates.SavedAtSortDescending | src/app/saved/page.tsx:88-93 | saved-time sort is newest first when every template has a saved record |
| SavedTemplates.NoRecordsKeepsOrder | src/app/saved/page.tsx:88-93 | with no saved records every pair ties, so the search order is kept |
| SavedTemplates.Present | src/app/saved/page.tsx:42 | the non-null fetch results: exactly the templates found, never more than were fetched |
| SavedTemplates.PresentAreSaved | src/app/saved/page.tsx:37-42 | with one fetch per saved record, each answered by the template that record names, the templates kept are saved ones, at most one per record |
| SavedTemplates.PresentAppend | src/app/saved/page.tsx:42 | dropping nulls distributes over concatenation, so order is kept |
| SavedTemplates.PresentAll | src/app/saved/page.tsx:38-42 | when every fetch finds its template, all of them are kept in order |
| SavedTemplates.UnsaveRemovesExactly | src/app/saved/page.tsx:60 | unsaving drops every template with the id, keeps the others as often and in order, and changes nothing for an absent id |
| SavedTemplates.UnsaveRemovesRecords | src/app/saved/page.tsx:59 | unsaving drops exactly the saved records with the id |
| SavedTemplates.SavedPage.constructor | src/app/saved/page.tsx:19-21 | the page starts empty and loading |
| SavedTemplates.SavedPage.LoadSavedTemplates | src/app/saved/page.tsx:31-54 | records are kept once they arrive; templates only when every fetch answered, without the missing ones, and when each fetch answered for its own record every shown template is a saved one; loading ends |
| SavedTemplates.SavedPage.HandleUnsaveTemplate | src/app/saved/page.tsx:56-73 | on success the record and the template leave both lists; on failure nothing changes |
| AuthorProfileStats.SumsAppend | src/components/AuthorProfile.tsx:51-54 | usage, rating-count and weighted-rating sums add over concatenation |
| AuthorProfileStats.OtherAuthorsIgnored | src/components/AuthorProfile.tsx:47 | other authors' templates do not change the stats, and pre-filtering changes nothing |
| AuthorProfileStats.SumsOfOne | src/components/AuthorProfile.tsx:51-52 | each sum adds one template's own number to the rest, and an empty list sums to 0 |
| AuthorProfileStats.WeightedBounds | src/components/AuthorProfile.tsx:53-55 | the weighted rating sum lies between the lowest and highest rating times the number of ratings |
| AuthorProfileStats.AverageInRange | src/components/AuthorProfile.tsx:51-62 | the average rating lies between the lowest and highest rating of the author's templates, and is 0 when nobody rated them |
| AuthorProfileStats.GetAuthorBadges | src/components/AuthorProfile.tsx:70-87 | the badges are exactly those whose thresholds are met, listed in the fixed order, each once |
| AuthorProfileStats.ListingOrderBound | src/components/AuthorProfile.tsx:70-87 | a list in listing order has no badge twice and at most four badges |
| AuthorProfileStats.ProlificImpliesCreator | src/components/AuthorProfile.tsx:73-84 | the ten-template badge always comes with the five-template badge, which is listed first |
| AuthorProfileStats.AuthorProfile.constructor | src/components/AuthorProfile.tsx:28-35 | no templates, zero stats, loading |
| AuthorProfileStats.AuthorProfile.LoadAuthorData | src/components/AuthorProfile.tsx:41-68 | after a load the templates are the author's own and the stats are theirs; a failed fetch keeps both; loading ends |
| Ratings.RatingTextSpec | src/components/TemplateRating.tsx:71-80 | only the five star values have a caption, and no two values share one |
| Ratings.ReviewArgumentSpec | src/components/TemplateRating.tsx:51 | a blank review is sent as absent; any other is sent trimmed, as a piece of the original |
| Ratings.RatingForm.constructor | src/components/TemplateRating.tsx:25-28 | no rating, no review, not submitting, form hidden |
| Ratings.RatingForm.HandleRateTemplate | src/components/TemplateRating.tsx:30-69 | no call without a user or with rating 0; otherwise the call carries the rating and the review argument; success hides and clears the review form |
| Ratings.Toggle | src/components/TemplateRating.tsx:191-199 | a click flips the clicked review's membership and leaves every other review's alone |
| Ratings.ToggleTwice | src/components/TemplateRating.tsx:191-199 | two clicks on the same review cancel out |
| Ratings.ToggleCommutes | src/components/TemplateRating.tsx:191-199 | clicks on different reviews commute |
| Ratings.DisplayedHelpful | src/components/TemplateRating.tsx:258 | the shown count is the stored count, plus one exactly while this session's vote is on |
| Ratings.ToggleMovesOneCount | src/components/TemplateRating.tsx:191-258 | a click moves the clicked review's shown count by exactly one and no other review's |
| Ratings.ReviewList.constructor | src/components/TemplateRating.tsx:179 | no votes yet |
| Ratings.ReviewList.HandleHelpfulVote | src/components/TemplateRating.tsx:181-200 | without a user nothing changes; otherwise the vote is toggled |
| PublishDialog.ValidateSpec | src/components/PublishTripDialog.tsx:49-83 | publishing goes ahead iff there is a user, the title and description are not blank and the trip has two locations; a rejection names the first failing check |
| PublishDialog.TrimmedClean | src/components/PublishTripDialog.tsx:87-92 | a non-blank field, trimmed, is non-empty and trimmed |
| PublishDialog.TagToAddClean | src/components/PublishTripDialog.tsx:37-42 | an added tag is trimmed, non-empty, new and fits the limit of five; nothing is added iff it is blank, present or the list is full |
| PublishDialog.AddTagTwice | src/components/PublishTripDialog.tsx:37-42 | adding the same tag again, up to surrounding space, adds nothing |
| PublishDialog.PublishTripDialog.constructor | src/components/PublishTripDialog.tsx:27-33 | the form starts with the trip's title, an empty description, category Adventure and no tags |
| PublishDialog.PublishTripDialog.HandleAddTag | src/components/PublishTripDialog.tsx:37-42 | appends the trimmed input when it is allowed and clears the input; the tag list stays at most five, distinct and trimmed |
| PublishDialog.PublishTripDialog.HandleRemoveTag | src/components/PublishTripDialog.tsx:44-46 | drops every tag equal to the argument, keeping the others in order |
| PublishDialog.PublishTripDialog.HandlePublish | src/components/PublishTripDialog.tsx:48-114 | no call iff validation rejects; otherwise the call carries trimmed title and description, category and tags; success resets and closes the form |
| DeleteDialog.ModeSpec | src/components/DeleteTripDialog.tsx:37-55 | delete is offered iff the user owns the trip or it is a sample trip; leave iff otherwise and the user is an editor or viewer; remove in the remaining case |
| DeleteDialog.OwnerDeletes | src/components/DeleteTripDialog.tsx:39-74 | the owner is always asked to type DELETE TRIP and offered "Delete Trip" |
| DeleteDialog.ConfirmationDetermines | src/components/DeleteTripDialog.tsx:67-74 | the three phrases differ, so the phrase determines the case and the action text |
| DeleteDialog.DescriptionQuotesTitle | src/components/DeleteTripDialog.tsx:57-65 | the description quotes the title right after its opening question and mentions sample trips for a sample trip |
| DeleteDialog.SampleTripNoted | src/components/DeleteTripDialog.tsx:59-60 | a sample trip's description contains the sample-trip note |
| DeleteDialog.DecisionSpec | src/components/DeleteTripDialog.tsx:76-116 | no user or a wrong phrase means no store call; delete only where deleting is allowed; leave only for a collaborator who may not delete, as an editor when listed as one |
| DeleteDialog.DeleteTripDialog.constructor | src/components/DeleteTripDialog.tsx:29-31 | closed, idle, empty phrase |
| DeleteDialog.DeleteTripDialog.HandleDelete | src/components/DeleteTripDialog.tsx:76-132 | the store call is the decision; its effect on the store is a delete or a revoke when the call returns, and nothing when it throws; the dialog closes exactly after a completed action; loading ends |
| ShareDialog.ShareTripDialog.constructor | src/components/ShareTripDialog.tsx:34-37 | closed, empty email, edit permission, idle |
| ShareDialog.ShareTripDialog.HandleShare | src/components/ShareTripDialog.tsx:40-78 | the store is called iff the email is not blank; on success the invitation under the trimmed email is recorded and the form is cleared and closed; otherwise nothing changes |
| ShareDialog.StoredEmailTrimmed | src/components/ShareTripDialog.tsx:52 | the stored invitation's email is non-empty, trimmed and pending |
| InvitationsList.WithoutSpec | src/components/PendingInvitations.tsx:63 | removing an id drops exactly the rows with that id, keeps the others as often, and changes nothing if none has it |
| InvitationsList.WithoutAppend | src/components/PendingInvitations.tsx:63 | removal keeps the order of the rest |
| InvitationsList.WithoutTwice | src/components/PendingInvitations.tsx:86 | declining twice is declining once |
| InvitationsList.PendingInvitationsCard.constructor | src/components/PendingInvitations.tsx:13-21 | no invitations, loading, nothing being accepted |
| InvitationsList.PendingInvitationsCard.LoadInvitations | src/components/PendingInvitations.tsx:31-48 | without an email nothing happens; otherwise the fetched list replaces the old one (kept on failure) and loading ends |
| InvitationsList.PendingInvitationsCard.HandleAcceptInvitation | src/components/PendingInvitations.tsx:50-81 | without a user nothing happens; otherwise success iff the store can accept and both its writes return, the row leaves the list only on success, and the store changes as `acceptInvitation` does, a partial write included |
| InvitationsList.PendingInvitationsCard.HandleDeclineInvitation | src/components/PendingInvitations.tsx:83-91 | the row leaves the list; the store is not told |
| HomePage.DayNightLeadingNumber | src/app/page.tsx:536-541 | for a trip ending on or after its start, the line opens with the number of calendar days, both ends counted |
| HomePage.DayNightPlurals | src/app/page.tsx:541 | "day" is singular only for one day, "night" only for one night |
| HomePage.SameDayLabel | src/app/page.tsx:536-541 | a one-day trip reads "1 day / 0 nights" |
| HomePage.SharingLabelSpec | src/app/page.tsx:551-553 | "Not shared" iff nobody else is listed; one other reads "Shared with 1 other" |
| HomePage.SharedAfterGrant | src/app/page.tsx:551-553 | after an invitation is accepted the card says the trip is shared |
| HomePage.LocalMatchesStored | src/app/page.tsx:288-291 | the page's copy of a new trip is the stored record without its timestamps |
| HomePage.NewTripShape | src/app/page.tsx:262-285 | a new trip starts and ends on its start day, lists nobody else, belongs to its creator and has one location holding one empty date block |
| HomePage.CreatedSamplesFacts | src/app/page.tsx:174-252 | every sample the page gets belongs to the user, is shared with nobody and is deletable as a sample; failed creations are skipped |
| HomePage.StoredSamplesFacts | src/app/page.tsx:235-244 | the samples that went through are stored under their ids, and nothing else changed |
| HomePage.WithImage | src/app/page.tsx:349-356 | only the trips with the id get the new image url; every other field and trip stays |
| HomePage.WithImageFacts | src/app/page.tsx:349-356 | refreshing twice keeps the second url; with no trip of that id nothing changes |
| HomePage.MyTripsPage.constructor | src/app/page.tsx:81-86 | no trips, dialog closed, empty title, today's date, loading |
| HomePage.MyTripsPage.HandleCreateTrip | src/app/page.tsx:255-335 | without a title, date or user nothing happens; otherwise the store creates the trip and, on success, the page appends its copy and resets and closes the dialog |
| HomePage.MyTripsPage.CreateSampleTrips | src/app/page.tsx:174-252 | the two samples are created one after the other, failed ones skipped; the page gets exactly the created ones |
| HomePage.MyTripsPage.LoadTrips | src/app/page.tsx:130-172 | a failed load empties the list; a user with no viewable trip gets the samples; anyone else gets each viewable trip once, newest first |
| HomePage.MyTripsPage.HandleUpdateImage | src/app/page.tsx:337-366 | a missing trip or one without locations is left alone; otherwise it searches for the first location plus " iconic", and on success only that trip's image changes |
| Text.ContainsIff | src/app/templates/page.tsx:73-81 | `includes` holds iff the needle occurs at some position |
| Text.BlankIff | src/components/ShareTripDialog.tsx:41 | `!s.trim()` holds iff every character is JavaScript white space |
| Text.TrimShape | src/components/PublishTripDialog.tsx:39 | `trim` returns a contiguous piece of the input with no white space at either end |
| Text.TrimIdempotent | src/components/PublishTripDialog.tsx:39 | trimming twice is trimming once |
| Text.LowerAppend | src/lib/defaultImages.ts:77-79 | lower-casing distributes over concatenation |
| Text.NatToStringValue | src/app/templates/page.tsx:122 | the decimal digits of a number read back as that number |
| Text.CountedPlural | src/app/templates/page.tsx:122-127 | a counted unit takes "s" exactly when the count is not 1 |
| Arrays.FilterCount | src/app/templates/page.tsx:75-98 | `filter` keeps each kept element as often as it was there and drops the rest |
| Arrays.FilterAppend | src/app/templates/page.tsx:75-98 | `filter` distributes over concatenation, so it keeps order |
| Arrays.SortSorted | src/app/templates/page.tsx:104-116 | the stable sort of a consistent comparator gives a list in comparator order |
| Arrays.SortStable | src/app/templates/page.tsx:104-116 | the sort is a permutation, and elements that tie keep their relative order |

## Left out

- User interface: JSX, dialogs opening and closing by user gesture, toasts,
  router navigation and console logging are not modelled. The card list's
  `filter(trip => trip.id)` is not modelled either: every modelled trip has
  an id.
- Network and store failures: the outcome of each awaited call that can
  throw is a boolean or an `Option` parameter, and a missing document makes
  `updateDoc` throw. A thrown write changes nothing; writes that returned
  before it stay, as in `acceptInvitation`, whose trip write can land before
  its invitation write throws.
- Promise.all in `updateAllTrips`: the updates run side by side; the model
  applies the ones that returned in list order, so when one id is listed
  twice the later copy that returned wins. Writes that are still in flight
  when another rejects are counted as landed or not by their own `writeOks`
  entry.
- Concurrency: handlers run to completion one at a time. The `accepting` and
  `isLoading` flags are set during a call and cleared after it, so their
  in-flight values are visible only inside the method bodies.
- Clocks, UUIDs and generated document ids are parameters; fresh ids are a
  precondition, which the store guarantees.
- `getPendingInvitations`, `getPublishedTemplates`, `getSavedTemplates`,
  `getPublishedTemplate`, `unsaveTemplate`, `publishTrip`, `rateTemplate` and
  `getNewPexelsImage` are not part of this model. Their results are
  parameters, or the handler returns the request it sends.
- `updateTrip`'s write in `handleUpdateImage` (src/app/page.tsx:349) is not
  applied to the store; only its outcome is a parameter.
- `getTrip`, `testFirestoreConnection`, `getRandomDefaultImage` (it uses
  `Math.random`), the debug and migration pages and the collaborator count in
  the delete dialog's body are not modelled.
- `initialTrips` in src/app/page.tsx is never used by the code modelled
  here: `createSampleTrips` creates two sample trips, while
  `isOnboardingTrip` lists three titles. Both are modelled as written.
- Dates: `new Date(...)`, time zones and `toISOString` are not modelled, and
  dates are day numbers. HomePage.DayNightLeadingNumber: it works on whole
  day numbers, so `Math.ceil` over a millisecond difference that is not a
  whole number of days is not covered.
- Text: `toLowerCase` is modelled for ASCII letters only. `trim` uses
  JavaScript's white-space set without Unicode line-separator subtleties.
  `encodeURIComponent` is an uninterpreted function parameter.
- Numbers: ratings are reals; the NaN comparison of a missing publication
  time is modelled as a tie.
- Sorting: `Array.prototype.sort` is modelled as a stable insertion sort on
  sequences, in place of the engine's in-place algorithm.
- SavedTemplates.SavedAtSortDescending: proved only when every shown template
  has a saved record. Without one the comparator is not a consistent order,
  and the model then only fixes the insertion-sort result.
- TemplateCatalogue.NewestSortDescending: proved only when every template
  has a publication time, for the same reason.
- QuickLink.EmittedLinkParses: proved only when the place name has no `]`
  and the chosen url no `)`. Otherwise the dialog emits markup that the
  link scanner does not read back as the chosen link; QuickLink.EmittedLinkTruncated
  states what it reads for a url holding `)`. A place name holding `]` is
  not covered.
- TripStore.InvitationKeyInjective: holds only for trip ids without `_`.
- TripStore.Store.GetUserTrips: the query order inside each `where` result
  is chosen by the store and is left open; only the final order is stated.
