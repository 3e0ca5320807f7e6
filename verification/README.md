# SmartShop marketplace backend — a Dafny model

SmartShop is an Express + Mongoose service marketplace. Customers book
services that providers offer; an admin approves and activates services,
blocks users and oversees bookings. This project models the core of its
backend in Dafny. It covers three parts:

- the booking engine: creation with its slot-conflict check, and the
  pending → confirmed / cancelled / rejected lifecycle;
- the service lifecycle and visibility: a provider creates a service
  unapproved and active, only the admin approves it, and customers and the
  public see only services that are approved and active;
- the identity and account rules: registration, login, the password reset,
  the token and role middleware, and the admin handlers for users,
  providers and customers. Provider profiles and reviews are part of this.

The database is an immutable `Store.Store` record holding one map per
collection (users, providers, services, bookings, reviews, categories).
Each map goes from `Id` (a `nat`) to an immutable record.

Each handler is a pure function. It takes the store and the request and
returns `Step(store, outcome)`. The outcome is `Ok(value)` or
`Fail(code)`; `Store.HttpStatus` maps each code to its HTTP status (400,
401, 403, 404, 500).

Some Mongoose behaviours are modelled explicitly:

- `findOne` returns the match with the least id (`Lookup.FindFirst`).
- A new document gets a fresh id above every existing one.
- `save()`, whether of a new document or of one loaded and changed (the
  admin's toggles, the provider's service edit, the password reset),
  validates the whole document against the schema's required fields. A
  document the schema rejects answers 500 and leaves the store unchanged.
- A write that collides with a unique index (user email, category name)
  answers 500 and leaves the store unchanged.
- `findByIdAndUpdate` and `findOneAndUpdate` run no validator: their body is
  a patch of optional fields (`Option.Or`) applied as given, so they can
  store a blank required field that a later `save()` then refuses.

Whatever the store cannot decide comes in as a parameter:

| Parameter | Stands for |
|---|---|
| `hash` | bcrypt hashing |
| `matches` | bcrypt comparison |
| `verify` | JWT verification in the middleware |
| `decoded` | JWT verification in the reset flow |
| `now` | the clock |
| `token` | the reset token that was signed |
| `mailSent` | the mail transport's result |

Sequences of requests are modelled in module `Traces`: `Run` folds a list
of operations over a store.

Several behaviours of the code are kept as written:

- The slot check ignores the status and the customer of the booking that
  holds the slot, so even a cancelled booking keeps its slot.
- Booking creation does not check that the service belongs to the provider
  named in the request.
- The admin's status update bypasses the lifecycle.
- The customer directory lists all of a provider's services, visible or not.
- Deleting a provider removes their profile and services but leaves their
  bookings and reviews.
- A reset token stays valid for 300 000 seconds, not the five minutes the
  source's comment states, because the constant is multiplied by 1000 twice.

The public routes `getAllPublicServices` and `getProviderServicesPublic`
(backend/controllers/public-handler.js lines 8-29) issue the same queries as
the customer listings. They are therefore modelled once, by
`Services.GetAllServices` and `Services.GetServicesByProvider`.

## Model

| member | source | states |
|---|---|---|
| Lookup.FindFirst | backend/controllers/booking-handler.js:39-50 | `findOne` answers with a matching document, the first in natural order, and answers nothing exactly when no document matches |
| Lookup.FreshId | backend/controllers/booking-handler.js:53-60 | a newly saved document gets an id no existing document has, above all of them |
| Store.ProfileOf | backend/controllers/service-handler.js:9-13 | the provider profile found for a user belongs to that user; none is found only when no profile has that user id |
| Store.UserWithEmail | backend/controllers/auth-handler.js:29-32 | the user found for an email has that email; none is found only when no user has it |
| Listing.NewestFirst | backend/controllers/admin-handler.js:139 | a listing sorted on a key, descending, holds exactly the kept documents, each once |
| Listing.DistinctLength | backend/controllers/admin-user-handler.js:42 | a listing holding each selected document once is as long as the count of the selection |
| Listing.Page | backend/controllers/admin-user-handler.js:37-40 | `skip` then `limit`: a contiguous slice of the sorted listing starting at `skip`, at most `limit` long, all of the rest for limit 0 |
| Listing.PageKeepsOrder | backend/controllers/admin-user-handler.js:37-40 | a page holds entries of the sorted listing only, each once, in the listing's order |
| Listing.PrefixIsTop | backend/controllers/admin-handler.js:18 | `sort` then `limit(n)`: the first n entries have keys at least as large as every entry left out |
| Listing.InOrder | backend/controllers/admin-handler.js:277-290 | a query without a sort lists every document exactly once, in natural order: increasing identifiers |
| Text.ContainsIffOccurs | backend/controllers/admin-user-handler.js:26-32 | the substring test behind the case-insensitive `$regex` filters holds exactly when the needle occurs at some position |
| Text.FirstPiece | backend/middleware/auth-middleware.js:8 | the piece before the first space is a prefix of the text, holds no space, and ends at a space or at the end |
| Middleware.ExtractToken | backend/middleware/auth-middleware.js:8 | after the `Bearer ` prefix, the first space-separated piece of the rest; without the prefix, the whole header |
| Middleware.BearerRoundTrip | backend/middleware/auth-middleware.js:8 | a token without spaces, sent as `Bearer <token>`, is the token the middleware extracts |
| Middleware.VerifyToken | backend/middleware/auth-middleware.js:4-17 | 401 without a header or when verification rejects the token; otherwise the verified claims |
| Middleware.Guard | backend/middleware/auth-middleware.js:19-32 | a guard passes exactly when the decoded role is its own role, else 403 |
| Middleware.GuardsExclusive | backend/middleware/auth-middleware.js:19-32 | no caller passes two different role guards; claims without a role pass none |
| Middleware.Authorize | backend/index.js:26-43 | admin, customer and provider routes need a verified token whose role is the group's own; auth and public routes need nothing; a missing header gives 401 |
| Auth.RegisterUser | backend/controllers/auth-handler.js:13-48 | 400 on a missing field, 403 for the admin role, 400 on mismatched passwords or a used email, 500 on a role outside the enum; on success exactly one user is added, with the hashed password, Active status and the requested role |
| Auth.RegisterKeepsInvariants | backend/controllers/auth-handler.js:21-42 | registration keeps emails unique and never creates an admin |
| Auth.LoginUser | backend/controllers/auth-handler.js:51-98 | login succeeds exactly for an active user whose password matches; blocked users get 403 and every other failure 400; the claims carry the user's id, name, email and role |
| Auth.LoginAfterRegister | backend/controllers/auth-handler.js:13-98 | a registered user can log in with their password, and the login claims carry the new id and the registered role |
| Auth.ForgotPassword | backend/controllers/auth-handler.js:101-138 | 404 for an unknown email; otherwise the token and its expiry are stored before the mail goes out, so a failed send answers 500 with the token kept |
| Auth.ResetPassword | backend/controllers/auth-handler.js:141-175 | succeeds exactly when the passwords agree and the decoded user holds this token unexpired; success stores the new hash and clears the token and expiry; every failure is 400 and changes nothing |
| Auth.ResetTokenSingleUse | backend/controllers/auth-handler.js:155-165 | after a successful reset the same token is refused |
| Auth.ResetAcceptedWithinWindow | backend/controllers/auth-handler.js:10-116 | a token stored at time t is accepted by the reset exactly while now <= t + 300 000 000 ms and refused afterwards |
| Bookings.SameDayWindow | backend/controllers/booking-handler.js:34-50 | a date falls inside the start-to-end window of a day exactly when it lies on that calendar day |
| Bookings.ClashIsSameSlot | backend/controllers/booking-handler.js:39-50 | an existing booking conflicts with a request exactly when both have the same provider, service, day and time |
| Bookings.CreateBooking | backend/controllers/booking-handler.js:6-88 | the guards in source order (400 missing field, 404 provider, 404 service, 400 hidden service, 400 slot taken); success exactly when the request is bookable and the slot is free, adding one pending booking for the caller and nothing else |
| Bookings.CreatedBookingIsPending | backend/controllers/booking-handler.js:53-60 | a created booking is pending, belongs to the caller and adds exactly one booking |
| Bookings.CreateBookingKeepsSlotsDistinct | backend/controllers/booking-handler.js:34-60 | creating a booking never makes two bookings share a slot |
| Bookings.SlotHeldBlocksRebooking | backend/controllers/booking-handler.js:34-50 | once any booking holds a slot, every bookable request for that slot is refused with 400, whoever makes it |
| Bookings.SecondBookingConflicts | backend/controllers/booking-handler.js:34-50 | after a booking succeeds, a request for the same provider, service, day and time fails with 400 |
| Bookings.CancelBooking | backend/controllers/booking-handler.js:111-136 | 404 unless the booking is the caller's; 400 unless it is pending; success sets it cancelled |
| Bookings.Decide | backend/controllers/booking-handler.js:164-229 | 404 without a provider profile or when the booking is not that profile's; 400 unless pending; success sets the verdict's status and returns the updated booking |
| Bookings.AcceptBooking | backend/controllers/booking-handler.js:164-195 | a pending booking of the caller's profile becomes confirmed; every failure leaves the store unchanged |
| Bookings.RejectBooking | backend/controllers/booking-handler.js:198-229 | a pending booking of the caller's profile becomes rejected; every failure leaves the store unchanged |
| Bookings.ActionFollowsLifecycle | backend/controllers/booking-handler.js:111-229 | every successful cancel, accept or reject moves one booking from pending to a terminal status and changes nothing else; a failed one changes nothing |
| Bookings.TerminalRefusesActions | backend/controllers/booking-handler.js:122-124 | a confirmed, cancelled or rejected booking refuses cancel, accept and reject |
| Bookings.GetCustomerBookings | backend/controllers/booking-handler.js:94-108 | exactly the caller's bookings, each once, latest date first |
| Bookings.GetProviderBookings | backend/controllers/booking-handler.js:139-161 | 404 exactly without a profile; with one, success with exactly the profile's bookings, each once, latest date first |
| Categories.WithName | backend/controllers/service-handler.js:21-30 | the exact-name lookup finds a category of that name, and finds none only when no category has it |
| Categories.Matching | backend/controllers/provider-handler.js:32-40 | the case-insensitive lookup finds the first category whose name contains the pattern, and finds none only when no name does |
| Categories.ResolveStored | backend/controllers/service-handler.js:21-30 | a profile's category resolves by identifier when that category exists, by exact name otherwise; an absent category resolves to nothing |
| Categories.ResolveRequested | backend/controllers/public-handler.js:55-68 | a requested identifier is taken as given; a name resolves exactly when some category name contains it, ignoring case |
| Categories.CreateCategory | backend/controllers/admin-handler.js:314-326 | 400 when the name exists, 500 for an empty name; success adds one active category |
| Categories.CreateCategoryKeepsNamesUnique | backend/models/category.js:5 | category creation keeps names unique and adds exactly one category on success |
| Services.CreateService | backend/controllers/service-handler.js:6-48 | 404 without a profile, 400 on a missing field or an unresolved category, 500 when the profile has no location, success exactly otherwise; the new service carries the caller's profile, its category and location, is active and unapproved |
| Services.UpdateService | backend/controllers/service-handler.js:73-100 | 500 without a profile, 404 for a service not the caller's, 500 when the saved service would lack a title, duration or location, success exactly otherwise; only truthy fields overwrite; flags, owner, category and location are kept |
| Services.DeleteService | backend/controllers/service-handler.js:103-122 | removes exactly the owner's service; 404 for another's or a missing one, 500 without a profile |
| Services.CreateServiceNeverApproves | backend/models/service.js:10-11 | creating a service makes no service approved that was not approved already |
| Services.EditKeepsFlags | backend/controllers/service-handler.js:86-91 | a provider's edit never changes which services exist nor any approval or activation flag |
| Services.GetProviderServices | backend/controllers/service-handler.js:53-70 | 404 exactly without a profile; with one, success with every service of the caller's profile, whatever its flags |
| Services.GetAllServices | backend/controllers/service-handler.js:126-138 | exactly the services that are approved and active |
| Services.GetServicesByProvider | backend/controllers/service-handler.js:144-157 | exactly the approved, active services of one provider profile |
| Services.CustomerViewIsVisiblePart | backend/controllers/service-handler.js:144-157 | what customers see of a provider is exactly the visible part of what the provider lists as their own |
| Admin.ToggleServiceApproval | backend/controllers/admin-handler.js:113-128 | 404 for a missing service, 500 when the stored service fails the schema (a blank title, duration or location), success exactly otherwise: the approval flag is negated and nothing else changes |
| Admin.ToggleServiceApprovalInvolution | backend/controllers/admin-handler.js:113-128 | toggling approval twice restores the store, whether the save is accepted or refused |
| Admin.ToggleServiceActivation | backend/controllers/admin-handler.js:245-257 | 404 for a missing service, 500 when the stored service fails the schema, success exactly otherwise: the activation flag is negated and nothing else changes |
| Admin.ToggleServiceActivationInvolution | backend/controllers/admin-handler.js:245-257 | toggling activation twice restores the store, whether the save is accepted or refused |
| Admin.ToggleUserStatus | backend/controllers/admin-handler.js:260-274 | 404 for a missing user or an admin, 500 when the stored user fails the schema (a blank name or password), success exactly otherwise: the status changes to the other value and nothing else changes |
| Admin.ToggleUserStatusInvolution | backend/controllers/admin-handler.js:260-274 | blocking and unblocking restores the store, whether the save is accepted or refused |
| Admin.UpdateBookingStatus | backend/controllers/admin-handler.js:209-218 | 404 exactly for a missing booking; otherwise success, storing the requested status whatever the current one |
| Admin.OverrideLeavesTerminalStatus | backend/controllers/admin-handler.js:209-218 | the admin can move a terminal booking to any status, pending included |
| Admin.GetBookingById | backend/controllers/admin-handler.js:192-206 | success exactly for an existing booking, with that booking; 404 otherwise |
| Admin.DeleteBooking | backend/controllers/admin-handler.js:221-230 | success exactly for an existing booking, removing it and nothing else; 404 otherwise |
| Admin.ReadBackAfterWrite | backend/controllers/admin-handler.js:192-230 | after the override the booking reads back with the new status; after its deletion it reads 404 and every other booking reads as before |
| Admin.DeleteBookingFreesSlot | backend/controllers/admin-handler.js:221-230 | deleting the booking that holds a slot turns a refused request for that slot into an accepted one |
| Admin.GetAllBookingsForAdmin | backend/controllers/admin-handler.js:172-189 | all bookings, or those whose status name is the one given, each once, newest first |
| Admin.UnknownStatusSelectsNothing | backend/controllers/admin-handler.js:174-177 | a status filter outside the four names selects no booking |
| Admin.GetBookingStats | backend/controllers/admin-handler.js:233-242 | one group for each status some booking has, with the number of bookings in it |
| Admin.StatsCoverEveryBooking | backend/controllers/admin-handler.js:233-242 | the group counts add up to the number of bookings |
| Admin.GetAllServicesForAdmin | backend/controllers/admin-handler.js:96-110 | every service whatever its flags, each once, newest first |
| Admin.GetUnapprovedServices | backend/controllers/admin-handler.js:131-145 | exactly the unapproved services, each once, newest first |
| Admin.UpdateServiceByAdmin | backend/controllers/admin-handler.js:148-157 | 404 exactly for a missing service; otherwise success: every field the body gives, flags included, overwrites the service, and every other field is kept |
| Admin.UpdateServiceByAdminIdempotent | backend/controllers/admin-handler.js:148-157 | sending the same update twice stores what sending it once does, and an empty body changes nothing |
| Admin.DeleteServiceByAdmin | backend/controllers/admin-handler.js:160-169 | success exactly for an existing service, removing it and nothing else; 404 otherwise |
| Admin.OwnerDeleteIsAdminDelete | backend/controllers/admin-handler.js:160-169 | on a service its owner may delete, the admin's deletion leaves the same store as the owner's, and the public listing no longer shows it |
| Admin.GetAllReviews | backend/controllers/admin-handler.js:277-290 | every review exactly once, in natural (creation) order |
| Admin.DeleteReviewByAdmin | backend/controllers/admin-handler.js:293-302 | success exactly for an existing review, removing it and nothing else; 404 otherwise |
| Admin.AuthorDeleteIsAdminDelete | backend/controllers/admin-handler.js:293-302 | the author's deletion of their review and the admin's deletion of that review leave the same store, and the admin listing no longer shows it |
| Admin.GetAllCategories | backend/controllers/admin-handler.js:305-312 | every category, each once, newest first |
| Admin.UpdateCategory | backend/controllers/admin-handler.js:328-337 | 404 for a missing category; 500 exactly when the new name is another category's; otherwise success: the given fields are applied and the rest kept |
| Admin.UpdateCategoryKeepsNamesUnique | backend/models/category.js:5 | a category update keeps names unique and keeps the set of categories |
| Admin.DeleteCategory | backend/controllers/admin-handler.js:339-348 | success exactly for an existing category, removing it and nothing else; 404 otherwise |
| Admin.DeletedCategoryBlocksCreation | backend/controllers/admin-handler.js:339-348 | once a category is deleted, a profile naming it no longer resolves it, so its provider's service creation fails |
| Admin.SummaryPartitions | backend/controllers/admin-handler.js:11-16 | providers plus customers are the non-admin users; approved plus unapproved services are all services |
| Admin.GetAdminSummary | backend/controllers/admin-handler.js:9-93 | the counts of the summary, and as recent users the five newest non-admin users (fewer if there are fewer), none older than a user left out |
| AdminUsers.GetAllUsers | backend/controllers/admin-user-handler.js:6-13 | one password-free view per user, admins included |
| AdminUsers.TotalPages | backend/controllers/admin-user-handler.js:48 | `Math.ceil(total / limit)`: null for limit 0, otherwise the least page count whose pages hold all `total` users, for negative limits too |
| AdminUsers.GetFilteredUsers | backend/controllers/admin-user-handler.js:16-54 | 500 for a negative skip; otherwise the total of the users selected, page and limit with defaults 1 and 10, and as users exactly the entries skip+1 .. skip+limit of the selection sorted newest first (every selected user once) |
| AdminUsers.EveryIndexOnSomePage | backend/controllers/admin-user-handler.js:34-48 | with a positive limit, every user in the listing appears on a page numbered between 1 and totalPages |
| AdminUsers.GetUserById | backend/controllers/admin-user-handler.js:57-69 | 404 for a missing user, then 403 unless the caller is an admin or the user; success exactly otherwise, with the password-free view |
| AdminUsers.GetUserByIdAgreesWithListing | backend/controllers/admin-user-handler.js:57-69 | a user the caller may read reads as their entry in the full user listing |
| AdminUsers.PatchUserIn | backend/controllers/admin-user-handler.js:79-86 | 404 when no user of the role matches; 500 when the new email is another user's; otherwise the given fields take their new values, every other field of the record (reset token, its expiry, createdAt) and the rest of the store are kept, and the answer is the stored user's view |
| AdminUsers.PatchKeepsEmailsUnique | backend/models/user.js:6 | a user update keeps emails unique |
| AdminUsers.UpdateUser | backend/controllers/admin-user-handler.js:72-92 | 403 unless an admin or the user; the password is never changed |
| AdminUsers.SelfPromotion | backend/controllers/admin-user-handler.js:72-92 | the handler's own check lets a user set their own role to admin |
| AdminUsers.RemoveProviderData | backend/controllers/admin-user-handler.js:106-112 | the user's profile and every service it offers are removed; users, bookings, reviews and categories are untouched |
| AdminUsers.DeleteUser | backend/controllers/admin-user-handler.js:95-118 | 403 for non-admins, 404 for a missing user; otherwise the user goes, and for a provider also their profile and its services, never bookings or reviews |
| AdminUsers.CascadeLeavesBookings | backend/controllers/admin-user-handler.js:106-112 | after the cascade the provider has no profile and no services, while their bookings remain and point to a missing profile |
| AdminUsers.UpdateUserProfile | backend/controllers/admin-user-handler.js:121-143 | 403 on another's id; 400 when the email lookup finds another user; 500 when the write still collides with another holder of the email; success exactly otherwise: the stored record is the old one with only name and email replaced (password, role, status, reset token and its expiry, createdAt kept), nothing else in the store changes |
| AdminUsers.ProfileUpdateNeverCollides | backend/controllers/admin-user-handler.js:129-137 | with unique emails, the self-service update succeeds or answers 400, never the index error, and keeps emails unique |
| AdminProviders.GetAllProviders | backend/controllers/admin-provider-handler.js:7-14 | exactly the provider users, without passwords |
| AdminProviders.GetProviderById | backend/controllers/admin-provider-handler.js:17-45 | 404 for a missing profile or one whose user is gone or not a provider; otherwise the profile, its user's view and every service of the profile |
| AdminProviders.ProviderDetailAgreesWithListings | backend/controllers/admin-provider-handler.js:17-45 | a provider's own profile detail shows their entry of the provider listing and exactly the services the provider lists as their own |
| AdminProviders.UpdateProvider | backend/controllers/admin-provider-handler.js:48-77 | succeeds exactly when the provider user's update does, answering that update's user view; a failure carries that update's code (404, or 500 on an email collision) and changes nothing; then the user's profile, if any, is patched as well; services and bookings are untouched |
| AdminProviders.UpdateProviderStoresRawPassword | backend/controllers/admin-provider-handler.js:53-58 | a password in the body is stored exactly as given |
| AdminProviders.DeleteProvider | backend/controllers/admin-provider-handler.js:80-105 | success exactly for a provider user: the user, their profile and its services go, bookings and reviews stay; 404 otherwise |
| AdminProviders.DeleteProviderIsDeleteUser | backend/controllers/admin-provider-handler.js:80-105 | on a provider user, this deletion and the admin's user deletion leave the same store |
| AdminCustomers.GetAllCustomers | backend/controllers/admin-customer-handler.js:5-12 | exactly the customer users, without passwords |
| AdminCustomers.GetCustomerById | backend/controllers/admin-customer-handler.js:15-23 | success exactly for a customer's id, with their view; 404 otherwise |
| AdminCustomers.GetCustomerByIdAgreesWithListing | backend/controllers/admin-customer-handler.js:15-23 | an id reads as a customer exactly when it is listed among the customers, and then as its listing entry |
| AdminCustomers.UpdateCustomer | backend/controllers/admin-customer-handler.js:26-39 | 404 unless a customer; 500 when the new email is another user's; succeeds exactly otherwise, replacing only the given name, email, password (stored as is), role and status of that one user and answering its view; a failure changes nothing |
| AdminCustomers.PasswordPathsDiffer | backend/controllers/admin-customer-handler.js:26-39 | for the same body, the admin's user update keeps the password while the customer update overwrites it |
| AdminCustomers.DeleteCustomer | backend/controllers/admin-customer-handler.js:42-50 | success exactly for a customer's id, removing that user and nothing else; 404 otherwise |
| AdminCustomers.DeleteCustomerIsDeleteUser | backend/controllers/admin-customer-handler.js:42-50 | on a customer, this deletion and the admin's user deletion leave the same store |
| Profiles.CreateProviderProfile | backend/controllers/provider-handler.js:6-65 | guards in source order (400 missing field, 400 existing profile, 404 missing user, 403 not a provider, 400 unresolved category, 500 schema); success adds one active profile with the user's name and email and the resolved category, which becomes the caller's profile |
| Profiles.CreateProfileKeepsOnePerUser | backend/controllers/provider-handler.js:16-19 | profile creation keeps at most one profile per user |
| Profiles.SecondProfileRefused | backend/controllers/provider-handler.js:16-19 | after a profile is created, a second request by the same user answers 400 |
| Profiles.ProfileCategoryByName | backend/controllers/provider-handler.js:32-40 | a category given by name stores a category whose name contains it, ignoring case |
| Reviews.ReviewBy | backend/controllers/review-handler.js:11 | the review found is the caller's of that service; none only when no such review exists |
| Reviews.AddReview | backend/controllers/review-handler.js:4-23 | 400 when the caller already reviewed the service, 500 for a missing or out-of-range rating; otherwise one review is added (the service is not looked up) |
| Reviews.AddReviewKeepsInvariants | backend/models/review.js:6 | adding a review keeps one review per customer and service and every rating within 1..5 |
| Reviews.SecondReviewRefused | backend/controllers/review-handler.js:11-14 | a second review of the same service by the same customer answers 400 and changes nothing |
| Reviews.DeleteReview | backend/controllers/review-handler.js:27-39 | success exactly when the caller has a review of the service, which alone is removed; 404 otherwise |
| Reviews.DeleteThenReviewAgain | backend/controllers/review-handler.js:4-39 | after deleting their review, a customer may review the service again |
| Reviews.GetReviewsByService | backend/controllers/review-handler.js:42-61 | exactly the reviews of the service, each once, newest first |
| Public.GetPublicProviderProfile | backend/controllers/public-handler.js:32-44 | success exactly for an existing profile, active or not, with its public fields; 404 otherwise |
| Public.PublicCardMatchesDirectory | backend/controllers/public-handler.js:32-44 | every profile has a public card; it is in the customers' directory exactly when active, and then shows the directory's fields |
| Public.SearchServices | backend/controllers/public-handler.js:49-101 | only visible services that pass every given filter; a category name with no match answers an empty list; with a resolved category, exactly the matching visible services of that category |
| Public.EmptySearchIsPublicListing | backend/controllers/public-handler.js:8-17 | a search without filters is the public listing |
| Public.SearchWithinPublicListing | backend/controllers/public-handler.js:49-101 | no search reveals a service the public listing hides |
| Public.FiltersOnlyNarrow | backend/controllers/public-handler.js:70-88 | adding or tightening location, price or keyword filters never adds a result |
| Customers.OfferedBy | backend/controllers/customer-handler.js:11-20 | the services whose owner is the profile, all of them, each without the owner field |
| Customers.GetAllProviders | backend/controllers/customer-handler.js:4-30 | one entry per active profile, carrying every service it offers |
| Customers.DirectoryShowsHiddenServices | backend/controllers/customer-handler.js:11-20 | a hidden service of an active provider appears in the directory although the provider's customer listing omits it |
| Traces.ApplyKeepsBookings | backend/controllers/booking-handler.js:6-229 | no request except the admin's deletion of that very booking removes a booking or moves its slot, and only the admin override changes a terminal status |
| Traces.RemoveKeepsOtherBookings | backend/controllers/admin-handler.js:221-230 | the admin's deletion removes that booking alone and leaves every other one as it was |
| Traces.TerminalStaysTerminal | backend/controllers/booking-handler.js:111-229 | through any run without the admin override and without the deletion of that booking, a terminal booking keeps its status |
| Traces.TerminalRefusesAfterRun | backend/controllers/booking-handler.js:122-124 | after any such run, cancel, accept and reject of that booking are refused |
| Traces.OverrideReopens | backend/controllers/admin-handler.js:209-218 | the admin override to pending reopens a terminal booking, which its customer can then cancel |
| Traces.HeldSlotStaysHeld | backend/controllers/booking-handler.js:34-50 | a booked slot stays booked through any run that does not delete its booking |
| Traces.RebookingRefusedAfterRun | backend/controllers/booking-handler.js:34-50 | after any run that does not delete the holding booking, a bookable request for its slot is refused with 400 |
| Traces.ApplyKeepsSlotsDistinct | backend/controllers/booking-handler.js:34-60 | every request, the admin's deletion included, keeps slots distinct |
| Traces.RunKeepsSlotsDistinct | backend/controllers/booking-handler.js:34-60 | no run of requests ever double-books a slot |
| Traces.ProviderOpsNeverApprove | backend/controllers/service-handler.js:6-122 | creating, editing or deleting a service as a provider never approves one |

## Left out

- I/O, Express routing and the JSON shapes of responses: a handler returns a store and an outcome. The `populate` and `select` projections are reduced to the views the model returns (`UserView`, `ServiceView`, `PublicProfile`).
- JWT signing and verification, bcrypt, the clock and the mail transport are parameters, as listed above. Token expiry inside the JWT itself is part of `verify` / `decoded`.
- Concurrency: each handler runs alone on one store. Races between the conflict check and the save of two bookings are not modelled.
- The `topRatedServices` aggregation of the admin summary (rating averages over a `$lookup` pipeline): it is floating-point arithmetic over an aggregation pipeline.
- Time zones: calendar days are UTC days of a millisecond timestamp, as `setHours` on a UTC server would give.
- `$regex` semantics: a pattern is matched as a plain case-insensitive substring with ASCII lower-casing. Special characters of the pattern and Unicode case folding are not modelled.
- Casting errors: a malformed ObjectId in a path or body (500 or 400 in the source) is not modelled. An identifier is a `nat`, and a category given in a request is an identifier or a name (`CategoryRef`), standing for `ObjectId.isValid`.
- Admin.UpdateBookingStatus: the body's status is one of the four statuses; the source, which runs no validator on this update, could also store an arbitrary string.
- JavaScript `undefined` versus the empty string: every absent string field is the empty string, and absent numbers are `None`. Fractional prices and ratings, and `NaN` from `parseInt`, are not modelled.
- Id reuse: a fresh id is one above the largest key, so an id can come back after the largest document is deleted. Mongo never reuses an ObjectId.
- AdminUsers.GetFilteredUsers: a negative skip is taken as the database's error (500). A positive skip with a negative limit is modelled as a page of at most |limit| users.
- AdminUsers.UpdateUserProfile: the email lookup runs only when an email is given; the source's query with an undefined email is not modelled.
- Admin.GetAllReviews returns the review identifiers; the populated customer and service names are left out.
- AdminUsers.PatchUserIn: the body's role and status are values of the schema's enums, and body keys other than name, email, password, role and status (such as `resetToken`) are not modelled. The source's unvalidated `findOneAndUpdate` (also behind updateCustomer and updateProvider) would store any role or status string, and such keys, as given; a later `save()` of that user would then fail the enum validation, which the model does not have either.
- AdminProviders.UpdateProvider: the profile half of the body is a patch of name, email, phone, experience, location, isActive and category; other keys such as `userId`, `services` or `createdAt`, which the source's unvalidated `findOneAndUpdate` would also apply (re-pointing a profile to another user, say), are not modelled.
- Admin.SummaryPartitions: providers and customers make up the non-admin users only because the model's roles are the schema's three. A role string stored by an unvalidated update would be counted in neither group.
- Profile fields that service creation copies are taken as stored. A profile's category is stored as an identifier by every path the model has; the exact-name branch of `Categories.ResolveStored` covers a profile written by other means.
