# plant-care-hub in Dafny

A model of the core of plant-care-hub, a plant-care diary. It has two halves:

- **Back end.** An Express API over MongoDB:
  - the Mongoose schemas of users and plants, with their `trim` and `lowercase` setters, defaults and validators;
  - the register and login handlers;
  - the `protect` middleware that turns a bearer token into `req.user`;
  - the five plant CRUD handlers.
- **Front end.** React pages:
  - the add-plant page, with its checks, the JSON body it sends, and the notes it writes for a plant picked in the autocomplete;
  - the edit-plant page, with the fields it loads and the body it sends back;
  - the plant autocomplete: its suggestion search and its event handlers.

## How the project is laid out

One module per file:

| file | module | what it holds |
|---|---|---|
| `js_values.dfy` | `JsValues` | `Option`; a request-body field (`undefined`, `null` or given); JavaScript truthiness |
| `js_string.dfy` | `JsString` | `String.prototype.trim`, ASCII `toLowerCase`, `split` and `join` |
| `object_id.dfy` | `ObjectIds` | what a valid `ObjectId` string looks like, and the cast of a request's id to one |
| `plant_model.dfy` | `PlantModel` | the Plant document, the setters, the defaults and the validators |
| `user_model.dfy` | `UserModel` | the User document, its setters, the e-mail pattern and the unique indexes |
| `plant_controller.dfy` | `PlantController` | each handler as a function over the collection, and class `PlantStore` whose methods change the collection in place |
| `auth_controller.dfy` | `AuthController` | the same shape for `registerUser` and `loginUser` (class `UserStore`) |
| `auth_middleware.dfy` | `AuthMiddleware` | `protect` |
| `suggestions.dfy` | `Suggestions` | `searchPlants`: the merge loop, the sort and the slice |
| `autocomplete.dfy` | `Autocomplete` | class `PlantAutocomplete`, with its state and its handlers |
| `plant_forms.dfy` | `PlantForms` | the submit checks shared by both forms, and class `AddPlantForm` |
| `edit_plant.dfy` | `EditPlantPage` | class `EditPlantForm` |
| `request_flow.dfy` | `RequestFlow` | lemmas that follow one request through the page, the middleware and the handler |

Where the source keeps state, the model does too:

- React state and the collections become class fields.
- Each handler is a method that changes those fields.
- Each method is proved against a function that states its outcome.
- The properties are proved about those functions.

## Model

| member | source | states |
|---|---|---|
| JsString.Trim | backend/models/Plant.js:14 | the result has no leading or trailing whitespace, is no longer than the input, and is empty exactly when the input is all whitespace |
| JsString.LowerAscii | backend/models/User.js:20 | the `lowercase: true` setter keeps the length and lower-cases each ASCII letter, leaving every other character as it is |
| JsString.TrimInfix | backend/models/Plant.js:14 | the result is the part of the input between a leading and a trailing run of whitespace |
| JsString.TrimIdempotent | backend/models/Plant.js:14 | trimming twice gives what trimming once gives, so a stored trimmed value is kept as it is when saved again |
| JsString.LowerAsciiIdempotent | backend/models/User.js:20 | lower-casing twice gives what lower-casing once gives |
| JsString.TrimLowerCommute | backend/models/User.js:19-20 | the `trim` and `lowercase` setters give the same e-mail in either order |
| JsString.Split | backend/middlewares/authMiddleware.js:13 | `split` gives at least one piece, and no piece holds the separator |
| JsString.SplitThenJoin | backend/middlewares/authMiddleware.js:13 | joining the pieces of a split with the separator gives back the original string |
| JsString.JoinThenSplit | frontend/src/pages/AddPlant.js:125-145 | splitting lines joined with a separator that none of them holds gives back the lines |
| JsString.SplitSingle | backend/middlewares/authMiddleware.js:13 | a split gives one piece exactly when the separator does not occur |
| ObjectIds.CastId | backend/controllers/plantController.js:55 | a string of 24 hexadecimal digits in either case casts to the ObjectId with those digits in lower case; an ObjectId's own text casts to itself |
| ObjectIds.CastOfId | backend/controllers/plantController.js:55 | the text of every ObjectId casts without error, to the same ObjectId |
| ObjectIds.CastIgnoresCase | backend/controllers/plantController.js:55 | casting the cast of an id changes nothing |
| PlantModel.SetText | backend/models/Plant.js:11-20 | a string path stores the trimmed value when given, and nothing for `undefined` or `null` |
| PlantModel.NewPlant | backend/models/Plant.js:5-46 | `new Plant` applies the setters, and applies the defaults only to `undefined`: species "Desconhecida", the dates now, fertilizing 0, `lastFertilized` null; a given or `null` date, fertilizing frequency or `lastFertilized` is stored as given |
| PlantModel.WhitespaceNameFailsSchema | backend/models/Plant.js:11-15 | a non-empty all-whitespace name passes the handler's truthiness check but never passes `required` once trimmed |
| UserModel.NormalizeUsernameIdempotent | backend/models/User.js:7-13 | a stored username is already trimmed, so normalising it again changes nothing |
| UserModel.NormalizeEmailIdempotent | backend/models/User.js:14-21 | a stored e-mail is already trimmed and lower-case, so normalising it again changes nothing |
| UserModel.ScanCorrect | backend/models/User.js:18 | after any prefix of the input, the one-pass scan is in the state its definition over the prefix gives |
| UserModel.EmailPatternCorrect | backend/models/User.js:18 | the one-pass scan accepts exactly the strings that `/.+@.+\..+/` matches: some line holds a non-empty run, "@", a non-empty run, ".", and a non-empty run |
| UserModel.EmailPatternExamples | backend/models/User.js:18 | "a@b.c" matches; "@b.c" does not; a line break between the parts stops a match; a match on a later line counts |
| UserModel.AppendUser | backend/models/User.js:10-17 | appending a normalised, valid user whose id, username and e-mail are all new keeps the three unique indexes |
| UserModel.FindFirst | backend/controllers/authController.js:21-29 | `findOne` finds the first user with that key, and finds none exactly when no user has it |
| UserModel.FindAfterAppend | backend/controllers/authController.js:59-62 | a user just appended with a new key is the one a lookup by that key finds |
| UserModel.FindUnique | backend/models/User.js:10-17 | under the unique indexes, a lookup by a user's id, username or e-mail finds that user |
| AuthController.RegisterOutcome | backend/controllers/authController.js:16-54 | a taken e-mail gets 400 first, then a taken username; with both free, an invalid user or a taken id gets 500; success appends exactly the normalised user with the hash and replies 201 with the token signed for the new id and without the password; anything but success changes nothing |
| AuthController.RegisterKeepsValid | backend/controllers/authController.js:32-38 | registration keeps the user collection valid and unique |
| AuthController.LoginOutcome | backend/controllers/authController.js:59-91 | an unknown e-mail gets 400; a registered e-mail with a password that is not a string gets 500, and 500 happens in no other case; a wrong password gets the same 400 as an unknown e-mail; 200 carries a user whose e-mail and password match, with the token signed for that user's id |
| AuthController.MissingPasswordRevealsEmail | backend/controllers/authController.js:64-90 | without a string password, a registered e-mail gets 500 and an unknown one 400, so the reply tells them apart |
| AuthController.LoginSucceedsIff | backend/controllers/authController.js:64-84 | with unique e-mails, login succeeds exactly when the password is a string, a user has that e-mail, and the password matches that user's hash |
| AuthController.RegisterThenLogin | backend/controllers/authController.js:16-91 | a new account can log in with its e-mail and password, and the reply carries that account and the token signed for its id |
| AuthController.RegisterSameEmailTwice | backend/controllers/authController.js:21-24 | registering an address again, in any spelling that normalises to it, is refused as a duplicate e-mail |
| AuthController.UserStore.constructor | backend/models/User.js:6-29 | the collection starts empty and valid |
| AuthController.UserStore.RegisterUser | backend/controllers/authController.js:16-54 | the reply and the new collection are what `RegisterOutcome` gives, and the collection stays valid |
| AuthController.UserStore.LoginUser | backend/controllers/authController.js:59-91 | the reply is what `LoginOutcome` gives, and the collection does not change |
| AuthMiddleware.BearerToken | backend/middlewares/authMiddleware.js:13 | the second space-separated field holds no space, and is missing exactly when the header has no space |
| AuthMiddleware.FindPublic | backend/middlewares/authMiddleware.js:19 | `findById` finds a user exactly when that id is taken, and returns that user without the password |
| AuthMiddleware.Authenticate | backend/middlewares/authMiddleware.js:15-26 | `next()` is called exactly when the token is non-empty, verifies, and carries no id that fails the ObjectId cast; otherwise there is one 401 "invalid token"; when `next()` is called, `req.user` is the stored user the cast id names, without the password, or null when no user has that id or the payload has no id |
| AuthMiddleware.Protect | backend/middlewares/authMiddleware.js:6-31 | a missing header, or one not starting with "Bearer", gets 401 "no token"; `next()` is called exactly when no reply is sent; a "Bearer" header without a token gets two replies; a "Bearer" header with a non-empty token gets exactly what `Authenticate` gives for it |
| AuthMiddleware.ProtectRequest | backend/middlewares/authMiddleware.js:6-31 | the step-by-step middleware does what `Protect` states |
| AuthMiddleware.BearerTokenOf | backend/middlewares/authMiddleware.js:13 | a header "Bearer " + t, for t without spaces, gives the token t back |
| AuthMiddleware.ValidTokenAdmitsUser | backend/middlewares/authMiddleware.js:10-20 | a valid token of an existing user calls `next()` with that user, without the password, as `req.user` |
| AuthMiddleware.RejectedTokenRefused | backend/middlewares/authMiddleware.js:10-25 | a token that `jwt.verify` rejects gets the one 401 "invalid token" reply, and `next()` is not called |
| AuthMiddleware.DeletedUserPassesThrough | backend/middlewares/authMiddleware.js:16-20 | a valid token whose user was deleted still calls `next()`, with `req.user` null |
| AuthMiddleware.BareBearerRepliesTwice | backend/middlewares/authMiddleware.js:10-30 | "Bearer" and "Bearer " get "invalid token" and then "no token" |
| PlantController.ListOutcome | backend/controllers/plantController.js:9-17 | the list holds exactly the caller's plants, unchanged; a null `req.user` gives 500 |
| PlantController.Guard | backend/controllers/plantController.js:53-75 | an id that does not cast to an ObjectId gives 400, an id whose cast is missing 404, another owner's plant 401 with the handler's message; the request passes exactly when the caller owns the plant the cast id names |
| PlantController.GetOutcome | backend/controllers/plantController.js:53-75 | 200 with the document exactly when the caller owns it; otherwise the guard's refusal |
| PlantController.CreateOutcome | backend/controllers/plantController.js:22-48 | a falsy name or watering gets 400 before anything else; 201 exactly when the user exists, the id is new and the document passes the validators, and then exactly that stored document is added; a body that passes the 400 check and is not created gets 500 (no user, a failed validator, a taken id); otherwise nothing changes |
| PlantController.CreateFields | backend/controllers/plantController.js:24-39 | the handler never reads `lastWatered` or `lastFertilized`, so they take their defaults; every other field passes through |
| PlantController.Assign | backend/controllers/plantController.js:96-103 | `undefined` keeps the stored value, `null` clears it, and a given value replaces it |
| PlantController.AssignText | backend/controllers/plantController.js:96-103 | the same for a trimmed path: a given string is stored trimmed, and a trimmed path stays trimmed |
| PlantController.AssignTextTwice | backend/controllers/plantController.js:96-103 | assigning the same text twice stores what assigning it once stores |
| PlantController.ApplyUpdate | backend/controllers/plantController.js:96-103 | an update keeps the owner, and keeps every string path trimmed |
| PlantController.EmptyUpdate | backend/controllers/plantController.js:96-103 | a body with every field `undefined` leaves the document exactly as it was |
| PlantController.UpdateTwice | backend/controllers/plantController.js:80-116 | sending the same update twice stores the same document as sending it once |
| PlantController.UpdateOutcome | backend/controllers/plantController.js:80-116 | the guard's refusal comes first; 200 exactly when the owner's update passes the validators, and then only that document changes; an update that fails a validator gets 500; otherwise nothing changes |
| PlantController.DeleteOutcome | backend/controllers/plantController.js:121-144 | 200 exactly when the caller owns the plant; then exactly that id is removed and every other document is kept; otherwise nothing changes |
| PlantController.IdCaseIgnored | backend/controllers/plantController.js:53-75 | a request's id in upper-case hexadecimal gets the same reply and the same new collection as its lower-case form, for get, update and delete |
| PlantController.PlantStore.constructor | backend/models/Plant.js:5-49 | the collection starts empty, with every document stored as `save()` leaves it |
| PlantController.PlantStore.GetPlants | backend/controllers/plantController.js:9-17 | the reply is what `ListOutcome` gives |
| PlantController.PlantStore.CreatePlant | backend/controllers/plantController.js:22-48 | the reply and the new collection are what `CreateOutcome` gives; every document stays valid and trimmed |
| PlantController.PlantStore.GetPlantById | backend/controllers/plantController.js:53-75 | the reply is what `GetOutcome` gives, and a returned document is valid and trimmed |
| PlantController.PlantStore.UpdatePlant | backend/controllers/plantController.js:80-116 | the reply and the new collection are what `UpdateOutcome` gives; every document stays valid and trimmed |
| PlantController.PlantStore.DeletePlant | backend/controllers/plantController.js:121-144 | the reply and the new collection are what `DeleteOutcome` gives |
| PlantController.CreateThenGet | backend/controllers/plantController.js:22-75 | a create that passes the truthiness check and the validators, under a new id, can be read back by its owner as the stored document |
| PlantController.DeleteThenGet | backend/controllers/plantController.js:53-144 | after a delete, reading the same id gives 404 to anyone |
| PlantController.NotesOnlyUpdate | backend/controllers/plantController.js:96-107 | a body with only `notes` changes the notes, trimmed, and nothing else |
| Suggestions.Merge | frontend/src/pages/PlantAutocomplete.js:56-61 | the merged list starts with all the Portuguese hits and adds at most the scientific ones |
| Suggestions.HasIdAppend | frontend/src/pages/PlantAutocomplete.js:58 | `find` by id on a list with one more entry finds it in the old list or in that entry |
| Suggestions.MergeAddsNew | frontend/src/pages/PlantAutocomplete.js:57-61 | each entry after the Portuguese hits is a scientific hit whose id is not earlier in the list |
| Suggestions.MergeCoversIds | frontend/src/pages/PlantAutocomplete.js:57-61 | every scientific hit's id is in the merged list |
| Suggestions.MergeDistinct | frontend/src/pages/PlantAutocomplete.js:56-61 | if the Portuguese hits have distinct ids, so does the merged list |
| Suggestions.MergeFromLookups | frontend/src/pages/PlantAutocomplete.js:56-61 | the merged list holds only hits of the two lookups |
| Suggestions.Insert | frontend/src/pages/PlantAutocomplete.js:64-73 | inserting adds exactly that one entry |
| Suggestions.Rank | frontend/src/pages/PlantAutocomplete.js:64-73 | the sort is a permutation of its input |
| Suggestions.RankedBeforeTotal | frontend/src/pages/PlantAutocomplete.js:65-73 | when `localeCompare` orders all names, the comparator orders any two entries one way or the other |
| Suggestions.RankedBeforeTransitive | frontend/src/pages/PlantAutocomplete.js:65-73 | the comparator is transitive: name matches, then collation |
| Suggestions.InsertRanked | frontend/src/pages/PlantAutocomplete.js:64-73 | inserting into a sorted list keeps it sorted |
| Suggestions.RankRanked | frontend/src/pages/PlantAutocomplete.js:64-73 | the sorted list puts every name match before every non-match, and orders each group by pt-BR collation |
| Suggestions.SliceEnd | frontend/src/pages/PlantAutocomplete.js:74 | `slice(0, n)` keeps the first n entries, or all of them; a negative n drops that many from the end |
| Suggestions.Search | frontend/src/pages/PlantAutocomplete.js:44-75 | a query shorter than 2 gives nothing; otherwise the result is the sliced prefix of the sorted merge, never longer than a non-negative `maxResults` |
| Suggestions.SearchPlants | frontend/src/pages/PlantAutocomplete.js:44-75 | the `forEach` loop, the sort and the slice give what `Search` states |
| Suggestions.SearchFromLookups | frontend/src/pages/PlantAutocomplete.js:44-75 | every suggestion is a hit of one of the two lookups |
| Suggestions.SearchKeepsPortugueseHits | frontend/src/pages/PlantAutocomplete.js:44-75 | when nothing is cut off, every Portuguese hit is suggested |
| Autocomplete.NextIndex | frontend/src/pages/PlantAutocomplete.js:117-122 | ArrowDown lands inside a non-empty list: from no highlight (-1) on the first entry, from any entry but the last on the next one, and from the last back on the first |
| Autocomplete.PreviousIndex | frontend/src/pages/PlantAutocomplete.js:124-129 | ArrowUp lands inside a non-empty list: from no highlight (-1) or the first entry on the last one, and from any later entry on the one before |
| Autocomplete.UpUndoesDown | frontend/src/pages/PlantAutocomplete.js:117-129 | on a highlighted entry, ArrowUp undoes ArrowDown and ArrowDown undoes ArrowUp |
| Autocomplete.PressDownCycles | frontend/src/pages/PlantAutocomplete.js:117-122 | ArrowDown steps one entry at a time and wraps once, so one press per entry comes back to the start |
| Autocomplete.PlantAutocomplete.constructor | frontend/src/pages/PlantAutocomplete.js:18-24 | `maxResults` defaults to 10 when not given; empty input, empty hidden list, no highlight, no plant |
| Autocomplete.PlantAutocomplete.HandleInputChange | frontend/src/pages/PlantAutocomplete.js:77-97 | blank input hides and empties the list, forgets the plant and emits the empty selection; other input shows its search and clears the highlight; a shown list is always the search of the input |
| Autocomplete.PlantAutocomplete.HandleSuggestionClick | frontend/src/pages/PlantAutocomplete.js:99-111 | the input shows the plant's Portuguese name, the list closes, and exactly that plant is emitted |
| Autocomplete.PlantAutocomplete.HandleKeyDown | frontend/src/pages/PlantAutocomplete.js:113-146 | a hidden or empty list ignores every key; the arrows move the highlight with wrap-around; Enter picks the highlighted entry; Escape closes; an emitted plant is always a lookup hit for the input |
| Autocomplete.PlantAutocomplete.HandleFocus | frontend/src/pages/PlantAutocomplete.js:156-162 | an input of two or more characters shows its search again; everything else is kept |
| Autocomplete.PlantAutocomplete.ClearSelection | frontend/src/pages/PlantAutocomplete.js:164-178 | empties the input and the list, forgets the plant, keeps the highlight, and emits the empty selection |
| PlantForms.CheckSubmit | frontend/src/pages/AddPlant.js:64-83 | no token refuses first; the request goes exactly when there is a token, a name, a watering number of at least 1, and a fertilizing input that is blank or a number |
| PlantForms.AddSubmission | frontend/src/pages/AddPlant.js:61-115 | refused exactly when a check fails, with that check's reason; otherwise the body carries the five fields, fertilizing 0 when blank, and no dates |
| PlantForms.OrNA | frontend/src/pages/AddPlant.js:126-143 | `value \|\| 'N/A'`: a present, non-empty value is shown as itself; a missing or empty one as "N/A" |
| PlantForms.InfoLines | frontend/src/pages/AddPlant.js:125-145 | the notes have the five head lines, one more for other names, and seven more for the external block |
| PlantForms.NotesLines | frontend/src/pages/AddPlant.js:125-145 | splitting the notes at line breaks gives back exactly those lines |
| PlantForms.OtherNamesLineIff | frontend/src/pages/AddPlant.js:131-133 | an "Outros nomes: " line is in the notes exactly when the plant has other names |
| PlantForms.TrefleBlockIff | frontend/src/pages/AddPlant.js:136-145 | the "Dados do Trefle.io:" heading is in the notes exactly when the plant is external and carries its data |
| PlantForms.AddPlantForm.constructor | frontend/src/pages/AddPlant.js:13-25 | all fields start empty, with the empty selection |
| PlantForms.AddPlantForm.HandleSubmit | frontend/src/pages/AddPlant.js:61-115 | the step-by-step checks give what `AddSubmission` states |
| PlantForms.AddPlantForm.HandlePlantSelection | frontend/src/pages/AddPlant.js:118-156 | a picked plant fills the name, the species and the notes as `PlantInfo` lays them out; an empty selection clears them; the numeric fields are kept |
| EditPlantPage.MidnightOfDay | frontend/src/pages/EditPlant.js:38-40 | an instant lies in the day it is shown as, that day's midnight is a whole number of days, and it is shown as the same day |
| EditPlantPage.AtMidnight | frontend/src/pages/EditPlant.js:38-40 | a date read back from its day is the midnight that starts the day: a whole number of days, at or before the date and less than a day before it; a missing date stays missing |
| EditPlantPage.AtMidnightTwice | frontend/src/pages/EditPlant.js:38-40 | a midnight survives being shown and sent back |
| EditPlantPage.NumberInput | frontend/src/pages/EditPlant.js:37-39 | a numeric input holding 0 or nothing is falsy, so the checks treat it as blank; any other number is kept as itself |
| EditPlantPage.DateInput | frontend/src/pages/EditPlant.js:38-40 | a date shows as the UTC day that contains it, and a missing date as blank |
| EditPlantPage.Loaded | frontend/src/pages/EditPlant.js:35-41 | the loaded fields show fertilizing 0 as blank, and missing notes as "" |
| EditPlantPage.DateField | frontend/src/pages/EditPlant.js:89-97 | a blank date is sent as `null`, and a day as its midnight |
| EditPlantPage.EditSubmission | frontend/src/pages/EditPlant.js:58-113 | refused exactly when a check fails, with that check's reason; otherwise the body carries the name, the watering frequency, the fertilizing frequency or 0, the notes, the species or `null`, each date as its midnight or `null`, and no acquisition date |
| EditPlantPage.LoadThenSubmit | frontend/src/pages/EditPlant.js:35-97 | loading a valid plant and submitting it untouched sends every field back: the name and watering as stored, the species or `null`, each date as its midnight or `null`, fertilizing as stored or 0, notes as stored or "", and no acquisition date |
| EditPlantPage.EditPlantForm.constructor | frontend/src/pages/EditPlant.js:11-17 | all fields start empty |
| EditPlantPage.EditPlantForm.FetchPlant | frontend/src/pages/EditPlant.js:19-56 | without a token or a plant nothing changes; otherwise the fields become `Loaded` of the plant |
| EditPlantPage.EditPlantForm.HandleSubmit | frontend/src/pages/EditPlant.js:58-113 | the step-by-step early returns and the body built from the fields give what `EditSubmission` states for the current fields |
| RequestFlow.ActorOf | backend/controllers/plantController.js:12 | the handlers' `req.user.id` is present exactly when `protect` set a user, and is that user's id |
| RequestFlow.AddedDocument | frontend/src/pages/AddPlant.js:93-99 | the body the add page sends becomes a document with the trimmed name, species and notes, the watering, the fertilizing, now as both dates, and no `lastFertilized` |
| RequestFlow.AddedPlantIsCreated | backend/controllers/plantController.js:22-48 | an accepted add-page submit gets 201 exactly when the trimmed name is not empty, the trimmed notes fit in 500 characters and the id is new, and stores that document; otherwise it gets 500 |
| RequestFlow.Resaved | frontend/src/pages/EditPlant.js:35-41 | what a page load followed by a save does to a plant: each date becomes its day's midnight, a missing fertilizing frequency becomes 0, missing notes become "", and the rest is kept |
| RequestFlow.UntouchedEditBody | frontend/src/pages/EditPlant.js:19-113 | loading a plant and saving it untouched applies exactly `Resaved` |
| RequestFlow.UntouchedEditSaves | backend/controllers/plantController.js:80-116 | that save succeeds, stores a valid document, and a second untouched save changes nothing more |
| RequestFlow.DeletedUserGetsServerErrors | backend/middlewares/authMiddleware.js:19-20 | a valid token of a deleted user passes `protect`; the list then replies 500, and create, get, update and delete reply 500 and change nothing once the body passes the 400 check (create) or the id casts to an existing plant (the others) |
| RequestFlow.ValidTokenSeesOwnPlants | backend/controllers/plantController.js:9-75 | a valid token acts as its user: the list is exactly that user's plants, and another user's plant is refused with 401 |
| RequestFlow.RegisterLoginProtect | backend/controllers/authController.js:7-91 | the token a new account's login replies with, when it verifies to the id it was signed for, passes `protect` as that account |

## Left out

- Password hashing and JWTs are parameters. bcrypt's salt and hash, `bcrypt.compare` and `jwt.sign` depend on randomness, the secret or the clock. The stored hash is a parameter. `jwt.sign({ id })` is the `sign` function of the id, `compare` is the `matchesHash` function and `jwt.verify` is the `verify` function, so the secret, the signature and expiry checks are not modelled.
- The request bodies of register and login: every field of the register body, and the login e-mail, are modelled as strings. A missing or non-string e-mail, which Mongoose would drop from the `findOne` filter or cast, is left out. The login password is a `Field`, so a missing or non-string password is modelled.
- ObjectIds given as 12-character strings, which the ObjectId cast also accepts as raw bytes, are left out: an id in a request is text of 24 hexadecimal digits or fails the cast.
- The clock and fresh ids are parameters. `Date.now` is the `now` parameter, and the new document's `_id` is the `newId` parameter. `timestamps` (`createdAt`, `updatedAt`) is not modelled.
- The plant directory module is not part of this model. `searchPlantsByPortuguese` and `searchPlantsByScientific` are parameters. So are `toLowerCase` on arbitrary text and `localeCompare` with pt-BR collation.
- Suggestions.Rank: `Array.prototype.sort` is modelled as a stable insertion sort. With an engine's own sort, entries the comparator calls equal may come out in another order.
- Suggestions.RankRanked: needs `localeCompare` to be a total, transitive order. The comparator is never inconsistent otherwise.
- Lower-casing outside ASCII: `lowercase: true` on the e-mail is modelled for ASCII letters only.
- String lengths count characters, not UTF-16 code units. `maxlength: 500` and the query length use `|s|`.
- Date parsing and display: a date is an integer count of milliseconds, and a date input is a day number. Only what the edit page does to a date is modelled: showing it as its UTC day and sending that day's midnight back. Timezones, string formats and invalid dates are left out.
- Numeric inputs: `parseInt` of text with a fraction or an exponent is left out. An input is blank, an integer numeral, or not numeric. Floating-point and `NaN` values in the schema are left out.
- The Trefle.io search on the add page (`AddPlant.js:33-59`) and the Trefle routes: network I/O, not modelled. `growth.light_tolerated` is kept as the text it is shown as.
- Autocomplete.PlantAutocomplete.ClearSelection: the `inputRef.current?.focus()` call is not modelled. Focusing runs `handleFocus` with the input value of the previous render, which can show the old input's search again after the clear.
- `handleBlur`: its 200 ms timer is not modelled. The autocomplete's invariant is therefore only that the highlight is at least -1 and that a shown list is the search of the input.
- The autocomplete's `useEffect` that syncs the input with the `value` prop: it depends on `getPlantById` of the directory module, which is not part of this model.
- Toasts, navigation, rendering and the loading flag of the pages are not modelled. A failed fetch or request is modelled only as leaving the form unchanged.
- Concurrency: each request runs alone. Races between two saves, and the unique index racing two registrations, are left out.
- The 500 reply after an earlier reply: Express's "headers already sent" error is not modelled. The model records the replies `protect` attempts, in order.
- EditPlantPage.EditPlantForm.FetchPlant: models only a fetch that returns a plant or fails. The plant's own `owner` check happens on the server and is covered by `PlantController.GetOutcome`.

## Where the code and its documentation differ

The model follows the code in each case:

- A registration that fails the schema validators replies 500, not 400. `save()` throws, and the `catch` replies 500.
- A valid token whose user was deleted leads to 500, not 401, from the list handler, and from the other plant handlers once the body passes the 400 check and the id casts to an existing plant. `protect` calls `next()` with `req.user` null, and `req.user.id` then throws inside the handler's `try`.
- The add page always sends `species`, empty when the field is empty. The schema's default "Desconhecida" therefore never applies to a plant added through the form, and an empty species is stored as "".
