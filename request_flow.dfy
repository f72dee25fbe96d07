/** Requests followed across the layers: what the pages send, what the
    middleware makes of the token, and what the plant handlers then store. */
module RequestFlow {
  import opened JsValues
  import opened JsString
  import opened ObjectIds
  import opened UserModel
  import opened PlantModel
  import opened PlantController
  import opened PlantForms
  import opened EditPlantPage
  import opened AuthMiddleware
  import AuthController

  /** `req.user.id` as the handlers see it after `protect`. */
  function ActorOf(out: Protected): (a: Actor)
    ensures a.Some? <==> out.reqUser.Some?
    ensures a.Some? ==> a.value == out.reqUser.value.id
  {
    if out.reqUser.Some? then Some(out.reqUser.value.id) else None
  }

  /** The document `createPlant` builds from a body the add page sent. */
  lemma AddedDocument(token: Option<string>, name: string, species: string, watering: NumInput,
                      fertilizing: NumInput, notes: string, user: ObjectId, now: Date)
    requires AddSubmission(token, name, species, watering, fertilizing, notes).Sent?
    ensures var body := AddSubmission(token, name, species, watering, fertilizing, notes).body;
      && !FalsyText(body.name) && !FalsyNumber(body.wateringFrequencyDays)
      && NewPlant(user, CreateFields(body), now) == Plant(
           user, Some(Trim(name)), Some(Trim(species)), Some(now), Some(watering.n), Some(now),
           Some(FertilizingDays(fertilizing)), None, Some(Trim(notes)))
  {
    var body := AddSubmission(token, name, species, watering, fertilizing, notes).body;
    assert body == PlantBody(Given(name), Given(species), Undefined, Given(watering.n), Undefined,
                             Given(FertilizingDays(fertilizing)), Undefined, Given(notes));
    assert CreateFields(body) == body;
  }

  /** A body the add page sends passes the handler's own 400 check. It is
      stored exactly when its trimmed name is not empty, its trimmed notes fit
      and the new id is free; a blank species is stored as "", not as the
      default species, and the watering date starts at `now`. */
  lemma AddedPlantIsCreated(plants: map<ObjectId, Plant>, user: ObjectId, token: Option<string>, name: string,
                            species: string, watering: NumInput, fertilizing: NumInput, notes: string,
                            newId: ObjectId, now: Date)
    requires AddSubmission(token, name, species, watering, fertilizing, notes).Sent?
    ensures var body := AddSubmission(token, name, species, watering, fertilizing, notes).body;
      var r := CreateOutcome(plants, Some(user), body, newId, now);
      && (r.response.status == 201 <==> Trim(name) != "" && |Trim(notes)| <= MAX_NOTES_LENGTH && newId !in plants)
      && (r.response.status != 201 ==> r.response == ServerError())
      && (r.response.status == 201 ==> r.response.body.plant == Plant(
            user, Some(Trim(name)), Some(Trim(species)), Some(now), Some(watering.n), Some(now),
            Some(FertilizingDays(fertilizing)), None, Some(Trim(notes))))
  {
    AddedDocument(token, name, species, watering, fertilizing, notes, user, now);
  }

  /** The document an untouched edit saves: both dates moved back to the
      midnight that starts their day, a missing fertilizing frequency as 0 and
      missing notes as "". */
  function Resaved(p: Plant): (q: Plant)
    ensures q.owner == p.owner && q.name == p.name && q.species == p.species
    ensures q.acquisitionDate == p.acquisitionDate && q.wateringFrequencyDays == p.wateringFrequencyDays
    ensures q.fertilizingFrequencyDays.Some? && q.notes.Some?
    ensures p.fertilizingFrequencyDays.Some? ==> q.fertilizingFrequencyDays == p.fertilizingFrequencyDays
    ensures p.fertilizingFrequencyDays.None? ==> q.fertilizingFrequencyDays == Some(DEFAULT_FERTILIZING_DAYS)
    ensures p.notes.Some? ==> q.notes == p.notes
    ensures p.notes.None? ==> q.notes == Some("")
    ensures q.lastWatered == AtMidnight(p.lastWatered) && q.lastFertilized == AtMidnight(p.lastFertilized)
  {
    p.(lastWatered := AtMidnight(p.lastWatered),
       fertilizingFrequencyDays := Some(p.fertilizingFrequencyDays.GetOr(DEFAULT_FERTILIZING_DAYS)),
       lastFertilized := AtMidnight(p.lastFertilized),
       notes := Some(p.notes.GetOr("")))
  }

  /** The body the edit page sends for a stored plant it loaded and did not touch. */
  lemma {:induction false} UntouchedEditBody(token: Option<string>, p: Plant)
    requires HasToken(token) && Stored(p)
    ensures EditSubmission(token, Loaded(p)).Sent?
    ensures ApplyUpdate(p, EditSubmission(token, Loaded(p)).body) == Resaved(p)
  {
    LoadThenSubmit(token, p);
    assert Trim("") == "";
  }

  /** Opening a stored plant in the edit page and saving it untouched succeeds
      and stores `Resaved`, a valid document; doing it again changes nothing. */
  lemma UntouchedEditSaves(plants: map<ObjectId, Plant>, user: ObjectId, id: ObjectId, token: Option<string>)
    requires HasToken(token) && WellFormedId(id) && id in plants && plants[id].owner == user && Stored(plants[id])
    ensures EditSubmission(token, Loaded(plants[id])).Sent?
    ensures UpdateOutcome(plants, Some(user), id, EditSubmission(token, Loaded(plants[id])).body)
            == Outcome(Response(200, OnePlant(Resaved(plants[id]))), plants[id := Resaved(plants[id])])
    ensures Stored(Resaved(plants[id]))
    ensures Resaved(Resaved(plants[id])) == Resaved(plants[id])
  {
    var p := plants[id];
    CastOfId(id);
    UntouchedEditBody(token, p);
    assert Trim("") == "";
    AtMidnightTwice(p.lastWatered);
    AtMidnightTwice(p.lastFertilized);
  }

  /** A valid token of a user whose account was deleted gets through
      `protect`. The list then fails with 500; the other handlers fail with
      500 and change nothing once the body passes the 400 check (create) or
      the id casts to an existing plant (get, update, delete). */
  lemma DeletedUserGetsServerErrors(t: string, verify: string -> Decoded, users: seq<User>, id: ObjectId,
                                    plants: map<ObjectId, Plant>, rawId: string, body: PlantBody,
                                    newId: ObjectId, now: Date)
    requires t != [] && ' ' !in t
    requires WellFormedId(id) && !Taken(users, ById, id)
    requires verify(t) == Claims(Some(id))
    ensures var out := Protect(Some(BEARER + " " + t), verify, users);
      && out.nextCalled
      && ListOutcome(plants, ActorOf(out)) == ServerError()
      && (!FalsyText(body.name) && !FalsyNumber(body.wateringFrequencyDays) ==>
            CreateOutcome(plants, ActorOf(out), body, newId, now) == Outcome(ServerError(), plants))
      && (IsObjectIdText(rawId) && CastId(rawId) in plants ==>
            && GetOutcome(plants, ActorOf(out), rawId) == ServerError()
            && UpdateOutcome(plants, ActorOf(out), rawId, body) == Outcome(ServerError(), plants)
            && DeleteOutcome(plants, ActorOf(out), rawId) == Outcome(ServerError(), plants))
  {
    DeletedUserPassesThrough(t, verify, users, id);
  }

  /** With a valid token of an existing user the plant list holds exactly
      that user's plants, and another user's plant is refused with 401. */
  lemma ValidTokenSeesOwnPlants(t: string, verify: string -> Decoded, users: seq<User>, i: nat,
                                plants: map<ObjectId, Plant>, rawId: string)
    requires t != [] && ' ' !in t
    requires UniqueAccounts(users) && i < |users| && WellFormedId(users[i].id)
    requires verify(t) == Claims(Some(users[i].id))
    ensures var actor := ActorOf(Protect(Some(BEARER + " " + t), verify, users));
      && actor == Some(users[i].id)
      && (forall pid :: pid in ListOutcome(plants, actor).body.plants <==> pid in plants && plants[pid].owner == users[i].id)
      && (IsObjectIdText(rawId) && CastId(rawId) in plants && plants[CastId(rawId)].owner != users[i].id ==>
            GetOutcome(plants, actor, rawId) == Response(401, Message(MSG_NOT_OWNER_GET)))
  {
    ValidTokenAdmitsUser(t, verify, users, i);
  }

  /** The token a fresh account's login replies with, signed for the new id,
      passes `protect` as that account, provided the token verifies to that id
      and, like every JWT, holds no space. */
  lemma RegisterLoginProtect(users: seq<User>, username: string, email: string, password: string,
                             newId: ObjectId, passwordHash: string, sign: ObjectId -> string,
                             matchesHash: string -> string -> bool, verify: string -> Decoded)
    requires UsersValid(users) && WellFormedId(newId)
    requires AuthController.RegisterOutcome(users, username, email, password, newId, passwordHash, sign).response.Authenticated?
    requires matchesHash(password)(passwordHash)
    requires sign(newId) != [] && ' ' !in sign(newId)
    requires verify(sign(newId)) == Claims(Some(newId))
    ensures var registered := AuthController.RegisterOutcome(users, username, email, password, newId, passwordHash, sign).users;
            var login := AuthController.LoginOutcome(registered, email, Given(password), matchesHash, sign);
            && login.Authenticated?
            && Protect(Some(BEARER + " " + login.body.token), verify, registered)
               == Protected([], true, Some(PublicUser(newId, NormalizeUsername(username), NormalizeEmail(email))))
  {
    var registered := AuthController.RegisterOutcome(users, username, email, password, newId, passwordHash, sign).users;
    AuthController.RegisterKeepsValid(users, username, email, password, newId, passwordHash, sign);
    AuthController.RegisterThenLogin(users, username, email, password, newId, passwordHash, sign, matchesHash);
    assert registered[|users|].id == newId;
    ValidTokenAdmitsUser(sign(newId), verify, registered, |users|);
  }
}
