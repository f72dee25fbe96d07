/** The plant CRUD handlers over the Plant collection, keyed by document id.
    The authenticated caller is `req.user`: its id, or `None` when the
    middleware found no user for the token and set `req.user` to `null`; every
    handler then fails with a TypeError at `req.user.id`, caught as a 500. */
module PlantController {
  import opened JsValues
  import opened ObjectIds
  import opened PlantModel
  import opened JsString

  const MSG_MISSING_FIELDS: string := "Por favor, inclua o nome e a frequência de rega da planta."
  const MSG_NOT_FOUND: string := "Planta não encontrada"
  const MSG_NOT_OWNER_GET: string := "Não autorizado. Esta planta não pertence a você."
  const MSG_NOT_OWNER_UPDATE: string := "Não autorizado. Você só pode atualizar suas próprias plantas."
  const MSG_NOT_OWNER_DELETE: string := "Não autorizado. Você só pode deletar suas próprias plantas."
  const MSG_INVALID_ID: string := "ID de planta inválido"
  const MSG_REMOVED: string := "Planta removida com sucesso"
  const SERVER_ERROR_TEXT: string := "Erro no Servidor"

  /** What a handler sends: a JSON list or document, a JSON `{msg}`, or plain text. */
  datatype Body =
    | PlantList(plants: map<ObjectId, Plant>)
    | OnePlant(plant: Plant)
    | Message(msg: string)
    | Text(text: string)

  datatype Response = Response(status: int, body: Body)

  /** A response together with the collection after the request. */
  datatype Outcome = Outcome(response: Response, plants: map<ObjectId, Plant>)

  /** `req.user.id`, or `None` when `req.user` is `null`. */
  type Actor = Option<ObjectId>

  function ServerError(): Response {
    Response(500, Text(SERVER_ERROR_TEXT))
  }

  /** `getPlants`: the caller's plants, and only those. */
  function ListOutcome(plants: map<ObjectId, Plant>, actor: Actor): (r: Response)
    ensures actor.None? ==> r == ServerError()
    ensures actor.Some? ==> r.status == 200 && r.body.PlantList?
    ensures actor.Some? ==> forall id :: id in r.body.plants <==> id in plants && plants[id].owner == actor.value
    ensures actor.Some? ==> forall id :: id in r.body.plants ==> r.body.plants[id] == plants[id]
  {
    match actor
    case None => ServerError()
    case Some(user) => Response(200, PlantList(map id | id in plants && plants[id].owner == user :: plants[id]))
  }

  /** The checks `getPlantById`, `updatePlant` and `deletePlant` make before acting,
      in their order: the id cast (its error is caught as kind 'ObjectId'), the
      existence check of the id the cast gives, then ownership. `None` means the
      caller owns the plant. */
  function Guard(plants: map<ObjectId, Plant>, actor: Actor, rawId: string, notOwnerMsg: string): (r: Option<Response>)
    ensures r.None? <==> IsObjectIdText(rawId) && CastId(rawId) in plants && actor == Some(plants[CastId(rawId)].owner)
    ensures !IsObjectIdText(rawId) ==> r == Some(Response(400, Message(MSG_INVALID_ID)))
    ensures IsObjectIdText(rawId) && CastId(rawId) !in plants ==> r == Some(Response(404, Message(MSG_NOT_FOUND)))
    ensures r.Some? && r.value.status == 401 <==>
              IsObjectIdText(rawId) && CastId(rawId) in plants && actor.Some? && plants[CastId(rawId)].owner != actor.value
    ensures r.Some? && r.value.status == 401 ==> r.value.body == Message(notOwnerMsg)
    ensures r.Some? ==> r.value.status in {400, 401, 404, 500}
  {
    if !IsObjectIdText(rawId) then Some(Response(400, Message(MSG_INVALID_ID)))
    else
      var id := CastId(rawId);
      if id !in plants then Some(Response(404, Message(MSG_NOT_FOUND)))
      else if actor.None? then Some(ServerError())
      else if plants[id].owner != actor.value then Some(Response(401, Message(notOwnerMsg)))
      else None
  }

  /** `getPlantById`: the document, to its owner only. */
  function GetOutcome(plants: map<ObjectId, Plant>, actor: Actor, rawId: string): (r: Response)
    ensures r.status == 200 <==> IsObjectIdText(rawId) && CastId(rawId) in plants && actor == Some(plants[CastId(rawId)].owner)
    ensures r.status == 200 ==> r.body == OnePlant(plants[CastId(rawId)])
    ensures r.status != 200 ==> r == Guard(plants, actor, rawId, MSG_NOT_OWNER_GET).value
  {
    match Guard(plants, actor, rawId, MSG_NOT_OWNER_GET)
    case Some(refusal) => refusal
    case None => Response(200, OnePlant(plants[CastId(rawId)]))
  }

  /** `createPlant`: a falsy `name` or `wateringFrequencyDays` is refused with 400
      before anything else; otherwise the document is built with the caller as
      owner (only the six fields the handler reads) and saved, or the request
      fails with 500 when the user is gone, a validator fails or the id is taken. */
  function CreateOutcome(plants: map<ObjectId, Plant>, actor: Actor, body: PlantBody, newId: ObjectId, now: Date): (r: Outcome)
    ensures FalsyText(body.name) || FalsyNumber(body.wateringFrequencyDays) ==>
              r == Outcome(Response(400, Message(MSG_MISSING_FIELDS)), plants)
    ensures r.response.status in {201, 400, 500}
    ensures r.response.status != 201 ==> r.plants == plants
    ensures !FalsyText(body.name) && !FalsyNumber(body.wateringFrequencyDays) && r.response.status != 201 ==>
              r.response == ServerError()
    ensures r.response.status == 201 <==>
              && !FalsyText(body.name) && !FalsyNumber(body.wateringFrequencyDays) && actor.Some?
              && newId !in plants && SchemaValid(NewPlant(actor.value, CreateFields(body), now))
    ensures r.response.status == 201 ==>
              && r.response.body.OnePlant?
              && r.response.body.plant.owner == actor.value
              && r.plants == plants[newId := r.response.body.plant]
              && Stored(r.response.body.plant)
  {
    if FalsyText(body.name) || FalsyNumber(body.wateringFrequencyDays) then
      Outcome(Response(400, Message(MSG_MISSING_FIELDS)), plants)
    else if actor.None? then
      Outcome(ServerError(), plants)
    else
      var doc := NewPlant(actor.value, CreateFields(body), now);
      if !SchemaValid(doc) || newId in plants then Outcome(ServerError(), plants)
      else Outcome(Response(201, OnePlant(doc)), plants[newId := doc])
  }

  /** The fields `createPlant` destructures: `lastWatered` and `lastFertilized`
      are not read, so they always take their defaults. */
  function CreateFields(body: PlantBody): (b: PlantBody)
    ensures b.lastWatered.Undefined? && b.lastFertilized.Undefined?
    ensures b.(lastWatered := body.lastWatered, lastFertilized := body.lastFertilized) == body
  {
    body.(lastWatered := Undefined, lastFertilized := Undefined)
  }

  /** `doc.f = f !== undefined ? f : doc.f`: an explicit `null` clears the path. */
  function Assign<T>(current: Option<T>, f: Field<T>): (r: Option<T>)
    ensures f.Undefined? ==> r == current
    ensures f.Null? ==> r.None?
    ensures f.Given? ==> r == Some(f.value)
  {
    if f.Undefined? then current else f.AsStored()
  }

  /** The same for a path with the `trim` setter. */
  function AssignText(current: Option<string>, f: Field<string>): (r: Option<string>)
    ensures f.Undefined? ==> r == current
    ensures f.Null? ==> r.None?
    ensures f.Given? ==> r == Some(Trim(f.value))
    ensures IsTrimmed(current) ==> IsTrimmed(r)
  {
    if f.Undefined? then current else SetText(f)
  }

  /** Assigning the same text twice stores what assigning it once stores. */
  lemma AssignTextTwice(current: Option<string>, f: Field<string>)
    ensures AssignText(AssignText(current, f), f) == AssignText(current, f)
  {
    if f.Given? {
      TrimIdempotent(f.value);
    }
  }

  /** The eight assignments of `updatePlant`; the owner is kept. */
  function ApplyUpdate(p: Plant, body: PlantBody): (q: Plant)
    ensures q.owner == p.owner
    ensures Normalized(p) ==> Normalized(q)
  {
    Plant(
      p.owner,
      AssignText(p.name, body.name),
      AssignText(p.species, body.species),
      Assign(p.acquisitionDate, body.acquisitionDate),
      Assign(p.wateringFrequencyDays, body.wateringFrequencyDays),
      Assign(p.lastWatered, body.lastWatered),
      Assign(p.fertilizingFrequencyDays, body.fertilizingFrequencyDays),
      Assign(p.lastFertilized, body.lastFertilized),
      AssignText(p.notes, body.notes))
  }

  /** A body without fields leaves the document as it is. */
  lemma EmptyUpdate(p: Plant)
    ensures ApplyUpdate(p, PlantBody(Undefined, Undefined, Undefined, Undefined, Undefined, Undefined, Undefined, Undefined)) == p
  {
  }

  /** Sending the same update twice stores the same document as sending it once. */
  lemma UpdateTwice(p: Plant, body: PlantBody)
    ensures ApplyUpdate(ApplyUpdate(p, body), body) == ApplyUpdate(p, body)
  {
    AssignTextTwice(p.name, body.name);
    AssignTextTwice(p.species, body.species);
    AssignTextTwice(p.notes, body.notes);
  }

  /** `updatePlant`: after the guard, the partial update is saved if it passes
      the validators; any refusal or failure leaves the collection as it was. */
  function UpdateOutcome(plants: map<ObjectId, Plant>, actor: Actor, rawId: string, body: PlantBody): (r: Outcome)
    ensures r.response.status != 200 ==> r.plants == plants
    ensures Guard(plants, actor, rawId, MSG_NOT_OWNER_UPDATE).Some? ==>
              r.response == Guard(plants, actor, rawId, MSG_NOT_OWNER_UPDATE).value
    ensures r.response.status == 200 <==>
              && Guard(plants, actor, rawId, MSG_NOT_OWNER_UPDATE).None?
              && SchemaValid(ApplyUpdate(plants[CastId(rawId)], body))
    ensures Guard(plants, actor, rawId, MSG_NOT_OWNER_UPDATE).None? && !SchemaValid(ApplyUpdate(plants[CastId(rawId)], body)) ==>
              r.response == ServerError()
    ensures r.response.status == 200 ==>
              && r.response.body == OnePlant(ApplyUpdate(plants[CastId(rawId)], body))
              && r.plants == plants[CastId(rawId) := ApplyUpdate(plants[CastId(rawId)], body)]
  {
    match Guard(plants, actor, rawId, MSG_NOT_OWNER_UPDATE)
    case Some(refusal) => Outcome(refusal, plants)
    case None =>
      var doc := ApplyUpdate(plants[CastId(rawId)], body);
      if SchemaValid(doc) then Outcome(Response(200, OnePlant(doc)), plants[CastId(rawId) := doc])
      else Outcome(ServerError(), plants)
  }

  /** `deletePlant`: the owner removes exactly that one document. */
  function DeleteOutcome(plants: map<ObjectId, Plant>, actor: Actor, rawId: string): (r: Outcome)
    ensures r.response.status != 200 ==> r.plants == plants
    ensures r.response.status == 200 <==> Guard(plants, actor, rawId, MSG_NOT_OWNER_DELETE).None?
    ensures r.response.status != 200 ==> r.response == Guard(plants, actor, rawId, MSG_NOT_OWNER_DELETE).value
    ensures r.response.status == 200 ==>
              && r.response.body == Message(MSG_REMOVED)
              && r.plants.Keys == plants.Keys - {CastId(rawId)}
              && forall id :: id in r.plants ==> r.plants[id] == plants[id]
  {
    match Guard(plants, actor, rawId, MSG_NOT_OWNER_DELETE)
    case Some(refusal) => Outcome(refusal, plants)
    case None => Outcome(Response(200, Message(MSG_REMOVED)), plants - {CastId(rawId)})
  }

  /** The Plant collection and the five handlers that read and write it. */
  class PlantStore {
    var plants: map<ObjectId, Plant>

    /** Every document in the collection passed the validators with its setters applied. */
    ghost predicate Valid()
      reads this
    {
      forall id :: id in plants ==> Stored(plants[id])
    }

    constructor ()
      ensures Valid() && plants == map[]
    {
      plants := map[];
    }

    method GetPlants(actor: Actor) returns (resp: Response)
      requires Valid()
      ensures resp == ListOutcome(plants, actor)
    {
      if actor.None? {
        return ServerError();
      }
      var mine := map id | id in plants && plants[id].owner == actor.value :: plants[id];
      resp := Response(200, PlantList(mine));
    }

    method CreatePlant(actor: Actor, body: PlantBody, newId: ObjectId, now: Date) returns (resp: Response)
      requires Valid()
      modifies this
      ensures Valid()
      ensures Outcome(resp, plants) == CreateOutcome(old(plants), actor, body, newId, now)
    {
      if FalsyText(body.name) || FalsyNumber(body.wateringFrequencyDays) {
        return Response(400, Message(MSG_MISSING_FIELDS));
      }
      if actor.None? {
        return ServerError();
      }
      var fields := CreateFields(body);
      var doc := NewPlant(actor.value, fields, now);
      if !SchemaValid(doc) || newId in plants {
        return ServerError();
      }
      assert Stored(doc);
      plants := plants[newId := doc];
      resp := Response(201, OnePlant(doc));
    }

    method GetPlantById(actor: Actor, rawId: string) returns (resp: Response)
      requires Valid()
      ensures resp == GetOutcome(plants, actor, rawId)
      ensures resp.status == 200 ==> Stored(resp.body.plant)
    {
      if !IsObjectIdText(rawId) {
        return Response(400, Message(MSG_INVALID_ID));
      }
      var id := CastId(rawId);
      if id !in plants {
        return Response(404, Message(MSG_NOT_FOUND));
      }
      var plant := plants[id];
      if actor.None? {
        return ServerError();
      }
      if plant.owner != actor.value {
        return Response(401, Message(MSG_NOT_OWNER_GET));
      }
      resp := Response(200, OnePlant(plant));
    }

    method UpdatePlant(actor: Actor, rawId: string, body: PlantBody) returns (resp: Response)
      requires Valid()
      modifies this
      ensures Valid()
      ensures Outcome(resp, plants) == UpdateOutcome(old(plants), actor, rawId, body)
    {
      if !IsObjectIdText(rawId) {
        return Response(400, Message(MSG_INVALID_ID));
      }
      var id := CastId(rawId);
      if id !in plants {
        return Response(404, Message(MSG_NOT_FOUND));
      }
      var plant := plants[id];
      if actor.None? {
        return ServerError();
      }
      if plant.owner != actor.value {
        return Response(401, Message(MSG_NOT_OWNER_UPDATE));
      }
      plant := ApplyUpdate(plant, body);
      if !SchemaValid(plant) {
        return ServerError();
      }
      plants := plants[id := plant];
      resp := Response(200, OnePlant(plant));
    }

    method DeletePlant(actor: Actor, rawId: string) returns (resp: Response)
      requires Valid()
      modifies this
      ensures Valid()
      ensures Outcome(resp, plants) == DeleteOutcome(old(plants), actor, rawId)
    {
      if !IsObjectIdText(rawId) {
        return Response(400, Message(MSG_INVALID_ID));
      }
      var id := CastId(rawId);
      if id !in plants {
        return Response(404, Message(MSG_NOT_FOUND));
      }
      var plant := plants[id];
      if actor.None? {
        return ServerError();
      }
      if plant.owner != actor.value {
        return Response(401, Message(MSG_NOT_OWNER_DELETE));
      }
      plants := plants - {id};
      resp := Response(200, Message(MSG_REMOVED));
    }
  }

  /** Creating a plant and reading it back by its id returns the stored
      document: the given fields, trimmed, with the schema's defaults. */
  lemma CreateThenGet(plants: map<ObjectId, Plant>, user: ObjectId, body: PlantBody, newId: ObjectId, now: Date)
    requires WellFormedId(newId) && newId !in plants
    requires !FalsyText(body.name) && !FalsyNumber(body.wateringFrequencyDays)
    requires SchemaValid(NewPlant(user, CreateFields(body), now))
    ensures GetOutcome(CreateOutcome(plants, Some(user), body, newId, now).plants, Some(user), newId)
            == Response(200, OnePlant(NewPlant(user, CreateFields(body), now)))
  {
    CastOfId(newId);
  }

  /** After a successful delete, reading the same id again gives 404. */
  lemma DeleteThenGet(plants: map<ObjectId, Plant>, actor: Actor, rawId: string, anyone: Actor)
    requires DeleteOutcome(plants, actor, rawId).response.status == 200
    ensures GetOutcome(DeleteOutcome(plants, actor, rawId).plants, anyone, rawId) == Response(404, Message(MSG_NOT_FOUND))
  {
  }

  /** An id in capitals finds the same plant as its lower-case text: the
      handlers answer both alike. */
  lemma IdCaseIgnored(plants: map<ObjectId, Plant>, actor: Actor, rawId: string, body: PlantBody)
    requires IsObjectIdText(rawId)
    ensures GetOutcome(plants, actor, rawId) == GetOutcome(plants, actor, CastId(rawId))
    ensures UpdateOutcome(plants, actor, rawId, body) == UpdateOutcome(plants, actor, CastId(rawId), body)
    ensures DeleteOutcome(plants, actor, rawId) == DeleteOutcome(plants, actor, CastId(rawId))
  {
    CastIgnoresCase(rawId);
  }

  /** A body that only carries `notes` changes the notes and nothing else. */
  lemma NotesOnlyUpdate(plants: map<ObjectId, Plant>, user: ObjectId, id: ObjectId, text: string)
    requires WellFormedId(id) && id in plants && plants[id].owner == user && Stored(plants[id])
    requires |Trim(text)| <= MAX_NOTES_LENGTH
    ensures var body := PlantBody(Undefined, Undefined, Undefined, Undefined, Undefined, Undefined, Undefined, Given(text));
            UpdateOutcome(plants, Some(user), id, body).plants
            == plants[id := plants[id].(notes := Some(Trim(text)))]
  {
    CastOfId(id);
  }
}
