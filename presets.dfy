/**
 * routes/presets.py: saved task templates, each owned by the user named in its `username`
 * field. Every route sees and changes only the caller's own presets.
 */
module Presets {
  import opened Values
  import opened ObjectIds
  import opened Http
  import opened Store

  const ErrTokenMissing := HttpError(401, "Token ausente ou inválido")
  const ErrTokenInvalid := HttpError(401, "Token inválido")
  const ErrNotOwned := HttpError(404, "Preset não encontrado ou não pertence a este utilizador")
  const ErrPresetNotFound := HttpError(404, "Preset não encontrado")

  /** The fields of a preset body (`PresetBase`). */
  const PresetFields: seq<string> := [
    "nome", "descricao", "cliente", "parceiro", "produto", "contrato", "atividade", "data",
    "distancia_viagem", "tempo_viagem", "tempo_atividade", "tempo_faturado", "faturavel",
    "viagem_faturavel", "local", "valor_euro", "username"]

  /** A validated preset body: `PresetBase.dict()` holds every declared field. */
  predicate IsPresetBody(d: Doc) {
    d.Keys == set k | k in PresetFields
  }

  /** get_current_username: the `sub` of a decodable bearer token, refused only when it is
      absent or null (an empty or non-string `sub` passes). */
  function PresetsCaller(h: Headers, decode: Decoder): (r: Result<Value>)
    ensures r.Err? ==> r.error.status == 401
    ensures BearerToken(h).None? ==> r == Err(ErrTokenMissing)
    ensures r.Ok? <==>
      BearerToken(h).Some? && decode(BearerToken(h).value).Some? && Get(decode(BearerToken(h).value).value, "sub", Null) != Null
    ensures r.Ok? ==> r.value == decode(BearerToken(h).value).value["sub"] && r.value != Null
  {
    match BearerToken(h)
    case None => Err(ErrTokenMissing)
    case Some(token) =>
      match decode(token)
      case None => Err(ErrTokenInvalid)
      case Some(payload) =>
        var username := Get(payload, "sub", Null);
        if username == Null then Err(ErrTokenInvalid) else Ok(username)
  }

  function OwnerFilter(username: Value): map<string, Value> {
    map["username" := username]
  }

  /** The record create_preset stores: the body, its `username` replaced by the caller's. */
  function OwnedPreset(body: Doc, username: Value): (r: Doc)
    ensures r.Keys == body.Keys + {"username"} && r["username"] == username
    ensures forall k :: k in body && k != "username" ==> r[k] == body[k]
  {
    body["username" := username]
  }

  /** The presets get_user_presets answers for `username`. */
  function PresetsOf(presets: Table, username: Value): (r: seq<Doc>)
    ensures forall i :: 0 <= i < |r| ==> "id" in r[i] && Get(r[i], "username", Null) == username
  {
    var found := FindEq(presets, OwnerFilter(username));
    FoundAreOwned(presets, username);
    seq(|found|, i requires 0 <= i < |found| => WithId(found[i]))
  }

  /** Every record the owner query yields belongs to that owner. */
  lemma FoundAreOwned(presets: Table, username: Value)
    ensures forall r :: r in FindEq(presets, OwnerFilter(username)) ==> Get(r.1, "username", Null) == username
  {
    forall r | r in FindEq(presets, OwnerFilter(username)) ensures Get(r.1, "username", Null) == username {
      SelectSpec(presets.order, presets.rows, EqFilter(OwnerFilter(username)), NoRegex, r);
      OwnerFilterMatches(username, r.1);
    }
  }

  lemma OwnerFilterMatches(username: Value, d: Doc)
    ensures Matches(EqFilter(OwnerFilter(username)), d, NoRegex) <==> Get(d, "username", Null) == username
  {
    assert "username" in EqFilter(OwnerFilter(username));
  }

  /** A listing holds exactly the caller's presets, each shown with its `id` and without `_id`. */
  lemma PresetsOfSpec(presets: Table, username: Value)
    requires Valid(presets) && username != Null
    ensures forall d :: d in PresetsOf(presets, username) ==>
      && "_id" !in d
      && "username" in d && d["username"] == username
      && exists id: Oid :: id in presets.rows && d == WithId((id, presets.rows[id]))
    ensures forall id :: id in presets.rows && Get(presets.rows[id], "username", Null) == username ==>
      WithId((id, presets.rows[id])) in PresetsOf(presets, username)
  {
    var found := FindEq(presets, OwnerFilter(username));
    FindSpec(presets, EqFilter(OwnerFilter(username)), NoRegex);
    var shown := PresetsOf(presets, username);
    forall d | d in shown
      ensures "_id" !in d && "username" in d && d["username"] == username
      ensures exists id: Oid :: id in presets.rows && d == WithId((id, presets.rows[id]))
    {
      var k :| 0 <= k < |shown| && shown[k] == d;
      assert found[k] in found;
      OwnerFilterMatches(username, found[k].1);
    }
    forall id | id in presets.rows && Get(presets.rows[id], "username", Null) == username
      ensures WithId((id, presets.rows[id])) in shown
    {
      OwnerFilterMatches(username, presets.rows[id]);
      assert (id, presets.rows[id]) in found;
      var k :| 0 <= k < |found| && found[k] == (id, presets.rows[id]);
      assert shown[k] == WithId((id, presets.rows[id]));
    }
  }

  /** A created preset appears at the end of its owner's listing, and in no one else's. */
  lemma CreatedPresetIsListed(presets: Table, id: Oid, body: Doc, owner: Value, other: Value)
    requires Valid(presets) && id !in presets.rows
    requires owner != Null && other != owner
    ensures PresetsOf(Insert(presets, id, OwnedPreset(body, owner)), owner) ==
      PresetsOf(presets, owner) + [WithId((id, OwnedPreset(body, owner)))]
    ensures PresetsOf(Insert(presets, id, OwnedPreset(body, owner)), other) == PresetsOf(presets, other)
  {
    var stored := OwnedPreset(body, owner);
    FindAfterInsert(presets, id, stored, EqFilter(OwnerFilter(owner)), NoRegex);
    FindAfterInsert(presets, id, stored, EqFilter(OwnerFilter(other)), NoRegex);
    OwnerFilterMatches(owner, stored);
    OwnerFilterMatches(other, stored);
  }

  /** create_preset as intended: the caller's preset is stored and answered with its `id`. */
  method CreatePreset(h: Headers, body: Doc, cfg: Config, presets: Collection, newId: Oid) returns (r: Result<Doc>)
    requires IsPresetBody(body) && newId !in presets.rows
    modifies presets
    ensures PresetsCaller(h, cfg.decode).Err? ==>
      r == Err(PresetsCaller(h, cfg.decode).error) && presets.View() == old(presets.View())
    ensures PresetsCaller(h, cfg.decode).Ok? ==>
      var stored := OwnedPreset(body, PresetsCaller(h, cfg.decode).value);
      && presets.View() == Insert(old(presets.View()), newId, stored)
      && r == Ok(WithId((newId, stored)))
  {
    var username := PresetsCaller(h, cfg.decode);
    if username.Err? {
      return Err(username.error);
    }
    var data := body["username" := username.value];
    presets.InsertOne(newId, data);
    var cleanData := data["id" := Str(newId)];
    r := Ok(cleanData);
  }

  // ---------------------------------------------------------------------------
  // create_preset as written

  /** A value `jsonable_encoder` is handed: a plain JSON value, or a bson ObjectId. */
  datatype Encodable = Plain(v: Value) | ObjectIdValue(id: Oid)

  /** The ValueError `jsonable_encoder` raises on an ObjectId, which has no JSON form. */
  const EncoderFailure := HttpError(500, "[TypeError(\"'ObjectId' object is not iterable\"), TypeError('vars() argument must have __dict__ attribute')]")

  /** `jsonable_encoder(d)`: the plain values, or the error raised on the first ObjectId. */
  function JsonableEncoder(d: map<string, Encodable>): (r: Result<Doc>)
    ensures r.Ok? <==> forall k :: k in d ==> d[k].Plain?
    ensures r.Ok? ==> r.value.Keys == d.Keys && forall k :: k in d ==> r.value[k] == d[k].v
  {
    if forall k :: k in d ==> d[k].Plain? then Ok(map k | k in d :: d[k].v) else Err(EncoderFailure)
  }

  /** `insert_one(data)` adds the generated `_id` to the very dict it was given. */
  function AfterInsertOne(data: Doc, id: Oid): map<string, Encodable> {
    (map k | k in data :: Plain(data[k]))["_id" := ObjectIdValue(id)]
  }

  /** The response create_preset builds once the insert is done. */
  function CreatePresetResponseAsWritten(data: Doc, id: Oid): Result<Doc> {
    match JsonableEncoder(AfterInsertOne(data, id))
    case Err(e) => Err(e)
    case Ok(clean) => Ok(clean["id" := Str(id)])
  }

  /** The preset is stored, yet the answer is always a 500: the encoder meets the `_id` that
      the insert added to `data`. */
  lemma CreatePresetAsWrittenAlwaysFails(data: Doc, id: Oid)
    ensures CreatePresetResponseAsWritten(data, id) == Err(EncoderFailure)
  {
    assert "_id" in AfterInsertOne(data, id) && !AfterInsertOne(data, id)["_id"].Plain?;
  }

  /** create_preset as written: the insert happens, then the encoder failure is caught and
      re-raised as a 500. */
  method CreatePresetAsWritten(h: Headers, body: Doc, cfg: Config, presets: Collection, newId: Oid) returns (r: Result<Doc>)
    requires IsPresetBody(body) && newId !in presets.rows
    modifies presets
    ensures PresetsCaller(h, cfg.decode).Err? ==>
      r == Err(PresetsCaller(h, cfg.decode).error) && presets.View() == old(presets.View())
    ensures PresetsCaller(h, cfg.decode).Ok? ==>
      && presets.View() == Insert(old(presets.View()), newId, OwnedPreset(body, PresetsCaller(h, cfg.decode).value))
      && r == Err(EncoderFailure)
  {
    var username := PresetsCaller(h, cfg.decode);
    if username.Err? {
      return Err(username.error);
    }
    var data := body["username" := username.value];
    presets.InsertOne(newId, data);
    CreatePresetAsWrittenAlwaysFails(data, newId);
    r := CreatePresetResponseAsWritten(data, newId);
  }

  // ---------------------------------------------------------------------------
  // Listing, deleting, patching

  /** get_user_presets. */
  method GetUserPresets(h: Headers, cfg: Config, presets: Collection) returns (r: Result<seq<Doc>>)
    ensures PresetsCaller(h, cfg.decode).Err? ==> r == Err(PresetsCaller(h, cfg.decode).error)
    ensures PresetsCaller(h, cfg.decode).Ok? ==> r == Ok(PresetsOf(presets.View(), PresetsCaller(h, cfg.decode).value))
  {
    var username := PresetsCaller(h, cfg.decode);
    if username.Err? {
      return Err(username.error);
    }
    var found := presets.FindAll(OwnerFilter(username.value));
    var out: seq<Doc> := [];
    var i := 0;
    while i < |found|
      invariant 0 <= i <= |found|
      invariant |out| == i && forall k :: 0 <= k < i ==> out[k] == WithId(found[k])
    {
      out := out + [WithId(found[i])];
      i := i + 1;
    }
    assert out == PresetsOf(presets.View(), username.value);
    r := Ok(out);
  }

  /** delete_preset: a malformed id raises InvalidId (500); a preset that is missing or
      someone else's is a 404 and nothing changes; otherwise exactly that preset is removed. */
  method DeletePreset(h: Headers, presetId: string, cfg: Config, presets: Collection) returns (r: Result<()>)
    modifies presets
    ensures r.Err? ==> presets.View() == old(presets.View())
    ensures PresetsCaller(h, cfg.decode).Err? ==> r == Err(PresetsCaller(h, cfg.decode).error)
    ensures PresetsCaller(h, cfg.decode).Ok? && ParseObjectId(presetId).None? ==> r == Err(InternalError)
    ensures r.Ok? <==>
      && PresetsCaller(h, cfg.decode).Ok?
      && ParseObjectId(presetId).Some?
      && FindById(old(presets.View()), ParseObjectId(presetId).value, OwnerFilter(PresetsCaller(h, cfg.decode).value)).Some?
    ensures PresetsCaller(h, cfg.decode).Ok? && ParseObjectId(presetId).Some? && r.Err? ==> r == Err(ErrNotOwned)
    ensures r.Ok? ==> presets.View() == Delete(old(presets.View()), ParseObjectId(presetId).value)
  {
    var username := PresetsCaller(h, cfg.decode);
    if username.Err? {
      return Err(username.error);
    }
    var objId := ParseObjectId(presetId);
    if objId.None? {
      return Err(InternalError);
    }
    var deletedCount := presets.DeleteOne(objId.value, OwnerFilter(username.value));
    if deletedCount == 0 {
      return Err(ErrNotOwned);
    }
    r := Ok(());
  }

  /** A preset survives its deletion by anyone but its owner; after the owner's deletion it
      is in no listing. */
  lemma DeleteOnlyOwn(presets: Table, id: Oid, caller: Value, anyone: Value)
    requires Valid(presets) && caller != Null
    ensures id in presets.rows && Get(presets.rows[id], "username", Null) != caller ==>
      FindById(presets, id, OwnerFilter(caller)).None?
    ensures forall d :: d in PresetsOf(Delete(presets, id), anyone) ==> d["id"] != Str(id)
  {
    if id in presets.rows {
      OwnerFilterMatches(caller, presets.rows[id]);
    }
    FindAfterDelete(presets, id, EqFilter(OwnerFilter(anyone)), NoRegex);
    var after := Delete(presets, id);
    var found := FindEq(after, OwnerFilter(anyone));
    forall d | d in PresetsOf(after, anyone) ensures d["id"] != Str(id) {
      var k :| 0 <= k < |found| && PresetsOf(after, anyone)[k] == d;
      assert found[k] in found;
    }
  }

  /**
   * update_preset_status: a malformed id raises InvalidId (500); a preset that is missing or
   * someone else's is a 404; a patch naming `_id` is refused by the store (500); otherwise the
   * patch's fields overwrite the preset's, the others stay, and the new state is answered.
   */
  method UpdatePresetStatus(h: Headers, presetId: string, data: Doc, cfg: Config, presets: Collection)
    returns (r: Result<Doc>)
    modifies presets
    ensures r.Err? ==> presets.View() == old(presets.View())
    ensures PresetsCaller(h, cfg.decode).Err? ==> r == Err(PresetsCaller(h, cfg.decode).error)
    ensures PresetsCaller(h, cfg.decode).Ok? && ParseObjectId(presetId).None? ==> r == Err(InternalError)
    ensures
      && PresetsCaller(h, cfg.decode).Ok?
      && ParseObjectId(presetId).Some?
      && FindById(old(presets.View()), ParseObjectId(presetId).value, OwnerFilter(PresetsCaller(h, cfg.decode).value)).None?
      ==> r == Err(ErrPresetNotFound)
    ensures r.Ok? <==>
      && PresetsCaller(h, cfg.decode).Ok?
      && ParseObjectId(presetId).Some?
      && FindById(old(presets.View()), ParseObjectId(presetId).value, OwnerFilter(PresetsCaller(h, cfg.decode).value)).Some?
      && "_id" !in data
    ensures r.Ok? ==>
      var id := ParseObjectId(presetId).value;
      && presets.View() == SetFields(old(presets.View()), id, data)
      && r.value == WithId((id, old(presets.rows)[id] + data))
  {
    var username := PresetsCaller(h, cfg.decode);
    if username.Err? {
      return Err(username.error);
    }
    var objId := ParseObjectId(presetId);
    if objId.None? {
      return Err(InternalError);
    }
    var preset := presets.FindOneById(objId.value, OwnerFilter(username.value));
    if preset.None? {
      return Err(ErrPresetNotFound);
    }
    if "_id" in data {
      return Err(InternalError);
    }
    presets.UpdateOne(objId.value, data);
    var updated := presets.FindOneById(objId.value, map[]);
    r := Ok(WithId((objId.value, updated.value)));
  }

  /** A patch changes exactly the fields it names; a patch that does not name `username`
      leaves the preset in its owner's listing. */
  lemma PatchSpec(presets: Table, id: Oid, data: Doc, owner: Value)
    requires Valid(presets) && id in presets.rows && "_id" !in data && owner != Null
    requires Get(presets.rows[id], "username", Null) == owner
    ensures var after := SetFields(presets, id, data).rows[id];
      && (forall k :: k in data ==> after[k] == data[k])
      && (forall k :: k !in data && k in presets.rows[id] ==> after[k] == presets.rows[id][k])
      && after.Keys == presets.rows[id].Keys + data.Keys
    ensures "username" !in data ==>
      WithId((id, SetFields(presets, id, data).rows[id])) in PresetsOf(SetFields(presets, id, data), owner)
  {
    SetFieldsPreservesValid(presets, id, data);
    PresetsOfSpec(SetFields(presets, id, data), owner);
  }
}
