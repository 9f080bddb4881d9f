/** The invoice record API of azurefn/invoice/function_app.py: `write_invoice` (POST)
    validates the two keys and upserts the caller's record with `Verified` forced to
    false; `get_invoice` (GET) reads a record back by its keys. The table is a map from
    key pairs to entities; the service being reachable is an input. */
module InvoiceApi {
  import opened Wrappers
  import opened PyJson

  /** The `InvoiceData` table: (PartitionKey, RowKey) to entity. */
  type Store = map<(Json, Json), Entity>

  datatype WriteReply = WriteReply(status: int, store: Store)

  datatype GetReply = GetReply(status: int, entity: Option<Entity>)

  const Reserved: set<string> := {"PartitionKey", "RowKey"}

  // ---------------------------------------------------------------------------
  // The store

  /** `upsert_entity` in its default merge mode: properties of the new entity replace
      those of a stored one with the same keys, the stored one's other properties stay. */
  function Upsert(store: Store, key: (Json, Json), e: Entity): (r: Store)
    ensures r.Keys == store.Keys + {key}
    ensures forall k | k in r && k != key :: r[k] == store[k]
    ensures r[key].Keys == e.Keys + (if key in store then store[key].Keys else {})
    ensures forall p | p in e :: r[key][p] == e[p]
    ensures key in store ==> forall p | p in store[key] && p !in e :: r[key][p] == store[key][p]
  {
    if key in store then store[key := store[key] + e] else store[key := e]
  }

  /** Upserting the same entity twice is upserting it once. */
  lemma UpsertIdempotent(store: Store, key: (Json, Json), e: Entity)
    ensures Upsert(Upsert(store, key, e), key, e) == Upsert(store, key, e)
  {
    var once := Upsert(store, key, e);
    var twice := Upsert(once, key, e);
    assert twice[key] == once[key];
  }

  // ---------------------------------------------------------------------------
  // write_invoice

  /** The record written for a request body's dict: the caller's keys, every other caller
      field unchanged, and `Verified` false last. */
  function RecordOf(pk: Json, rk: Json, d: map<string, Json>): (e: Entity)
    ensures e.Keys == (d.Keys - Reserved) + Reserved + {"Verified"}
    ensures e["PartitionKey"] == pk && e["RowKey"] == rk
    ensures e["Verified"] == JBool(false)
    ensures forall k | k in d && k !in Reserved && k != "Verified" :: e[k] == d[k]
  {
    map["PartitionKey" := pk, "RowKey" := rk] + (map k | k in d && k !in Reserved :: d[k]) + map["Verified" := JBool(false)]
  }

  /** `write_invoice`. `body` is what `req.get_json()` returns (None where it raises);
      `storeUp` says whether the upsert goes through. */
  function WriteInvoice(body: Option<Json>, storeUp: bool, store: Store): (r: WriteReply)
    ensures r.status in {200, 400, 500}
    ensures r.status != 200 ==> r.store == store
    ensures body.None? || !body.value.JObj? ==> r.status == 500
    ensures body.Some? && body.value.JObj? ==>
      var fs := body.value.fields;
      (r.status == 400 <==>
        !Truthy(Lookup(fs, "PartitionKey").GetOr(JNull)) || !Truthy(Lookup(fs, "RowKey").GetOr(JNull)))
    ensures r.status == 200 <==>
      body.Some? && body.value.JObj? && storeUp &&
      Truthy(Lookup(body.value.fields, "PartitionKey").GetOr(JNull)) &&
      Truthy(Lookup(body.value.fields, "RowKey").GetOr(JNull))
    ensures r.status == 200 ==>
      var fs := body.value.fields;
      var pk, rk := Lookup(fs, "PartitionKey").value, Lookup(fs, "RowKey").value;
      r.store == Upsert(store, (pk, rk), RecordOf(pk, rk, ObjectMap(fs)))
  {
    if body.None? || !body.value.JObj? then WriteReply(500, store)
    else
      var fs := body.value.fields;
      var pk := Lookup(fs, "PartitionKey").GetOr(JNull);
      var rk := Lookup(fs, "RowKey").GetOr(JNull);
      if !Truthy(pk) || !Truthy(rk) then WriteReply(400, store)
      else if !storeUp then WriteReply(500, store)
      else WriteReply(200, Upsert(store, (pk, rk), RecordOf(pk, rk, ObjectMap(fs))))
  }

  // ---------------------------------------------------------------------------
  // get_invoice

  /** `get_invoice`. `params` are the query parameters; a missing or empty key is 400, a
      missing record or an unreachable store raises and is 500. */
  function GetInvoice(params: map<string, string>, storeUp: bool, store: Store): (r: GetReply)
    ensures r.status in {200, 400, 500}
    ensures r.status == 400 <==>
      "PartitionKey" !in params || params["PartitionKey"] == "" || "RowKey" !in params || params["RowKey"] == ""
    ensures r.status == 200 <==>
      r.status != 400 && storeUp && (JStr(params["PartitionKey"]), JStr(params["RowKey"])) in store
    ensures r.status == 200 ==>
      r.entity == Some(store[(JStr(params["PartitionKey"]), JStr(params["RowKey"]))])
    ensures r.status != 200 ==> r.entity.None?
  {
    if "PartitionKey" !in params || params["PartitionKey"] == "" || "RowKey" !in params || params["RowKey"] == "" then
      GetReply(400, None)
    else
      var key := (JStr(params["PartitionKey"]), JStr(params["RowKey"]));
      if storeUp && key in store then GetReply(200, Some(store[key])) else GetReply(500, None)
  }

  // ---------------------------------------------------------------------------
  // Properties

  /** A rejected write changes nothing, whatever the store's state. */
  lemma MissingKeyWritesNothing(fs: seq<(string, Json)>, storeUp: bool, store: Store)
    requires Lookup(fs, "PartitionKey").None? || Lookup(fs, "RowKey") == Some(JStr(""))
    ensures WriteInvoice(Some(JObj(fs)), storeUp, store) == WriteReply(400, store)
  {
  }

  /** A caller cannot mark its own record verified: whatever it sends under `Verified`,
      the stored record says false. */
  lemma CallerCannotVerify(fs: seq<(string, Json)>, store: Store, pk: Json, rk: Json)
    requires Lookup(fs, "PartitionKey") == Some(pk) && Lookup(fs, "RowKey") == Some(rk)
    requires Truthy(pk) && Truthy(rk)
    ensures var r := WriteInvoice(Some(JObj(fs)), true, store);
      r.status == 200 && r.store[(pk, rk)]["Verified"] == JBool(false)
  {
    var e := RecordOf(pk, rk, ObjectMap(fs));
    assert "Verified" in e;
  }

  /** A record written with string keys reads back with 200: `Verified` false, the keys,
      and every other field the caller sent, unchanged. */
  lemma WriteThenGet(fs: seq<(string, Json)>, store: Store, s: string, t: string)
    requires Lookup(fs, "PartitionKey") == Some(JStr(s)) && Lookup(fs, "RowKey") == Some(JStr(t))
    requires s != "" && t != ""
    ensures var w := WriteInvoice(Some(JObj(fs)), true, store);
      var g := GetInvoice(map["PartitionKey" := s, "RowKey" := t], true, w.store);
      w.status == 200 && g.status == 200 && g.entity.Some? &&
      g.entity.value["Verified"] == JBool(false) &&
      g.entity.value["PartitionKey"] == JStr(s) && g.entity.value["RowKey"] == JStr(t) &&
      forall k | k in ObjectMap(fs) && k !in Reserved && k != "Verified" :: g.entity.value[k] == ObjectMap(fs)[k]
  {
    assert Truthy(JStr(s)) && Truthy(JStr(t));
    var w := WriteInvoice(Some(JObj(fs)), true, store);
    var key := (JStr(s), JStr(t));
    var e := RecordOf(JStr(s), JStr(t), ObjectMap(fs));
    assert w.status == 200;
    assert w.store == Upsert(store, key, e);
    var g := GetInvoice(map["PartitionKey" := s, "RowKey" := t], true, w.store);
    assert g.status == 200 && g.entity == Some(w.store[key]) by {
      var params := map["PartitionKey" := s, "RowKey" := t];
      assert params["PartitionKey"] == s && params["RowKey"] == t;
    }
    forall k | k in e
      ensures w.store[key][k] == e[k]
    {
    }
  }

  /** A write leaves every other record as it was. */
  lemma WriteIsLocal(body: Option<Json>, storeUp: bool, store: Store, other: (Json, Json))
    requires other in store
    requires WriteInvoice(body, storeUp, store).status == 200
    requires other != (Lookup(body.value.fields, "PartitionKey").value, Lookup(body.value.fields, "RowKey").value)
    ensures other in WriteInvoice(body, storeUp, store).store
    ensures WriteInvoice(body, storeUp, store).store[other] == store[other]
  {
  }
}
