/** The CRUD facade (class TrueDNSApi): layered options, and the four record
 *  operations, each one exchange with the service followed by a patch of the
 *  record cache. The service is a parameter of each call (see Protocol). */
module Api {
  import opened Wrappers
  import opened PhpArrays
  import opened Xml
  import opened Protocol
  import opened RecordCache

  /** What a facade operation returns: a value, PHP `false`, or nothing because
   *  the script died of the fatal error on an unparsable reply. */
  datatype Outcome<T> = Ok(value: T) | Failed | Crashed

  /** The defaults TrueDNSApi declares for its options. */
  const DefaultOptions: Options := [
    ("username", Text("")),
    ("password", Text("")),
    ("service", Text("https://www.truecare.nl/xml_engine.php")),
    ("hash", Text("")),
    ("verifySSL", Flag(false)),
    ("dryRun", Flag(false))
  ]

  /** The constructor's merge: the parent class's defaults (empty when there is
   *  no parent), overridden by the class's own defaults, overridden by the
   *  options passed in. */
  function EffectiveOptions(parentDefaults: Options, classDefaults: Options, explicit: Options): Options
  {
    var defaults := if parentDefaults != [] then Merge(parentDefaults, classDefaults) else classDefaults;
    Merge(defaults, explicit)
  }

  /** Each option comes from the explicit options if given there, else from the
   *  class defaults, else from the parent defaults. */
  lemma OptionPrecedence(parentDefaults: Options, classDefaults: Options, explicit: Options, key: string)
    requires DistinctKeys(classDefaults) && DistinctKeys(explicit)
    ensures Get(EffectiveOptions(parentDefaults, classDefaults, explicit), key)
         == if HasKey(explicit, key) then Get(explicit, key)
            else if HasKey(classDefaults, key) then Get(classDefaults, key)
            else Get(parentDefaults, key)
  {
    var defaults := if parentDefaults != [] then Merge(parentDefaults, classDefaults) else classDefaults;
    GetMerge(defaults, explicit, key);
    if parentDefaults != [] {
      GetMerge(parentDefaults, classDefaults, key);
    }
  }

  /** The fields records_edit lets through. */
  const EditFields: set<string> := {"content", "prio", "ttl"}

  /** The fields records_add lets through (`name` is derived, not taken). */
  const AddFields: set<string> := {"type", "content", "prio", "ttl"}

  /** The fully-qualified name records_add gives the new record. */
  function Fqdn(domain: string, subDomain: string): (name: string)
    ensures |name| >= |domain| && name[|name| - |domain|..] == domain
    ensures subDomain == "" <==> name == domain
    ensures subDomain != "" ==>
      && |name| == |subDomain| + |domain| + (if subDomain[|subDomain| - 1] == '.' then 0 else 1)
      && name[..|subDomain|] == subDomain
      && name[|name| - |domain| - 1] == '.'
  {
    if subDomain == "" then domain
    else if subDomain[|subDomain| - 1] == '.' then subDomain + domain
    else subDomain + "." + domain
  }

  function IndexParams(domain: string): Arr<string>
  {
    [("domain", domain)]
  }

  /** The parameters records_edit sends: `domain`, `record_id`, then the
   *  allowed fields of the data in their input order. */
  function EditParams(domain: string, recordId: string, data: Arr<string>): Arr<string>
  {
    [("domain", domain), ("record_id", recordId)] + IntersectKey(data, EditFields)
  }

  function DeleteParams(domain: string, recordId: string): Arr<string>
  {
    [("domain", domain), ("record_id", recordId)]
  }

  /** The allow-listed data of records_add with `name` set to the derived FQDN. */
  function AddFieldsOf(domain: string, subDomain: string, data: Arr<string>): Arr<string>
  {
    Set(IntersectKey(data, AddFields), "name", Fqdn(domain, subDomain))
  }

  /** The parameters records_add sends: `domain`, the allowed fields of the
   *  data in their input order, then `name`. */
  function AddParams(domain: string, subDomain: string, data: Arr<string>): Arr<string>
  {
    [("domain", domain)] + IntersectKey(data, AddFields) + [("name", Fqdn(domain, subDomain))]
  }

  /** The array union records_edit forms puts `domain` and `record_id` in
   *  front of the allowed fields and loses none of them, since no allowed key
   *  clashes with either: it is exactly EditParams. Only entries of the data
   *  under content, prio or ttl are sent, and all of them are. */
  lemma EditSendsAllowedFields(domain: string, recordId: string, data: Arr<string>)
    ensures Union([("domain", domain), ("record_id", recordId)], IntersectKey(data, EditFields))
         == EditParams(domain, recordId, data)
    ensures forall e :: e in IntersectKey(data, EditFields) <==> e in data && e.0 in EditFields
  {
    var fields := IntersectKey(data, EditFields);
    var header := [("domain", domain), ("record_id", recordId)];
    IntersectKeyEntries(data, EditFields);
    assert header[1..][1..] == [];
    forall i | 0 <= i < |fields| ensures !HasKey(header, fields[i].0) {
      assert fields[i] in fields;
      var k := fields[i].0;
      assert k in EditFields;
      assert k != "domain" && k != "record_id";
      assert Get(header[1..][1..], k) == None;
      assert Get(header[1..], k) == None;
    }
    UnionOfDisjoint(header, fields);
  }

  /** records_add writes `name` after the allowed fields (no allowed key is
   *  `name`), and the union with `domain` loses none of them: it is exactly
   *  AddParams, with `name` always present and always last. Only entries of
   *  the data under type, content, prio or ttl are sent, and all of them are. */
  lemma AddSendsAllowedFields(domain: string, subDomain: string, data: Arr<string>)
    ensures AddFieldsOf(domain, subDomain, data) == IntersectKey(data, AddFields) + [("name", Fqdn(domain, subDomain))]
    ensures Union([("domain", domain)], AddFieldsOf(domain, subDomain, data)) == AddParams(domain, subDomain, data)
    ensures forall e :: e in IntersectKey(data, AddFields) <==> e in data && e.0 in AddFields
  {
    var allowed := IntersectKey(data, AddFields);
    var name := Fqdn(domain, subDomain);
    GetIntersectKey(data, AddFields, "name");
    SetAbsent(allowed, "name", name);
    var fields := allowed + [("name", name)];
    IntersectKeyEntries(data, AddFields);
    var header := [("domain", domain)];
    assert header[1..] == [];
    forall i | 0 <= i < |fields| ensures !HasKey(header, fields[i].0) {
      if i < |allowed| {
        assert fields[i] == allowed[i] && allowed[i] in allowed;
        assert fields[i].0 in AddFields;
      } else {
        assert fields[i] == ("name", name);
      }
      assert fields[i].0 != "domain";
      assert Get(header[1..], fields[i].0) == None;
    }
    UnionOfDisjoint(header, fields);
  }

  /** One exchange as the facade makes it: TrueDNSApi_Request is given the
   *  client's options and sends at once. */
  function Call(opts: Options, command: string, params: Arr<string>, service: Service): Exchange
  {
    Perform(Merge([], opts), command, params, service)
  }

  /** `$body->DNS->RECORDS_ADD->RECORD_ID` as records_add reads it: each step is
   *  the first child with that tag. None when a step is missing or the id is
   *  `empty()`; otherwise the `(string)` text of RECORD_ID. */
  function NewRecordId(root: Element): (id: Option<string>)
    ensures id.Some? <==>
      && Child(root, "DNS").Some?
      && Child(Child(root, "DNS").value, "RECORDS_ADD").Some?
      && Child(Child(Child(root, "DNS").value, "RECORDS_ADD").value, "RECORD_ID").Some?
      && !IsBlank(Child(Child(Child(root, "DNS").value, "RECORDS_ADD").value, "RECORD_ID").value)
    ensures id.Some? ==>
      var rid := Child(Child(Child(root, "DNS").value, "RECORDS_ADD").value, "RECORD_ID").value;
      && id.value == rid.text
      && (rid.children == [] ==> id.value != "" && id.value != "0")
  {
    match Child(root, "DNS")
    case None => None
    case Some(dns) =>
      match Child(dns, "RECORDS_ADD")
      case None => None
      case Some(added) =>
        match Child(added, "RECORD_ID")
        case None => None
        case Some(rid) => if IsBlank(rid) then None else Some(rid.text)
  }

  /** records_index: result and new cache. A fetched record set is stored as the
   *  whole cache under the domain (see RecordsIndex). */
  function IndexSpec(cache: Cache, opts: Options, domain: string, service: Service): (Outcome<Records>, Cache)
  {
    var cached := Get(cache, domain);
    if cached.Some? && cached.value != [] then (Ok(cached.value), cache)
    else
      var x := Call(opts, "records_index", IndexParams(domain), service);
      if !x.body.Document? then (Crashed, cache)
      else if Truthy(x.errors) then (Failed, cache)
      else
        var fetched := RecordsOf(FindAll(x.body.root, "RECORD"));
        (Ok(fetched), [(domain, fetched)])
  }

  function EditSpec(cache: Cache, opts: Options, domain: string, recordId: string, data: Arr<string>, service: Service): (Outcome<()>, Cache)
  {
    var fields := IntersectKey(data, EditFields);
    var x := Call(opts, "records_edit", EditParams(domain, recordId, data), service);
    if !x.body.Document? then (Crashed, cache)
    else if Truthy(x.errors) then (Failed, cache)
    else (Ok(()), EditCache(cache, domain, recordId, fields))
  }

  function DeleteSpec(cache: Cache, opts: Options, domain: string, recordId: string, service: Service): (Outcome<()>, Cache)
  {
    var x := Call(opts, "records_delete", DeleteParams(domain, recordId), service);
    if !x.body.Document? then (Crashed, cache)
    else if Truthy(x.errors) then (Failed, cache)
    else (Ok(()), DeleteCache(cache, domain, recordId))
  }

  function AddSpec(cache: Cache, opts: Options, domain: string, subDomain: string, data: Arr<string>, service: Service): (Outcome<string>, Cache)
  {
    var fields := AddFieldsOf(domain, subDomain, data);
    var x := Call(opts, "records_add", AddParams(domain, subDomain, data), service);
    if !x.body.Document? then (Crashed, cache)
    else if Truthy(x.errors) then (Failed, cache)
    else
      match NewRecordId(x.body.root)
      case None => (Failed, cache)
      case Some(id) => (Ok(id), AddCache(cache, domain, id, fields))
  }

  /** The reply the service gives to the command the facade posts. */
  function ReplyTo(opts: Options, command: string, params: Arr<string>, service: Service): Reply
  {
    service(PostFor(Merge([], opts), command, params))
  }

  /** A cached, non-empty record set is returned as it is, without a request:
   *  the result does not depend on the service at all. */
  lemma IndexServesCache(cache: Cache, opts: Options, domain: string, service: Service, other: Service)
    requires HasKey(cache, domain) && GetOr(cache, domain, []) != []
    ensures IndexSpec(cache, opts, domain, service) == (Ok(GetOr(cache, domain, [])), cache)
    ensures IndexSpec(cache, opts, domain, service) == IndexSpec(cache, opts, domain, other)
  {
  }

  /** Otherwise records_index succeeds exactly when the exchange is clean; it
   *  then returns one entry per distinct RECORD id and replaces the whole
   *  cache with that set under the domain, dropping every other domain and
   *  every local patch. On failure the cache is unchanged. */
  lemma IndexFetches(cache: Cache, opts: Options, domain: string, service: Service)
    requires !HasKey(cache, domain) || GetOr(cache, domain, []) == []
    ensures var reply := ReplyTo(opts, "records_index", IndexParams(domain), service);
      var (r, after) := IndexSpec(cache, opts, domain, service);
      && (r.Ok? <==> Clean(reply))
      && (r.Crashed? <==> reply.document.None?)
      && (!r.Ok? ==> after == cache)
      && (r.Ok? ==>
            var fetched := RecordsOf(FindAll(reply.document.value, "RECORD"));
            && r.value == fetched
            && after == [(domain, fetched)]
            && DistinctKeys(fetched)
            && forall id :: HasKey(fetched, id) <==>
                 exists i :: 0 <= i < |FindAll(reply.document.value, "RECORD")| &&
                   IdOf(FindAll(reply.document.value, "RECORD")[i]) == id)
  {
    var reply := ReplyTo(opts, "records_index", IndexParams(domain), service);
    ExchangeVerdict(reply);
    if reply.document.Some? {
      var found := FindAll(reply.document.value, "RECORD");
      RecordsOfDistinct(found);
      forall id {
        RecordsOfKeys(found, id);
      }
    }
  }

  /** The cache short-circuit under the domain-keyed rendering of line 60:
   *  right after records_index returned a non-empty set, the next
   *  records_index for that domain returns the same set with no request,
   *  whatever the service would have said. (The PHP's id-keyed cache misses
   *  here unless a record id equals the domain name, and it fetches again.) */
  lemma IndexAgainIsServedFromCache(cache: Cache, opts: Options, domain: string, service: Service, later: Service)
    requires IndexSpec(cache, opts, domain, service).0.Ok?
    requires IndexSpec(cache, opts, domain, service).0.value != []
    ensures var (r, after) := IndexSpec(cache, opts, domain, service);
      IndexSpec(after, opts, domain, later) == (r, after)
  {
  }

  /** records_edit succeeds exactly when the exchange is clean. On failure the
   *  cache is unchanged; on success only the edited entry may change, it
   *  changes only if it was cached and non-empty, and it then takes the
   *  submitted values over its old ones. */
  lemma EditOutcome(cache: Cache, opts: Options, domain: string, recordId: string, data: Arr<string>, service: Service, d: string, k: string)
    requires DistinctKeys(data)
    ensures var fields := IntersectKey(data, EditFields);
      var reply := ReplyTo(opts, "records_edit", EditParams(domain, recordId, data), service);
      var (r, after) := EditSpec(cache, opts, domain, recordId, data, service);
      && (r.Ok? <==> Clean(reply))
      && (r.Crashed? <==> reply.document.None?)
      && (!r.Ok? ==> after == cache)
      && (r.Ok? ==>
            && Entry(after, d, k) == (if d == domain && k == recordId && Filled(cache, domain, recordId)
                                      then Some(Merge(Entry(cache, domain, recordId).value, fields))
                                      else Entry(cache, d, k))
            && (HasKey(after, d) <==> HasKey(cache, d))
            && |after| == |cache|)
  {
    var fields := IntersectKey(data, EditFields);
    var reply := ReplyTo(opts, "records_edit", EditParams(domain, recordId, data), service);
    ExchangeVerdict(reply);
    IntersectKeyDistinct(data, EditFields);
    EditCacheEffect(cache, domain, recordId, fields, d, k, "");
  }

  /** records_delete succeeds exactly when the exchange is clean; on success it
   *  removes the entry if it was cached and non-empty, and nothing else. */
  lemma DeleteOutcome(cache: Cache, opts: Options, domain: string, recordId: string, service: Service, d: string, k: string)
    ensures var reply := ReplyTo(opts, "records_delete", DeleteParams(domain, recordId), service);
      var (r, after) := DeleteSpec(cache, opts, domain, recordId, service);
      && (r.Ok? <==> Clean(reply))
      && (r.Crashed? <==> reply.document.None?)
      && (!r.Ok? ==> after == cache)
      && (r.Ok? ==>
            && Entry(after, d, k) == (if d == domain && k == recordId && Filled(cache, domain, recordId)
                                      then None else Entry(cache, d, k))
            && (HasKey(after, d) <==> HasKey(cache, d))
            && |after| == |cache|)
  {
    var reply := ReplyTo(opts, "records_delete", DeleteParams(domain, recordId), service);
    ExchangeVerdict(reply);
    DeleteCacheEffect(cache, domain, recordId, d, k);
  }

  /** records_add succeeds exactly when the exchange is clean and the reply
   *  names a non-empty new record id, which it returns. Otherwise the cache is
   *  unchanged. On success the entry under the new id is overwritten with the
   *  sent fields only if it was already cached and non-empty: a record id the
   *  cache lacks is never added. */
  lemma AddOutcome(cache: Cache, opts: Options, domain: string, subDomain: string, data: Arr<string>, service: Service, d: string, k: string)
    ensures var fields := AddFieldsOf(domain, subDomain, data);
      var reply := ReplyTo(opts, "records_add", AddParams(domain, subDomain, data), service);
      var (r, after) := AddSpec(cache, opts, domain, subDomain, data, service);
      && (r.Ok? <==> Clean(reply) && NewRecordId(reply.document.value).Some?)
      && (r.Crashed? <==> reply.document.None?)
      && (!r.Ok? ==> after == cache)
      && (r.Ok? ==>
            && r.value == NewRecordId(reply.document.value).value
            && (!Filled(cache, domain, r.value) ==> after == cache)
            && Entry(after, d, k) == (if d == domain && k == r.value && Filled(cache, domain, r.value)
                                      then Some(fields) else Entry(cache, d, k))
            && (HasKey(after, d) <==> HasKey(cache, d))
            && |after| == |cache|)
  {
    var fields := AddFieldsOf(domain, subDomain, data);
    var reply := ReplyTo(opts, "records_add", AddParams(domain, subDomain, data), service);
    ExchangeVerdict(reply);
    if reply.document.Some? {
      var id := NewRecordId(reply.document.value);
      if id.Some? {
        AddCacheEffect(cache, domain, id.value, fields, d, k);
      }
    }
  }

  /** The fetch loop of records_index: one entry per RECORD id, attribute by
   *  attribute, then `content`. */
  method CollectRecords(found: seq<Element>) returns (records: Records)
    ensures records == RecordsOf(found)
  {
    records := [];
    var i := 0;
    while i < |found|
      invariant 0 <= i <= |found|
      invariant records == RecordsOf(found[..i])
    {
      var record := found[i];
      var id := IdOf(record);
      ghost var before := records;
      ghost var existing := GetOr(before, id, []);
      var j := 0;
      while j < |record.attrs|
        invariant 0 <= j <= |record.attrs|
        invariant records == if j == 0 then before else Set(before, id, Merge(existing, record.attrs[..j]))
      {
        var name := record.attrs[j].0;
        var value := record.attrs[j].1;
        ghost var merged := Merge(existing, record.attrs[..j]);
        assert GetOr(records, id, []) == merged by {
          if j > 0 {
            GetSet(before, id, merged, id);
          } else {
            assert record.attrs[..j] == [];
          }
        }
        records := Set(records, id, Set(GetOr(records, id, []), name, value));
        assert record.attrs[..j + 1] == record.attrs[..j] + [(name, value)];
        MergeSnoc(existing, record.attrs[..j], name, value);
        if j > 0 {
          SetSet(before, id, merged, Set(merged, name, value));
        }
        j := j + 1;
      }
      assert record.attrs[..j] == record.attrs;
      ghost var merged := Merge(existing, record.attrs);
      assert GetOr(records, id, []) == merged by {
        if j > 0 {
          GetSet(before, id, merged, id);
        }
      }
      records := Set(records, id, Set(GetOr(records, id, []), "content", record.text));
      if j > 0 {
        SetSet(before, id, merged, Set(merged, "content", record.text));
      }
      assert found[..i + 1][..i] == found[..i];
      i := i + 1;
    }
    assert found[..i] == found;
  }

  /** TrueDNSApi: the options and the record cache. */
  class TrueDnsApi {
    var options: Options
    var records: Cache

    /** For a TrueDNSApi object, `parentDefaults` is empty and `classDefaults`
     *  is DefaultOptions; for an object of a subclass, `parentDefaults` is
     *  DefaultOptions and `classDefaults` the subclass's own. */
    constructor(parentDefaults: Options, classDefaults: Options, explicit: Options)
      ensures options == EffectiveOptions(parentDefaults, classDefaults, explicit)
      ensures records == []
    {
      var defaults := classDefaults;
      if parentDefaults != [] {
        defaults := Merge(parentDefaults, defaults);
      }
      options := Merge(defaults, explicit);
      records := [];
    }

    /** records_index. Where the source assigns the fetched id-keyed map to the
     *  whole cache, this model stores it as the whole cache under the domain:
     *  every other cached domain is discarded, as in the source. */
    method RecordsIndex(domain: string, service: Service) returns (r: Outcome<Records>)
      modifies this
      ensures options == old(options)
      ensures (r, records) == IndexSpec(old(records), options, domain, service)
    {
      var cached := Get(records, domain);
      if cached.Some? && cached.value != [] {
        return Ok(cached.value);
      }
      var req := new Request(options, "records_index", Some(IndexParams(domain)), service);
      ghost var x := Call(options, "records_index", IndexParams(domain), service);
      assert req.errors == x.errors && req.body == x.body;
      if !req.body.Document? {
        return Crashed;
      }
      if Truthy(req.errors) {
        return Failed;
      }
      var found := FindAll(req.body.root, "RECORD");
      var fetched := CollectRecords(found);
      records := [(domain, fetched)];
      r := Ok(fetched);
    }

    method RecordsEdit(domain: string, recordId: string, data: Arr<string>, service: Service) returns (r: Outcome<()>)
      modifies this
      ensures options == old(options)
      ensures (r, records) == EditSpec(old(records), options, domain, recordId, data, service)
    {
      var fields := IntersectKey(data, EditFields);
      var params := Union([("domain", domain), ("record_id", recordId)], fields);
      EditSendsAllowedFields(domain, recordId, data);
      var req := new Request(options, "records_edit", Some(params), service);
      ghost var x := Call(options, "records_edit", EditParams(domain, recordId, data), service);
      assert req.errors == x.errors && req.body == x.body;
      if !req.body.Document? {
        return Crashed;
      }
      if Truthy(req.errors) {
        return Failed;
      }
      if Filled(records, domain, recordId) {
        records := PutEntry(records, domain, recordId, Merge(Entry(records, domain, recordId).value, fields));
      }
      r := Ok(());
    }

    method RecordsDelete(domain: string, recordId: string, service: Service) returns (r: Outcome<()>)
      modifies this
      ensures options == old(options)
      ensures (r, records) == DeleteSpec(old(records), options, domain, recordId, service)
    {
      var req := new Request(options, "records_delete", Some(DeleteParams(domain, recordId)), service);
      ghost var x := Call(options, "records_delete", DeleteParams(domain, recordId), service);
      assert req.errors == x.errors && req.body == x.body;
      if !req.body.Document? {
        return Crashed;
      }
      if Truthy(req.errors) {
        return Failed;
      }
      if Filled(records, domain, recordId) {
        records := DropEntry(records, domain, recordId);
      }
      r := Ok(());
    }

    method RecordsAdd(domain: string, subDomain: string, data: Arr<string>, service: Service) returns (r: Outcome<string>)
      modifies this
      ensures options == old(options)
      ensures (r, records) == AddSpec(old(records), options, domain, subDomain, data, service)
    {
      var fields := IntersectKey(data, AddFields);
      fields := Set(fields, "name", Fqdn(domain, subDomain));
      assert fields == AddFieldsOf(domain, subDomain, data);
      var params := Union([("domain", domain)], fields);
      AddSendsAllowedFields(domain, subDomain, data);
      var req := new Request(options, "records_add", Some(params), service);
      ghost var x := Call(options, "records_add", AddParams(domain, subDomain, data), service);
      assert req.errors == x.errors && req.body == x.body;
      if !req.body.Document? {
        return Crashed;
      }
      if Truthy(req.errors) {
        return Failed;
      }
      var newId := NewRecordId(req.body.root);
      if newId.None? {
        return Failed;
      }
      var recordId := newId.value;
      if Filled(records, domain, recordId) {
        records := PutEntry(records, domain, recordId, fields);
      }
      r := Ok(recordId);
    }
  }
}
