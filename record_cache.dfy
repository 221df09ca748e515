/** The client's record cache: domain name -> record id -> attributes, as
 *  PHP arrays. How a fetched RECORD list becomes the id-keyed map, and how a
 *  successful edit, delete or add patches one cached entry. */
module RecordCache {
  import opened Wrappers
  import opened PhpArrays
  import opened Xml

  /** One record: attribute name -> value, plus the synthesised `content`. */
  type Attrs = Arr<string>

  /** One domain's records: record id -> attributes. */
  type Records = Arr<Attrs>

  /** The whole cache: domain name -> records. */
  type Cache = Arr<Records>

  /** `(string)$Record['id']`: the id attribute, "" when there is none. */
  function IdOf(e: Element): string
  {
    GetOr(e.attrs, "id", "")
  }

  /** One pass of the records_index loop: every attribute of the RECORD is
   *  written into the entry under its id, then `content` is set to its text. */
  function Collect(records: Records, e: Element): Records
  {
    var id := IdOf(e);
    Set(records, id, Set(Merge(GetOr(records, id, []), e.attrs), "content", e.text))
  }

  /** The id-keyed map records_index builds from the RECORD elements. */
  function RecordsOf(found: seq<Element>): Records
    decreases |found|
  {
    if found == [] then [] else Collect(RecordsOf(found[..|found| - 1]), found[|found| - 1])
  }

  /** One pass of the loop writes the entry under the element's id and no other. */
  lemma CollectEntry(records: Records, e: Element, id: string)
    ensures Get(Collect(records, e), id)
         == if id == IdOf(e) then Some(Set(Merge(GetOr(records, id, []), e.attrs), "content", e.text))
            else Get(records, id)
  {
    GetSet(records, IdOf(e), Set(Merge(GetOr(records, IdOf(e), []), e.attrs), "content", e.text), id);
  }

  /** There is one entry per distinct RECORD id, and no other. */
  lemma {:induction false} RecordsOfKeys(found: seq<Element>, id: string)
    ensures HasKey(RecordsOf(found), id) <==> exists i :: 0 <= i < |found| && IdOf(found[i]) == id
    decreases |found|
  {
    if found != [] {
      var n := |found| - 1;
      var before := RecordsOf(found[..n]);
      var e := found[n];
      assert RecordsOf(found) == Collect(before, e);
      CollectEntry(before, e, id);
      RecordsOfKeys(found[..n], id);
      if exists i :: 0 <= i < n && IdOf(found[..n][i]) == id {
        var i :| 0 <= i < n && IdOf(found[..n][i]) == id;
        assert found[..n][i] == found[i];
      }
      if exists i :: 0 <= i < |found| && IdOf(found[i]) == id {
        var i :| 0 <= i < |found| && IdOf(found[i]) == id;
        if i < n {
          assert found[..n][i] == found[i];
        }
      }
    }
  }

  lemma {:induction false} RecordsOfDistinct(found: seq<Element>)
    ensures DistinctKeys(RecordsOf(found))
    decreases |found|
  {
    if found != [] {
      var n := |found| - 1;
      var before := RecordsOf(found[..n]);
      var e := found[n];
      RecordsOfDistinct(found[..n]);
      SetDistinct(before, IdOf(e), Set(Merge(GetOr(before, IdOf(e), []), e.attrs), "content", e.text));
    }
  }

  /** The entry of the last RECORD with a given id holds each of its attributes
   *  with its value, except that `content` holds the element's text. */
  lemma {:induction false} RecordsOfEntry(found: seq<Element>, i: nat)
    requires i < |found|
    requires forall j :: i < j < |found| ==> IdOf(found[j]) != IdOf(found[i])
    requires DistinctKeys(found[i].attrs)
    ensures HasKey(RecordsOf(found), IdOf(found[i]))
    ensures var entry := GetOr(RecordsOf(found), IdOf(found[i]), []);
      && Get(entry, "content") == Some(found[i].text)
      && forall name :: name != "content" && HasKey(found[i].attrs, name) ==>
           Get(entry, name) == Get(found[i].attrs, name)
    decreases |found|
  {
    var n := |found| - 1;
    var before := RecordsOf(found[..n]);
    var e := found[n];
    var id := IdOf(found[i]);
    assert RecordsOf(found) == Collect(before, e);
    CollectEntry(before, e, id);
    if i == n {
      var merged := Merge(GetOr(before, id, []), e.attrs);
      assert GetOr(RecordsOf(found), id, []) == Set(merged, "content", e.text);
      GetSet(merged, "content", e.text, "content");
      forall name | name != "content" && HasKey(e.attrs, name)
        ensures Get(Set(merged, "content", e.text), name) == Get(e.attrs, name)
      {
        GetSet(merged, "content", e.text, name);
        GetMerge(GetOr(before, id, []), e.attrs, name);
      }
    } else {
      assert found[..n][i] == found[i];
      forall j | i < j < n ensures IdOf(found[..n][j]) != id {
        assert found[..n][j] == found[j];
      }
      RecordsOfEntry(found[..n], i);
      assert GetOr(RecordsOf(found), id, []) == GetOr(before, id, []);
    }
  }

  /** A RECORD whose id no other RECORD carries gets exactly its own
   *  attributes, in order, then `content` = its text, and nothing else. */
  lemma {:induction false} RecordsOfUniqueEntry(found: seq<Element>, i: nat)
    requires i < |found|
    requires forall j :: 0 <= j < |found| && j != i ==> IdOf(found[j]) != IdOf(found[i])
    ensures Get(RecordsOf(found), IdOf(found[i])) == Some(Set(Merge([], found[i].attrs), "content", found[i].text))
    decreases |found|
  {
    var n := |found| - 1;
    var before := RecordsOf(found[..n]);
    var e := found[n];
    var id := IdOf(found[i]);
    assert RecordsOf(found) == Collect(before, e);
    CollectEntry(before, e, id);
    if i == n {
      RecordsOfKeys(found[..n], id);
      forall j | 0 <= j < n ensures IdOf(found[..n][j]) != id {
        assert found[..n][j] == found[j];
      }
      assert GetOr(before, id, []) == [];
    } else {
      assert found[..n][i] == found[i];
      forall j | 0 <= j < n && j != i ensures IdOf(found[..n][j]) != id {
        assert found[..n][j] == found[j];
      }
      RecordsOfUniqueEntry(found[..n], i);
    }
  }

  /** `$this->_records[$domain][$id]`, if both keys are there. */
  function Entry(c: Cache, domain: string, id: string): Option<Attrs>
  {
    match Get(c, domain)
    case None => None
    case Some(records) => Get(records, id)
  }

  /** `!empty($this->_records[$domain][$id])`: the guard of every cache write. */
  predicate Filled(c: Cache, domain: string, id: string)
  {
    Entry(c, domain, id).Some? && Entry(c, domain, id).value != []
  }

  /** `$this->_records[$domain][$id] = $attrs`. */
  function PutEntry(c: Cache, domain: string, id: string, attrs: Attrs): Cache
  {
    Set(c, domain, Set(GetOr(c, domain, []), id, attrs))
  }

  /** `unset($this->_records[$domain][$id])`. */
  function DropEntry(c: Cache, domain: string, id: string): Cache
  {
    Set(c, domain, Unset(GetOr(c, domain, []), id))
  }

  /** The cache after a successful records_edit: the submitted fields merged
   *  over a cached, non-empty entry; nothing otherwise. */
  function EditCache(c: Cache, domain: string, id: string, fields: Attrs): Cache
  {
    if Filled(c, domain, id) then PutEntry(c, domain, id, Merge(Entry(c, domain, id).value, fields)) else c
  }

  /** The cache after a successful records_delete. */
  function DeleteCache(c: Cache, domain: string, id: string): Cache
  {
    if Filled(c, domain, id) then DropEntry(c, domain, id) else c
  }

  /** The cache after a successful records_add of record `id`: written only when
   *  an entry under that id is already cached. */
  function AddCache(c: Cache, domain: string, id: string, fields: Attrs): Cache
  {
    if Filled(c, domain, id) then PutEntry(c, domain, id, fields) else c
  }

  /** Writing an existing entry changes that entry and nothing else: no domain
   *  and no record id appears or disappears, and the cache keeps its size. */
  lemma PutEntryEffect(c: Cache, domain: string, id: string, attrs: Attrs, d: string, k: string)
    requires Filled(c, domain, id)
    ensures Entry(PutEntry(c, domain, id, attrs), d, k)
         == if d == domain && k == id then Some(attrs) else Entry(c, d, k)
    ensures HasKey(PutEntry(c, domain, id, attrs), d) <==> HasKey(c, d)
    ensures |PutEntry(c, domain, id, attrs)| == |c|
  {
    var records := GetOr(c, domain, []);
    GetSet(c, domain, Set(records, id, attrs), d);
    GetSet(records, id, attrs, k);
    SetPresent(c, domain, Set(records, id, attrs));
  }

  /** Dropping an existing entry removes that entry and nothing else. */
  lemma DropEntryEffect(c: Cache, domain: string, id: string, d: string, k: string)
    requires Filled(c, domain, id)
    ensures Entry(DropEntry(c, domain, id), d, k)
         == if d == domain && k == id then None else Entry(c, d, k)
    ensures HasKey(DropEntry(c, domain, id), d) <==> HasKey(c, d)
    ensures |DropEntry(c, domain, id)| == |c|
  {
    var records := GetOr(c, domain, []);
    GetSet(c, domain, Unset(records, id), d);
    GetUnset(records, id, k);
    SetPresent(c, domain, Unset(records, id));
  }

  /** A successful edit: the edited entry, if cached and non-empty, keeps its
   *  other attributes and takes the submitted values; every other entry, and
   *  every absent one, stays as it was. */
  lemma EditCacheEffect(c: Cache, domain: string, id: string, fields: Attrs, d: string, k: string, name: string)
    requires DistinctKeys(fields)
    ensures Entry(EditCache(c, domain, id, fields), d, k)
         == if d == domain && k == id && Filled(c, domain, id)
            then Some(Merge(Entry(c, domain, id).value, fields))
            else Entry(c, d, k)
    ensures Filled(c, domain, id) ==>
      var now := Entry(EditCache(c, domain, id, fields), domain, id);
      && now.Some?
      && Get(now.value, name) == if HasKey(fields, name) then Get(fields, name) else Get(Entry(c, domain, id).value, name)
    ensures HasKey(EditCache(c, domain, id, fields), d) <==> HasKey(c, d)
    ensures |EditCache(c, domain, id, fields)| == |c|
  {
    if Filled(c, domain, id) {
      var merged := Merge(Entry(c, domain, id).value, fields);
      PutEntryEffect(c, domain, id, merged, d, k);
      PutEntryEffect(c, domain, id, merged, domain, id);
      GetMerge(Entry(c, domain, id).value, fields, name);
    }
  }

  /** A successful delete removes the entry if it was cached and non-empty,
   *  and changes nothing else. */
  lemma DeleteCacheEffect(c: Cache, domain: string, id: string, d: string, k: string)
    ensures Entry(DeleteCache(c, domain, id), d, k)
         == if d == domain && k == id && Filled(c, domain, id) then None else Entry(c, d, k)
    ensures HasKey(DeleteCache(c, domain, id), d) <==> HasKey(c, d)
    ensures |DeleteCache(c, domain, id)| == |c|
  {
    if Filled(c, domain, id) {
      DropEntryEffect(c, domain, id, d, k);
    }
  }

  /** A successful add overwrites the entry under the new id only when one is
   *  already cached and non-empty; a record id the cache lacks is never added. */
  lemma AddCacheEffect(c: Cache, domain: string, id: string, fields: Attrs, d: string, k: string)
    ensures Entry(AddCache(c, domain, id, fields), d, k)
         == if d == domain && k == id && Filled(c, domain, id) then Some(fields) else Entry(c, d, k)
    ensures !Filled(c, domain, id) ==> AddCache(c, domain, id, fields) == c
    ensures HasKey(AddCache(c, domain, id, fields), d) <==> HasKey(c, d)
    ensures |AddCache(c, domain, id, fields)| == |c|
  {
    if Filled(c, domain, id) {
      PutEntryEffect(c, domain, id, fields, d, k);
    }
  }
}
