# TrueDNSApi — a verified model of the PHP DNS-record client

TrueDNSApi is a small PHP client for a DNS-record web service. Each call posts an
authenticated XML command (`records_index`, `records_edit`, `records_delete`,
`records_add`) and reads an XML reply. The client keeps a record cache so that it
can answer repeated index calls locally. This project models the client's two
classes in Dafny:

- `TrueDNSApi_Request` becomes `Protocol.Request`. It builds the command tree
  (`formXML`), posts it, and collects the transport and server errors (`send`).
- `TrueDNSApi` becomes `Api.TrueDnsApi`. It covers the option merge, the four
  record operations, the allow-listing of their fields, the FQDN derivation for
  new records, and the record cache `_records`.

The model is built from these parts:

- PHP's ordered string-keyed arrays are sequences of (key, value) pairs
  (`PhpArrays`). `$a[$k] = $v`, `unset`, `+`, `array_intersect_key` and
  `array_merge` each become a function, with lemmas about what a key looks up
  afterwards.
- XML documents are element trees (`Xml`). `//TAG` is a pre-order tree search,
  `$e->TAG` is the first child with that tag, and SimpleXML's `empty()` is
  `IsBlank`.
- The network is a function `Service` from what is posted (service URL, command
  tree, hash) to what comes back: the cURL error number and message, and the
  reply parsed as a tree, or nothing when it does not parse. Each facade method
  takes the service as a parameter, so every operation is deterministic and its
  effect on the cache can be stated exactly.
- An unparsable reply makes `send` call `xpath` on `false` (TrueDNSApi.php:246).
  That is a fatal error that ends the PHP script. Here it is the `Fatal` send
  result and the `Crashed` facade outcome, and the cache is left as it was.
- Each facade method is a method on the class with the fields `options` and
  `records`. It is proved equal to a specification function (`IndexSpec`,
  `EditSpec`, `DeleteSpec`, `AddSpec`) that returns the outcome and the new cache.
  Lemmas about those functions state what the operations promise.
- The cache is typed domain → record id → attributes, as the guards at lines 36,
  86, 107 and 155 read it. Line 60 assigns the fetched id-keyed map to the whole
  `_records` field, so in PHP the domain-keyed guards then look a domain name up
  among record ids. This model does not keep that mix of key kinds. It renders
  line 60 as "the cache becomes {domain ↦ fetched records}". The cache lemmas
  (`IndexFetches`, `IndexAgainIsServedFromCache` and the write lemmas) are
  therefore properties of this rendering, not of the PHP as it runs; "## Left
  out" says where the two part ways.
- The source's quirks are kept as written and stated by lemmas:
  - an add never caches a record id the cache lacks (`AddOutcome`);
  - in the rendering, a fetch replaces the whole cache, so only the domain of
    the last fetch stays cached (`IndexFetches`, and `|after| == |cache|` in
    the write lemmas);
  - the dry-run marker cannot be told apart from a parameter named `dryrun`
    (`DryRunMarkerIsAmbiguous`).
- `Option` (`Wrappers`) is the optional value used throughout: a missing array
  key, an absent child element, a reply that does not parse.

## Model

| member | source | states |
|---|---|---|
| PhpArrays.GetSet | TrueDNSApi.php:54 | after `$a[$k] = $v`, key `k` reads `v` and every other key reads as before |
| PhpArrays.GetUnset | TrueDNSApi.php:108 | after `unset($a[$k])`, `k` is absent and every other key reads as before |
| PhpArrays.GetUnion | TrueDNSApi.php:75-78 | `$a + $b` reads a key from `a` when `a` has it, else from `b` |
| PhpArrays.UnionOfDisjoint | TrueDNSApi.php:137-139 | when `b` shares no key with `a`, `$a + $b` is `a` followed by `b` |
| PhpArrays.GetIntersectKey | TrueDNSApi.php:72 | `array_intersect_key` keeps a key's value exactly when the key is allowed |
| PhpArrays.IntersectKeyEntries | TrueDNSApi.php:72 | the kept entries are exactly the entries of the input whose key is allowed |
| PhpArrays.GetMerge | TrueDNSApi.php:27 | `array_merge($a, $b)` reads a key from `b` when `b` has it, else from `a` |
| PhpArrays.MergeSnoc | TrueDNSApi.php:53-55 | merging one more entry is one more `$a[$k] = $v`, which is what the attribute loop does |
| Xml.FindAllSound | TrueDNSApi.php:246 | every element `//TAG` returns has that tag and lies in the document |
| Xml.FindAllComplete | TrueDNSApi.php:50 | `//TAG` misses no element with that tag anywhere in the document |
| Xml.Child | TrueDNSApi.php:146 | `$e->TAG` is the first child of `e` with that tag: it has the tag and no earlier child does; when there is none, no child has it |
| Xml.ToUpperSpec | TrueDNSApi.php:200 | `strtoupper` keeps the length, upper-cases each ASCII letter and leaves no lower-case letter |
| Protocol.ParamElementsAt | TrueDNSApi.php:199-202 | the i-th parameter becomes an element tagged with its upper-cased key and holding its value |
| Protocol.CommandDocumentLayout | TrueDNSApi.php:186-202 | the command has root XML with AUTH (DEB_ID = username, PASSWORD = password), then ACTION with scope "dns" and type = the method; ACTION has a DRYRUN = "true" child first exactly when dry-run is on, then one child per parameter in order |
| Protocol.ParamElementsPrepend | TrueDNSApi.php:199-202 | a parameter in front of the others yields its element in front of theirs |
| Protocol.DryRunMarkerIsAmbiguous | TrueDNSApi.php:196-202 | for the same credentials, a dry-run command is the same document as the live command whose first parameter is `dryrun` = "true", so the server cannot tell them apart |
| Protocol.Request.FormXml | TrueDNSApi.php:186-202 | the tree grown child by child is exactly the command document for the options, method and parameters |
| Protocol.ServerMessagesAt | TrueDNSApi.php:248-250 | the i-th server message is "Serverside error: " followed by the text of the i-th ERROR element |
| Protocol.ExchangeClearedIffClean | TrueDNSApi.php:236-257 | `errors` becomes `false`, and send returns true, exactly when there is no transport error, the reply parses and it has no ERROR element; send dies exactly when the reply does not parse |
| Protocol.ExchangeErrorList | TrueDNSApi.php:236-257 | for a reply that parses, `errors` is `false` or a non-empty list that is truthy: the cURL message if any, then one server message per ERROR element in document order |
| Protocol.ExchangeVerdict | TrueDNSApi.php:242-257 | the body is a document exactly when the reply parses, and then `errors` is truthy exactly when the exchange was not clean |
| Protocol.Request.AppendServerErrors | TrueDNSApi.php:247-250 | the loop appends one "Serverside error: " message per ERROR element, in document order, and changes nothing else |
| Protocol.Request.Send | TrueDNSApi.php:213-258 | send clears its earlier state, keeps the options, posts the command for its options, and leaves return value, `errors` and `body` as the exchange determines for the service's reply |
| Protocol.Request.constructor | TrueDNSApi.php:178-184 | the request takes the options; with a non-empty method and parameters it sends at once, otherwise `errors` stays an empty list and `body` stays unloaded |
| RecordCache.CollectEntry | TrueDNSApi.php:53-56 | one pass of the loop writes the entry under the RECORD's id, as its old attributes with the RECORD's attributes written over them and then `content`, and leaves every other id as it was |
| RecordCache.RecordsOfKeys | TrueDNSApi.php:50-57 | the fetched map has an entry for a record id exactly when some RECORD element carries that id |
| RecordCache.RecordsOfDistinct | TrueDNSApi.php:52-57 | the fetched map holds each record id once |
| RecordCache.RecordsOfEntry | TrueDNSApi.php:52-57 | the entry of the last RECORD with an id holds `content` = its text (over a same-named attribute) and each of its other attributes with its value |
| RecordCache.RecordsOfUniqueEntry | TrueDNSApi.php:52-57 | a RECORD whose id no other RECORD carries gets exactly its own attributes in order, then `content` = its text, and nothing else |
| RecordCache.PutEntryEffect | TrueDNSApi.php:87 | writing a cached entry changes that entry only; no domain appears or disappears and the cache keeps its size |
| RecordCache.DropEntryEffect | TrueDNSApi.php:108 | unsetting a cached entry removes that entry only; no domain appears or disappears and the cache keeps its size |
| RecordCache.EditCacheEffect | TrueDNSApi.php:85-88 | a successful edit changes only the edited entry, only when it is cached and non-empty, and that entry then takes each submitted value and keeps its other attributes |
| RecordCache.DeleteCacheEffect | TrueDNSApi.php:106-109 | a successful delete removes the entry only when it is cached and non-empty, and changes nothing else |
| RecordCache.AddCacheEffect | TrueDNSApi.php:154-157 | a successful add overwrites the entry under the new id only when one is already cached and non-empty; otherwise the cache is unchanged |
| Api.OptionPrecedence | TrueDNSApi.php:21-32 | each option comes from the options passed in if given there, else from the class defaults, else from the parent class's defaults |
| Api.TrueDnsApi.constructor | TrueDNSApi.php:21-32 | the client's options are the layered merge of parent defaults, class defaults and the options passed in; the cache starts empty |
| Api.Fqdn | TrueDNSApi.php:124-132 | an empty subdomain gives the domain itself; otherwise the name starts with the subdomain and ends with `.` + domain, with no extra dot when the subdomain already ends in one |
| Api.EditSendsAllowedFields | TrueDNSApi.php:66-78 | the array union records_edit forms is `domain`, `record_id`, then exactly the entries of the data whose key is content, prio or ttl, in input order: no allowed field is lost and no other key is sent |
| Api.AddSendsAllowedFields | TrueDNSApi.php:115-139 | records_add writes `name` after the allowed fields, and the array union it forms is `domain`, then exactly the entries of the data whose key is type, content, prio or ttl, in input order, then `name` = the FQDN, always last |
| Api.IndexServesCache | TrueDNSApi.php:36-38 | a cached, non-empty record set for the domain is returned as it is, with the cache unchanged, whatever the service would reply |
| Api.IndexFetches | TrueDNSApi.php:40-62 | otherwise records_index succeeds exactly when the exchange is clean and dies exactly when the reply does not parse; on failure the cache is unchanged; on success it returns one entry per distinct RECORD id and the whole cache becomes that set under the domain |
| Api.IndexAgainIsServedFromCache | TrueDNSApi.php:36-62 | in the domain-keyed rendering of line 60: after a fetch that returned a non-empty set, the next records_index for the domain returns the same set with no request (the PHP re-fetches instead; see "## Left out") |
| Api.NewRecordId | TrueDNSApi.php:146-151 | records_add's new id is `Some` exactly when DNS, RECORDS_ADD and RECORD_ID are each found as the first child with that tag and RECORD_ID is not `empty()`; it is then RECORD_ID's text, which is neither "" nor "0" when RECORD_ID has no child elements |
| Api.EditOutcome | TrueDNSApi.php:65-91 | records_edit succeeds exactly when the exchange is clean; on failure the cache is unchanged; on success only a cached, non-empty edited entry changes, merged with the allowed fields, and the cache keeps its domains and size |
| Api.DeleteOutcome | TrueDNSApi.php:93-112 | records_delete succeeds exactly when the exchange is clean; on success only a cached, non-empty entry is removed, and the cache keeps its domains and size |
| Api.AddOutcome | TrueDNSApi.php:114-160 | records_add succeeds exactly when the exchange is clean and the reply names a non-empty RECORD_ID, which it returns; otherwise the cache is unchanged; an id the cache lacks is never added, and a cached one is overwritten with the sent fields |
| Api.CollectRecords | TrueDNSApi.php:50-57 | the nested attribute loop builds exactly the id-keyed record map described by the lemmas above |
| Api.TrueDnsApi.RecordsIndex | TrueDNSApi.php:34-63 | the method's result and new cache are those of the index specification; the options are unchanged |
| Api.TrueDnsApi.RecordsEdit | TrueDNSApi.php:65-91 | the method's result and new cache are those of the edit specification; the options are unchanged |
| Api.TrueDnsApi.RecordsDelete | TrueDNSApi.php:93-112 | the method's result and new cache are those of the delete specification; the options are unchanged |
| Api.TrueDnsApi.RecordsAdd | TrueDNSApi.php:114-160 | the method's result and new cache are those of the add specification; the options are unchanged |

## Left out

- The cURL transport (TrueDNSApi.php:222-239) is the `Service` parameter. The user agent, the POST mechanics and the `_curl` handle are not modelled. The verifySSL test sets the same flag in both branches, so the option has no effect on what is posted.
- XML serialisation and parsing (TrueDNSApi.php:204-210, 242) are not modelled. The command is the tree before `DOMDocument` formats it, and the reply is the tree `simplexml_load_string` yields. Escaping, whitespace and namespaces are not modelled.
- Diagnostics (`print_r`, `echo`, `var_dump` at lines 46, 81, 102, 142, 147-148, 243) are output only and are omitted.
- The reflection at lines 23-25 (`get_parent_class`, `get_class_vars`) is replaced by an explicit parent-defaults argument of the constructor, which is empty for `TrueDNSApi` itself.
- Integer keys and their renumbering by `array_merge` are not modelled: every key is a string.
- `$params = func_get_args()` (lines 40, 74, 95, 136) is never read, so it is omitted.
- PHP notices for a missing option or cache key are not modelled; the missing value reads as "" or as absent, as PHP evaluates it.
- `Protocol.Request.constructor`: a `null` method is modelled as the empty string, and `empty()` treats both the same.
- `Api.TrueDnsApi.RecordsIndex`: line 60 stores the fetched id-keyed map as the whole cache. Because the cache here is typed domain → id → attributes, that map is stored under the fetched domain and is the cache's only entry. The lookups that line 60 makes possible by a record id in place of a domain are not modelled.
- `Api.IndexAgainIsServedFromCache`, and the cache patches in `Api.EditOutcome`, `Api.DeleteOutcome` and `Api.AddOutcome`, hold for the domain-keyed rendering only. In the PHP, after a fetch the guards at lines 36, 86, 107 and 155 look the domain name up among record ids. So unless some record id equals the domain name, the PHP sends a new request on every records_index and never patches fetched records, while the model serves them from the cache and patches them.
- github/issues.php, a separate command-line script that reports issue labels, is not part of this model.
