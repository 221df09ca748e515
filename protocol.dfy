/** One exchange with the DNS service (class TrueDNSApi_Request): build the
 *  authenticated XML command, post it, read the reply and collect the
 *  transport and server-reported errors. The HTTP transport is a function
 *  from what is posted to what comes back, so an exchange is deterministic. */
module Protocol {
  import opened Wrappers
  import opened PhpArrays
  import opened Xml

  /** An option value: the options hold strings and booleans. */
  datatype OptionValue = Text(s: string) | Flag(b: bool)

  type Options = Arr<OptionValue>

  /** `$options[$key]` used as a string: true reads "1", false and a missing key read "". */
  function OptString(opts: Options, key: string): string
  {
    match Get<OptionValue>(opts, key)
    case Some(Text(s)) => s
    case Some(Flag(b)) => if b then "1" else ""
    case None => ""
  }

  /** `$options[$key]` used as a condition (PHP truthiness). */
  predicate OptTruthy(opts: Options, key: string)
  {
    match Get<OptionValue>(opts, key)
    case Some(Text(s)) => s != "" && s != "0"
    case Some(Flag(b)) => b
    case None => false
  }

  /** PHP's `empty()` on a string. */
  predicate PhpEmpty(s: string)
  {
    s == "" || s == "0"
  }

  // ---------------------------------------------------------------------
  // The command document (formXML)
  // ---------------------------------------------------------------------

  /** The child of ACTION for one parameter: tag `strtoupper(key)`, text the value. */
  function ParamElement(p: (string, string)): Element
  {
    Leaf(ToUpper(p.0), p.1)
  }

  /** The children of ACTION for the parameters, one per parameter. */
  function ParamElements(params: Arr<string>): (es: seq<Element>)
    ensures |es| == |params|
    decreases |params|
  {
    if params == [] then []
    else ParamElements(params[..|params| - 1]) + [ParamElement(params[|params| - 1])]
  }

  function DryRunMarker(opts: Options): seq<Element>
  {
    if OptTruthy(opts, "dryRun") then [Leaf("DRYRUN", "true")] else []
  }

  function AuthElement(opts: Options): Element
  {
    Element("AUTH", [], "", [Leaf("DEB_ID", OptString(opts, "username")), Leaf("PASSWORD", OptString(opts, "password"))])
  }

  /** The command tree formXML builds before it is serialised. */
  function CommandDocument(opts: Options, command: string, params: Arr<string>): Element
  {
    Element("XML", [], "", [
      AuthElement(opts),
      Element("ACTION", [("scope", "dns"), ("type", command)], "", DryRunMarker(opts) + ParamElements(params))
    ])
  }

  lemma {:induction false} ParamElementsAt(params: Arr<string>, i: nat)
    requires i < |params|
    ensures ParamElements(params)[i] == Leaf(ToUpper(params[i].0), params[i].1)
    decreases |params|
  {
    var n := |params| - 1;
    if i < n {
      assert params[..n][i] == params[i];
      ParamElementsAt(params[..n], i);
    }
  }

  /** The layout of every command: AUTH with the credentials, then ACTION with
   *  scope "dns" and the method as type, a DRYRUN child first exactly when
   *  dry-run is on, then one child per parameter, in order, tagged with the
   *  upper-cased key and holding the value. */
  lemma CommandDocumentLayout(opts: Options, command: string, params: Arr<string>)
    ensures var doc := CommandDocument(opts, command, params);
      && doc.tag == "XML" && |doc.children| == 2
      && doc.children[0].tag == "AUTH"
      && doc.children[0].children == [Leaf("DEB_ID", OptString(opts, "username")), Leaf("PASSWORD", OptString(opts, "password"))]
      && doc.children[1].tag == "ACTION"
      && Get(doc.children[1].attrs, "scope") == Some("dns")
      && Get(doc.children[1].attrs, "type") == Some(command)
      && var off := if OptTruthy(opts, "dryRun") then 1 else 0;
         && |doc.children[1].children| == off + |params|
         && (OptTruthy(opts, "dryRun") ==> doc.children[1].children[0] == Leaf("DRYRUN", "true"))
         && forall i :: 0 <= i < |params| ==>
              doc.children[1].children[off + i] == Leaf(ToUpper(params[i].0), params[i].1)
  {
    var action := CommandDocument(opts, command, params).children[1];
    var off := if OptTruthy(opts, "dryRun") then 1 else 0;
    forall i | 0 <= i < |params|
      ensures action.children[off + i] == Leaf(ToUpper(params[i].0), params[i].1)
    {
      ParamElementsAt(params, i);
    }
  }

  /** A parameter put in front yields its element in front. */
  lemma ParamElementsPrepend(p: (string, string), params: Arr<string>)
    ensures ParamElements([p] + params) == [ParamElement(p)] + ParamElements(params)
  {
    var all := [p] + params;
    var expected := [ParamElement(p)] + ParamElements(params);
    forall i | 0 <= i < |all| ensures ParamElements(all)[i] == expected[i] {
      ParamElementsAt(all, i);
      if i > 0 {
        assert all[i] == params[i - 1];
        ParamElementsAt(params, i - 1);
      }
    }
  }

  /** The DRYRUN flag is not distinguishable on the wire: a dry-run command is
   *  the same document as the live command, with the same credentials, whose
   *  first parameter is `dryrun` = "true". */
  lemma DryRunMarkerIsAmbiguous(dry: Options, live: Options, command: string, params: Arr<string>)
    requires OptTruthy(dry, "dryRun") && !OptTruthy(live, "dryRun")
    requires OptString(dry, "username") == OptString(live, "username")
    requires OptString(dry, "password") == OptString(live, "password")
    ensures CommandDocument(dry, command, params) == CommandDocument(live, command, [("dryrun", "true")] + params)
  {
    assert ToUpper("dryrun") == "DRYRUN";
    ParamElementsPrepend(("dryrun", "true"), params);
    assert DryRunMarker(dry) + ParamElements(params) == DryRunMarker(live) + ParamElements([("dryrun", "true")] + params);
  }

  // ---------------------------------------------------------------------
  // The exchange (send)
  // ---------------------------------------------------------------------

  /** What is posted: the `xml` and `hash` form fields, to the service URL. */
  datatype Post = Post(url: string, xml: Element, hash: string)

  /** What comes back: cURL's error number (0 for none) and message, and the
   *  reply parsed as XML, or None when it does not parse. */
  datatype Reply = Reply(errno: nat, error: string, document: Option<Element>)

  /** The remote service seen through the transport. */
  type Service = Post -> Reply

  /** `$errors`: `false` once a clean exchange is over, else a list of messages. */
  datatype Errors = Cleared | Collected(messages: seq<string>)

  /** `$body`: '' before a reply, `false` when the reply does not parse, else the tree. */
  datatype Body = Unloaded | Unparsable | Document(root: Element)

  /** What send returns: true, false, nothing (null), or the fatal error that
   *  ends the script when `xpath` is called on an unparsed body. */
  datatype SendReturn = ReturnedTrue | ReturnedFalse | ReturnedNull | Fatal

  /** The state one exchange leaves behind. */
  datatype Exchange = Exchange(ret: SendReturn, errors: Errors, body: Body)

  /** PHP truthiness of `$errors`, the test every caller makes. */
  predicate Truthy(e: Errors)
  {
    e.Collected? && e.messages != []
  }

  function PostFor(opts: Options, command: string, params: Arr<string>): Post
  {
    Post(OptString(opts, "service"), CommandDocument(opts, command, params), OptString(opts, "hash"))
  }

  function DigitChar(d: nat): char
    requires d < 10
  {
    "0123456789"[d]
  }

  function Decimal(n: nat): string
    decreases n
  {
    if n < 10 then [DigitChar(n)] else Decimal(n / 10) + [DigitChar(n % 10)]
  }

  function CurlMessage(reply: Reply): string
  {
    "Curl error: " + reply.error + " (" + Decimal(reply.errno) + ")"
  }

  function TransportMessages(reply: Reply): seq<string>
  {
    if reply.errno > 0 then [CurlMessage(reply)] else []
  }

  function ServerMessage(e: Element): string
  {
    "Serverside error: " + e.text
  }

  /** One message per ERROR element, in document order. */
  function ServerMessages(found: seq<Element>): (msgs: seq<string>)
    ensures |msgs| == |found|
    decreases |found|
  {
    if found == [] then []
    else ServerMessages(found[..|found| - 1]) + [ServerMessage(found[|found| - 1])]
  }

  /** The outcome of send for a given reply. */
  function ExchangeOf(reply: Reply): Exchange
  {
    var transport := TransportMessages(reply);
    match reply.document
    case None => Exchange(Fatal, Collected(transport), Unparsable)
    case Some(root) =>
      var found := FindAll(root, "ERROR");
      if found != [] then Exchange(ReturnedFalse, Collected(transport + ServerMessages(found)), Document(root))
      else if transport == [] then Exchange(ReturnedTrue, Cleared, Document(root))
      else Exchange(ReturnedNull, Collected(transport), Document(root))
  }

  /** The exchange send makes for the given options, method and parameters. */
  function Perform(opts: Options, command: string, params: Arr<string>, service: Service): Exchange
  {
    ExchangeOf(service(PostFor(opts, command, params)))
  }

  /** No transport error, a reply that parses, and no ERROR element in it. */
  predicate Clean(reply: Reply)
  {
    reply.errno == 0 && reply.document.Some? && FindAll(reply.document.value, "ERROR") == []
  }

  lemma {:induction false} ServerMessagesAt(found: seq<Element>, i: nat)
    requires i < |found|
    ensures ServerMessages(found)[i] == "Serverside error: " + found[i].text
    decreases |found|
  {
    var n := |found| - 1;
    if i < n {
      assert found[..n][i] == found[i];
      ServerMessagesAt(found[..n], i);
    }
  }

  /** `$errors` is `false` and send returns true exactly for a clean exchange. */
  lemma ExchangeClearedIffClean(reply: Reply)
    ensures ExchangeOf(reply).errors == Cleared <==> Clean(reply)
    ensures ExchangeOf(reply).ret == ReturnedTrue <==> Clean(reply)
    ensures ExchangeOf(reply).ret == Fatal <==> reply.document.None?
  {
  }

  /** After an exchange whose reply parses, `$errors` is `false` or a non-empty
   *  list: the transport message, if any, then "Serverside error: " and the
   *  text of each ERROR element anywhere in the reply, in document order. So
   *  callers may test it for truthiness. */
  lemma ExchangeErrorList(reply: Reply)
    requires reply.document.Some?
    ensures var x := ExchangeOf(reply);
      var found := FindAll(reply.document.value, "ERROR");
      && x.body == Document(reply.document.value)
      && (Truthy(x.errors) <==> x.errors != Cleared)
      && (x.errors != Cleared ==>
            && x.errors.messages == TransportMessages(reply) + ServerMessages(found)
            && |x.errors.messages| == |TransportMessages(reply)| + |found| > 0
            && forall i :: 0 <= i < |found| ==>
                 x.errors.messages[|TransportMessages(reply)| + i] == "Serverside error: " + found[i].text)
  {
    var found := FindAll(reply.document.value, "ERROR");
    forall i | 0 <= i < |found| {
      ServerMessagesAt(found, i);
    }
  }

  /** The two facts every caller of send relies on: the body is a document
   *  exactly when the reply parses, and then `errors` is truthy exactly when
   *  the exchange was not clean. */
  lemma ExchangeVerdict(reply: Reply)
    ensures ExchangeOf(reply).body.Document? <==> reply.document.Some?
    ensures ExchangeOf(reply).body.Document? ==> (Truthy(ExchangeOf(reply).errors) <==> !Clean(reply))
  {
    ExchangeClearedIffClean(reply);
    if reply.document.Some? {
      ExchangeErrorList(reply);
    }
  }

  /** TrueDNSApi_Request: the options it was given and the state of its one exchange. */
  class Request {
    var options: Options
    var errors: Errors
    var body: Body

    /** Takes the options; sends at once when given a method and parameters. */
    constructor(options: Options, command: string, params: Option<Arr<string>>, service: Service)
      ensures this.options == Merge([], options)
      ensures PhpEmpty(command) || params.None? ==> errors == Collected([]) && body == Unloaded
      ensures !PhpEmpty(command) && params.Some? ==>
        var x := Perform(this.options, command, params.value, service);
        errors == x.errors && body == x.body
    {
      this.options := Merge([], options);
      errors := Collected([]);
      body := Unloaded;
      new;
      if !PhpEmpty(command) && params.Some? {
        var _ := Send(command, params.value, service);
      }
    }

    /** formXML: the command tree, grown one ACTION child per parameter. */
    method FormXml(command: string, params: Arr<string>) returns (doc: Element)
      ensures doc == CommandDocument(options, command, params)
    {
      var auth := Element("AUTH", [], "", []);
      auth := auth.(children := auth.children + [Leaf("DEB_ID", OptString(options, "username"))]);
      auth := auth.(children := auth.children + [Leaf("PASSWORD", OptString(options, "password"))]);
      assert auth == AuthElement(options);
      var actionAttrs := [("scope", "dns"), ("type", command)];
      var actionChildren: seq<Element> := [];
      if OptTruthy(options, "dryRun") {
        actionChildren := actionChildren + [Leaf("DRYRUN", "true")];
      }
      var i := 0;
      while i < |params|
        invariant 0 <= i <= |params|
        invariant actionChildren == DryRunMarker(options) + ParamElements(params[..i])
      {
        var tag := ToUpper(params[i].0);
        actionChildren := actionChildren + [Leaf(tag, params[i].1)];
        assert params[..i + 1][..i] == params[..i];
        i := i + 1;
      }
      assert params[..i] == params;
      doc := Element("XML", [], "", [auth, Element("ACTION", actionAttrs, "", actionChildren)]);
    }

    /** The loop of send over the ERROR elements: one message each, appended
     *  in document order. */
    method AppendServerErrors(found: seq<Element>)
      requires errors.Collected?
      modifies this
      ensures options == old(options) && body == old(body)
      ensures errors == Collected(old(errors.messages) + ServerMessages(found))
    {
      var i := 0;
      while i < |found|
        invariant 0 <= i <= |found|
        invariant options == old(options) && body == old(body)
        invariant errors == Collected(old(errors.messages) + ServerMessages(found[..i]))
      {
        errors := Collected(errors.messages + [ServerMessage(found[i])]);
        assert found[..i + 1][..i] == found[..i];
        i := i + 1;
      }
      assert found[..i] == found;
    }

    /** send: reset, post the command, read the reply, collect the errors. */
    method Send(command: string, params: Arr<string>, service: Service) returns (ret: SendReturn)
      modifies this
      ensures options == old(options)
      ensures Exchange(ret, errors, body) == Perform(options, command, params, service)
    {
      errors := Collected([]);
      body := Unloaded;
      var xml := FormXml(command, params);
      var post := Post(OptString(options, "service"), xml, OptString(options, "hash"));
      assert post == PostFor(options, command, params);
      // The transport sets the same host-verification flag in both branches of
      // the verifySSL test, so the option changes nothing that is posted.
      var reply := service(post);
      ghost var expected := ExchangeOf(reply);
      if reply.errno > 0 {
        errors := Collected(errors.messages + [CurlMessage(reply)]);
      }
      assert errors == Collected(TransportMessages(reply));
      if reply.document.None? {
        // The body is `false`; calling xpath on it is a fatal error.
        body := Unparsable;
        assert Exchange(Fatal, errors, body) == expected;
        return Fatal;
      }
      var root := reply.document.value;
      body := Document(root);
      var found := FindAll(root, "ERROR");
      if found != [] {
        AppendServerErrors(found);
        assert Exchange(ReturnedFalse, errors, body) == expected;
        return ReturnedFalse;
      }
      if |errors.messages| == 0 {
        errors := Cleared;
        return ReturnedTrue;
      }
      ret := ReturnedNull;
    }
  }
}
