/** The widget's configuration: the built-in defaults, the merge of a
    page-supplied override onto them, and the parts of the result the
    consent core reads (version, services, Consent Mode switch). */
module Configuration {
  import opened JsValue
  import opened DeepMerge

  /** The built-in configuration, member for member. */
  function DefaultConfig(): (r: Value)
    ensures r.Obj?
  {
    Obj([
      Member("version", Num(1)),
      Member("services", Arr([EssentialService()])),
      Member("texts", DefaultTexts()),
      Member("design", DefaultDesign()),
      Member("gcm", Obj([Member("enabled", Bool(true))])),
      Member("uid", Obj([Member("version", Num(1)), Member("respectDnt", Bool(true))]))])
  }

  function DefaultTexts(): Value {
    Obj([
      Member("banner", Obj([
        Member("title", Str("We value your privacy")),
        Member("description", Str("We use cookies to enhance " + "your browsing experience, " + "serve personalized ads " + "or content, and analyze " + "our traffic. By clicking " + "\"Accept All\", you consent " + "to our use of cookies.")),
        Member("acceptAll", Str("Accept All")),
        Member("rejectAll", Str("Reject All")),
        Member("settings", Str("Customize"))])),
      Member("settings", Obj([
        Member("title", Str("Cookie Preferences")),
        Member("save", Str("Save Preferences")),
        Member("back", Str("Back")),
        Member("historyLink", Str("View your consent history")),
        Member("historyTitle", Str("Consent History")),
        Member("historyEmpty", Str("No history entries yet."))])),
      Member("links", Obj([
        Member("privacyPolicy", Obj([Member("text", Str("Privacy Policy")), Member("url", Str("#"))])),
        Member("imprint", Obj([Member("text", Str("Imprint")), Member("url", Str("#"))]))]))])
  }

  function DefaultDesign(): Value {
    Obj([
      Member("primaryColor", Str("#3b82f6")),
      Member("backgroundColor", Str("#ffffff")),
      Member("textColor", Str("#1f2937")),
      Member("fontFamily", Str("system-ui, " + "-apple-system, sans-serif")),
      Member("position", Str("bottom")),
      Member("buttons", Arr([]))])
  }

  /** The one built-in service. */
  function EssentialService(): Value {
    Obj([
      Member("id", Str("essential")),
      Member("name", Str("Essential")),
      Member("description", Str("Necessary for the " + "website to function.")),
      Member("required", Bool(true)),
      Member("enabled", Bool(true)),
      Member("category", Arr([Str("security_storage")]))])
  }

  /** The effective configuration: the defaults, or the defaults with the
      inline or fetched override merged onto them.  A missing override and a
      failed fetch both leave the defaults, and so does a keyless override:
      `Object.keys` of a number or a boolean is empty, and the `TypeError`
      it throws for a fetched `null` is caught by the fetch's `catch`, which
      starts on the defaults. */
  function Resolve(override: Option<Value>): (r: Value)
    requires override.Some? && !Keyless(override.value) ==> Mergeable(DefaultConfig(), override.value)
    ensures override.None? || Keyless(override.value) ==> r == DefaultConfig()
    ensures override.Some? && override.value.Obj? ==> r.Obj?
  {
    match override
    case None => DefaultConfig()
    case Some(o) => if Keyless(o) then DefaultConfig() else Merge(DefaultConfig(), o)
  }

  // ---------------------------------------------------------------------------
  // What the consent core reads

  /** A service as the consent core sees it: the property key `srv.id`
      becomes, its `required` flag and its `category` list, all raw. */
  datatype Service = Service(id: string, required: Value, category: Value)

  /** `version`, `services` and `gcm` of the effective configuration. */
  datatype Config = Config(version: Value, services: seq<Service>, gcm: Value)

  /** Reading `srv.id`, `srv.required` and `srv.category` off one entry of
      `services`: `null` and `undefined` throw, other non-objects read every
      property as `undefined` (so the id becomes the key "undefined"). */
  function ServiceOf(v: Value): (r: Option<Service>)
    ensures r.None? <==> v.Null? || v.Undefined?
    ensures v.Obj? ==> r == Some(Service(ToStr(Lookup(v.members, "id")), Lookup(v.members, "required"), Lookup(v.members, "category")))
  {
    match v
    case Null => None
    case Undefined => None
    case Obj(ms) => Some(Service(ToStr(Lookup(ms, "id")), Lookup(ms, "required"), Lookup(ms, "category")))
    case _ => Some(Service("undefined", Undefined, Undefined))
  }

  function ServicesOf(items: seq<Value>): (r: Option<seq<Service>>)
    ensures r.Some? <==> forall i :: 0 <= i < |items| ==> ServiceOf(items[i]).Some?
    ensures r.Some? ==> |r.value| == |items| && forall i :: 0 <= i < |items| ==> r.value[i] == ServiceOf(items[i]).value
  {
    if items == [] then Some([])
    else
      match (ServiceOf(items[0]), ServicesOf(items[1..]))
      case (Some(s), Some(rest)) => Some([s] + rest)
      case _ => None
  }

  /** The configuration the consent core can run on, or `None` where
      `config.services.forEach` throws: `services` is not an array, or one of
      its entries is `null` or `undefined`. */
  function ReadConfig(c: Value): (r: Option<Config>)
    requires c.Obj?
    ensures r.Some? <==> Lookup(c.members, "services").Arr? && ServicesOf(Lookup(c.members, "services").items).Some?
    ensures r.Some? ==> r.value.version == Lookup(c.members, "version") && r.value.gcm == Lookup(c.members, "gcm")
    ensures r.Some? ==> r.value.services == ServicesOf(Lookup(c.members, "services").items).value
  {
    match Lookup(c.members, "services")
    case Arr(items) =>
      (match ServicesOf(items)
       case Some(svcs) => Some(Config(Lookup(c.members, "version"), svcs, Lookup(c.members, "gcm")))
       case None => None)
    case _ => None
  }

  // ---------------------------------------------------------------------------
  // Properties of the resolved configuration

  /** Without an override the widget runs on version 1, the one required
      `essential` service in category `security_storage`, and Consent Mode on. */
  lemma DefaultsRead()
    ensures ReadConfig(DefaultConfig()) ==
      Some(Config(Num(1), [Service("essential", Bool(true), Arr([Str("security_storage")]))], Obj([Member("enabled", Bool(true))])))
  {
    var d := DefaultConfig().members;
    DefaultVersionGcm();
    DefaultServices();
    EssentialReads();
    var svc := Service("essential", Bool(true), Arr([Str("security_storage")]));
    assert ServiceOf(EssentialService()) == Some(svc);
    ServicesOfOne(EssentialService());
  }

  lemma ServicesOfOne(v: Value)
    ensures ServicesOf([v]) == if ServiceOf(v).Some? then Some([ServiceOf(v).value]) else None
  {
    assert [v][1..] == [];
    assert ServicesOf([]) == Some([]);
    if ServiceOf(v).Some? {
      assert [ServiceOf(v).value] + [] == [ServiceOf(v).value];
    }
  }

  lemma DefaultVersionGcm()
    ensures Get(DefaultConfig().members, "version") == Some(Num(1))
    ensures Get(DefaultConfig().members, "gcm") == Some(Obj([Member("enabled", Bool(true))]))
  {
    var d := DefaultConfig().members;
    assert d[0..] == d;
    GetFrom(d, "version", 0);
    GetFrom(d, "gcm", 0); GetFrom(d, "gcm", 1); GetFrom(d, "gcm", 2); GetFrom(d, "gcm", 3); GetFrom(d, "gcm", 4);
  }

  lemma DefaultServices()
    ensures Get(DefaultConfig().members, "services") == Some(Arr([EssentialService()]))
  {
    var d := DefaultConfig().members;
    GetFrom(d, "services", 0);
    GetFrom(d, "services", 1);
    assert d[0..] == d;
  }

  lemma EssentialReads()
    ensures var e := EssentialService().members;
      Get(e, "id") == Some(Str("essential")) && Get(e, "required") == Some(Bool(true)) &&
      Get(e, "category") == Some(Arr([Str("security_storage")]))
  {
    var e := EssentialService().members;
    assert e[0..] == e;
    GetFrom(e, "id", 0);
    GetFrom(e, "required", 0); GetFrom(e, "required", 1); GetFrom(e, "required", 2); GetFrom(e, "required", 3);
    GetFrom(e, "category", 0); GetFrom(e, "category", 1); GetFrom(e, "category", 2);
    GetFrom(e, "category", 3); GetFrom(e, "category", 4); GetFrom(e, "category", 5);
  }

  lemma EssentialDistinct()
    ensures DistinctKeys(EssentialService().members)
  {
    var e := EssentialService().members;
    forall i, j | 0 <= i < j < |e|
      ensures e[i].key != e[j].key
    {
      assert i == 0 || i == 1 || i == 2 || i == 3 || i == 4;
      assert j == 1 || j == 2 || j == 3 || j == 4 || j == 5;
    }
  }

  /** A page's override whose one service gives only an id and a name. */
  function UserService(): Value {
    Obj([Member("id", Str("analytics")), Member("name", Str("Analytics"))])
  }

  function UserOverride(): Value {
    Obj([Member("services", Arr([UserService()]))])
  }

  /** A user's service list merges into the default one index by index:
      a first service that names only `id` and `name` inherits `required:
      true` and the `security_storage` category of the built-in `essential`
      service, and keeps its own id. */
  lemma FirstServiceInheritsEssential()
    ensures Mergeable(DefaultConfig(), UserOverride())
    ensures ReadConfig(Resolve(Some(UserOverride()))) ==
      Some(Config(Num(1), [Service("analytics", Bool(true), Arr([Str("security_storage")]))], Obj([Member("enabled", Bool(true))])))
  {
    DefaultServices();
    DefaultVersionGcm();
    EssentialReads();
    EssentialDistinct();
    UserServiceBare();
    InheritedDefaults(DefaultConfig(), EssentialService(), UserService());
    ResolveObject(UserOverride());
  }

  /** An object override is merged onto the defaults. */
  lemma ResolveObject(o: Value)
    requires o.Obj? && Mergeable(DefaultConfig(), o)
    ensures Resolve(Some(o)) == Merge(DefaultConfig(), o)
  {
  }

  /** `InheritedService` for a base with the default version, `gcm` and
      `essential` entry, and a bare service with id `analytics`. */
  lemma InheritedDefaults(d: Value, e: Value, u: Value)
    requires d.Obj? && Get(d.members, "services") == Some(Arr([e]))
    requires Get(d.members, "version") == Some(Num(1)) && Get(d.members, "gcm") == Some(Obj([Member("enabled", Bool(true))]))
    requires e.Obj? && DistinctKeys(e.members)
    requires Get(e.members, "required") == Some(Bool(true)) && Get(e.members, "category") == Some(Arr([Str("security_storage")]))
    requires BareService(u) && Get(u.members, "id") == Some(Str("analytics"))
    ensures Mergeable(d, Obj([Member("services", Arr([u]))]))
    ensures ReadConfig(Merge(d, Obj([Member("services", Arr([u]))]))) ==
      Some(Config(Num(1), [Service("analytics", Bool(true), Arr([Str("security_storage")]))], Obj([Member("enabled", Bool(true))])))
  {
    InheritedService(d, e, u);
  }

  /** An object with distinct keys and no array or object member. */
  ghost predicate FlatObject(u: Value) {
    u.Obj? && DistinctKeys(u.members) && forall i :: 0 <= i < |u.members| ==> !IsObject(u.members[i].val)
  }

  /** A flat service entry that gives an id but neither `required` nor `category`. */
  ghost predicate BareService(u: Value) {
    FlatObject(u) && Get(u.members, "id").Some? && Get(u.members, "required") == None && Get(u.members, "category") == None
  }

  /** Reading the configuration after `SingleServiceMerge` when `u` gives an
      id but neither `required` nor `category`: both come from `e`. */
  lemma InheritedService(d: Value, e: Value, u: Value)
    requires d.Obj? && Get(d.members, "services") == Some(Arr([e]))
    requires e.Obj? && DistinctKeys(e.members) && BareService(u)
    ensures Mergeable(d, Obj([Member("services", Arr([u]))]))
    ensures ReadConfig(Merge(d, Obj([Member("services", Arr([u]))]))) ==
      Some(Config(Lookup(d.members, "version"),
        [Service(ToStr(Get(u.members, "id").value), Lookup(e.members, "required"), Lookup(e.members, "category"))],
        Lookup(d.members, "gcm")))
  {
    SingleServiceMerge(d, e, u);
    InheritedFields(e, u);
    ReadOneService(Merge(d, Obj([Member("services", Arr([u]))])), Nested(e, u),
      Service(ToStr(Get(u.members, "id").value), Lookup(e.members, "required"), Lookup(e.members, "category")));
  }

  /** The merged service keeps `u`'s id and takes `required` and `category` from `e`. */
  lemma InheritedFields(e: Value, u: Value)
    requires e.Obj? && DistinctKeys(e.members) && BareService(u)
    ensures Mergeable(e, u)
    ensures ServiceOf(Nested(e, u)) ==
      Some(Service(ToStr(Get(u.members, "id").value), Lookup(e.members, "required"), Lookup(e.members, "category")))
  {
    NestedRead(e, u, "id");
    NestedRead(e, u, "required");
    NestedRead(e, u, "category");
  }

  /** A configuration whose `services` is the one entry `n`. */
  lemma ReadOneService(r: Value, n: Value, svc: Service)
    requires r.Obj? && Get(r.members, "services") == Some(Arr([n])) && ServiceOf(n) == Some(svc)
    ensures ReadConfig(r) == Some(Config(Lookup(r.members, "version"), [svc], Lookup(r.members, "gcm")))
  {
    ServicesOfOne(n);
  }

  /** Merging `{services: [u]}` onto a configuration whose `services` is
      `[e]`, where `u` holds no containers: `services` becomes `[n]` for the
      merged service `n` (see `NestedRead`), and every other configuration
      key is untouched. */
  lemma SingleServiceMerge(d: Value, e: Value, u: Value)
    requires d.Obj? && Get(d.members, "services") == Some(Arr([e]))
    requires e.Obj? && FlatObject(u)
    ensures Mergeable(e, u) && Mergeable(d, Obj([Member("services", Arr([u]))]))
    ensures Get(Merge(d, Obj([Member("services", Arr([u]))])).members, "services") == Some(Arr([Nested(e, u)]))
    ensures forall k :: k != "services" ==>
      Get(Merge(d, Obj([Member("services", Arr([u]))])).members, k) == Get(d.members, k)
  {
    var o := Obj([Member("services", Arr([u]))]);
    assert Mergeable(e, u);
    assert Mergeable(Arr([e]), Arr([u]));
    assert Mergeable(d, o) by {
      assert "services" in Keys(d.members);
    }
    assert Merge(Arr([e]), Arr([u])) == Arr([Nested(e, u)]) by {
      MergeArray(Arr([e]), Arr([u]));
    }
    assert Keys(o.members) == ["services"];
    MergeObject(d, o);
    NestedAgrees(Arr([e]), Arr([u]));
  }

  /** The merged service reads `u`'s own keys from `u` and every other key
      from `e`, when `u` holds no containers. */
  lemma NestedRead(e: Value, u: Value, k: string)
    requires e.Obj? && DistinctKeys(e.members) && FlatObject(u)
    ensures Mergeable(e, u) && Nested(e, u).Obj?
    ensures Get(Nested(e, u).members, k) == if k in Keys(u.members) then Get(u.members, k) else Get(e.members, k)
  {
    assert Mergeable(e, u);
    NestedAgrees(e, u);
    MergeObject(e, u);
    if k in Keys(u.members) {
      var j := InKeys(u.members, k);
      GetAt(u.members, j);
    }
  }

  lemma UserServiceBare()
    ensures BareService(UserService()) && Get(UserService().members, "id") == Some(Str("analytics"))
  {
    var um := UserService().members;
    assert um[0..] == um;
    GetFrom(um, "required", 0); GetFrom(um, "required", 1);
    GetFrom(um, "category", 0); GetFrom(um, "category", 1);
    GetFrom(um, "id", 0);
    assert DistinctKeys(um);
  }
}
