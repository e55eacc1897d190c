/** The consent engine: the module-level state of keksly.js and the
    functions that update it, as a class whose methods are proved to do what
    the rules in consent_rules.dfy, consent_mode.dfy and script_gate.dfy
    say. */
module Engine {
  import opened JsValue
  import opened JsonCodec
  import opened Configuration
  import opened ConsentRules
  import opened ConsentMode
  import opened ScriptGate

  /** `localStorage`: a string map whose writes may fail.  `admits` says
      whether `setItem` succeeds for a given store, key and value. */
  class Storage {
    var items: Store
    const admits: (Store, string, string) -> bool

    constructor(items: Store, admits: (Store, string, string) -> bool)
      ensures this.items == items && this.admits == admits
    {
      this.items := items;
      this.admits := admits;
    }

    /** `setItem(k, v)`, with a failure swallowed by the caller's `try`. */
    method SetItem(k: string, v: string)
      modifies this
      ensures items == Write(old(items), admits, k, v)
    {
      if admits(items, k, v) {
        items := items[k := v];
      }
    }

    method RemoveItem(k: string)
      modifies this
      ensures items == old(items) - {k}
    {
      items := items - {k};
    }
  }

  /** An entry of `window.dataLayer`: a pushed object, or the `arguments`
      of a `gtag(...)` call. */
  datatype LayerEntry = Event(payload: Value) | Args(args: seq<Value>)

  /** `window.dataLayer || []`. */
  function LayerOrEmpty(layer: Option<seq<LayerEntry>>): seq<LayerEntry> {
    match layer
    case Some(l) => l
    case None => []
  }

  /** What `applyConsent` leaves in the data layer: the update record, then
      the consent-mode command when `gcm.enabled` is truthy. */
  function AppliedLayer(layer: Option<seq<LayerEntry>>, cfg: Config, state: seq<Member>,
                        history: seq<Value>, uid: Option<string>): seq<LayerEntry>
  {
    var pushed := LayerOrEmpty(layer) + [Event(UpdateRecord(state, history, uid))];
    if Switch(cfg.gcm) == Some(true) then pushed + [Args(Command(cfg.services, state))] else pushed
  }

  class Keksly {
    const cfg: Config
    const storage: Storage
    /** The page's elements in document order. */
    const document: array<Element>

    var consentState: seq<Member>
    var consentHistory: seq<Value>
    var lastHistoryEntry: Value
    var shouldShowBanner: bool
    var userId: Option<string>
    /** `window.dataLayer`, `None` while the page has not created it. */
    var dataLayer: Option<seq<LayerEntry>>

    /** A JavaScript object never holds a key twice. */
    ghost predicate Valid()
      reads this
    {
      DistinctKeys(consentState)
    }

    /** The script's start: `consentState = {}`, `consentHistory = []`,
        `lastHistoryEntry = null`, `shouldShowBanner = false`, `userId = null`. */
    constructor(cfg: Config, storage: Storage, document: array<Element>, dataLayer: Option<seq<LayerEntry>>)
      ensures this.cfg == cfg && this.storage == storage && this.document == document
      ensures this.dataLayer == dataLayer
      ensures consentState == [] && consentHistory == [] && lastHistoryEntry == Null
      ensures !shouldShowBanner && userId == None
      ensures Valid()
    {
      this.cfg := cfg;
      this.storage := storage;
      this.document := document;
      this.dataLayer := dataLayer;
      consentState := [];
      consentHistory := [];
      lastHistoryEntry := Null;
      shouldShowBanner := false;
      userId := None;
    }

    /** `o = {}; config.services.forEach(s => o[s.id] = value(s))`. */
    method BuildState(value: Service -> Value) returns (st: seq<Member>)
      ensures st == Assigned(cfg.services, value)
    {
      var svcs := cfg.services;
      st := [];
      var i := 0;
      while i < |svcs|
        invariant 0 <= i <= |svcs|
        invariant st == Assigned(svcs[..i], value)
      {
        assert svcs[..i + 1][..i] == svcs[..i];
        st := Put(st, svcs[i].id, value(svcs[i]));
        i := i + 1;
      }
      assert svcs[..|svcs|] == svcs;
    }

    /** `config.services.forEach(srv => { if (srv.required) state[srv.id] = true; })`. */
    method ForceRequiredOn(st0: seq<Member>) returns (st: seq<Member>)
      ensures st == ForceRequired(st0, cfg.services)
    {
      var svcs := cfg.services;
      st := st0;
      var i := 0;
      while i < |svcs|
        invariant 0 <= i <= |svcs|
        invariant st == ForceRequired(st0, svcs[..i])
      {
        assert svcs[..i + 1][..i] == svcs[..i];
        if Truthy(svcs[i].required) {
          st := Put(st, svcs[i].id, Bool(true));
        }
        i := i + 1;
      }
      assert svcs[..|svcs|] == svcs;
    }

    /** `generateUid()`, with the newly generated id passed in. */
    method GenerateUid(newId: string)
      modifies this, storage
      ensures userId == Some(UidAfter(old(storage.items), newId))
      ensures storage.items == UidStore(old(storage.items), storage.admits, newId)
      ensures consentState == old(consentState) && consentHistory == old(consentHistory)
      ensures lastHistoryEntry == old(lastHistoryEntry) && shouldShowBanner == old(shouldShowBanner)
      ensures dataLayer == old(dataLayer)
    {
      if Present(storage.items, UidKey) {
        userId := Some(storage.items[UidKey]);
      } else {
        userId := Some(newId);
        storage.SetItem(UidKey, newId);
      }
    }

    /** `loadConsent()`.  `ok` is false where the source throws: a stored
        blob that parses to something other than an object under a matching
        version. */
    method LoadConsent() returns (ok: bool)
      modifies this, storage
      ensures var r := LoadSpec(cfg, old(storage.items), storage.admits);
        ok == r.Loaded? &&
        (ok ==> consentState == r.state && storage.items == r.store && shouldShowBanner == r.showBanner) &&
        (!ok ==> consentState == old(consentState) && storage.items == old(storage.items) && !shouldShowBanner)
      ensures ok ==> Valid() && RequiredGranted(consentState, cfg.services)
      ensures consentHistory == old(consentHistory) && lastHistoryEntry == old(lastHistoryEntry)
      ensures userId == old(userId) && dataLayer == old(dataLayer)
    {
      ghost var store0 := storage.items;
      LoadGrantsRequired(cfg, store0, storage.admits);
      var cv := ConfigVersion(cfg.version);
      var sv := StoredVersion(storage.items);
      var had := Present(storage.items, ConsentKey);
      shouldShowBanner := false;
      var st: seq<Member> := [];
      var isObject := true;
      if had {
        var parsed := Parse(storage.items[ConsentKey]);
        if parsed.Malformed? {
          st := [];
        } else if parsed.value.Obj? {
          st := parsed.value.members;
        } else {
          isObject := false;
        }
      } else {
        st := BuildState(RequiredFlag);
      }
      if !StrictEquals(sv, cv) {
        st := BuildState(RequiredFlag);
        storage.RemoveItem(ConsentKey);
        shouldShowBanner := true;
        storage.SetItem(VersionKey, NumberToString(cv));
      } else if !isObject {
        return false;
      }
      st := ForceRequiredOn(st);
      consentState := st;
      if !had {
        shouldShowBanner := true;
      }
      ok := true;
    }

    /** `loadHistory()`. */
    method LoadHistory()
      modifies this
      ensures consentHistory == LoadedHistory(old(consentHistory), storage.items)
      ensures lastHistoryEntry == LastEntry(consentHistory)
      ensures consentState == old(consentState) && shouldShowBanner == old(shouldShowBanner)
      ensures userId == old(userId) && dataLayer == old(dataLayer)
    {
      if Present(storage.items, HistoryKey) {
        var parsed := Parse(storage.items[HistoryKey]);
        if parsed.Parsed? && parsed.value.Arr? {
          consentHistory := parsed.value.items;
        } else {
          consentHistory := [];
        }
      }
      lastHistoryEntry := if |consentHistory| > 0 then consentHistory[|consentHistory| - 1] else Null;
    }

    /** `appendHistory(meta)`, with the timestamp passed in. */
    method AppendHistory(meta: Meta, now: string)
      modifies this, storage
      ensures consentHistory == old(consentHistory) + [HistoryEntry(now, userId, consentState, meta)]
      ensures lastHistoryEntry == HistoryEntry(now, userId, consentState, meta)
      ensures storage.items == Write(old(storage.items), storage.admits, HistoryKey, HistoryBlob(consentHistory))
      ensures consentState == old(consentState) && shouldShowBanner == old(shouldShowBanner)
      ensures userId == old(userId) && dataLayer == old(dataLayer)
    {
      var entry := HistoryEntry(now, userId, consentState, meta);
      consentHistory := consentHistory + [entry];
      lastHistoryEntry := entry;
      storage.SetItem(HistoryKey, HistoryBlob(consentHistory));
    }

    /** `pushDataLayer()`. */
    method PushDataLayer()
      modifies this
      ensures dataLayer == Some(LayerOrEmpty(old(dataLayer)) + [Event(UpdateRecord(consentState, consentHistory, userId))])
      ensures consentState == old(consentState) && consentHistory == old(consentHistory)
      ensures lastHistoryEntry == old(lastHistoryEntry) && shouldShowBanner == old(shouldShowBanner)
      ensures userId == old(userId)
    {
      var layer := LayerOrEmpty(dataLayer);
      dataLayer := Some(layer + [Event(UpdateRecord(consentState, consentHistory, userId))]);
    }

    /** `updateGcm()`: `gtag('consent', 'update', gcmStatus)`. */
    method UpdateGcm()
      modifies this
      ensures dataLayer == Some(LayerOrEmpty(old(dataLayer)) + [Args(Command(cfg.services, consentState))])
      ensures consentState == old(consentState) && consentHistory == old(consentHistory)
      ensures lastHistoryEntry == old(lastHistoryEntry) && shouldShowBanner == old(shouldShowBanner)
      ensures userId == old(userId)
    {
      var layer := LayerOrEmpty(dataLayer);
      dataLayer := Some(layer + [Args(Command(cfg.services, consentState))]);
    }

    /** `handleScriptBlocking()`: every blocked script whose service is
        consented is replaced, in place, by its runnable copy. */
    method HandleScriptBlocking()
      modifies document
      ensures document[..] == GateAll(old(document[..]), consentState)
    {
      ghost var before := document[..];
      var i := 0;
      while i < document.Length
        invariant 0 <= i <= document.Length
        invariant forall j :: 0 <= j < i ==> document[j] == Gate(before[j], consentState)
        invariant forall j :: i <= j < document.Length ==> document[j] == before[j]
      {
        document[i] := Gate(document[i], consentState);
        i := i + 1;
      }
      forall j | 0 <= j < document.Length
        ensures document[..][j] == GateAll(before, consentState)[j]
      {
        GateAllAt(before, consentState, j);
      }
    }

    /** `applyConsent()`.  `completed` is false where reading
        `config.gcm.enabled` throws, which skips the script blocking. */
    method ApplyConsent() returns (completed: bool)
      modifies this, document
      ensures completed == Switch(cfg.gcm).Some?
      ensures dataLayer == Some(AppliedLayer(old(dataLayer), cfg, consentState, consentHistory, userId))
      ensures completed ==> document[..] == GateAll(old(document[..]), consentState)
      ensures !completed ==> document[..] == old(document[..])
      ensures consentState == old(consentState) && consentHistory == old(consentHistory)
      ensures lastHistoryEntry == old(lastHistoryEntry) && shouldShowBanner == old(shouldShowBanner)
      ensures userId == old(userId)
    {
      PushDataLayer();
      var enabled := Switch(cfg.gcm);
      if enabled.None? {
        return false;
      }
      if enabled.value {
        UpdateGcm();
      }
      HandleScriptBlocking();
      completed := true;
    }

    /** The two writes of `saveConsent`, in one `try`: the version marker
        is written only if the consent blob was. */
    method PersistConsent(st: seq<Member>)
      modifies storage
      ensures storage.items == SaveStore(st, ConfigVersion(cfg.version), old(storage.items), storage.admits)
    {
      var blob := Stringify(Obj(st)).value;
      if storage.admits(storage.items, ConsentKey, blob) {
        storage.SetItem(ConsentKey, blob);
        storage.SetItem(VersionKey, NumberToString(ConfigVersion(cfg.version)));
      }
    }

    /** The part of `saveConsent` before `applyConsent`: merge, force the
        required services, persist, and record the history entry. */
    method Commit(newState: seq<Member>, meta: Meta, now: string)
      requires Valid() && DistinctKeys(newState)
      modifies this, storage
      ensures consentState == SaveState(old(consentState), newState, cfg.services)
      ensures Valid() && RequiredGranted(consentState, cfg.services)
      ensures consentHistory == old(consentHistory) + [HistoryEntry(now, userId, consentState, meta)]
      ensures lastHistoryEntry == consentHistory[|consentHistory| - 1]
      ensures storage.items ==
        Write(SaveStore(consentState, ConfigVersion(cfg.version), old(storage.items), storage.admits),
              storage.admits, HistoryKey, HistoryBlob(consentHistory))
      ensures userId == old(userId) && shouldShowBanner == old(shouldShowBanner) && dataLayer == old(dataLayer)
    {
      SaveMerges(consentState, newState, cfg.services);
      var st := ForceRequiredOn(Assign(Assign([], consentState), newState));
      consentState := st;
      PersistConsent(st);
      AppendHistory(meta, now);
    }

    /** `saveConsent(newState, meta)`, with the timestamp passed in. */
    method SaveConsent(newState: seq<Member>, meta: Meta, now: string) returns (completed: bool)
      requires Valid() && DistinctKeys(newState)
      modifies this, storage, document
      ensures consentState == SaveState(old(consentState), newState, cfg.services)
      ensures Valid() && RequiredGranted(consentState, cfg.services)
      ensures consentHistory == old(consentHistory) + [HistoryEntry(now, userId, consentState, meta)]
      ensures lastHistoryEntry == consentHistory[|consentHistory| - 1]
      ensures storage.items ==
        Write(SaveStore(consentState, ConfigVersion(cfg.version), old(storage.items), storage.admits),
              storage.admits, HistoryKey, HistoryBlob(consentHistory))
      ensures completed == Switch(cfg.gcm).Some?
      ensures dataLayer == Some(AppliedLayer(old(dataLayer), cfg, consentState, consentHistory, userId))
      ensures completed ==> document[..] == GateAll(old(document[..]), consentState)
      ensures !completed ==> document[..] == old(document[..])
      ensures userId == old(userId) && shouldShowBanner == old(shouldShowBanner)
    {
      Commit(newState, meta, now);
      completed := ApplyConsent();
    }

    /** The accept-all button: every configured service granted. */
    method AcceptAll(now: string) returns (completed: bool)
      requires Valid()
      modifies this, storage, document
      ensures consentState == SaveState(old(consentState), AcceptAllState(cfg.services), cfg.services)
      ensures forall j :: 0 <= j < |cfg.services| ==> Get(consentState, cfg.services[j].id) == Some(Bool(true))
      ensures Valid() && RequiredGranted(consentState, cfg.services)
      ensures consentHistory ==
        old(consentHistory) + [HistoryEntry(now, userId, consentState, Meta(Str("banner"), Str("accept_all")))]
      ensures lastHistoryEntry == consentHistory[|consentHistory| - 1]
      ensures storage.items ==
        Write(SaveStore(consentState, ConfigVersion(cfg.version), old(storage.items), storage.admits),
              storage.admits, HistoryKey, HistoryBlob(consentHistory))
      ensures completed == Switch(cfg.gcm).Some?
      ensures dataLayer == Some(AppliedLayer(old(dataLayer), cfg, consentState, consentHistory, userId))
      ensures completed ==> document[..] == GateAll(old(document[..]), consentState)
      ensures !completed ==> document[..] == old(document[..])
      ensures userId == old(userId) && shouldShowBanner == old(shouldShowBanner)
    {
      var all := BuildState(Granted);
      AssignedReads(cfg.services, Granted);
      AcceptAllGrants(cfg.services);
      ghost var before := consentState;
      completed := SaveConsent(all, Meta(Str("banner"), Str("accept_all")), now);
      SaveMerges(before, all, cfg.services);
      forall j | 0 <= j < |cfg.services|
        ensures Get(consentState, cfg.services[j].id) == Some(Bool(true))
      {
        ForceRequiredGet(Assign(Assign([], before), all), cfg.services, cfg.services[j].id);
        AssignedReads(cfg.services, Granted);
        assert cfg.services[j].id in Keys(all);
      }
    }

    /** The reject-all button: each service set to its own `required`. */
    method RejectAll(now: string) returns (completed: bool)
      requires Valid()
      modifies this, storage, document
      ensures consentState == SaveState(old(consentState), RejectAllState(cfg.services), cfg.services)
      ensures Valid() && RequiredGranted(consentState, cfg.services)
      ensures consentHistory ==
        old(consentHistory) + [HistoryEntry(now, userId, consentState, Meta(Str("banner"), Str("reject_all")))]
      ensures lastHistoryEntry == consentHistory[|consentHistory| - 1]
      ensures storage.items ==
        Write(SaveStore(consentState, ConfigVersion(cfg.version), old(storage.items), storage.admits),
              storage.admits, HistoryKey, HistoryBlob(consentHistory))
      ensures completed == Switch(cfg.gcm).Some?
      ensures dataLayer == Some(AppliedLayer(old(dataLayer), cfg, consentState, consentHistory, userId))
      ensures completed ==> document[..] == GateAll(old(document[..]), consentState)
      ensures !completed ==> document[..] == old(document[..])
      ensures userId == old(userId) && shouldShowBanner == old(shouldShowBanner)
    {
      var req := BuildState(OwnRequired);
      AssignedReads(cfg.services, OwnRequired);
      completed := SaveConsent(req, Meta(Str("banner"), Str("reject_all")), now);
    }

    /** `run()` up to the banner-or-apply decision.  `bannerShown` is the
        `showBanner()` branch; `completed` is false where a step threw. */
    method Run() returns (bannerShown: bool, completed: bool)
      modifies this, storage, document
      ensures var r := LoadSpec(cfg, old(storage.items), storage.admits);
        bannerShown == (r.Loaded? && r.showBanner) &&
        (r.Loaded? ==>
          consentState == r.state && Valid() && RequiredGranted(consentState, cfg.services) &&
          storage.items == r.store && shouldShowBanner == r.showBanner &&
          consentHistory == LoadedHistory(old(consentHistory), r.store) &&
          lastHistoryEntry == LastEntry(consentHistory)) &&
        (r.Loaded? && r.showBanner ==>
          completed && dataLayer == old(dataLayer) && document[..] == old(document[..])) &&
        (r.Loaded? && !r.showBanner ==>
          completed == Switch(cfg.gcm).Some? &&
          dataLayer == Some(AppliedLayer(old(dataLayer), cfg, consentState, consentHistory, userId)) &&
          (completed ==> document[..] == GateAll(old(document[..]), consentState)) &&
          (!completed ==> document[..] == old(document[..]))) &&
        (r.LoadFailed? ==>
          !completed && dataLayer == old(dataLayer) && document[..] == old(document[..]) &&
          consentState == old(consentState) && storage.items == old(storage.items) &&
          consentHistory == old(consentHistory) && lastHistoryEntry == old(lastHistoryEntry))
      ensures userId == old(userId)
    {
      ghost var store0 := storage.items;
      var ok := LoadConsent();
      if !ok {
        return false, false;
      }
      BannerDecision(cfg, store0, storage.admits);
      LoadHistory();
      if shouldShowBanner || !Present(storage.items, ConsentKey) {
        bannerShown := true;
        completed := true;
      } else {
        bannerShown := false;
        completed := ApplyConsent();
      }
    }

    /** `Keksly.reset()` without the page reload. */
    method Reset()
      modifies storage
      ensures storage.items == old(storage.items) - ResetKeys
    {
      storage.RemoveItem(ConsentKey);
      storage.RemoveItem(VersionKey);
      storage.RemoveItem(HistoryKey);
      storage.RemoveItem(UidKey);
    }
  }
}
