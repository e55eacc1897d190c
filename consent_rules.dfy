/** The rules behind the consent engine, as functions of the configuration
    and the stored strings: the state each step of `loadConsent`,
    `saveConsent`, the banner buttons, `appendHistory` and `loadHistory`
    must produce.  The `Keksly` class in engine.dfy is proved against these. */
module ConsentRules {
  import opened JsValue
  import opened JsonCodec
  import opened Configuration

  // ---------------------------------------------------------------------------
  // Storage

  /** `localStorage`: keys to strings. */
  type Store = map<string, string>

  const ConsentKey := "keksly_consent"
  const VersionKey := "keksly_version"
  const HistoryKey := "keksly_consent_history"
  const UidKey := "keksly_uid"

  /** `localStorage.getItem(k)` is truthy: present and not empty. */
  predicate Present(store: Store, k: string) {
    k in store && store[k] != []
  }

  /** `store.setItem(k, v)` where `admits` says whether the browser accepts
      the write (a full or disabled storage throws, and the code swallows it). */
  function Write(store: Store, admits: (Store, string, string) -> bool, k: string, v: string): (r: Store)
    ensures admits(store, k, v) ==> r == store[k := v]
    ensures !admits(store, k, v) ==> r == store
  {
    if admits(store, k, v) then store[k := v] else store
  }

  /** `Number(config.version || 1)`. */
  function ConfigVersion(version: Value): (r: NumVal)
    ensures !Truthy(version) ==> r == Finite(1)
    ensures version.Num? && version.n != 0 ==> r == Finite(version.n)
  {
    ToNumber(if Truthy(version) then version else Num(1))
  }

  /** `Number(localStorage.getItem('keksly_version'))`: a missing marker is
      `Number(null)`, which is 0. */
  function StoredVersion(store: Store): (r: NumVal)
    ensures VersionKey !in store ==> r == Finite(0)
    ensures VersionKey in store ==> r == StringToNumber(store[VersionKey])
  {
    if VersionKey in store then StringToNumber(store[VersionKey]) else Finite(0)
  }

  // ---------------------------------------------------------------------------
  // Consent states built from the service list

  /** Index of the last service with id `k`, or -1. */
  function LastIndex(svcs: seq<Service>, k: string): (r: int)
    ensures -1 <= r < |svcs|
    ensures r >= 0 ==> svcs[r].id == k && forall j :: r < j < |svcs| ==> svcs[j].id != k
    ensures r < 0 ==> forall j :: 0 <= j < |svcs| ==> svcs[j].id != k
  {
    if svcs == [] then -1
    else if svcs[|svcs| - 1].id == k then |svcs| - 1
    else LastIndex(svcs[..|svcs| - 1], k)
  }

  /** `o = {}; services.forEach(s => o[s.id] = value(s))`. */
  function Assigned(svcs: seq<Service>, value: Service -> Value): seq<Member> {
    if svcs == [] then []
    else
      var n := |svcs| - 1;
      Put(Assigned(svcs[..n], value), svcs[n].id, value(svcs[n]))
  }

  /** `!!srv.required`, what `initializeConsent` stores. */
  function RequiredFlag(s: Service): Value {
    Bool(Truthy(s.required))
  }

  /** What the accept-all button stores. */
  function Granted(s: Service): Value {
    Bool(true)
  }

  /** `s.required` as it is, what the reject-all button stores. */
  function OwnRequired(s: Service): Value {
    s.required
  }

  /** `initializeConsent()`: every service id mapped to `!!required`. */
  function InitialState(svcs: seq<Service>): seq<Member> {
    Assigned(svcs, RequiredFlag)
  }

  /** The accept-all button's new state. */
  function AcceptAllState(svcs: seq<Service>): seq<Member> {
    Assigned(svcs, Granted)
  }

  /** The reject-all button's new state. */
  function RejectAllState(svcs: seq<Service>): seq<Member> {
    Assigned(svcs, OwnRequired)
  }

  /** Some service with id `k` has a truthy `required`. */
  ghost predicate RequiredId(svcs: seq<Service>, k: string) {
    exists j :: 0 <= j < |svcs| && svcs[j].id == k && Truthy(svcs[j].required)
  }

  /** `services.forEach(srv => { if (srv.required) state[srv.id] = true; })`. */
  function ForceRequired(state: seq<Member>, svcs: seq<Service>): seq<Member> {
    if svcs == [] then state
    else
      var n := |svcs| - 1;
      var p := ForceRequired(state, svcs[..n]);
      if Truthy(svcs[n].required) then Put(p, svcs[n].id, Bool(true)) else p
  }

  lemma {:induction false} AssignedGet(svcs: seq<Service>, value: Service -> Value, k: string)
    ensures Get(Assigned(svcs, value), k) ==
      if LastIndex(svcs, k) < 0 then None else Some(value(svcs[LastIndex(svcs, k)]))
  {
    if svcs != [] {
      var n := |svcs| - 1;
      AssignedGet(svcs[..n], value, k);
    }
  }

  lemma {:induction false} AssignedDistinct(svcs: seq<Service>, value: Service -> Value)
    ensures DistinctKeys(Assigned(svcs, value))
  {
    if svcs != [] {
      var n := |svcs| - 1;
      AssignedDistinct(svcs[..n], value);
      PutDistinct(Assigned(svcs[..n], value), svcs[n].id, value(svcs[n]));
    }
  }

  /** The built state maps exactly the configured ids, each to the value of
      the last service with that id. */
  lemma AssignedReads(svcs: seq<Service>, value: Service -> Value)
    ensures DistinctKeys(Assigned(svcs, value))
    ensures forall k :: k in Keys(Assigned(svcs, value)) <==> exists j :: 0 <= j < |svcs| && svcs[j].id == k
    ensures forall j :: 0 <= j < |svcs| && (forall i :: j < i < |svcs| ==> svcs[i].id != svcs[j].id) ==>
      Get(Assigned(svcs, value), svcs[j].id) == Some(value(svcs[j]))
  {
    AssignedDistinct(svcs, value);
    forall k
      ensures Get(Assigned(svcs, value), k) ==
        if LastIndex(svcs, k) < 0 then None else Some(value(svcs[LastIndex(svcs, k)]))
    {
      AssignedGet(svcs, value, k);
    }
    forall j | 0 <= j < |svcs| && (forall i :: j < i < |svcs| ==> svcs[i].id != svcs[j].id)
      ensures LastIndex(svcs, svcs[j].id) == j
    {
    }
  }

  /** Accept-all grants every configured id. */
  lemma AcceptAllGrants(svcs: seq<Service>)
    ensures forall j :: 0 <= j < |svcs| ==> Get(AcceptAllState(svcs), svcs[j].id) == Some(Bool(true))
    ensures forall k :: k in Keys(AcceptAllState(svcs)) ==> exists j :: 0 <= j < |svcs| && svcs[j].id == k
  {
    forall j | 0 <= j < |svcs|
      ensures Get(AcceptAllState(svcs), svcs[j].id) == Some(Bool(true))
    {
      AssignedGet(svcs, Granted, svcs[j].id);
    }
    AssignedReads(svcs, Granted);
  }

  /** A required id of a longer list is one of the shorter list or the
      last service's. */
  lemma RequiredIdLast(svcs: seq<Service>, k: string)
    requires svcs != []
    ensures RequiredId(svcs, k) <==>
      RequiredId(svcs[..|svcs| - 1], k) || (svcs[|svcs| - 1].id == k && Truthy(svcs[|svcs| - 1].required))
  {
    var n := |svcs| - 1;
    if RequiredId(svcs, k) {
      var j :| 0 <= j < |svcs| && svcs[j].id == k && Truthy(svcs[j].required);
      if j < n {
        assert svcs[..n][j] == svcs[j];
      }
    }
    if RequiredId(svcs[..n], k) {
      var j :| 0 <= j < n && svcs[..n][j].id == k && Truthy(svcs[..n][j].required);
      assert svcs[j] == svcs[..n][j];
    }
  }

  /** After the required flags are forced, every required id reads true and
      every other key reads what it read before. */
  lemma {:induction false} ForceRequiredGet(state: seq<Member>, svcs: seq<Service>, k: string)
    ensures Get(ForceRequired(state, svcs), k) == if RequiredId(svcs, k) then Some(Bool(true)) else Get(state, k)
  {
    if svcs != [] {
      var n := |svcs| - 1;
      ForceRequiredGet(state, svcs[..n], k);
      RequiredIdLast(svcs, k);
    }
  }

  lemma {:induction false} ForceRequiredKeys(state: seq<Member>, svcs: seq<Service>)
    ensures Keys(state) <= Keys(ForceRequired(state, svcs))
    ensures DistinctKeys(state) ==> DistinctKeys(ForceRequired(state, svcs))
  {
    if svcs != [] {
      var n := |svcs| - 1;
      ForceRequiredKeys(state, svcs[..n]);
      var p := ForceRequired(state, svcs[..n]);
      if Truthy(svcs[n].required) && DistinctKeys(state) {
        PutDistinct(p, svcs[n].id, Bool(true));
      }
    }
  }

  /** The required-services invariant: every service with a truthy
      `required` reads `true`. */
  ghost predicate RequiredGranted(state: seq<Member>, svcs: seq<Service>) {
    forall j :: 0 <= j < |svcs| && Truthy(svcs[j].required) ==> Get(state, svcs[j].id) == Some(Bool(true))
  }

  lemma ForceRequiredGrants(state: seq<Member>, svcs: seq<Service>)
    ensures RequiredGranted(ForceRequired(state, svcs), svcs)
    ensures forall k :: !RequiredId(svcs, k) ==> Get(ForceRequired(state, svcs), k) == Get(state, k)
  {
    forall k
      ensures Get(ForceRequired(state, svcs), k) == if RequiredId(svcs, k) then Some(Bool(true)) else Get(state, k)
    {
      ForceRequiredGet(state, svcs, k);
    }
  }

  /** Forcing changes nothing where the required ids already read true. */
  lemma {:induction false} ForceRequiredNoop(state: seq<Member>, svcs: seq<Service>)
    requires RequiredGranted(state, svcs)
    ensures ForceRequired(state, svcs) == state
  {
    if svcs != [] {
      var n := |svcs| - 1;
      assert RequiredGranted(state, svcs[..n]) by {
        forall j | 0 <= j < n && Truthy(svcs[..n][j].required)
          ensures Get(state, svcs[..n][j].id) == Some(Bool(true))
        {
          assert svcs[..n][j] == svcs[j];
        }
      }
      ForceRequiredNoop(state, svcs[..n]);
      if Truthy(svcs[n].required) {
        PutSame(state, svcs[n].id, Bool(true));
      }
    }
  }

  // ---------------------------------------------------------------------------
  // loadConsent

  datatype LoadResult =
    | Loaded(state: seq<Member>, store: Store, showBanner: bool)
      /** The stored blob parses to something other than an object and the
          version matches: writing `consentState[srv.id]` then throws. */
    | LoadFailed

  /** The consent state `loadConsent` starts from before the version check:
      the parsed blob, `{}` for unparseable text, the required defaults when
      nothing is stored, and `None` for a blob that is not an object. */
  function StoredState(store: Store, svcs: seq<Service>): Option<seq<Member>> {
    if Present(store, ConsentKey) then
      match Parse(store[ConsentKey])
      case Parsed(v) => if v.Obj? then Some(v.members) else None
      case Malformed => Some([])
    else Some(InitialState(svcs))
  }

  /** `loadConsent()`: the state, the store and `shouldShowBanner` after it. */
  function LoadSpec(cfg: Config, store: Store, admits: (Store, string, string) -> bool): LoadResult {
    var cv := ConfigVersion(cfg.version);
    if !StrictEquals(StoredVersion(store), cv) then
      var cleared := store - {ConsentKey};
      Loaded(ForceRequired(InitialState(cfg.services), cfg.services),
             Write(cleared, admits, VersionKey, NumberToString(cv)), true)
    else
      match StoredState(store, cfg.services)
      case Some(st) => Loaded(ForceRequired(st, cfg.services), store, !Present(store, ConsentKey))
      case None => LoadFailed
  }

  /** After every load the required services are granted, and the state
      has distinct keys. */
  lemma LoadGrantsRequired(cfg: Config, store: Store, admits: (Store, string, string) -> bool)
    ensures LoadSpec(cfg, store, admits).Loaded? ==>
      RequiredGranted(LoadSpec(cfg, store, admits).state, cfg.services) &&
      DistinctKeys(LoadSpec(cfg, store, admits).state)
  {
    var r := LoadSpec(cfg, store, admits);
    if r.Loaded? {
      var cv := ConfigVersion(cfg.version);
      var st: seq<Member>;
      if !StrictEquals(StoredVersion(store), cv) {
        st := InitialState(cfg.services);
        AssignedDistinct(cfg.services, RequiredFlag);
      } else {
        st := StoredState(store, cfg.services).value;
        if Present(store, ConsentKey) && Parse(store[ConsentKey]).Parsed? {
          ParseJson(store[ConsentKey]);
        } else if !Present(store, ConsentKey) {
          AssignedDistinct(cfg.services, RequiredFlag);
        }
      }
      assert r.state == ForceRequired(st, cfg.services);
      ForceRequiredGrants(st, cfg.services);
      ForceRequiredKeys(st, cfg.services);
    }
  }

  /** A version bump discards consent: every configured id reads `true`
      if some service with that id is required and `false` otherwise, the stored blob is removed, the marker is rewritten (if the
      write succeeds) and the banner is shown. */
  lemma VersionBump(cfg: Config, store: Store, admits: (Store, string, string) -> bool)
    requires !StrictEquals(StoredVersion(store), ConfigVersion(cfg.version))
    ensures LoadSpec(cfg, store, admits).Loaded?
    ensures var r := LoadSpec(cfg, store, admits);
      r.showBanner && ConsentKey !in r.store &&
      (forall j :: 0 <= j < |cfg.services| ==> Get(r.state, cfg.services[j].id).Some?) &&
      (forall k :: k in Keys(r.state) ==> exists j :: 0 <= j < |cfg.services| && cfg.services[j].id == k)
    ensures forall j :: 0 <= j < |cfg.services| ==>
      Get(LoadSpec(cfg, store, admits).state, cfg.services[j].id) == Some(Bool(RequiredId(cfg.services, cfg.services[j].id)))
    ensures var r := LoadSpec(cfg, store, admits);
      var vs := NumberToString(ConfigVersion(cfg.version));
      r.store == if admits(store - {ConsentKey}, VersionKey, vs) then (store - {ConsentKey})[VersionKey := vs]
                 else store - {ConsentKey}
  {
    var svcs := cfg.services;
    var init := InitialState(svcs);
    var st := ForceRequired(init, svcs);
    AssignedReads(svcs, RequiredFlag);
    ForceRequiredKeys(init, svcs);
    forall j | 0 <= j < |svcs|
      ensures Get(st, svcs[j].id).Some?
    {
      assert svcs[j].id in Keys(init);
    }
    forall j | 0 <= j < |svcs|
      ensures Get(st, svcs[j].id) == Some(Bool(RequiredId(svcs, svcs[j].id)))
    {
      var k := svcs[j].id;
      ForceRequiredGet(init, svcs, k);
      AssignedGet(svcs, RequiredFlag, k);
    }
    forall k | k in Keys(st)
      ensures exists j :: 0 <= j < |svcs| && svcs[j].id == k
    {
      ForceRequiredGet(init, svcs, k);
      if RequiredId(svcs, k) {
        var j :| 0 <= j < |svcs| && svcs[j].id == k && Truthy(svcs[j].required);
      } else {
        assert k in Keys(init);
      }
    }
  }

  /** A configured version that `Number` cannot read (such as `"v2"`) is
      `NaN`, which is not `===` to anything: every load discards consent
      and shows the banner, whatever is stored. */
  lemma NaNVersionResets(cfg: Config, store: Store, admits: (Store, string, string) -> bool)
    requires ConfigVersion(cfg.version).NaN?
    ensures LoadSpec(cfg, store, admits).Loaded? && LoadSpec(cfg, store, admits).showBanner
    ensures ConsentKey !in LoadSpec(cfg, store, admits).store
  {
    assert !StrictEquals(StoredVersion(store), ConfigVersion(cfg.version));
  }

  /** With a matching version the store is left alone, the banner shows
      exactly when no consent blob was stored, a stored object keeps every
      entry (ids no longer configured included) except that required ids
      read true, and unparseable text counts as `{}`. */
  lemma VersionMatch(cfg: Config, store: Store, admits: (Store, string, string) -> bool)
    requires StrictEquals(StoredVersion(store), ConfigVersion(cfg.version))
    ensures var r := LoadSpec(cfg, store, admits);
      r.Loaded? ==> r.store == store && r.showBanner == !Present(store, ConsentKey)
    ensures Present(store, ConsentKey) && Parse(store[ConsentKey]).Parsed? && Parse(store[ConsentKey]).value.Obj? ==>
      var ms := Parse(store[ConsentKey]).value.members;
      LoadSpec(cfg, store, admits).Loaded? &&
      (forall k :: !RequiredId(cfg.services, k) ==> Get(LoadSpec(cfg, store, admits).state, k) == Get(ms, k)) &&
      Keys(ms) <= Keys(LoadSpec(cfg, store, admits).state)
    ensures Present(store, ConsentKey) && Parse(store[ConsentKey]).Malformed? ==>
      LoadSpec(cfg, store, admits) == Loaded(ForceRequired([], cfg.services), store, false)
    ensures LoadSpec(cfg, store, admits).LoadFailed? <==>
      Present(store, ConsentKey) && Parse(store[ConsentKey]).Parsed? && !Parse(store[ConsentKey]).value.Obj?
  {
    if Present(store, ConsentKey) && Parse(store[ConsentKey]).Parsed? && Parse(store[ConsentKey]).value.Obj? {
      var ms := Parse(store[ConsentKey]).value.members;
      ForceRequiredGrants(ms, cfg.services);
      ForceRequiredKeys(ms, cfg.services);
    }
  }

  /** `run` shows the banner when `shouldShowBanner || !getItem('keksly_consent')`;
      after a load the second half never adds anything. */
  lemma BannerDecision(cfg: Config, store: Store, admits: (Store, string, string) -> bool)
    requires LoadSpec(cfg, store, admits).Loaded?
    ensures var r := LoadSpec(cfg, store, admits);
      (r.showBanner || !Present(r.store, ConsentKey)) == r.showBanner
  {
  }

  // ---------------------------------------------------------------------------
  // saveConsent

  /** `{ ...consentState, ...newState }` with the required ids forced on. */
  function SaveState(state: seq<Member>, newState: seq<Member>, svcs: seq<Service>): seq<Member> {
    ForceRequired(Assign(Assign([], state), newState), svcs)
  }

  /** The consent blob and version marker writes of `saveConsent`: both in
      one `try`, so a failed blob write skips the marker. */
  function SaveStore(state: seq<Member>, cv: NumVal, store: Store, admits: (Store, string, string) -> bool): Store {
    var blob := Stringify(Obj(state)).value;
    if admits(store, ConsentKey, blob) then Write(store[ConsentKey := blob], admits, VersionKey, NumberToString(cv))
    else store
  }

  /** Keys of the new state win, keys it lacks keep their old values,
      required services read true, and no old key is lost. */
  lemma SaveMerges(state: seq<Member>, newState: seq<Member>, svcs: seq<Service>)
    requires DistinctKeys(state) && DistinctKeys(newState)
    ensures DistinctKeys(SaveState(state, newState, svcs))
    ensures RequiredGranted(SaveState(state, newState, svcs), svcs)
    ensures forall k :: !RequiredId(svcs, k) && k in Keys(newState) ==> Get(SaveState(state, newState, svcs), k) == Get(newState, k)
    ensures forall k :: !RequiredId(svcs, k) && k !in Keys(newState) ==> Get(SaveState(state, newState, svcs), k) == Get(state, k)
    ensures Keys(state) <= Keys(SaveState(state, newState, svcs))
  {
    assert Assign([], state) == state by {
      AssignFresh([], state);
      assert [] + state == state;
    }
    ForceRequiredGrants(Assign(state, newState), svcs);
    ForceRequiredKeys(Assign(state, newState), svcs);
  }

  /** Saving the same choice twice leaves every key reading what the first
      save left. */
  lemma SaveIdempotent(state: seq<Member>, newState: seq<Member>, svcs: seq<Service>)
    requires DistinctKeys(state) && DistinctKeys(newState)
    ensures forall k ::
      Get(SaveState(SaveState(state, newState, svcs), newState, svcs), k) == Get(SaveState(state, newState, svcs), k)
  {
    var once := SaveState(state, newState, svcs);
    SaveMerges(state, newState, svcs);
    SaveMerges(once, newState, svcs);
    forall k
      ensures Get(SaveState(once, newState, svcs), k) == Get(once, k)
    {
      if RequiredId(svcs, k) {
        var j :| 0 <= j < |svcs| && svcs[j].id == k && Truthy(svcs[j].required);
      }
    }
  }

  /** Values that `JSON.stringify` keeps as they are. */
  ghost predicate Plain(state: seq<Member>) {
    forall i :: 0 <= i < |state| ==> IsJson(state[i].val)
  }

  lemma {:induction false} NormalizeMembersGet(ms: seq<Member>, k: string)
    requires DistinctKeys(ms)
    ensures Get(NormalizeMembers(ms), k) ==
      if Get(ms, k).Some? && !Get(ms, k).value.Undefined? then Some(Normalize(Get(ms, k).value)) else None
  {
    if ms != [] {
      DistinctTail(ms);
      NormalizeMembersGet(ms[1..], k);
      if ms[0].key == k {
        NormalizeMembersKeys(ms[1..]);
      }
    }
  }

  /** What the store holds after both writes of a save succeeded: the
      blob parses back to what stringify kept, and the marker reads back as
      the version. */
  lemma SavedStoreReads(state: seq<Member>, i: int, store: Store, admits: (Store, string, string) -> bool)
    requires WellFormed(Obj(state))
    requires var blob := Stringify(Obj(state)).value;
      admits(store, ConsentKey, blob) && admits(store[ConsentKey := blob], VersionKey, NumberToString(Finite(i)))
    ensures var saved := SaveStore(state, Finite(i), store, admits);
      Present(saved, ConsentKey) && StoredVersion(saved) == Finite(i) &&
      Parse(saved[ConsentKey]) == Parsed(Obj(NormalizeMembers(state)))
  {
    var blob := Stringify(Obj(state)).value;
    var saved := SaveStore(state, Finite(i), store, admits);
    assert saved == store[ConsentKey := blob][VersionKey := NumberToString(Finite(i))];
    NumberStringRoundTrip(i);
    StringifyParse(Obj(state));
    assert blob[0] == '{';
  }

  /** Stringify keeps every `true`, so the required-services invariant
      survives a round trip through storage. */
  lemma NormalizeKeepsGranted(state: seq<Member>, svcs: seq<Service>)
    requires DistinctKeys(state) && RequiredGranted(state, svcs)
    ensures RequiredGranted(NormalizeMembers(state), svcs)
  {
    forall j | 0 <= j < |svcs| && Truthy(svcs[j].required)
      ensures Get(NormalizeMembers(state), svcs[j].id) == Some(Bool(true))
    {
      NormalizeMembersGet(state, svcs[j].id);
    }
  }

  /** Loading a store whose marker matches and whose blob parses to an
      object in which the required services are granted gives that object
      back, with the banner hidden. */
  lemma LoadOfSaved(cfg: Config, saved: Store, norm: seq<Member>, admits: (Store, string, string) -> bool)
    requires Present(saved, ConsentKey) && StoredVersion(saved) == ConfigVersion(cfg.version)
    requires ConfigVersion(cfg.version).Finite?
    requires Parse(saved[ConsentKey]) == Parsed(Obj(norm)) && RequiredGranted(norm, cfg.services)
    ensures LoadSpec(cfg, saved, admits) == Loaded(norm, saved, false)
  {
    ForceRequiredNoop(norm, cfg.services);
  }

  /** Saving and then loading again under the same configuration reproduces
      what `JSON.stringify` keeps of the saved state (all of it when the
      state holds only JSON values, such as booleans), and the banner stays
      hidden.  This needs both writes to succeed and a numeric config version
      (a `NaN` version never matches the stored marker). */
  lemma SaveThenLoad(cfg: Config, state: seq<Member>, store: Store, admits: (Store, string, string) -> bool)
    requires WellFormed(Obj(state)) && RequiredGranted(state, cfg.services)
    requires ConfigVersion(cfg.version).Finite?
    requires var blob := Stringify(Obj(state)).value;
      admits(store, ConsentKey, blob) &&
      admits(store[ConsentKey := blob], VersionKey, NumberToString(ConfigVersion(cfg.version)))
    ensures var saved := SaveStore(state, ConfigVersion(cfg.version), store, admits);
      LoadSpec(cfg, saved, admits) == Loaded(NormalizeMembers(state), saved, false)
    ensures Plain(state) ==> NormalizeMembers(state) == state
  {
    var cv := ConfigVersion(cfg.version);
    var saved := SaveStore(state, cv, store, admits);
    SavedStoreReads(state, cv.i, store, admits);
    NormalizeKeepsGranted(state, cfg.services);
    LoadOfSaved(cfg, saved, NormalizeMembers(state), admits);
    if Plain(state) {
      NormalizeMembersOfJson(state);
    }
  }

  /** Reject-all grants the required services; every other configured id
      reads its own falsy `required` value, and one whose `required` is
      absent (`undefined`) is dropped from the stored blob. */
  lemma RejectAllDenies(state: seq<Member>, svcs: seq<Service>)
    requires DistinctKeys(state)
    ensures var s := SaveState(state, RejectAllState(svcs), svcs);
      RequiredGranted(s, svcs) &&
      (forall j :: 0 <= j < |svcs| && !RequiredId(svcs, svcs[j].id) ==>
        Get(s, svcs[j].id).Some? && !Truthy(Get(s, svcs[j].id).value)) &&
      (forall j :: (0 <= j < |svcs| && !RequiredId(svcs, svcs[j].id) && svcs[j].required.Undefined? &&
                    (forall i :: j < i < |svcs| ==> svcs[i].id != svcs[j].id)) ==>
        Get(NormalizeMembers(s), svcs[j].id) == None)
  {
    var rs := RejectAllState(svcs);
    AssignedReads(svcs, OwnRequired);
    SaveMerges(state, rs, svcs);
    var s := SaveState(state, rs, svcs);
    forall j | 0 <= j < |svcs| && !RequiredId(svcs, svcs[j].id)
      ensures Get(s, svcs[j].id).Some? && !Truthy(Get(s, svcs[j].id).value)
    {
      var k := svcs[j].id;
      AssignedGet(svcs, OwnRequired, k);
      var last := LastIndex(svcs, k);
      assert !Truthy(svcs[last].required);
    }
    forall j | 0 <= j < |svcs| && !RequiredId(svcs, svcs[j].id) && svcs[j].required.Undefined? &&
        (forall i :: j < i < |svcs| ==> svcs[i].id != svcs[j].id)
      ensures Get(NormalizeMembers(s), svcs[j].id) == None
    {
      NormalizeMembersGet(s, svcs[j].id);
    }
  }

  // ---------------------------------------------------------------------------
  // History

  /** The `meta` argument of `saveConsent`: its `source` and `action`. */
  datatype Meta = Meta(source: Value, action: Value)

  /** `userId` as a JavaScript value: `null` until an id is known. */
  function UidValue(uid: Option<string>): Value {
    match uid
    case None => Null
    case Some(u) => Str(u)
  }

  /** The entry `appendHistory` builds. */
  function HistoryEntry(now: string, uid: Option<string>, state: seq<Member>, meta: Meta): (e: Value)
    ensures e.Obj? && DistinctKeys(e.members)
    ensures Get(e.members, "consent") == Some(Obj(state)) && Get(e.members, "uid") == Some(UidValue(uid))
    ensures Get(e.members, "source") == Some(if Truthy(meta.source) then meta.source else Str("unknown"))
    ensures Get(e.members, "action") == Some(if Truthy(meta.action) then meta.action else Str("update"))
    ensures Get(e.members, "timestamp") == Some(Str(now))
  {
    var ms := [Member("timestamp", Str(now)), Member("uid", UidValue(uid)), Member("consent", Obj(state)),
               Member("source", if Truthy(meta.source) then meta.source else Str("unknown")),
               Member("action", if Truthy(meta.action) then meta.action else Str("update"))];
    EntryShape(ms);
    Obj(ms)
  }

  lemma EntryShape(ms: seq<Member>)
    requires |ms| == 5 && ms[0].key == "timestamp" && ms[1].key == "uid" && ms[2].key == "consent"
    requires ms[3].key == "source" && ms[4].key == "action"
    ensures DistinctKeys(ms)
    ensures Get(ms, "timestamp") == Some(ms[0].val) && Get(ms, "uid") == Some(ms[1].val)
    ensures Get(ms, "consent") == Some(ms[2].val) && Get(ms, "source") == Some(ms[3].val)
    ensures Get(ms, "action") == Some(ms[4].val)
  {
    forall i, j | 0 <= i < j < 5
      ensures ms[i].key != ms[j].key
    {
      assert i == 0 || i == 1 || i == 2 || i == 3;
      assert j == 1 || j == 2 || j == 3 || j == 4;
    }
    assert ms[0..] == ms;
    GetFrom(ms, "timestamp", 0);
    GetFrom(ms, "uid", 0); GetFrom(ms, "uid", 1);
    GetFrom(ms, "consent", 0); GetFrom(ms, "consent", 1); GetFrom(ms, "consent", 2);
    GetFrom(ms, "source", 0); GetFrom(ms, "source", 1); GetFrom(ms, "source", 2); GetFrom(ms, "source", 3);
    GetFrom(ms, "action", 0); GetFrom(ms, "action", 1); GetFrom(ms, "action", 2); GetFrom(ms, "action", 3);
    GetFrom(ms, "action", 4);
  }

  /** `JSON.stringify(consentHistory)`, the text `appendHistory` stores. */
  function HistoryBlob(history: seq<Value>): string {
    Stringify(Arr(history)).value
  }

  /** `lastHistoryEntry`: the last entry, or `null`. */
  function LastEntry(history: seq<Value>): (r: Value)
    ensures history != [] ==> r == history[|history| - 1]
    ensures history == [] ==> r == Null
  {
    if history == [] then Null else history[|history| - 1]
  }

  /** The history `loadHistory` leaves: the stored array, `[]` for
      unparseable text or a falsy value such as `null`, and the current
      history when nothing is stored. */
  function LoadedHistory(history: seq<Value>, store: Store): seq<Value> {
    if Present(store, HistoryKey) then
      match Parse(store[HistoryKey])
      case Parsed(v) => if v.Arr? then v.items else []
      case Malformed => []
    else history
  }

  /** Appending and then loading the history again gives back the whole
      list, each entry as `JSON.stringify` keeps it. */
  lemma HistoryRoundTrip(history: seq<Value>, entry: Value, store: Store, admits: (Store, string, string) -> bool)
    requires WellFormed(Arr(history + [entry]))
    requires admits(store, HistoryKey, HistoryBlob(history + [entry]))
    ensures var saved := Write(store, admits, HistoryKey, HistoryBlob(history + [entry]));
      LoadedHistory([], saved) == NormalizeItems(history + [entry])
  {
    var h := history + [entry];
    StringifyParse(Arr(h));
    assert HistoryBlob(h)[0] == '[';
  }
  // ---------------------------------------------------------------------------
  // The user id, reset, and the data layer record

  /** The id `generateUid` settles on: the stored `keksly_uid` when it is
      truthy, otherwise the newly generated one. */
  function UidAfter(store: Store, newId: string): (u: string)
    ensures Present(store, UidKey) ==> u == store[UidKey]
    ensures !Present(store, UidKey) ==> u == newId
  {
    if Present(store, UidKey) then store[UidKey] else newId
  }

  /** The store after `generateUid`: the newId id is written only when
      none was stored. */
  function UidStore(store: Store, admits: (Store, string, string) -> bool, newId: string): Store {
    if Present(store, UidKey) then store else Write(store, admits, UidKey, newId)
  }

  /** Once a non-empty id has been written, every later page load reuses
      it, whatever id it would have generated. */
  lemma UidSticks(store: Store, admits: (Store, string, string) -> bool, newId: string, later: string)
    requires newId != [] && (Present(store, UidKey) || admits(store, UidKey, newId))
    ensures UidAfter(UidStore(store, admits, newId), later) == UidAfter(store, newId)
    ensures UidStore(UidStore(store, admits, newId), admits, later) == UidStore(store, admits, newId)
  {
    if !Present(store, UidKey) {
      assert UidStore(store, admits, newId) == store[UidKey := newId];
    }
  }

  /** The keys `Keksly.reset()` removes. */
  const ResetKeys: set<string> := {ConsentKey, VersionKey, HistoryKey, UidKey}

  /** After a reset and the reload that follows it, the next load starts
      over: the banner shows, the state is the required defaults, the
      reloaded page's empty history stays empty, and a new id is generated. */
  lemma ResetThenLoad(cfg: Config, store: Store, admits: (Store, string, string) -> bool, newId: string)
    ensures var cleared := store - ResetKeys;
      var r := LoadSpec(cfg, cleared, admits);
      r.Loaded? && r.showBanner && r.state == ForceRequired(InitialState(cfg.services), cfg.services) &&
      LoadedHistory([], cleared) == [] && UidAfter(cleared, newId) == newId
  {
    var cleared := store - ResetKeys;
    assert ConsentKey !in cleared && VersionKey !in cleared && HistoryKey !in cleared && UidKey !in cleared;
    if !StrictEquals(StoredVersion(cleared), ConfigVersion(cfg.version)) {
      assert cleared - {ConsentKey} == cleared;
    }
  }

  /** The record `pushDataLayer` pushes. */
  function UpdateRecord(state: seq<Member>, history: seq<Value>, uid: Option<string>): (e: Value)
    ensures e.Obj? && Lookup(e.members, "event") == Str("keksly_consent_update")
    ensures Lookup(e.members, "consent") == Obj(state) && Lookup(e.members, "consent_history_entry") == Arr(history)
    ensures Lookup(e.members, "uid") == UidValue(uid)
  {
    var ms := [Member("event", Str("keksly_consent_update")), Member("consent", Obj(state)),
               Member("consent_history_entry", Arr(history)), Member("uid", UidValue(uid))];
    assert ms[0..] == ms;
    GetFrom(ms, "consent", 0); GetFrom(ms, "consent", 1);
    GetFrom(ms, "consent_history_entry", 0); GetFrom(ms, "consent_history_entry", 1);
    GetFrom(ms, "consent_history_entry", 2);
    GetFrom(ms, "uid", 0); GetFrom(ms, "uid", 1); GetFrom(ms, "uid", 2); GetFrom(ms, "uid", 3);
    Obj(ms)
  }
}
