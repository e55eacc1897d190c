/** Google Consent Mode: the four flags `updateGcm` derives from the consent
    state, and the `config.gcm.enabled` switch `applyConsent` reads. */
module ConsentMode {
  import opened JsValue
  import opened Configuration

  /** The four consent types `updateGcm` reports, in the order it builds them. */
  const AdStorage := "ad_storage"
  const AnalyticsStorage := "analytics_storage"
  const AdUserData := "ad_user_data"
  const AdPersonalization := "ad_personalization"

  /** One service vouches for consent type `t`: its `category` is an array
      holding `t`, and the consent state reads truthy for its id. */
  predicate Vouches(s: Service, state: seq<Member>, t: string) {
    s.category.Arr? && Str(t) in s.category.items && Truthy(Lookup(state, s.id))
  }

  /** `hasConsent(t)`: `config.services.some(...)`, scanned in order. */
  predicate HasConsent(svcs: seq<Service>, state: seq<Member>, t: string) {
    svcs != [] && (Vouches(svcs[0], state, t) || HasConsent(svcs[1..], state, t))
  }

  /** `'granted'` or `'denied'`. */
  function Flag(granted: bool): Value {
    Str(if granted then "granted" else "denied")
  }

  /** The `gcmStatus` object. */
  function Status(svcs: seq<Service>, state: seq<Member>): seq<Member> {
    [Member(AdStorage, Flag(HasConsent(svcs, state, AdStorage))),
     Member(AnalyticsStorage, Flag(HasConsent(svcs, state, AnalyticsStorage))),
     Member(AdUserData, Flag(HasConsent(svcs, state, AdUserData))),
     Member(AdPersonalization, Flag(HasConsent(svcs, state, AdPersonalization)))]
  }

  /** The arguments of `gtag('consent', 'update', gcmStatus)`. */
  function Command(svcs: seq<Service>, state: seq<Member>): seq<Value> {
    [Str("consent"), Str("update"), Obj(Status(svcs, state))]
  }

  /** `config.gcm.enabled` as `if` reads it: `None` where reading the
      property throws (`gcm` is `null` or `undefined`); an array, a string,
      a number or a boolean has no `enabled` property and reads `false`. */
  function Switch(gcm: Value): (r: Option<bool>)
    ensures r.None? <==> gcm.Null? || gcm.Undefined?
    ensures gcm.Obj? ==> r == Some(Truthy(Lookup(gcm.members, "enabled")))
    ensures !gcm.Obj? && r.Some? ==> r == Some(false)
  {
    match gcm
    case Null => None
    case Undefined => None
    case Obj(ms) => Some(Truthy(Lookup(ms, "enabled")))
    case _ => Some(false)
  }

  /** The OR-over-services rule: consent type `t` is granted exactly when
      some configured service vouches for it. */
  lemma {:induction false} HasConsentIff(svcs: seq<Service>, state: seq<Member>, t: string)
    ensures HasConsent(svcs, state, t) <==> exists j :: 0 <= j < |svcs| && Vouches(svcs[j], state, t)
  {
    if svcs != [] {
      HasConsentIff(svcs[1..], state, t);
      if exists j :: 0 <= j < |svcs| && Vouches(svcs[j], state, t) {
        var j :| 0 <= j < |svcs| && Vouches(svcs[j], state, t);
        if j > 0 {
          assert svcs[1..][j - 1] == svcs[j];
        }
      }
      if exists j :: 0 <= j < |svcs[1..]| && Vouches(svcs[1..][j], state, t) {
        var j :| 0 <= j < |svcs[1..]| && Vouches(svcs[1..][j], state, t);
        assert svcs[j + 1] == svcs[1..][j];
      }
    }
  }

  /** Each of the four types reads its own flag in the status object. */
  lemma StatusGet(svcs: seq<Service>, state: seq<Member>, t: string)
    requires t in {AdStorage, AnalyticsStorage, AdUserData, AdPersonalization}
    ensures Get(Status(svcs, state), t) == Some(Flag(HasConsent(svcs, state, t)))
  {
    var st := Status(svcs, state);
    assert st[0..] == st;
    GetFrom(st, t, 0);
    if t != AdStorage {
      GetFrom(st, t, 1);
      if t != AnalyticsStorage {
        GetFrom(st, t, 2);
        if t != AdUserData {
          GetFrom(st, t, 3);
        }
      }
    }
  }

  /** The status object holds the four types, each once and in order. */
  lemma StatusKeys(svcs: seq<Service>, state: seq<Member>)
    ensures Keys(Status(svcs, state)) == [AdStorage, AnalyticsStorage, AdUserData, AdPersonalization]
    ensures DistinctKeys(Status(svcs, state))
  {
    var st := Status(svcs, state);
    assert Keys(st) == [st[0].key] + Keys(st[1..]);
    assert Keys(st[1..]) == [st[1].key] + Keys(st[2..]);
    assert Keys(st[2..]) == [st[2].key] + Keys(st[3..]);
    assert Keys(st[3..]) == [st[3].key] + Keys(st[4..]);
  }

  /** The status object holds the four types, each once and in order, and
      each reads `'granted'` iff some service vouches for it, else `'denied'`. */
  lemma StatusReads(svcs: seq<Service>, state: seq<Member>, t: string)
    requires t in {AdStorage, AnalyticsStorage, AdUserData, AdPersonalization}
    ensures Keys(Status(svcs, state)) == [AdStorage, AnalyticsStorage, AdUserData, AdPersonalization]
    ensures DistinctKeys(Status(svcs, state))
    ensures Get(Status(svcs, state), t) == Some(Str("granted")) <==>
      exists j :: 0 <= j < |svcs| && Vouches(svcs[j], state, t)
    ensures Get(Status(svcs, state), t) == Some(Str("denied")) <==>
      !exists j :: 0 <= j < |svcs| && Vouches(svcs[j], state, t)
  {
    StatusKeys(svcs, state);
    StatusGet(svcs, state, t);
    HasConsentIff(svcs, state, t);
  }

  /** Granting more never withdraws a flag: if every id truthy in `a` is
      truthy in `b`, each type granted under `a` is granted under `b`. */
  lemma GrantedMonotone(svcs: seq<Service>, a: seq<Member>, b: seq<Member>, t: string)
    requires forall i :: 0 <= i < |svcs| && Truthy(Lookup(a, svcs[i].id)) ==> Truthy(Lookup(b, svcs[i].id))
    ensures HasConsent(svcs, a, t) ==> HasConsent(svcs, b, t)
  {
    HasConsentIff(svcs, a, t);
    HasConsentIff(svcs, b, t);
    if HasConsent(svcs, a, t) {
      var j :| 0 <= j < |svcs| && Vouches(svcs[j], a, t);
      assert Vouches(svcs[j], b, t);
    }
  }
}
