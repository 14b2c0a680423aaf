/** `handleAction` of both revisions: an action configuration is mapped to
    the one host effect it causes. The host calls themselves
    (`callService`, the `hass-more-info` event, `history.pushState` with
    the `location-changed` event, `console.error`) are effect values. */
module Actions {
  import opened Js
  import opened Config

  datatype Effect =
    | NoEffect
      /** `hass.callService(domain, service, service_data)`. */
    | CallService(domain: string, service: JsValue, serviceData: Option<Payload>)
      /** A bubbling, composed `hass-more-info` event carrying the entity id. */
    | MoreInfo(entityId: JsValue)
      /** `history.pushState` of the path, then a `location-changed` event. */
    | Navigate(path: string)
      /** `console.error` with the message. */
    | LogError(message: string)

  const NavigationPathMissing := "Navigation path not defined in actionConfig"

  const CallServiceAction := Str("call-service")
  const MoreInfoAction := Str("more-info")
  const NavigateAction := Str("navigate")

  /** `service.split(".")` is only defined on a string: a call-service action
      with any other `service` throws, which callers must not configure. */
  predicate Dispatchable(a: Option<ActionConfig>) {
    a.Some? && a.value.action == CallServiceAction ==> a.value.service.Str?
  }

  /** `const [domain, service] = s.split(".")`: the first two pieces, the
      second undefined when there is no separator. */
  function ServiceTarget(s: string): (r: (string, JsValue))
    ensures '.' !in r.0
    ensures r.1.Str? ==> '.' !in r.1.s
  {
    var parts := Split(s, '.');
    (parts[0], if |parts| >= 2 then Str(parts[1]) else Undefined)
  }

  /** `"light.toggle"` targets domain `light`, service `toggle`; anything after
      a second separator is ignored; a name without separator has no service. */
  lemma ServiceTargetPieces(domain: string, service: string, rest: string)
    requires '.' !in domain && '.' !in service
    ensures ServiceTarget(domain) == (domain, Undefined)
    ensures ServiceTarget(domain + "." + service) == (domain, Str(service))
    ensures ServiceTarget(domain + "." + service + "." + rest) == (domain, Str(service))
  {
    SplitWithoutSeparator(domain, '.');
    SplitWithoutSeparator(service, '.');
    SplitAtFirst(domain, service, '.');
    assert domain + "." + service + "." + rest == domain + ['.'] + (service + ['.'] + rest);
    SplitAtFirst(domain, service + ['.'] + rest, '.');
    SplitAtFirst(service, rest, '.');
  }

  /** The domain is everything before the first separator. */
  lemma ServiceTargetDomainIsPrefix(s: string)
    ensures var d := ServiceTarget(s).0; |d| <= |s| && s[..|d|] == d
    ensures ServiceTarget(s).1.Str? ==> '.' in s
  {
    var parts := Split(s, '.');
    JoinSplit(s, '.');
    if |parts| > 1 {
      assert Join(parts, '.') == parts[0] + ['.'] + Join(parts[1..], '.');
      assert s[|parts[0]|] == '.';
    }
  }

  /** handleAction of the later revision. */
  function DistHandleAction(a: Option<ActionConfig>): (e: Effect)
    requires Dispatchable(a)
    ensures e.CallService? <==> a.Some? && a.value.action == CallServiceAction
    ensures e.CallService? ==> (e.domain, e.service) == ServiceTarget(a.value.service.s)
    ensures e.CallService? ==> e.serviceData == a.value.serviceData
    ensures e.MoreInfo? <==> a.Some? && a.value.action == MoreInfoAction
    ensures e.MoreInfo? ==> e.entityId == a.value.entity
    ensures e.Navigate? <==> a.Some? && a.value.action == NavigateAction && Truthy(a.value.navigationPath)
    ensures e.Navigate? ==> e.path == a.value.navigationPath.s
    ensures e.LogError? <==> a.Some? && a.value.action == NavigateAction && !Truthy(a.value.navigationPath)
    ensures e.LogError? ==> e.message == NavigationPathMissing
  {
    if a.None? || !Truthy(a.value.action) then NoEffect
    else
      var c := a.value;
      if c.action == CallServiceAction then
        var target := ServiceTarget(c.service.s);
        CallService(target.0, target.1, c.serviceData)
      else if c.action == MoreInfoAction then MoreInfo(c.entity)
      else if c.action == NavigateAction then
        if Truthy(c.navigationPath) then Navigate(c.navigationPath.s) else LogError(NavigationPathMissing)
      else NoEffect
  }

  /** No action, an empty discriminator or an unknown one has no effect. */
  lemma DistIgnoresUnknown(a: Option<ActionConfig>)
    requires Dispatchable(a)
    ensures DistHandleAction(a) == NoEffect <==>
      a.None? || a.value.action !in {CallServiceAction, MoreInfoAction, NavigateAction}
  {
  }

  /** handleAction of the earlier revision: only call-service and more-info. */
  function SrcHandleAction(a: Option<ActionConfig>): (e: Effect)
    requires Dispatchable(a)
    ensures e.CallService? <==> a.Some? && a.value.action == CallServiceAction
    ensures e.CallService? ==> (e.domain, e.service) == ServiceTarget(a.value.service.s)
    ensures e.CallService? ==> e.serviceData == a.value.serviceData
    ensures e.MoreInfo? <==> a.Some? && a.value.action == MoreInfoAction
    ensures e.MoreInfo? ==> e.entityId == a.value.entity
    ensures !e.Navigate? && !e.LogError?
  {
    if a.None? || !Truthy(a.value.action) then NoEffect
    else
      var c := a.value;
      if c.action == CallServiceAction then
        var target := ServiceTarget(c.service.s);
        CallService(target.0, target.1, c.serviceData)
      else if c.action == MoreInfoAction then MoreInfo(c.entity)
      else NoEffect
  }

  /** The earlier revision behaves as the later one except that it
      ignores navigate actions altogether. */
  lemma SrcIsDistWithoutNavigate(a: Option<ActionConfig>)
    requires Dispatchable(a)
    ensures SrcHandleAction(a) == if a.Some? && a.value.action == NavigateAction then NoEffect else DistHandleAction(a)
  {
  }

  /** `{action: "call-service", service: "light.toggle", service_data: d}`
      calls domain `light`, service `toggle`, with `d`. */
  lemma ToggleLight(d: Payload)
    ensures DistHandleAction(Some(ActionConfig(CallServiceAction, Str("light.toggle"), Some(d), Undefined, Undefined)))
         == CallService("light", Str("toggle"), Some(d))
  {
    assert "light.toggle" == "light" + "." + "toggle";
    ServiceTargetPieces("light", "toggle", "");
  }
}
