/** Where a domain's traffic went, as an hourly report states it or as it follows from the routing status. */
module AiRoutes {
  import opened Wrappers

  datatype Classification = Ai | NotAi | Unclassified

  datatype Tag = AiProxyTag | DirectTag | UnknownTag

  /** A target as a report states it; `port` is what reads as an integer. */
  datatype RawTarget = RawTarget(host: string, port: Option<int>)

  datatype RawRoute = RawRoute(tag: string, path: string, target: Option<RawTarget>)

  datatype Target = Target(host: string, port: Option<nat>)

  datatype Route = Route(tag: Tag, path: string, target: Option<Target>)

  /** `_target`: no target without a host, no port outside the range. */
  function TargetOf(raw: Option<RawTarget>): Option<Target> {
    match raw
    case None => None
    case Some(RawTarget(host, port)) =>
      if host == "" then None
      else if port.None? || port.value <= 0 || port.value > 65535 then Some(Target(host, None))
      else Some(Target(host, Some(port.value)))
  }

  function TagOf(tag: string): Tag {
    if tag == "ai_proxy" then AiProxyTag else if tag == "direct" then DirectTag else UnknownTag
  }

  function DefaultPath(tag: Tag): string {
    match tag
    case AiProxyTag => "ai_node"
    case DirectTag => "normal_data_plane"
    case UnknownTag => "unknown"
  }

  /** The routing status says that the AI route is not in use. */
  predicate NotApplied(status: string) {
    status in {"disabled", "idle", "fallback_to_primary", "manual_fallback", "manual_target_unreachable",
               "pending_proxy_template"}
  }

  /** `_route_from_report`: the stated route with its gaps filled, otherwise one that fits class and status. */
  function RouteFromReport(raw: Option<RawRoute>, classification: Classification, status: string,
                           aiTarget: Option<RawTarget>): Route
  {
    match raw
    case Some(r) =>
      var tag := TagOf(r.tag);
      var target := TargetOf(r.target);
      Route(tag, if r.path == "" then DefaultPath(tag) else r.path,
            if tag == AiProxyTag && target.None? then TargetOf(aiTarget) else target)
    case None =>
      if classification != Ai then Route(DirectTag, DefaultPath(DirectTag), None)
      else if status == "applied" then Route(AiProxyTag, DefaultPath(AiProxyTag), TargetOf(aiTarget))
      else if NotApplied(status) then Route(DirectTag, DefaultPath(DirectTag), None)
      else Route(UnknownTag, DefaultPath(UnknownTag), None)
  }

  predicate KnownPath(path: string) {
    path in {"ai_node", "normal_data_plane", "unknown"}
  }

  /** What the report validator demands of a target. */
  predicate TargetAccepted(target: Option<Target>) {
    match target
    case None => true
    case Some(Target(host, port)) => host != "" && (port.None? || 1 <= port.value <= 65535)
  }

  /**
   Whatever a report states, the target is one the validator accepts; the path is, exactly when none or a known
   one was stated.
   */
  lemma RoutesAreClean(raw: Option<RawRoute>, classification: Classification, status: string,
                       aiTarget: Option<RawTarget>)
    ensures var r := RouteFromReport(raw, classification, status, aiTarget);
      && TargetAccepted(r.target)
      && (KnownPath(r.path) <==> raw.None? || raw.value.path == "" || KnownPath(raw.value.path))
  {
    assert forall tag :: KnownPath(DefaultPath(tag));
  }
}
