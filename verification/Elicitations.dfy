/** One elicitation step: dispatch on first arrival, check on every pass, validate once approved. */
module Elicitations {
  import opened Values
  import opened Text
  import opened Attributes
  import opened Rules
  import opened Hosts

  const ID_KEY := "elicitation.id"
  const STATUS_KEY := "elicitation.status"
  const APPROVER_KEY := "elicitation.approver"
  const OUTCOME_KEY := "elicitation.outcome"
  const INTENT_KEY := "elicitation.intent_id"
  const CHANNEL_KEY := "elicitation.channel"
  const EXPIRES_KEY := "elicitation.expires_at"

  /** How one effect ended. */
  datatype Outcome = Continue | Halt(decision: Decision) | Pending(bundle: PendingElicitation)

  /** A dotted path of identifier characters, rather than a literal identity. */
  predicate LooksLikeAttributeRef(s: string)
  {
    && '.' in s && IsAsciiAlpha(s[0])
    && forall i :: 0 <= i < |s| ==> IsAsciiAlpha(s[i]) || IsDigit(s[i]) || s[i] == '_' || s[i] == '.'
  }

  /** Who is asked: the bag's value, or the literal; nothing when an attribute did not resolve. */
  function ResolveFrom(bag: Bag, from: string): (r: Option<string>)
  {
    match GetString(bag, from)
    case Some(who) => Some(who)
    case None => if LooksLikeAttributeRef(from) then None else Some(from)
  }

  function SetText(bag: Bag, key: string, value: Option<string>): (r: Bag)
  {
    if value.Some? then bag[key := StringValue(value.value)] else bag
  }

  /** The bag after a successful dispatch. */
  function RecordDispatch(bag: Bag, step: ElicitStep, d: ElicitationDispatch): (r: Bag)
  {
    var b1 := bag[ID_KEY := StringValue(d.id)][STATUS_KEY := StringValue("pending")];
    var b2 := SetText(b1, CHANNEL_KEY, step.channel);
    var b3 := SetText(b2, APPROVER_KEY, d.approver);
    var b4 := SetText(b3, INTENT_KEY, d.intentId);
    SetText(b4, EXPIRES_KEY, d.expiresAt)
  }

  datatype ElicitRun = ElicitRun(outcome: Outcome, bag: Bag, events: seq<Event>)

  function Coded(code: Option<string>, source: string): (r: string)
  {
    if code.Some? then code.value else source
  }

  /** A channel or validation failure, which `on_error: continue` covers. */
  function Failure(step: ElicitStep, reason: Reason, code: Option<string>): (o: Outcome)
  {
    if OnErrorContinues(step.onError) then Continue else Halt(Denied(Some(reason), Coded(code, step.source)))
  }

  function Settle(step: ElicitStep, site: Site, s: Settlement, o: Outcome, bag: Bag, events: seq<Event>)
    : (r: ElicitRun)
  {
    ElicitRun(o, bag, events + [ElicitSettled(site, step, s)])
  }

  function Fails(step: ElicitStep, site: Site, reason: Reason, bag: Bag, events: seq<Event>): (r: ElicitRun)
  {
    Settle(step, site, Failed, Failure(step, reason, None), bag, events)
  }

  /** A failed call: unknown approval state always halts, any other failure follows `on_error`. */
  function CallFails(step: ElicitStep, site: Site, e: ElicitationError, bag: Bag, events: seq<Event>): (r: ElicitRun)
  {
    if e.StoreUnavailable? then
      Settle(step, site, Refused,
             Halt(Denied(Some(ElicitCallFailed(e)), Coded(ErrorCode(e), step.source))), bag, events)
    else
      Settle(step, site, Failed, Failure(step, ElicitCallFailed(e), ErrorCode(e)), bag, events)
  }

  function Bundle(step: ElicitStep, id: string, bag: Bag): (p: PendingElicitation)
  {
    PendingElicitation(id, step.pluginName, GetString(bag, APPROVER_KEY), GetString(bag, INTENT_KEY),
                       step.channel, GetString(bag, EXPIRES_KEY), step.source)
  }

  /** Whether the response covers the request: the step's `scope` over the live bag. */
  function ScopeFault(env: Env, step: ElicitStep, bag: Bag): (r: Option<Reason>)
  {
    match step.scope
    case None => None
    case Some(scope) =>
      match env.language.parse(scope)
      case None => Some(ElicitScopeUnparsed(scope))
      case Some(expr) =>
        match env.language.eval(expr, bag)
        case Definite(true) => None
        case Definite(false) => Some(ElicitScopeFalse(scope))
        case Unorderable(key) => Some(UnorderableKey(key))
  }

  /** The approver said yes: is it genuine, and does it cover the request? */
  function RunValidate(env: Env, step: ElicitStep, site: Site, id: string, bag: Bag, events: seq<Event>): (r: ElicitRun)
  {
    var reply := env.host.validate(site);
    var seen := events + [ElicitValidated(site, id, reply)];
    match reply
    case Err(e) => CallFails(step, site, e, bag, seen)
    case Ok(v) =>
      if !v.valid then Fails(step, site, ElicitInvalid(v.why), bag, seen)
      else
        match ScopeFault(env, step, bag)
        case Some(reason) => Fails(step, site, reason, bag, seen)
        case None =>
          var b1 := bag[STATUS_KEY := StringValue("resolved")][OUTCOME_KEY := StringValue("approved")];
          Settle(step, site, Approved, Continue,
                 SetText(SetText(b1, APPROVER_KEY, v.approver), INTENT_KEY, v.intentId), seen)
  }

  function RunCheck(env: Env, step: ElicitStep, site: Site, id: string, bag: Bag, events: seq<Event>): (r: ElicitRun)
  {
    var reply := env.host.check(site);
    var seen := events + [ElicitChecked(site, id, reply)];
    match reply
    case Err(e) => CallFails(step, site, e, bag, seen)
    case Ok(StillPending) =>
      var waiting := bag[STATUS_KEY := StringValue("pending")];
      Settle(step, site, Awaiting, Pending(Bundle(step, id, waiting)), waiting, seen)
    case Ok(Expired) =>
      Fails(step, site, ElicitExpired, bag[STATUS_KEY := StringValue("expired")], seen)
    case Ok(Resolved(false)) =>
      var denied := bag[STATUS_KEY := StringValue("resolved")][OUTCOME_KEY := StringValue("denied")];
      Settle(step, site, Refused, Halt(Denied(Some(ElicitDenied), step.source)), denied, seen)
    case Ok(Resolved(true)) => RunValidate(env, step, site, id, bag, seen)
  }

  /** `dispatch_elicitation` as a specification. */
  function RunElicit(env: Env, step: ElicitStep, site: Site, bag: Bag): (r: ElicitRun)
  {
    match ResolveFrom(bag, step.from)
    case None => Fails(step, site, ElicitFromUnresolved(step.from), bag, [])
    case Some(from) =>
      match GetString(bag, ID_KEY)
      case Some(id) => RunCheck(env, step, site, id, bag, [])
      case None =>
        var reply := env.host.dispatch(site);
        var seen := [ElicitDispatched(site, step, from, reply)];
        match reply
        case Err(e) => CallFails(step, site, e, bag, seen)
        case Ok(d) => RunCheck(env, step, site, d.id, RecordDispatch(bag, step, d), seen)
  }
}
