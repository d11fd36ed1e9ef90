/**
 * What the evaluator exchanges with the world outside: decisions, replies of plugins, decision points,
 * delegators and elicitation channels, and the trace of what a run reached.
 *
 * A site is the path of a node in the effect tree. No pass puts one kind of question twice at a site
 * (`Sites.SitesAskedOnce`), so one reply per site describes every run, however stateful the world is.
 */
module Hosts {
  import opened Values
  import opened Attributes
  import opened Rules
  import opened Predicates
  import opened Constraints
  import Text

  type Site = seq<nat>

  /** Why something was denied. The wording of messages is not modelled. */
  datatype Reason =
    | Written(text: string)
    | UnorderableKey(key: string)
    | PluginFailed(name: string, detail: string)
    | PdpFailed(detail: string)
    | LlmRequestMissing
    | InputTooDeep
    | DelegationFailed(name: string, detail: string)
    | UnresolvedDenyList(path: string)
    | FieldPathRoot(path: string)
    | FieldFanOut(path: string)
    | FieldRejected(stage: StageFault)
    | ElicitFromUnresolved(from: string)
    | ElicitCallFailed(error: ElicitationError)
    | ElicitExpired
    | ElicitDenied
    | ElicitInvalid(why: Option<string>)
    | ElicitScopeFalse(scope: string)
    | ElicitScopeUnparsed(scope: string)
    | BranchTimedOut(index: nat)
    | BranchPanicked(index: nat, message: string)

  /** Why a pipeline stage rejected a value. */
  datatype StageFault =
    | WrongType(check: TypeCheck)
    | NotAString(form: string)
    | NotAnInteger
    | OutsideLength(length: nat)
    | OutsideRange(n: int)
    | NotListed(value: string)
    | BadPattern(pattern: string)
    | NoMatch(pattern: string)
    | NoValidator(name: string)
    | UnorderableCondition(key: string)
    | StagePluginDenied(name: string, reason: Option<Reason>)
    | StagePluginFailed(name: string, detail: string)

  datatype Decision = Allowed | Denied(reason: Option<Reason>, ruleSource: string)

  datatype PluginOutcome = PluginOutcome(decision: Decision, taints: seq<TaintEvent>, modifiedValue: Option<Json>)
  type PluginReply = Result<PluginOutcome, string>

  /** A decision point's answer; a timeout, a panic or a missing resolver is an error. */
  type PdpReply = Result<Decision, string>

  datatype DelegationOutcome = DelegationOutcome(
    decision: Decision, permissions: seq<string>, audience: Option<string>, expiresAt: Option<string>)
  type DelegationReply = Result<DelegationOutcome, string>

  datatype ElicitationError =
    | ChannelNotFound(name: string)
    | Handler(detail: string)
    | HandlerViolation(code: string, detail: string)
    | StoreUnavailable(code: string, detail: string)

  function ErrorCode(e: ElicitationError): (r: Option<string>)
  {
    if e.HandlerViolation? || e.StoreUnavailable? then Some(e.code) else None
  }

  datatype ElicitationDispatch = ElicitationDispatch(
    id: string, approver: Option<string>, intentId: Option<string>, expiresAt: Option<string>)
  type DispatchReply = Result<ElicitationDispatch, ElicitationError>

  datatype ElicitationStatus = StillPending | Expired | Resolved(approved: bool)
  type CheckReply = Result<ElicitationStatus, ElicitationError>

  datatype ElicitationValidation = ElicitationValidation(
    valid: bool, approver: Option<string>, intentId: Option<string>, why: Option<string>)
  type ValidateReply = Result<ElicitationValidation, ElicitationError>

  /** The bundle a suspended phase hands to the host. */
  datatype PendingElicitation = PendingElicitation(
    id: string, pluginName: string, approver: Option<string>, intentId: Option<string>,
    channel: Option<string>, expiresAt: Option<string>, source: string)

  /** What the scheduler would do to a parallel branch; `events` bounds how far an unfinished one got. */
  datatype Fate = Runs | Aborts(events: nat) | TimesOut(events: nat) | Panics(events: nat, message: string)

  datatype Host = Host(
    plugin: Site -> PluginReply,
    pdp: Site -> PdpReply,
    delegate: Site -> DelegationReply,
    dispatch: Site -> DispatchReply,
    check: Site -> CheckReply,
    validate: Site -> ValidateReply,
    fate: Site -> Fate)

  datatype Phase = Pre | Post

  /** The parts of the policy language the evaluator calls; `StandardLanguage` holds the real ones. */
  datatype Language = Language(
    eval: (Expression, Bag) -> Verdict,
    resolve: (RestrictSpec, Bag) -> Result<CandidateConstraint, string>,
    parse: string -> Option<Expression>)

  /** Everything a pass is evaluated under. */
  datatype Env = Env(language: Language, foreign: Foreign, host: Host, phase: Phase)

  /** How an elicitation step ended. */
  datatype Settlement = Approved | Awaiting | Failed | Refused

  datatype FieldOutcome = Pass | Replace(value: Json) | Drop | Reject(fault: StageFault, stage: nat)

  /** One thing a run reached, with the answer it got. */
  datatype Event =
    | DenyReached(site: Site)
    | PluginAsked(site: Site, name: string, reply: PluginReply)
    | PdpAsked(site: Site, call: PdpCall, answer: PdpReply)
    | Delegated(site: Site, delegation: DelegateStep, grant: DelegationReply)
    | ElicitDispatched(site: Site, elicitation: ElicitStep, from: string, dispatched: DispatchReply)
    | ElicitChecked(site: Site, id: string, checked: CheckReply)
    | ElicitValidated(site: Site, id: string, validated: ValidateReply)
    | ElicitSettled(site: Site, elicitation: ElicitStep, settlement: Settlement)
    | GuardChecked(site: Site, guard: Expression, bag: Bag, verdict: Verdict)
    | Restricted(site: Site, spec: RestrictSpec, resolved: bool)
    | FieldVisited(site: Site)
    | FieldRefused(site: Site)
    | FieldRan(site: Site, outcome: FieldOutcome)
    | BranchLost(site: Site)

  /** `on_error: continue`, in any letter case. */
  predicate OnErrorContinues(onError: Option<string>)
  {
    onError.Some? && Text.AsciiLower(onError.value) == "continue"
  }
}
