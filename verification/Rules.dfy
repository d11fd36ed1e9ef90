/** The intermediate representation the compiler produces and the evaluator walks. */
module Rules {
  import opened Values

  datatype CompareOp = Eq | NotEq | Gt | GtEq | Lt | LtEq | Contains

  datatype Literal =
    | BoolLiteral(b: bool)
    | IntLiteral(i: i64)
    | FloatLiteral(f: F64)
    | StringLiteral(s: string)

  datatype Condition =
    | Comparison(key: string, op: CompareOp, value: Literal)
    | IsTrue(key: string)
    | IsFalse(key: string)
    | Exists(key: string)
    | InSet(valueKey: string, setKey: string, negate: bool)

  datatype Expression =
    | Cond(condition: Condition)
    | And(parts: seq<Expression>)
    | Or(parts: seq<Expression>)
    | Not(inner: Expression)
    | Always

  datatype TaintScope = Session | Message

  datatype TaintEvent = TaintEvent(tag: string, scopes: seq<TaintScope>)

  datatype TypeCheck = StrType | IntType | BoolType | FloatType | EmailType | UrlType | UuidType

  datatype ScanKind = PiiRedact | PiiDetect | InjectionScan

  /** One stage of a field pipeline. */
  datatype Stage =
    | Type(check: TypeCheck)
    | Regex(pattern: string)
    | Validate(name: string)
    | Length(minLength: Option<nat>, maxLength: Option<nat>)
    | Range(min: Option<i64>, max: Option<i64>)
    | Enum(values: seq<string>)
    | Mask(keepLast: nat)
    | Redact(condition: Option<Expression>)
    | Omit
    | Hash
    | TaintStage(tag: string, scopes: seq<TaintScope>)
    | PluginStage(name: string)
    | Scan(kind: ScanKind)

  datatype DelegateStep = DelegateStep(pluginName: string, onError: Option<string>, source: string)

  /** The fields of an elicitation step the evaluator reads. */
  datatype ElicitStep = ElicitStep(
    pluginName: string,
    channel: Option<string>,
    from: string,
    scope: Option<string>,
    onError: Option<string>,
    source: string)

  datatype PdpCall = PdpCall(dialect: string, requiresLlmRequest: bool)

  datatype StringSetSpec = Ref(path: string) | Listed(names: seq<string>)

  datatype OnEmpty = DenyRequest | Fallback

  datatype RestrictSpec = RestrictSpec(
    allowModels: Option<StringSetSpec>,
    denyModels: Option<StringSetSpec>,
    allowRegions: Option<StringSetSpec>,
    allowSites: Option<StringSetSpec>,
    maxCostTier: Option<string>,
    custom: map<string, string>,
    onEmpty: OnEmpty)

  datatype Effect =
    | Allow
    | Deny(reason: Option<string>, code: Option<string>)
    | Plugin(name: string)
    | Delegate(delegation: DelegateStep)
    | Elicit(elicitation: ElicitStep)
    | Taint(tag: string, scopes: seq<TaintScope>)
    | Restrict(spec: RestrictSpec)
    | FieldOp(path: string, stages: seq<Stage>)
    | Sequential(effects: seq<Effect>)
    | Parallel(effects: seq<Effect>)
    | When(guard: Expression, body: seq<Effect>, source: string)
    | Pdp(call: PdpCall, onAllow: seq<Effect>, onDeny: seq<Effect>)

  datatype Rule = Rule(guard: Expression, effects: seq<Effect>, source: string)

  datatype FieldRule = FieldRule(field: string, stages: seq<Stage>, source: string)
}
