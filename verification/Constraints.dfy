/** Backend constraints: `restrict` specs resolved against the request, failing closed. */
module Constraints {
  import opened Values
  import opened Attributes
  import opened Rules

  /** A resolved list: as authored, or the ascending listing of a set from the bag. */
  datatype Names = Authored(names: seq<string>) | Ascending(members: set<string>)

  predicate NoNames(n: Names)
  {
    match n case Authored(names) => names == [] case Ascending(members) => members == {}
  }

  datatype CandidateConstraint = CandidateConstraint(
    allowModels: Option<Names>,
    denyModels: Names,
    allowRegions: Option<Names>,
    allowSites: Option<Names>,
    maxCostTier: Option<string>,
    custom: map<string, string>,
    onEmpty: OnEmpty)

  predicate ConstrainsNothing(c: CandidateConstraint)
  {
    && c.allowModels.None? && NoNames(c.denyModels) && c.allowRegions.None?
    && c.allowSites.None? && c.maxCostTier.None? && c.custom == map[]
  }

  /** `StringSetSpec::resolve`: nothing when a reference is missing or has the wrong shape. */
  function ResolveSet(f: Foreign, bag: Bag, s: StringSetSpec): (r: Option<Names>)
  {
    match s
    case Listed(names) => Some(Authored(names))
    case Ref(path) =>
      match ResolveKey(f, bag, path)
      case None => None
      case Some(key) =>
        match Get(bag, key)
        case Some(StringSetValue(members)) => Some(Ascending(members))
        case Some(StringValue(name)) => Some(Authored([name]))
        case _ => None
  }

  /** An allow-list that does not resolve shrinks to the empty list. */
  function ResolveAllow(f: Foreign, bag: Bag, s: Option<StringSetSpec>): (r: Option<Names>)
  {
    match s
    case None => None
    case Some(spec) =>
      var names := ResolveSet(f, bag, spec);
      Some(if names.Some? then names.value else Authored([]))
  }

  /** `RestrictSpec::resolve`; the error carries the deny-list reference that did not resolve. */
  function Resolve(f: Foreign, bag: Bag, s: RestrictSpec): (r: Result<CandidateConstraint, string>)
  {
    var deny := if s.denyModels.Some? then ResolveSet(f, bag, s.denyModels.value) else Some(Authored([]));
    if deny.None? then
      Err(if s.denyModels.Some? && s.denyModels.value.Ref? then s.denyModels.value.path else "")
    else
      Ok(CandidateConstraint(
        ResolveAllow(f, bag, s.allowModels),
        deny.value,
        ResolveAllow(f, bag, s.allowRegions),
        ResolveAllow(f, bag, s.allowSites),
        s.maxCostTier, s.custom, s.onEmpty))
  }

  /** The bag holds a set or a string where the reference points. */
  ghost predicate Usable(f: Foreign, bag: Bag, path: string)
  {
    var key := ResolveKey(f, bag, path);
    key.Some? && key.value in bag && (bag[key.value].StringSetValue? || bag[key.value].StringValue?)
  }

  predicate Lists(n: Names, name: string)
  {
    match n case Authored(names) => name in names case Ascending(members) => name in members
  }

  /** The spec means to name this: it lists it, or its reference leads to it. */
  ghost predicate Denotes(f: Foreign, bag: Bag, s: StringSetSpec, name: string)
  {
    match s
    case Listed(names) => name in names
    case Ref(path) =>
      && Usable(f, bag, path)
      && match bag[ResolveKey(f, bag, path).value]
         case StringSetValue(members) => name in members
         case StringValue(only) => name == only
         case _ => false
  }

  /** An allow list is set exactly when the spec sets it, and names exactly what the spec denotes. */
  ghost predicate AllowsExactly(f: Foreign, bag: Bag, s: Option<StringSetSpec>, out: Option<Names>)
  {
    && (out.Some? <==> s.Some?)
    && (s.Some? ==> forall name :: Lists(out.value, name) <==> Denotes(f, bag, s.value, name))
  }

  /**
   * Restrictions fail closed. Resolution fails exactly when a deny-list reference is unusable; otherwise
   * the deny list and all three allow lists name exactly what the spec denotes, so an allow list whose
   * reference is unusable is set and names nothing.
   */
  lemma {:induction false} RestrictFailsClosed(f: Foreign, bag: Bag, s: RestrictSpec)
    ensures Resolve(f, bag, s).Err? <==>
      s.denyModels.Some? && s.denyModels.value.Ref? && !Usable(f, bag, s.denyModels.value.path)
    ensures Resolve(f, bag, s).Ok? ==>
      var c := Resolve(f, bag, s).value;
      && AllowsExactly(f, bag, s.allowModels, c.allowModels)
      && AllowsExactly(f, bag, s.allowRegions, c.allowRegions)
      && AllowsExactly(f, bag, s.allowSites, c.allowSites)
      && (forall name :: Lists(c.denyModels, name) <==>
            s.denyModels.Some? && Denotes(f, bag, s.denyModels.value, name))
      && c.maxCostTier == s.maxCostTier && c.custom == s.custom && c.onEmpty == s.onEmpty
    ensures Resolve(f, bag, s).Err? ==> s.denyModels == Some(Ref(Resolve(f, bag, s).error))
  {
    AllowResolves(f, bag, s.allowModels);
    AllowResolves(f, bag, s.allowRegions);
    AllowResolves(f, bag, s.allowSites);
    if s.denyModels.Some? {
      SetResolves(f, bag, s.denyModels.value);
    }
  }

  lemma SetResolves(f: Foreign, bag: Bag, s: StringSetSpec)
    ensures ResolveSet(f, bag, s).None? <==> s.Ref? && !Usable(f, bag, s.path)
    ensures ResolveSet(f, bag, s).Some? ==>
      forall name :: Lists(ResolveSet(f, bag, s).value, name) <==> Denotes(f, bag, s, name)
  {
  }

  lemma AllowResolves(f: Foreign, bag: Bag, s: Option<StringSetSpec>)
    ensures AllowsExactly(f, bag, s, ResolveAllow(f, bag, s))
  {
    if s.Some? {
      SetResolves(f, bag, s.value);
    }
  }
}
