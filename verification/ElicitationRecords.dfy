/** What an elicitation step leaves in the bag, and what it hands the host while it waits. */
module ElicitationRecords {
  import opened Values
  import opened Attributes
  import opened Rules
  import opened Hosts
  import opened Elicitations
  import opened ElicitationProtocol

  /** Later word first: the text given, or what was there. */
  function Newer(given: Option<string>, before: Option<AttributeValue>): (r: Option<AttributeValue>)
  {
    match given case Some(text) => Some(StringValue(text)) case None => before
  }

  /** The step called the channel and was given an id. */
  predicate Dispatched(env: Env, step: ElicitStep, site: Site, bag: Bag)
  {
    ResolveFrom(bag, step.from).Some? && GetString(bag, ID_KEY).None? && env.host.dispatch(site).Ok?
  }

  /** Where the step stands when it ends, if its channel answered. */
  function Status(env: Env, step: ElicitStep, site: Site, bag: Bag): (r: Option<string>)
  {
    if Underway(env, step, site, bag).None? then None
    else
      match env.host.check(site)
      case Ok(StillPending) => Some("pending")
      case Ok(Expired) => Some("expired")
      case Ok(Resolved(approved)) =>
        if !approved || Granted(env, step, site, Underway(env, step, site, bag).value.1) then Some("resolved")
        else if Dispatched(env, step, site, bag) then Some("pending") else None
      case Err(_) => if Dispatched(env, step, site, bag) then Some("pending") else None
  }

  function Verdict(env: Env, step: ElicitStep, site: Site, bag: Bag): (r: Option<string>)
  {
    match Underway(env, step, site, bag)
    case None => None
    case Some((_, live)) =>
      if env.host.check(site) == Ok(Resolved(false)) then Some("denied")
      else if Granted(env, step, site, live) then Some("approved") else None
  }

  predicate Approves(env: Env, step: ElicitStep, site: Site, bag: Bag)
  {
    var u := Underway(env, step, site, bag);
    u.Some? && Granted(env, step, site, u.value.1)
  }

  /** What the dispatch said, when this step made one. */
  function FromDispatch(env: Env, step: ElicitStep, site: Site, bag: Bag, read: ElicitationDispatch -> Option<string>)
    : (r: Option<string>)
  {
    if Dispatched(env, step, site, bag) then read(env.host.dispatch(site).value) else None
  }

  function FromValidation(env: Env, step: ElicitStep, site: Site, bag: Bag,
                          read: ElicitationValidation -> Option<string>)
    : (r: Option<string>)
  {
    if Approves(env, step, site, bag) && env.host.validate(site).Ok? then read(env.host.validate(site).value) else None
  }

  function First(a: Option<string>, b: Option<string>): (r: Option<string>)
  {
    if a.Some? then a else b
  }

  /** The text the step gives a key, if it gives one. */
  function Given(env: Env, step: ElicitStep, site: Site, bag: Bag, key: string): (r: Option<string>)
  {
    if key == "elicitation.id" then FromDispatch(env, step, site, bag, (d: ElicitationDispatch) => Some(d.id))
    else if key == "elicitation.status" then Status(env, step, site, bag)
    else if key == "elicitation.outcome" then Verdict(env, step, site, bag)
    else if key == "elicitation.channel" then
      FromDispatch(env, step, site, bag, (d: ElicitationDispatch) => step.channel)
    else if key == "elicitation.approver" then
      First(FromValidation(env, step, site, bag, (v: ElicitationValidation) => v.approver),
            FromDispatch(env, step, site, bag, (d: ElicitationDispatch) => d.approver))
    else if key == "elicitation.intent_id" then
      First(FromValidation(env, step, site, bag, (v: ElicitationValidation) => v.intentId),
            FromDispatch(env, step, site, bag, (d: ElicitationDispatch) => d.intentId))
    else if key == "elicitation.expires_at" then
      FromDispatch(env, step, site, bag, (d: ElicitationDispatch) => d.expiresAt)
    else None
  }

  lemma ValidateLeaves(env: Env, step: ElicitStep, site: Site, id: string, bag: Bag, events: seq<Event>, key: string)
    requires env.host.check(site) == Ok(Resolved(true))
    ensures var r := RunValidate(env, step, site, id, bag, events);
      if Granted(env, step, site, bag) then
        var v := env.host.validate(site).value;
        Get(r.bag, key) ==
          (if key == STATUS_KEY then Some(StringValue("resolved"))
           else if key == OUTCOME_KEY then Some(StringValue("approved"))
           else if key == APPROVER_KEY then Newer(v.approver, Get(bag, key))
           else if key == INTENT_KEY then Newer(v.intentId, Get(bag, key))
           else Get(bag, key))
      else r.bag == bag
  {
  }

  lemma CheckLeaves(env: Env, step: ElicitStep, site: Site, id: string, bag: Bag, events: seq<Event>, key: string)
    ensures var r := RunCheck(env, step, site, id, bag, events);
      match env.host.check(site)
      case Err(_) => r.bag == bag
      case Ok(StillPending) => r.bag == bag[STATUS_KEY := StringValue("pending")]
      case Ok(Expired) => r.bag == bag[STATUS_KEY := StringValue("expired")]
      case Ok(Resolved(false)) =>
        r.bag == bag[STATUS_KEY := StringValue("resolved")][OUTCOME_KEY := StringValue("denied")]
      case Ok(Resolved(true)) =>
        r.bag == RunValidate(env, step, site, id, bag, events + [ElicitChecked(site, id, env.host.check(site))]).bag
  {
  }

  lemma DispatchLeaves(bag: Bag, step: ElicitStep, d: ElicitationDispatch, key: string)
    ensures Get(RecordDispatch(bag, step, d), key) ==
      if key == ID_KEY then Some(StringValue(d.id))
      else if key == STATUS_KEY then Some(StringValue("pending"))
      else if key == CHANNEL_KEY then Newer(step.channel, Get(bag, key))
      else if key == APPROVER_KEY then Newer(d.approver, Get(bag, key))
      else if key == INTENT_KEY then Newer(d.intentId, Get(bag, key))
      else if key == EXPIRES_KEY then Newer(d.expiresAt, Get(bag, key))
      else Get(bag, key)
  {
  }

  /** Underway, the bag holds what the dispatch said, if there was one, over what it held. */
  lemma UnderwayLeaves(env: Env, step: ElicitStep, site: Site, bag: Bag, key: string)
    requires Underway(env, step, site, bag).Some?
    ensures var live := Underway(env, step, site, bag).value.1;
      if Dispatched(env, step, site, bag) then
        var d := env.host.dispatch(site).value;
        Get(live, key) ==
          (if key == ID_KEY then Some(StringValue(d.id))
           else if key == STATUS_KEY then Some(StringValue("pending"))
           else if key == CHANNEL_KEY then Newer(step.channel, Get(bag, key))
           else if key == APPROVER_KEY then Newer(d.approver, Get(bag, key))
           else if key == INTENT_KEY then Newer(d.intentId, Get(bag, key))
           else if key == EXPIRES_KEY then Newer(d.expiresAt, Get(bag, key))
           else Get(bag, key))
      else live == bag
  {
    if Dispatched(env, step, site, bag) {
      DispatchLeaves(bag, step, env.host.dispatch(site).value, key);
    }
  }

  lemma KeysDiffer()
    ensures ID_KEY != STATUS_KEY && ID_KEY != OUTCOME_KEY && ID_KEY != APPROVER_KEY && ID_KEY != INTENT_KEY
    ensures STATUS_KEY != OUTCOME_KEY && STATUS_KEY != APPROVER_KEY && STATUS_KEY != INTENT_KEY
    ensures STATUS_KEY != CHANNEL_KEY && STATUS_KEY != EXPIRES_KEY && OUTCOME_KEY != CHANNEL_KEY
    ensures OUTCOME_KEY != APPROVER_KEY && OUTCOME_KEY != INTENT_KEY && OUTCOME_KEY != EXPIRES_KEY
    ensures APPROVER_KEY != INTENT_KEY && APPROVER_KEY != CHANNEL_KEY && APPROVER_KEY != EXPIRES_KEY
    ensures INTENT_KEY != CHANNEL_KEY && INTENT_KEY != EXPIRES_KEY && CHANNEL_KEY != EXPIRES_KEY
    ensures ID_KEY != CHANNEL_KEY && ID_KEY != EXPIRES_KEY
  {
    var at := 12;
    assert ID_KEY[at] == 'i' && STATUS_KEY[at] == 's' && APPROVER_KEY[at] == 'a' && OUTCOME_KEY[at] == 'o';
    assert INTENT_KEY[at] == 'i' && CHANNEL_KEY[at] == 'c' && EXPIRES_KEY[at] == 'e';
    assert |ID_KEY| == 14 && |INTENT_KEY| == 21;
  }

  lemma GrantedLeaves(env: Env, step: ElicitStep, site: Site, bag: Bag, key: string, id: string, live: Bag,
                      events: seq<Event>, r: ElicitRun)
    requires Underway(env, step, site, bag) == Some((id, live)) && Granted(env, step, site, live)
    requires r == RunCheck(env, step, site, id, live, events)
    ensures Get(r.bag, key) == Newer(Given(env, step, site, bag, key), Get(bag, key))
  {
    KeysDiffer();
    UnderwayLeaves(env, step, site, bag, key);
    ValidateLeaves(env, step, site, id, live, events + [ElicitChecked(site, id, env.host.check(site))], key);
  }

  lemma OtherLeaves(env: Env, step: ElicitStep, site: Site, bag: Bag, key: string, id: string, live: Bag,
                    events: seq<Event>, r: ElicitRun)
    requires Underway(env, step, site, bag) == Some((id, live)) && !Granted(env, step, site, live)
    requires r == RunCheck(env, step, site, id, live, events)
    ensures Get(r.bag, key) == Newer(Given(env, step, site, bag, key), Get(bag, key))
  {
    KeysDiffer();
    UnderwayLeaves(env, step, site, bag, key);
    CheckLeaves(env, step, site, id, live, events, key);
    if env.host.check(site) == Ok(Resolved(true)) {
      ValidateLeaves(env, step, site, id, live, events + [ElicitChecked(site, id, env.host.check(site))], key);
    }
  }

  /**
   * After the step each of its keys holds the latest word: what validation said of a granted approval, else
   * what the dispatch of this step said, else what was there; its status and outcome say where it stands; and
   * no other key changes.
   */
  lemma {:induction false} ElicitLeaves(env: Env, step: ElicitStep, site: Site, bag: Bag, key: string, r: ElicitRun)
    requires r == RunElicit(env, step, site, bag)
    ensures Get(r.bag, key) == Newer(Given(env, step, site, bag, key), Get(bag, key))
  {
    if Underway(env, step, site, bag).Some? {
      var (id, live) := Underway(env, step, site, bag).value;
      var events := if GetString(bag, ID_KEY).Some? then []
        else [ElicitDispatched(site, step, ResolveFrom(bag, step.from).value, env.host.dispatch(site))];
      assert r == RunCheck(env, step, site, id, live, events);
      if Granted(env, step, site, live) {
        GrantedLeaves(env, step, site, bag, key, id, live, events, r);
      } else {
        OtherLeaves(env, step, site, bag, key, id, live, events, r);
      }
    }
  }

  /** While it waits, the host is handed the id in use, the plugin and channel asked, and the latest details. */
  lemma {:induction false} PendingHandsOver(env: Env, step: ElicitStep, site: Site, bag: Bag, r: ElicitRun)
    requires r == RunElicit(env, step, site, bag) && r.outcome.Pending?
    ensures var p := r.outcome.bundle;
      && GetString(r.bag, "elicitation.id") == Some(p.id)
      && p.pluginName == step.pluginName && p.channel == step.channel && p.source == step.source
      && p.approver == GetString(r.bag, "elicitation.approver")
      && p.intentId == GetString(r.bag, "elicitation.intent_id")
      && p.expiresAt == GetString(r.bag, "elicitation.expires_at")
  {
    KeysDiffer();
    SettlesExactly(env, step, site, bag, r);
    UnderwayLeaves(env, step, site, bag, ID_KEY);
  }
}
