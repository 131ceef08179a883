/** The agent registry (config.py): what loads, and what each recipient resolves to. */
module Registry {
  import opened Common
  import opened Models
  import opened Text

  datatype WakeKind = Claude | Harness

  datatype Agent = Agent(key: string, osUser: string, clonePath: string, wakeKind: WakeKind,
                         botSlug: Option<string>, recipientUuid: Option<string>, wakeBin: Option<string>)
  {
    function HarnessKey(): string { osUser }
  }

  /** One registry entry, each field as far as it is present; `kind` is "github" when it is absent. */
  datatype Entry = Entry(key: string, kind: string, osUser: Option<string>, clonePath: Option<string>,
                         botSlug: Option<string>, recipientUuid: Option<string>, wakeBin: Option<string>)

  datatype ConfigError = MissingField | InvalidEntry | ReusedRecipient | UnknownKind | NotRegistered | UnknownTag

  datatype Result<+T> = Ok(value: T) | Err(error: ConfigError)

  /** `_require_repo`: "owner/name". */
  predicate IsRepoKey(key: string) {
    exists i :: 0 < i < |key| - 1 && key[i] == '/' && '/' !in key[..i] && '/' !in key[i + 1..]
  }

  predicate Given(field: Option<string>) { field.Some? && !Blank(field.value) }

  function BuiltGithub(e: Entry): Result<Agent> {
    if !IsRepoKey(e.key) then Err(InvalidEntry)
    else if e.osUser == None || e.clonePath == None || e.botSlug == None then Err(MissingField)
    else if !Given(e.osUser) || !Given(e.clonePath) || !Given(e.botSlug) then Err(InvalidEntry)
    else Ok(Agent(e.key, e.osUser.value, e.clonePath.value, Claude, e.botSlug, None, None))
  }

  function BuiltHarness(e: Entry): Result<Agent> {
    if '/' in e.key then Err(InvalidEntry)
    else if e.osUser == None || e.clonePath == None || e.recipientUuid == None || e.wakeBin == None then
      Err(MissingField)
    else if Blank(e.key) || !Given(e.osUser) || !Given(e.clonePath) || !Given(e.recipientUuid) || !Given(e.wakeBin) then
      Err(InvalidEntry)
    else Ok(Agent(e.key, e.osUser.value, e.clonePath.value, Harness, None, e.recipientUuid, e.wakeBin))
  }

  function Built(e: Entry): Result<Agent> {
    if e.kind == "github" then BuiltGithub(e)
    else if e.kind == "harness" then BuiltHarness(e)
    else Err(UnknownKind)
  }

  /** A repo's key is an owner and a name, both there, around the only slash. */
  lemma RepoKeyIff(key: string)
    ensures IsRepoKey(key) <==>
              exists owner, name :: owner != "" && name != "" && '/' !in owner && '/' !in name
                && key == owner + "/" + name
  {
    if IsRepoKey(key) {
      var i :| 0 < i < |key| - 1 && key[i] == '/' && '/' !in key[..i] && '/' !in key[i + 1..];
      assert key == key[..i] + "/" + key[i + 1..];
    }
    if owner, name :| owner != "" && name != "" && '/' !in owner && '/' !in name && key == owner + "/" + name {
      assert key[|owner|] == '/' && key[..|owner|] == owner && key[|owner| + 1..] == name;
    }
  }

  /** Which entries build, and what of them each field of the agent is: a builder from a repo's key with its bot, a
      harness agent from any other key with its recipient and its wake program. */
  lemma BuiltIff(e: Entry, a: Agent)
    ensures Built(e) == Ok(a) <==>
              && a.key == e.key
              && e.osUser == Some(a.osUser) && !Blank(a.osUser)
              && e.clonePath == Some(a.clonePath) && !Blank(a.clonePath)
              && ( || (&& e.kind == "github" && a.wakeKind == Claude && IsRepoKey(a.key)
                       && e.botSlug == a.botSlug && a.botSlug.Some? && !Blank(a.botSlug.value)
                       && a.recipientUuid == None && a.wakeBin == None)
                   || (&& e.kind == "harness" && a.wakeKind == Harness && '/' !in a.key && !Blank(a.key)
                       && e.recipientUuid == a.recipientUuid && a.recipientUuid.Some? && !Blank(a.recipientUuid.value)
                       && e.wakeBin == a.wakeBin && a.wakeBin.Some? && !Blank(a.wakeBin.value)
                       && a.botSlug == None))
  {
  }

  /** Why an entry does not build: its kind is not known; its key is not the kind's; it lacks a field; or one is
      blank. */
  lemma NotBuiltBecause(e: Entry)
    ensures Built(e) == Err(UnknownKind) <==> e.kind != "github" && e.kind != "harness"
    ensures Built(e) == Err(MissingField) <==>
              || (&& e.kind == "github" && IsRepoKey(e.key)
                  && (e.osUser == None || e.clonePath == None || e.botSlug == None))
              || (&& e.kind == "harness" && '/' !in e.key
                  && (e.osUser == None || e.clonePath == None || e.recipientUuid == None || e.wakeBin == None))
    ensures Built(e).Err? ==> Built(e).error in {UnknownKind, MissingField, InvalidEntry}
  {
    assert "github" != "harness";
  }

  datatype Indexes = Indexes(agents: map<string, Agent>, byRecipient: map<string, Agent>, byHarness: map<string, Agent>)

  /** The registry is a JSON object, so its keys are distinct. */
  ghost predicate DistinctKeys(entries: seq<Entry>) {
    forall i, j :: 0 <= i < j < |entries| ==> entries[i].key != entries[j].key
  }

  /** The entries all build, into `agents`. */
  ghost predicate Builds(entries: seq<Entry>, agents: seq<Agent>) {
    |agents| == |entries| && forall i :: 0 <= i < |entries| ==> Built(entries[i]) == Ok(agents[i])
  }

  ghost predicate AllBuild(entries: seq<Entry>) {
    forall i :: 0 <= i < |entries| ==> Built(entries[i]).Ok?
  }

  function AgentsOf(entries: seq<Entry>): (agents: seq<Agent>)
    requires AllBuild(entries)
    ensures |agents| == |entries|
  {
    seq(|entries|, i requires 0 <= i < |entries| => Built(entries[i]).value)
  }

  lemma BuildsIsAgentsOf(entries: seq<Entry>, agents: seq<Agent>)
    requires Builds(entries, agents)
    ensures AllBuild(entries) && agents == AgentsOf(entries)
  {
  }

  /** A registry that loads: its entries all build, and no two of them claim one recipient. */
  ghost predicate Loadable(entries: seq<Entry>) {
    AllBuild(entries) && OneClaimEach(AgentsOf(entries))
  }

  /** The first entry at which loading fails, and why. */
  ghost predicate FailsAt(entries: seq<Entry>, n: int, error: ConfigError) {
    && 0 <= n < |entries| && Loadable(entries[..n])
    && match Built(entries[n])
       case Err(e) => error == e
       case Ok(a) => error == ReusedRecipient && !OneClaimEach(AgentsOf(entries[..n]) + [a])
  }

  lemma FailedIsNotLoadable(entries: seq<Entry>, n: int, error: ConfigError)
    requires FailsAt(entries, n, error)
    ensures !Loadable(entries)
  {
    if AllBuild(entries) {
      var prefix, all := AgentsOf(entries[..n]) + [Built(entries[n]).value], AgentsOf(entries);
      assert forall i :: 0 <= i < n ==> entries[..n][i] == entries[i];
      assert forall i :: 0 <= i <= n ==> prefix[i] == all[i];
      var i, j :| 0 <= i < j < |prefix| && prefix[i].recipientUuid.Some? &&
          prefix[i].recipientUuid == prefix[j].recipientUuid;
      assert all[i].recipientUuid == all[j].recipientUuid;
    }
  }

  /** No two agents claim one recipient. */
  ghost predicate OneClaimEach(agents: seq<Agent>) {
    forall i, j :: 0 <= i < j < |agents| && agents[i].recipientUuid.Some? ==>
        agents[i].recipientUuid != agents[j].recipientUuid
  }

  /** What a built agent always is. */
  ghost predicate WellFormed(a: Agent) {
    && (IsRepoKey(a.key) <==> a.wakeKind == Claude)
    && (a.recipientUuid.Some? <==> a.wakeKind == Harness)
    && (a.recipientUuid.Some? ==> !Blank(a.recipientUuid.value))
  }

  lemma BuiltFacts(e: Entry)
    requires Built(e).Ok?
    ensures WellFormed(Built(e).value) && Built(e).value.key == e.key
    ensures e.kind == "harness" <==> Built(e).value.wakeKind == Harness
  {
    assert '/' !in e.key ==> !IsRepoKey(e.key);
  }

  lemma BuiltKind(e: Entry)
    requires Built(e).Ok?
    ensures Built(e).value.key == e.key && (e.kind == "harness" <==> Built(e).value.recipientUuid.Some?)
  {
  }

  // ---------------------------------------------------------------- the three indexes

  ghost predicate HasKey(agents: seq<Agent>, i: int, key: string) {
    0 <= i < |agents| && agents[i].key == key
  }

  ghost predicate Claims(agents: seq<Agent>, i: int, uuid: string) {
    0 <= i < |agents| && agents[i].recipientUuid == Some(uuid)
  }

  /** The first agent of an OS user. */
  ghost predicate IsFirst(agents: seq<Agent>, i: int, user: string) {
    && 0 <= i < |agents| && agents[i].HarnessKey() == user
    && (forall j :: 0 <= j < i ==> agents[j].HarnessKey() != user)
  }

  ghost predicate ByKey(agents: seq<Agent>, index: map<string, Agent>) {
    && (forall i :: 0 <= i < |agents| ==> agents[i].key in index && index[agents[i].key] == agents[i])
    && (forall key :: key in index ==> exists i :: HasKey(agents, i, key))
  }

  ghost predicate ByRecipient(agents: seq<Agent>, index: map<string, Agent>) {
    && (forall i :: 0 <= i < |agents| && agents[i].recipientUuid.Some?
          ==> agents[i].recipientUuid.value in index && index[agents[i].recipientUuid.value] == agents[i])
    && (forall uuid :: uuid in index ==> exists i :: Claims(agents, i, uuid))
  }

  ghost predicate ByUser(agents: seq<Agent>, index: map<string, Agent>) {
    && (forall i :: 0 <= i < |agents| ==> agents[i].HarnessKey() in index)
    && (forall user :: user in index ==> exists i :: IsFirst(agents, i, user) && index[user] == agents[i])
  }

  ghost predicate AllWellFormed(agents: seq<Agent>) {
    forall i :: 0 <= i < |agents| ==> WellFormed(agents[i])
  }

  ghost predicate Loaded(agents: seq<Agent>, ix: Indexes) {
    && AllWellFormed(agents)
    && ByKey(agents, ix.agents) && ByRecipient(agents, ix.byRecipient) && ByUser(agents, ix.byHarness)
  }

  lemma ByKeySnoc(agents: seq<Agent>, index: map<string, Agent>, a: Agent)
    requires ByKey(agents, index) && forall i :: 0 <= i < |agents| ==> agents[i].key != a.key
    ensures ByKey(agents + [a], index[a.key := a])
  {
    var grown := index[a.key := a];
    forall key | key in grown ensures exists i :: HasKey(agents + [a], i, key) {
      if key == a.key {
        assert HasKey(agents + [a], |agents|, key);
      } else {
        var i :| HasKey(agents, i, key);
        assert HasKey(agents + [a], i, key);
      }
    }
  }

  lemma ByRecipientSnoc(agents: seq<Agent>, index: map<string, Agent>, a: Agent)
    requires ByRecipient(agents, index) && (a.recipientUuid.Some? ==> a.recipientUuid.value !in index)
    ensures ByRecipient(agents + [a], if a.recipientUuid.Some? then index[a.recipientUuid.value := a] else index)
  {
    var grown := if a.recipientUuid.Some? then index[a.recipientUuid.value := a] else index;
    forall uuid | uuid in grown ensures exists i :: Claims(agents + [a], i, uuid) {
      if a.recipientUuid == Some(uuid) {
        assert Claims(agents + [a], |agents|, uuid);
      } else {
        var i :| Claims(agents, i, uuid);
        assert Claims(agents + [a], i, uuid);
      }
    }
  }

  lemma ByUserSnoc(agents: seq<Agent>, index: map<string, Agent>, a: Agent)
    requires ByUser(agents, index)
    ensures ByUser(agents + [a], if a.HarnessKey() in index then index else index[a.HarnessKey() := a])
  {
    var grown := if a.HarnessKey() in index then index else index[a.HarnessKey() := a];
    forall user | user in grown ensures exists i :: IsFirst(agents + [a], i, user) && grown[user] == (agents + [a])[i] {
      if user in index {
        var i :| IsFirst(agents, i, user) && index[user] == agents[i];
        assert IsFirst(agents + [a], i, user);
      } else {
        assert IsFirst(agents + [a], |agents|, user);
      }
    }
  }

  /** One more agent in each index. */
  function Added(ix: Indexes, a: Agent): Indexes {
    Indexes(ix.agents[a.key := a],
            if a.recipientUuid.Some? then ix.byRecipient[a.recipientUuid.value := a] else ix.byRecipient,
            if a.HarnessKey() in ix.byHarness then ix.byHarness else ix.byHarness[a.HarnessKey() := a])
  }

  lemma AllWellFormedSnoc(agents: seq<Agent>, a: Agent)
    requires AllWellFormed(agents) && WellFormed(a)
    ensures AllWellFormed(agents + [a])
  {
    forall i | 0 <= i <= |agents| ensures WellFormed((agents + [a])[i]) {
      assert i < |agents| ==> WellFormed(agents[i]);
    }
  }

  lemma AddedLoads(agents: seq<Agent>, ix: Indexes, a: Agent)
    requires AllWellFormed(agents + [a]) && forall i :: 0 <= i < |agents| ==> agents[i].key != a.key
    requires Loaded(agents, ix) && (a.recipientUuid.Some? ==> a.recipientUuid.value !in ix.byRecipient)
    ensures Loaded(agents + [a], Added(ix, a))
  {
    ByKeySnoc(agents, ix.agents, a);
    ByRecipientSnoc(agents, ix.byRecipient, a);
    ByUserSnoc(agents, ix.byHarness, a);
  }

  lemma BuildsSnoc(entries: seq<Entry>, agents: seq<Agent>, n: int, a: Agent)
    requires 0 <= n < |entries| && Builds(entries[..n], agents) && Built(entries[n]) == Ok(a)
    ensures Builds(entries[..n + 1], agents + [a])
  {
    assert entries[..n + 1] == entries[..n] + [entries[n]];
  }

  lemma OneMoreLoads(entries: seq<Entry>, agents: seq<Agent>, ix: Indexes, n: int, a: Agent)
    requires DistinctKeys(entries) && 0 <= n < |entries| && Builds(entries[..n], agents) && Built(entries[n]) == Ok(a)
    requires Loaded(agents, ix) && OneClaimEach(agents)
    requires a.recipientUuid.Some? ==> a.recipientUuid.value !in ix.byRecipient
    ensures Builds(entries[..n + 1], agents + [a]) && OneClaimEach(agents + [a]) && Loaded(agents + [a], Added(ix, a))
  {
    assert WellFormed(a) by { BuiltFacts(entries[n]); }
    assert a.key == entries[n].key by { BuiltKind(entries[n]); }
    AllWellFormedSnoc(agents, a);
    KeysApart(entries, agents, n);
    AddedLoads(agents, ix, a);
    ClaimsApart(agents, ix.byRecipient, a);
    BuildsSnoc(entries, agents, n, a);
  }

  lemma FailsHere(entries: seq<Entry>, agents: seq<Agent>, n: int, error: ConfigError)
    requires 0 <= n < |entries| && Builds(entries[..n], agents) && OneClaimEach(agents)
    requires match Built(entries[n])
             case Err(e) => error == e
             case Ok(a) => error == ReusedRecipient && !OneClaimEach(agents + [a])
    ensures FailsAt(entries, n, error) && !Loadable(entries)
  {
    BuildsIsAgentsOf(entries[..n], agents);
    FailedIsNotLoadable(entries, n, error);
  }

  /** `_load_agents`, from the parsed object on. It fails at the first entry that does not build, or that
      claims a recipient an earlier one has. */
  method LoadAgents(entries: seq<Entry>) returns (r: Result<Indexes>)
    requires DistinctKeys(entries)
    ensures r.Ok? <==> Loadable(entries)
    ensures r.Ok? ==> Loaded(AgentsOf(entries), r.value)
    ensures r.Err? ==> exists n :: FailsAt(entries, n, r.error)
  {
    var ix := Indexes(map[], map[], map[]);
    ghost var agents := [];
    for n := 0 to |entries|
      invariant Builds(entries[..n], agents) && OneClaimEach(agents) && Loaded(agents, ix)
    {
      var e := entries[n];
      var built := Built(e);
      if built.Err? {
        FailsHere(entries, agents, n, built.error);
        return Err(built.error);
      }
      var agent := built.value;
      BuiltKind(e);
      if e.kind == "harness" && agent.recipientUuid.value in ix.byRecipient {
        Reused(agents, ix.byRecipient, agent);
        FailsHere(entries, agents, n, ReusedRecipient);
        return Err(ReusedRecipient);
      }
      OneMoreLoads(entries, agents, ix, n, agent);
      ghost var before := ix;
      if e.kind == "harness" {
        ix := ix.(byRecipient := ix.byRecipient[agent.recipientUuid.value := agent]);
      }
      ix := ix.(agents := ix.agents[e.key := agent]);
      if agent.HarnessKey() !in ix.byHarness {
        ix := ix.(byHarness := ix.byHarness[agent.HarnessKey() := agent]);
      }
      assert ix == Added(before, agent);
      agents := agents + [agent];
    }
    assert entries[..|entries|] == entries;
    BuildsIsAgentsOf(entries, agents);
    r := Ok(ix);
  }

  lemma KeysApart(entries: seq<Entry>, agents: seq<Agent>, n: int)
    requires DistinctKeys(entries) && 0 <= n < |entries| && Builds(entries[..n], agents)
    ensures forall i :: 0 <= i < |agents| ==> agents[i].key != entries[n].key
  {
    forall i | 0 <= i < n ensures agents[i].key != entries[n].key {
      assert entries[..n][i] == entries[i];
      BuiltFacts(entries[i]);
    }
  }

  lemma Reused(agents: seq<Agent>, index: map<string, Agent>, a: Agent)
    requires ByRecipient(agents, index) && a.recipientUuid.Some? && a.recipientUuid.value in index
    ensures !OneClaimEach(agents + [a])
  {
    var i :| Claims(agents, i, a.recipientUuid.value);
    assert (agents + [a])[i].recipientUuid == (agents + [a])[|agents|].recipientUuid;
  }

  lemma ClaimsApart(agents: seq<Agent>, index: map<string, Agent>, a: Agent)
    requires ByRecipient(agents, index) && OneClaimEach(agents)
    requires a.recipientUuid.Some? ==> a.recipientUuid.value !in index
    ensures OneClaimEach(agents + [a])
  {
  }

  // ---------------------------------------------------------------- resolution

  /** `agent_for_recipient`. */
  function Resolve(ix: Indexes, r: Recipient): Result<Agent> {
    if r.tag == "repo" then
      if r.value in ix.agents then Ok(ix.agents[r.value]) else Err(NotRegistered)
    else if r.tag == "recipient_uuid" then
      if r.value in ix.byRecipient then Ok(ix.byRecipient[r.value]) else Err(NotRegistered)
    else if r.tag == "harness_key" then
      if r.value in ix.byHarness then Ok(ix.byHarness[r.value]) else Err(NotRegistered)
    else Err(UnknownTag)
  }

  /** A recipient resolves to the agent with that key, to the one that claims that uuid, or to the first one of that
      OS user, by its tag. */
  lemma ResolvesTo(agents: seq<Agent>, ix: Indexes, value: string, a: Agent)
    requires Loaded(agents, ix)
    ensures Resolve(ix, Recipient("repo", value)) == Ok(a) <==> a in agents && a.key == value
    ensures Resolve(ix, Recipient("recipient_uuid", value)) == Ok(a) <==>
              a in agents && a.recipientUuid == Some(value)
    ensures Resolve(ix, Recipient("harness_key", value)) == Ok(a) <==>
              exists i :: 0 <= i < |agents| && agents[i] == a && a.osUser == value
                && forall j :: 0 <= j < i ==> agents[j].osUser != value
  {
    assert |"repo"| == 4 && |"recipient_uuid"| == 14 && |"harness_key"| == 11;
    KeyIndexed(agents, ix.agents, value, a);
    UuidIndexed(agents, ix.byRecipient, value, a);
    UserIndexed(agents, ix.byHarness, value, a);
  }

  lemma KeyIndexed(agents: seq<Agent>, index: map<string, Agent>, key: string, a: Agent)
    requires ByKey(agents, index)
    ensures Owns(index, key, a) <==> a in agents && a.key == key
  {
    if key in index {
      var i :| HasKey(agents, i, key);
    }
  }

  lemma UuidIndexed(agents: seq<Agent>, index: map<string, Agent>, uuid: string, a: Agent)
    requires ByRecipient(agents, index)
    ensures Owns(index, uuid, a) <==> a in agents && a.recipientUuid == Some(uuid)
  {
    if uuid in index {
      var i :| Claims(agents, i, uuid);
    }
  }

  lemma UserIndexed(agents: seq<Agent>, index: map<string, Agent>, user: string, a: Agent)
    requires ByUser(agents, index)
    ensures Owns(index, user, a) <==>
              exists i :: 0 <= i < |agents| && agents[i] == a && a.osUser == user
                && forall j :: 0 <= j < i ==> agents[j].osUser != user
  {
    if user in index {
      var i :| IsFirst(agents, i, user) && index[user] == agents[i];
      assert agents[i].osUser == user && forall j :: 0 <= j < i ==> agents[j].osUser != user;
    }
    if i :| 0 <= i < |agents| && agents[i] == a && a.osUser == user
            && forall j :: 0 <= j < i ==> agents[j].osUser != user {
      assert agents[i].HarnessKey() == user;
      var k :| IsFirst(agents, k, user) && index[user] == agents[k];
      assert agents[k].osUser == user;
      assert k == i;
    }
  }

  /** What each index names an agent by is the agent's own. */
  lemma IndexedByOwn(agents: seq<Agent>, ix: Indexes)
    requires Loaded(agents, ix)
    ensures forall key :: key in ix.agents ==> ix.agents[key].key == key && WellFormed(ix.agents[key])
    ensures forall uuid :: uuid in ix.byRecipient ==> ix.byRecipient[uuid].recipientUuid == Some(uuid) && !Blank(uuid)
    ensures forall user :: user in ix.byHarness ==> ix.byHarness[user].HarnessKey() == user
  {
    forall key | key in ix.agents ensures ix.agents[key].key == key && WellFormed(ix.agents[key]) {
      var i :| HasKey(agents, i, key);
    }
    forall uuid | uuid in ix.byRecipient ensures ix.byRecipient[uuid].recipientUuid == Some(uuid) && !Blank(uuid) {
      var i :| Claims(agents, i, uuid);
      assert WellFormed(agents[i]);
    }
    forall user | user in ix.byHarness ensures ix.byHarness[user].HarnessKey() == user {
      var i :| IsFirst(agents, i, user) && ix.byHarness[user] == agents[i];
    }
  }

  /** A recipient is one agent's alone. */
  lemma RecipientsAreInjective(agents: seq<Agent>, ix: Indexes, u: string, v: string)
    requires Loaded(agents, ix) && u in ix.byRecipient && v in ix.byRecipient
    ensures ix.byRecipient[u] == ix.byRecipient[v] <==> u == v
  {
    IndexedByOwn(agents, ix);
  }

  /** A "repo" recipient resolves to a builder exactly when it is repo-shaped: no repo a github delivery
      names resolves to a harness agent. */
  lemma ReposResolveToBuilders(agents: seq<Agent>, ix: Indexes, repo: string)
    requires Loaded(agents, ix) && Resolve(ix, Recipient("repo", repo)).Ok?
    ensures Resolve(ix, Recipient("repo", repo)).value.wakeKind == Claude <==> IsRepoKey(repo)
  {
    IndexedByOwn(agents, ix);
  }

  /** Every registered agent resolves by its OS user, to the first agent of that user: the same harness
      instance. */
  lemma EveryAgentHasItsInstance(agents: seq<Agent>, ix: Indexes, i: int) returns (j: int)
    requires Loaded(agents, ix) && 0 <= i < |agents|
    ensures 0 <= j <= i && IsFirst(agents, j, agents[i].HarnessKey())
    ensures Resolve(ix, Recipient("harness_key", agents[i].HarnessKey())) == Ok(agents[j])
  {
    var user := agents[i].HarnessKey();
    j :| IsFirst(agents, j, user) && ix.byHarness[user] == agents[j];
  }

  /** Resolution, asked under this tag for a value a route can send, gives this agent. */
  ghost predicate ResolvesBy(ix: Indexes, agent: Agent, tag: string) {
    exists value :: (tag == "repo" ==> IsRepoKey(value)) && Resolve(ix, Recipient(tag, value)) == Ok(agent)
  }

  lemma ResolvesByItsOwn(agents: seq<Agent>, ix: Indexes, agent: Agent, tag: string, value: string)
    requires Loaded(agents, ix) && Resolve(ix, Recipient(tag, value)) == Ok(agent)
    ensures tag == "repo" ==> value == agent.key
    ensures tag == "recipient_uuid" ==> agent.recipientUuid == Some(value) && value != ""
    ensures tag == "harness_key" ==> value == agent.HarnessKey()
    ensures tag == "repo" || tag == "recipient_uuid" || tag == "harness_key"
  {
    IndexedByOwn(agents, ix);
    assert Blank("");
  }

  predicate Owns(index: map<string, Agent>, k: string, agent: Agent) { k in index && index[k] == agent }

  lemma OwnerResolves(ix: Indexes, agent: Agent, value: string)
    ensures Owns(ix.agents, value, agent) && IsRepoKey(value) ==> ResolvesBy(ix, agent, "repo")
    ensures Owns(ix.byRecipient, value, agent) ==> ResolvesBy(ix, agent, "recipient_uuid")
    ensures Owns(ix.byHarness, value, agent) ==> ResolvesBy(ix, agent, "harness_key")
  {
    assert |"repo"| == 4 && |"recipient_uuid"| == 14 && |"harness_key"| == 11;
    if Owns(ix.agents, value, agent) {
      assert Resolve(ix, Recipient("repo", value)) == Ok(agent);
    }
    if Owns(ix.byRecipient, value, agent) {
      assert Resolve(ix, Recipient("recipient_uuid", value)) == Ok(agent);
    }
    if Owns(ix.byHarness, value, agent) {
      assert Resolve(ix, Recipient("harness_key", value)) == Ok(agent);
    }
  }

  lemma OnlyTags(agents: seq<Agent>, ix: Indexes, agent: Agent, kinds: set<string>, tag: string)
    requires Loaded(agents, ix) && ResolvesBy(ix, agent, tag)
    requires Owns(ix.agents, agent.key, agent) && IsRepoKey(agent.key) ==> "repo" in kinds
    requires forall uuid :: agent.recipientUuid == Some(uuid) && uuid != "" && Owns(ix.byRecipient, uuid, agent)
               ==> "recipient_uuid" in kinds
    requires Owns(ix.byHarness, agent.HarnessKey(), agent) ==> "harness_key" in kinds
    ensures tag in kinds
  {
    var value :| (tag == "repo" ==> IsRepoKey(value)) && Resolve(ix, Recipient(tag, value)) == Ok(agent);
    ResolvesByItsOwn(agents, ix, agent, tag, value);
    if tag == "repo" {
      assert Owns(ix.agents, agent.key, agent);
    } else if tag == "recipient_uuid" {
      assert Owns(ix.byRecipient, value, agent);
    } else {
      assert Owns(ix.byHarness, agent.HarnessKey(), agent);
    }
  }

  /** `resolvable_by`: exactly the tags under which resolution really gives this agent. */
  method ResolvableBy(ix: Indexes, agent: Agent, ghost agents: seq<Agent>) returns (kinds: set<string>)
    requires Loaded(agents, ix)
    ensures forall tag :: tag in kinds <==> ResolvesBy(ix, agent, tag)
  {
    kinds := {};
    if Owns(ix.agents, agent.key, agent) && IsRepoKey(agent.key) {
      kinds := kinds + {"repo"};
      OwnerResolves(ix, agent, agent.key);
    }
    assert AllResolve(ix, agent, kinds);
    var uuid := agent.recipientUuid;
    if uuid.Some? && uuid.value != "" && Owns(ix.byRecipient, uuid.value, agent) {
      kinds := kinds + {"recipient_uuid"};
      OwnerResolves(ix, agent, uuid.value);
    }
    assert AllResolve(ix, agent, kinds);
    if Owns(ix.byHarness, agent.HarnessKey(), agent) {
      kinds := kinds + {"harness_key"};
      OwnerResolves(ix, agent, agent.HarnessKey());
    }
    assert AllResolve(ix, agent, kinds);
    forall tag ensures tag in kinds <==> ResolvesBy(ix, agent, tag) {
      if ResolvesBy(ix, agent, tag) {
        OnlyTags(agents, ix, agent, kinds, tag);
      }
    }
  }

  ghost predicate AllResolve(ix: Indexes, agent: Agent, kinds: set<string>) {
    forall tag :: tag in kinds ==> ResolvesBy(ix, agent, tag)
  }
}
