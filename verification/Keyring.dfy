/** The per-recipient signing keys of routes/basecradle.py: which environment variable holds whose key, and
    which key a delivery is verified with. */
module Keyring {
  import opened Common
  import Registry
  import opened Text

  type Env = map<string, string>
  type Recipients = map<string, Registry.Agent>

  const PREFIX := "BASECRADLE_ROUTER_BASECRADLE_WEBHOOK_SECRET_"
  const FALLBACK_VAR := "BASECRADLE_ROUTER_BASECRADLE_SHARED_SECRET_FALLBACK"

  datatype KeyringError =
    | BadFlag
    | Collision(name: string)
    | UnknownSlug(name: string)
    | EmptyKey(name: string)
    | Unprovisioned

  datatype Loaded = Ring(keyring: RecipientKeyring) | Refused(error: KeyringError)

  datatype KeyPath = OwnKey | Fallback

  datatype Selected = Selected(secret: Option<string>, path: KeyPath) | SignatureError

  datatype RecipientKeyring = RecipientKeyring(byRecipient: map<string, string>, sharedFallback: bool)
  {
    function Select(recipient: Option<string>, shared: Option<string>): Selected {
      if recipient.Some? && recipient.value in byRecipient then Selected(Some(byRecipient[recipient.value]), OwnKey)
      else if sharedFallback then Selected(shared, Fallback)
      else SignatureError
    }
  }

  /** Upper case, and everything a variable name may not carry turned into an underscore. */
  function SlugChar(c: char): char {
    if 'a' <= c <= 'z' then c - 32 as char
    else if 'A' <= c <= 'Z' || '0' <= c <= '9' || c == '_' then c
    else '_'
  }

  function SlugSuffix(key: string): (r: string)
    ensures |r| == |key|
  {
    seq(|key|, i requires 0 <= i < |key| => SlugChar(key[i]))
  }

  function VarOf(a: Registry.Agent): string { PREFIX + SlugSuffix(a.key) }

  /** `_bool_env` with a default of true. */
  function Flag(env: Env): Option<bool> {
    var raw := if FALLBACK_VAR in env then Lower(Stripped(env[FALLBACK_VAR])) else "";
    if raw == "" || raw in {"1", "true", "yes", "on"} then Some(true)
    else if raw in {"0", "false", "no", "off"} then Some(false)
    else None
  }

  // ---------------------------------------------------------------- the names

  /** Every derived name is a legal environment variable name: letters, digits and underscores, not
      starting with a digit. */
  lemma DerivedNamesAreLegal(a: Registry.Agent)
    ensures var name := VarOf(a);
            && name != "" && !('0' <= name[0] <= '9')
            && forall i :: 0 <= i < |name| ==> 'A' <= name[i] <= 'Z' || '0' <= name[i] <= '9' || name[i] == '_'
  {
    var name := VarOf(a);
    PrefixIsLegal();
    forall i | 0 <= i < |name| ensures 'A' <= name[i] <= 'Z' || '0' <= name[i] <= '9' || name[i] == '_' {
      if i >= |PREFIX| {
        assert name[i] == SlugSuffix(a.key)[i - |PREFIX|];
      } else {
        assert name[i] == PREFIX[i];
      }
    }
  }

  lemma PrefixIsLegal()
    ensures PREFIX != "" && PREFIX[0] == 'B'
    ensures forall i :: 0 <= i < |PREFIX| ==> 'A' <= PREFIX[i] <= 'Z' || PREFIX[i] == '_'
  {
  }

  /** A name is the prefix and then the slug, its letters in upper case, its digits and underscores kept, and an
      underscore for anything else. */
  lemma NameSpellsTheSlug(a: Registry.Agent, i: int)
    requires 0 <= i < |a.key|
    ensures |VarOf(a)| == |PREFIX| + |a.key| && VarOf(a)[..|PREFIX|] == PREFIX
    ensures var c, d := a.key[i], VarOf(a)[|PREFIX| + i];
            && ('a' <= c <= 'z' ==> Cases(d, c))
            && ('A' <= c <= 'Z' || '0' <= c <= '9' || c == '_' ==> d == c)
            && (!('a' <= c <= 'z' || 'A' <= c <= 'Z' || '0' <= c <= '9' || c == '_') ==> d == '_')
  {
  }

  // ---------------------------------------------------------------- the switch

  /** The fallback is armed when the variable is unset or blank, or says so; it is retired when it says so; in any
      case and with any white space around. Anything else is an error. */
  lemma FlagSays(env: Env)
    ensures Flag(env) == Some(false) <==>
              FALLBACK_VAR in env && var text := env[FALLBACK_VAR];
              Says(text, "0") || Says(text, "false") || Says(text, "no") || Says(text, "off")
    ensures Flag(env) == Some(true) <==>
              FALLBACK_VAR !in env || var text := env[FALLBACK_VAR];
              Blank(text) || Says(text, "1") || Says(text, "true") || Says(text, "yes") || Says(text, "on")
  {
    if FALLBACK_VAR in env {
      var text := env[FALLBACK_VAR];
      StrippedOfBlank(text);
      assert |Lower(Stripped(text))| == |Stripped(text)|;
      SaysLower(text, "0");
      SaysLower(text, "false");
      SaysLower(text, "no");
      SaysLower(text, "off");
      SaysLower(text, "1");
      SaysLower(text, "true");
      SaysLower(text, "yes");
      SaysLower(text, "on");
    }
  }

  lemma SaysLower(text: string, word: string)
    requires word != "" && forall i :: 0 <= i < |word| ==> !('A' <= word[i] <= 'Z') && !IsSpace(word[i])
    ensures Lower(Stripped(text)) == word <==> Says(text, word)
  {
    assert Lower(word) == word;
    SaysIff(text, word);
  }

  // ---------------------------------------------------------------- loading

  /** No two recipients' agents share a variable. */
  ghost predicate OneEach(recipients: Recipients) {
    forall u, v :: u in recipients && v in recipients && VarOf(recipients[u]) == VarOf(recipients[v]) ==> u == v
  }

  ghost predicate Names(recipients: Recipients, name: string) {
    exists u :: u in recipients && VarOf(recipients[u]) == name
  }

  /** Every key that is set names a registered agent and is not blank. */
  ghost predicate KeysMakeSense(recipients: Recipients, env: Env) {
    forall name :: name in env && PREFIX <= name ==> Names(recipients, name) && !Blank(env[name])
  }

  /** Each recipient's own variable, for those that have one set. */
  function Provisioned(recipients: Recipients, env: Env): map<string, string> {
    map u | u in recipients && VarOf(recipients[u]) in env :: env[VarOf(recipients[u])]
  }

  ghost predicate Loads(recipients: Recipients, env: Env) {
    && Flag(env).Some? && OneEach(recipients) && KeysMakeSense(recipients, env)
    && (Flag(env) == Some(false) ==> forall u :: u in recipients ==> VarOf(recipients[u]) in env)
  }

  method ClaimVars(recipients: Recipients) returns (owner: map<string, string>, clash: Option<string>)
    ensures clash == None <==> OneEach(recipients)
    ensures clash.Some? ==> IsSo(recipients, map[], Collision(clash.value))
    ensures clash == None ==> Owns(recipients, owner)
  {
    owner := map[];
    var left := recipients.Keys;
    while left != {}
      invariant left <= recipients.Keys
      invariant forall u :: u in recipients && u !in left ==>
          VarOf(recipients[u]) in owner && owner[VarOf(recipients[u])] == u
      invariant forall name :: name in owner ==>
          owner[name] in recipients && owner[name] !in left && VarOf(recipients[owner[name]]) == name
      decreases left
    {
      var uuid :| uuid in left;
      var name := VarOf(recipients[uuid]);
      if name in owner && owner[name] != uuid {
        return owner, Some(name);
      }
      owner := owner[name := uuid];
      left := left - {uuid};
    }
    clash := None;
  }

  /** `owner` says which recipient each variable provisions. */
  ghost predicate Owns(recipients: Recipients, owner: map<string, string>) {
    && (forall u :: u in recipients ==> VarOf(recipients[u]) in owner && owner[VarOf(recipients[u])] == u)
    && (forall name :: name in owner ==> owner[name] in recipients && VarOf(recipients[owner[name]]) == name)
  }

  method ReadKeys(recipients: Recipients, owner: map<string, string>, env: Env)
    returns (byRecipient: map<string, string>, error: Option<KeyringError>)
    requires Owns(recipients, owner)
    ensures error == None <==> KeysMakeSense(recipients, env)
    ensures error.Some? ==> !error.value.BadFlag? && !error.value.Unprovisioned? && IsSo(recipients, env, error.value)
    ensures error == None ==> byRecipient == Provisioned(recipients, env)
  {
    byRecipient := map[];
    error := None;
    var left := env.Keys;
    while left != {}
      invariant left <= env.Keys && KeysMakeSense(recipients, env - left)
      invariant byRecipient == Provisioned(recipients, env - left)
      decreases left
    {
      var name :| name in left;
      if PREFIX <= name && name !in owner {
        assert !Names(recipients, name);
        return byRecipient, Some(UnknownSlug(name));
      }
      if PREFIX <= name && Blank(env[name]) { return byRecipient, Some(EmptyKey(name)); }
      var rest := left - {name};
      assert env - rest == (env - left)[name := env[name]];
      OneMoreMakesSense(recipients, owner, env - left, name, env[name]);
      OneMoreKey(recipients, owner, env - left, name, env[name]);
      left := rest;
      if PREFIX <= name {
        byRecipient := byRecipient[owner[name] := env[name]];
      }
    }
    assert env - left == env;
  }

  lemma OneMoreMakesSense(recipients: Recipients, owner: map<string, string>, env: Env, name: string, value: string)
    requires Owns(recipients, owner) && KeysMakeSense(recipients, env)
    requires PREFIX <= name ==> name in owner && !Blank(value)
    ensures KeysMakeSense(recipients, env[name := value])
  {
  }

  lemma OneMoreKey(recipients: Recipients, owner: map<string, string>, env: Env, name: string, value: string)
    requires Owns(recipients, owner) && (PREFIX <= name ==> name in owner)
    ensures Provisioned(recipients, env[name := value])
            == if PREFIX <= name then Provisioned(recipients, env)[owner[name] := value]
               else Provisioned(recipients, env)
  {
    var m := Provisioned(recipients, env[name := value]);
    if PREFIX <= name {
      var u := owner[name];
      assert forall v :: v in recipients && v != u ==> VarOf(recipients[v]) != name;
      assert m == Provisioned(recipients, env)[u := value];
    } else {
      assert forall v :: v in recipients ==> PREFIX <= VarOf(recipients[v]);
      assert m == Provisioned(recipients, env);
    }
  }

  /** What a refusal to load says is the case. */
  ghost predicate IsSo(recipients: Recipients, env: Env, error: KeyringError) {
    match error
    case BadFlag => Flag(env) == None
    case Collision(name) =>
      exists u, v :: u in recipients && v in recipients && u != v
        && VarOf(recipients[u]) == VarOf(recipients[v]) == name
    case UnknownSlug(name) => name in env && PREFIX <= name && !Names(recipients, name)
    case EmptyKey(name) => name in env && PREFIX <= name && Blank(env[name])
    case Unprovisioned => Flag(env) == Some(false) && exists u :: u in recipients && VarOf(recipients[u]) !in env
  }

  /** `load_recipient_keyring`: it loads exactly when it safely can, and then each recipient that has a key
      has the value of its own agent's variable and no other. */
  method LoadRecipientKeyring(recipients: Recipients, env: Env) returns (r: Loaded)
    ensures r.Ring? <==> Loads(recipients, env)
    ensures r.Ring? ==>
        r.keyring.byRecipient == Provisioned(recipients, env) && Some(r.keyring.sharedFallback) == Flag(env)
    ensures r.Refused? ==> IsSo(recipients, env, r.error)
  {
    var fallback := Flag(env);
    if fallback == None { return Refused(BadFlag); }
    var owner, clash := ClaimVars(recipients);
    if clash.Some? { return Refused(Collision(clash.value)); }
    var byRecipient, error := ReadKeys(recipients, owner, env);
    if error.Some? { return Refused(error.value); }
    if !fallback.value {
      var missing := set u | u in recipients && u !in byRecipient;
      if missing != {} {
        Missing(recipients, env, missing);
        return Refused(Unprovisioned);
      }
      assert forall u :: u in recipients ==> u !in missing;
    }
    r := Ring(RecipientKeyring(byRecipient, fallback.value));
  }

  lemma Missing(recipients: Recipients, env: Env, missing: set<string>)
    requires missing != {} && forall u :: u in missing ==> u in recipients && u !in Provisioned(recipients, env)
    ensures !forall u :: u in recipients ==> VarOf(recipients[u]) in env
  {
    var u :| u in missing;
  }

  // ---------------------------------------------------------------- selection

  /** A delivery for a recipient is never verified with another agent's key: what its own key path gives is
      its own agent's variable, which provisions no other recipient. */
  lemma OwnKeyIsOnlyItsOwn(recipients: Recipients, env: Env, ring: RecipientKeyring, u: string, v: string,
                           shared: Option<string>)
    requires Loads(recipients, env) && ring == RecipientKeyring(Provisioned(recipients, env), Flag(env).value)
    requires u in recipients && v in recipients && u != v
    requires ring.Select(Some(u), shared).Selected? && ring.Select(Some(u), shared).path == OwnKey
    ensures VarOf(recipients[u]) in env && ring.Select(Some(u), shared).secret == Some(env[VarOf(recipients[u])])
    ensures VarOf(recipients[u]) != VarOf(recipients[v])
  {
  }

  /** Once the fallback is retired, selection succeeds exactly for the registered recipients, and always
      with a key of their own that is not blank. */
  lemma RetiredSelectsExactlyTheRegistered(recipients: Recipients, env: Env, ring: RecipientKeyring, u: string,
                                           shared: Option<string>)
    requires Loads(recipients, env) && ring == RecipientKeyring(Provisioned(recipients, env), Flag(env).value)
    requires Flag(env) == Some(false)
    ensures u in recipients <==> ring.Select(Some(u), shared).Selected?
    ensures u in recipients ==>
              && VarOf(recipients[u]) in env && !Blank(env[VarOf(recipients[u])])
              && ring.Select(Some(u), shared) == Selected(Some(env[VarOf(recipients[u])]), OwnKey)
    ensures ring.Select(None, shared) == SignatureError
  {
    if u in recipients {
      var name := VarOf(recipients[u]);
      assert PREFIX <= name;
    }
  }
  /** While the fallback is armed, a recipient with a key set is verified with that key, and every other, registered or
      not, with the shared secret. */
  lemma ArmedSelects(recipients: Recipients, env: Env, ring: RecipientKeyring, r: Option<string>,
                     shared: Option<string>)
    requires Loads(recipients, env) && ring == RecipientKeyring(Provisioned(recipients, env), Flag(env).value)
    requires Flag(env) == Some(true)
    ensures r.Some? && r.value in recipients && VarOf(recipients[r.value]) in env ==>
              ring.Select(r, shared) == Selected(Some(env[VarOf(recipients[r.value])]), OwnKey)
    ensures r == None || r.value !in recipients || VarOf(recipients[r.value]) !in env ==>
              ring.Select(r, shared) == Selected(shared, Fallback)
  {
  }
}
