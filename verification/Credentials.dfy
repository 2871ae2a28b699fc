/** The two places an API key can live (crates/cli/src/lib.rs): the config file and a secret store
    whose writes may fail, with the commands that set, clear and migrate keys between them. */
module Credentials {
  import opened Options
  import opened Text
  import opened Providers

  /** provider_slot. A slot is named by the provider whose id it carries; the China endpoint
      shares the slot of its sibling, all others have their own. */
  function Slot(provider: ProviderKind): ProviderKind {
    if provider == SiliconflowCN then Siliconflow else provider
  }

  predicate Shared(provider: ProviderKind) {
    provider == Siliconflow || provider == SiliconflowCN
  }

  datatype Keys = Keys(
    blocks: map<ProviderKind, string>,   // [providers.<p>] api_key
    root: Option<string>,                // the top-level api_key, which only Deepseek reads
    secrets: map<ProviderKind, string>)  // by slot

  function Filled(value: Option<string>): Option<string> {
    if value.Some? && Blank(value.value) then None else value
  }

  function Or(first: Option<string>, second: Option<string>): Option<string> {
    if first.Some? then first else second
  }

  function Lookup(keys: map<ProviderKind, string>, provider: ProviderKind): Option<string> {
    if provider in keys then Some(keys[provider]) else None
  }

  function Root(keys: Keys, provider: ProviderKind): Option<string> {
    if provider == Deepseek then keys.root else None
  }

  /** What bears on one provider's key. */
  datatype Place = Place(block: Option<string>, root: Option<string>, secret: Option<string>)

  function At(keys: Keys, provider: ProviderKind): Place {
    Place(Lookup(keys.blocks, provider), Root(keys, provider), Lookup(keys.secrets, Slot(provider)))
  }

  /** provider_config_api_key: the block hides the root even when it is blank. */
  function ConfigKey(place: Place): Option<string> {
    Filled(Or(place.block, place.root))
  }

  /** provider_keyring_api_key. */
  function SecretKey(place: Place): Option<string> {
    Filled(place.secret)
  }

  /** The key a provider is used with: config first, then the secret store. */
  function EffectiveAt(place: Place): Option<string> {
    Or(ConfigKey(place), SecretKey(place))
  }

  function Effective(keys: Keys, provider: ProviderKind): Option<string> {
    EffectiveAt(At(keys, provider))
  }

  // ---- The commands, on values ----

  function Strip(keys: Keys, provider: ProviderKind): Keys {
    keys.(blocks := keys.blocks - {provider}, root := if provider == Deepseek then None else keys.root)
  }

  function Persisted(keys: Keys, provider: ProviderKind, key: string, saved: bool): Keys {
    if saved then Strip(keys.(secrets := keys.secrets[Slot(provider) := key]), provider)
    else keys.(blocks := keys.blocks[provider := key], root := if provider == Deepseek then Some(key) else keys.root)
  }

  function Cleared(keys: Keys, provider: ProviderKind): Keys {
    Strip(keys.(secrets := keys.secrets - {Slot(provider)}), provider)
  }

  /** The plaintext key a migration finds; unlike a lookup it passes over a blank block. */
  function PlaintextAt(place: Place): Option<string> {
    Or(Filled(place.block), Filled(place.root))
  }

  function Plaintext(keys: Keys, provider: ProviderKind): Option<string> {
    PlaintextAt(At(keys, provider))
  }

  /** One provider's share of a migration. */
  function MigratedOne(keys: Keys, provider: ProviderKind, accepted: bool): Keys {
    var value := Plaintext(keys, provider);
    if value.None? then keys
    else if Lookup(keys.secrets, Slot(provider)) == value then Strip(keys, provider)
    else if accepted then Strip(keys.(secrets := keys.secrets[Slot(provider) := value.value]), provider)
    else keys
  }

  // What the commands do, seen from one provider.

  function MigrateAt(place: Place, accepted: bool): Place {
    var value := PlaintextAt(place);
    if value.None? then place
    else if place.secret == value || accepted then Place(None, None, value)
    else place
  }

  lemma {:induction false} MigratedOneAt(keys: Keys, provider: ProviderKind, accepted: bool, q: ProviderKind)
    ensures At(MigratedOne(keys, provider, accepted), q) ==
            if q == provider then MigrateAt(At(keys, q), accepted)
            else if Slot(q) == Slot(provider) then At(keys, q).(secret := MigrateAt(At(keys, provider), accepted).secret)
            else At(keys, q)
  {
    var value := Plaintext(keys, provider);
    SameSlot(keys, provider, q);
    if value.Some? && Lookup(keys.secrets, Slot(provider)) == value {
      StripAt(keys, provider, q);
    } else if value.Some? && accepted {
      StoredStripAt(keys, provider, value.value, q);
    }
  }

  lemma {:induction false} StoredStripAt(keys: Keys, provider: ProviderKind, key: string, q: ProviderKind)
    ensures At(Strip(keys.(secrets := keys.secrets[Slot(provider) := key]), provider), q)
         == if q == provider then Place(None, None, Some(key))
            else if Slot(q) == Slot(provider) then At(keys, q).(secret := Some(key))
            else At(keys, q)
  {
    StoredAt(keys, provider, key, q);
    StripAt(keys.(secrets := keys.secrets[Slot(provider) := key]), provider, q);
  }

  lemma {:induction false} SameSlot(keys: Keys, p: ProviderKind, q: ProviderKind)
    ensures Slot(p) == Slot(q) ==> At(keys, p).secret == At(keys, q).secret
  {
  }

  lemma {:induction false} StoredAt(keys: Keys, provider: ProviderKind, key: string, q: ProviderKind)
    ensures At(keys.(secrets := keys.secrets[Slot(provider) := key]), q)
         == if Slot(q) == Slot(provider) then At(keys, q).(secret := Some(key)) else At(keys, q)
  {
  }

  lemma {:induction false} StripAt(keys: Keys, provider: ProviderKind, q: ProviderKind)
    ensures At(Strip(keys, provider), q) == if q == provider then Place(None, None, At(keys, q).secret) else At(keys, q)
  {
  }

  lemma {:induction false} PersistedAt(keys: Keys, provider: ProviderKind, key: string, saved: bool, q: ProviderKind)
    ensures At(Persisted(keys, provider, key, saved), q) ==
            if q == provider then
              if saved then Place(None, None, Some(key))
              else Place(Some(key), if q == Deepseek then Some(key) else None, At(keys, q).secret)
            else if saved && Slot(q) == Slot(provider) then At(keys, q).(secret := Some(key))
            else At(keys, q)
  {
  }

  lemma {:induction false} ClearedAt(keys: Keys, provider: ProviderKind, q: ProviderKind)
    ensures At(Cleared(keys, provider), q) ==
            if q == provider then Place(None, None, None)
            else if Slot(q) == Slot(provider) then At(keys, q).(secret := None)
            else At(keys, q)
  {
  }

  function Migrated(keys: Keys, order: seq<ProviderKind>, accepted: set<ProviderKind>): Keys {
    if order == [] then keys
    else MigratedOne(Migrated(keys, order[..|order| - 1], accepted), order[|order| - 1], order[|order| - 1] in accepted)
  }

  /** The providers with a plaintext key, in order. */
  function Holders(keys: Keys, order: seq<ProviderKind>): seq<ProviderKind> {
    if order == [] then []
    else
      var last := order[|order| - 1];
      Holders(keys, order[..|order| - 1]) + if Plaintext(keys, last).Some? then [last] else []
  }

  predicate Moves(keys: Keys, provider: ProviderKind, accepted: bool) {
    var value := Plaintext(keys, provider);
    value.Some? && (Lookup(keys.secrets, Slot(provider)) == value || accepted)
  }

  /** The providers whose key a migration moves, in order. */
  function Moved(keys: Keys, order: seq<ProviderKind>, accepted: set<ProviderKind>): seq<ProviderKind> {
    if order == [] then []
    else
      var front, last := order[..|order| - 1], order[|order| - 1];
      Moved(keys, front, accepted) + if Moves(Migrated(keys, front, accepted), last, last in accepted) then [last] else []
  }

  /** Two providers meet in a slot exactly if they are one, or the Siliconflow pair. */
  lemma {:induction false} SlotsMeetIff(p: ProviderKind, q: ProviderKind)
    ensures Slot(p) == Slot(q) <==> p == q || {p, q} == {Siliconflow, SiliconflowCN}
  {
    if p != q && Slot(p) == Slot(q) { assert {p, q} == {Siliconflow, SiliconflowCN}; }
  }

  /** A dry run reports exactly the providers that have a plaintext key. */
  lemma {:induction false} HoldersIff(keys: Keys, order: seq<ProviderKind>, p: ProviderKind)
    ensures p in Holders(keys, order) <==> p in order && Plaintext(keys, p).Some?
  {
    if order != [] {
      HoldersIff(keys, order[..|order| - 1], p);
      assert order == order[..|order| - 1] + [order[|order| - 1]];
    }
  }

  // ---- The commands, in place ----

  class CredentialStore {
    var blocks: map<ProviderKind, string>
    var root: Option<string>
    var secrets: map<ProviderKind, string>

    function View(): Keys
      reads this
    {
      Keys(blocks, root, secrets)
    }

    method ClearFromConfig(provider: ProviderKind)
      modifies this
      ensures View() == Strip(old(View()), provider)
    {
      blocks := blocks - {provider};
      if provider == Deepseek {
        root := None;
      }
    }

    /** persist_provider_api_key: the secret store first, the config only when that fails. */
    method Persist(provider: ProviderKind, key: string, accepts: bool) returns (saved: bool)
      modifies this
      ensures View() == Persisted(old(View()), provider, key, accepts) && saved == accepts
    {
      saved := accepts;
      if saved {
        secrets := secrets[Slot(provider) := key];
        ClearFromConfig(provider);
      } else {
        blocks := blocks[provider := key];
        if provider == Deepseek {
          root := Some(key);
        }
      }
    }

    method Clear(provider: ProviderKind)
      modifies this
      ensures View() == Cleared(old(View()), provider)
    {
      ClearFromConfig(provider);
      secrets := secrets - {Slot(provider)};
    }

    /** One turn of the loop of run_auth_migrate. */
    method MigrateProvider(provider: ProviderKind, dryRun: bool, accepts: bool) returns (reported: bool)
      modifies this
      ensures dryRun ==> View() == old(View()) && reported == Plaintext(View(), provider).Some?
      ensures !dryRun ==> View() == MigratedOne(old(View()), provider, accepts) && reported == Moves(old(View()), provider, accepts)
    {
      var fromBlock := Filled(Lookup(blocks, provider));
      var fromRoot := if provider == Deepseek then Filled(root) else None;
      var value := if fromBlock.Some? then fromBlock else fromRoot;
      assert value == Plaintext(View(), provider);
      if value.None? {
        return false;
      }
      if Lookup(secrets, Slot(provider)) == value {
      } else if dryRun {
        return true;
      } else if accepts {
        secrets := secrets[Slot(provider) := value.value];
      } else {
        return false;
      }
      if !dryRun {
        ClearFromConfig(provider);
      }
      return true;
    }

    /** run_auth_migrate: the providers it reports are, on a dry run, those with a plaintext key,
        and otherwise those whose key it moved. */
    method Migrate(dryRun: bool, accepted: set<ProviderKind>) returns (migrated: seq<ProviderKind>)
      modifies this
      ensures dryRun ==> View() == old(View()) && migrated == Holders(View(), ALL)
      ensures !dryRun ==> View() == Migrated(old(View()), ALL, accepted) && migrated == Moved(old(View()), ALL, accepted)
    {
      migrated := [];
      ghost var before := View();
      for i := 0 to |ALL|
        invariant dryRun ==> View() == before && migrated == Holders(before, ALL[..i])
        invariant !dryRun ==> View() == Migrated(before, ALL[..i], accepted) && migrated == Moved(before, ALL[..i], accepted)
      {
        PrefixStep(before, i, accepted);
        var reported := MigrateProvider(ALL[i], dryRun, ALL[i] in accepted);
        migrated := migrated + if reported then [ALL[i]] else [];
      }
      assert ALL[..|ALL|] == ALL;
    }
  }

  lemma {:induction false} PrefixStep(keys: Keys, i: nat, accepted: set<ProviderKind>)
    requires i < |ALL|
    ensures Holders(keys, ALL[..i + 1]) == Holders(keys, ALL[..i]) + if Plaintext(keys, ALL[i]).Some? then [ALL[i]] else []
    ensures var now := Migrated(keys, ALL[..i], accepted);
            && Migrated(keys, ALL[..i + 1], accepted) == MigratedOne(now, ALL[i], ALL[i] in accepted)
            && Moved(keys, ALL[..i + 1], accepted)
               == Moved(keys, ALL[..i], accepted) + if Moves(now, ALL[i], ALL[i] in accepted) then [ALL[i]] else []
  {
    assert ALL[..i + 1][..i] == ALL[..i];
  }

  // ---- Set and clear against a plain map ----

  /** A set takes effect exactly unless a blank key could not be saved while the secret store
      holds another one; no provider with another slot is touched. */
  lemma {:induction false} SetTakesEffectIff(keys: Keys, provider: ProviderKind, key: string, saved: bool)
    ensures Effective(Persisted(keys, provider, key, saved), provider) == Filled(Some(key))
       <==> !Blank(key) || saved || SecretKey(At(keys, provider)).None?
    ensures forall q :: Slot(q) != Slot(provider) ==> At(Persisted(keys, provider, key, saved), q) == At(keys, q)
  {
    PersistedAt(keys, provider, key, saved, provider);
    forall q { PersistedAt(keys, provider, key, saved, q); }
  }

  lemma {:induction false} ClearTakesEffect(keys: Keys, provider: ProviderKind)
    ensures Effective(Cleared(keys, provider), provider) == None
    ensures forall q :: Slot(q) != Slot(provider) ==> At(Cleared(keys, provider), q) == At(keys, q)
  {
    ClearedAt(keys, provider, provider);
    forall q { ClearedAt(keys, provider, q); }
  }

  // ---- What a migration keeps ----

  /** A blank Deepseek block in front of a root key that the secret store does not hold. */
  predicate HiddenRootAt(place: Place) {
    place.block.Some? && Blank(place.block.value) && Filled(place.root).Some? && place.secret != place.root
  }

  predicate HiddenRoot(keys: Keys) {
    HiddenRootAt(At(keys, Deepseek))
  }

  predicate PairAgrees(keys: Keys) {
    Effective(keys, Siliconflow) == Effective(keys, SiliconflowCN)
  }

  /** A migration step shows in the effective key exactly when it brings a hidden root out. */
  lemma {:induction false} MigrateAtKeepsIff(place: Place, accepted: bool)
    ensures EffectiveAt(MigrateAt(place, accepted)) == EffectiveAt(place) <==> !(HiddenRootAt(place) && accepted)
    ensures !HiddenRootAt(place) ==> !HiddenRootAt(MigrateAt(place, accepted))
  {
  }

  lemma {:induction false} MigrateOneKeepsPair(keys: Keys, provider: ProviderKind, accepted: bool, q: ProviderKind)
    requires PairAgrees(keys) && Shared(q)
    ensures Effective(MigratedOne(keys, provider, accepted), q) == Effective(keys, q)
  {
    MigratedOneAt(keys, provider, accepted, q);
    if Shared(provider) {
      MigrateAtKeepsIff(At(keys, provider), accepted);
      assert At(keys, q).root.None? && At(keys, provider).root.None?;
    }
  }

  lemma {:induction false} MigrateAtTwice(place: Place, accepted: bool)
    ensures MigrateAt(MigrateAt(place, accepted), accepted) == MigrateAt(place, accepted)
  {
  }

  /** A provider with its own slot is touched by its own turn only. */
  lemma {:induction false} MigratedUnsharedAt(keys: Keys, order: seq<ProviderKind>, accepted: set<ProviderKind>, q: ProviderKind)
    requires !Shared(q)
    ensures At(Migrated(keys, order, accepted), q) == if q in order then MigrateAt(At(keys, q), q in accepted) else At(keys, q)
  {
    if order != [] {
      var front, last := order[..|order| - 1], order[|order| - 1];
      assert order == front + [last];
      MigratedUnsharedAt(keys, front, accepted, q);
      MigratedOneAt(Migrated(keys, front, accepted), last, last in accepted, q);
      MigrateAtTwice(At(keys, q), q in accepted);
    }
  }

  /** A migration shows in the effective key of a provider with its own slot exactly when it brings
      out Deepseek's hidden root. */
  lemma {:induction false} MigrateKeepsUnsharedIff(keys: Keys, accepted: set<ProviderKind>, q: ProviderKind)
    requires !Shared(q)
    ensures Effective(Migrated(keys, ALL, accepted), q) == Effective(keys, q) <==> !(q == Deepseek && Surfaces(keys, accepted))
  {
    AllListsEveryProvider(q);
    MigratedUnsharedAt(keys, ALL, accepted, q);
    MigrateAtKeepsIff(At(keys, q), q in accepted);
    if q != Deepseek { assert At(keys, q).root.None?; }
  }

  predicate Surfaces(keys: Keys, accepted: set<ProviderKind>) {
    HiddenRoot(keys) && Deepseek in accepted
  }

  lemma {:induction false} MigrateKeepsPair(keys: Keys, order: seq<ProviderKind>, accepted: set<ProviderKind>)
    requires PairAgrees(keys)
    ensures forall q :: Shared(q) ==> Effective(Migrated(keys, order, accepted), q) == Effective(keys, q)
  {
    if order != [] {
      var last := |order| - 1;
      MigrateKeepsPair(keys, order[..last], accepted);
      var before := Migrated(keys, order[..last], accepted);
      assert Shared(Siliconflow) && Shared(SiliconflowCN);
      forall q | Shared(q) ensures Effective(Migrated(keys, order, accepted), q) == Effective(keys, q) {
        MigrateOneKeepsPair(before, order[last], order[last] in accepted, q);
      }
    }
  }

  /** With every write accepted, the providers gone through have no plaintext key left. */
  lemma {:induction false} MigrateEmptiesConfig(keys: Keys, order: seq<ProviderKind>, accepted: set<ProviderKind>, q: ProviderKind)
    requires q in order && forall p :: p in order ==> p in accepted
    ensures Plaintext(Migrated(keys, order, accepted), q).None?
  {
    var last := |order| - 1;
    assert order == order[..last] + [order[last]];
    if q != order[last] {
      MigrateEmptiesConfig(keys, order[..last], accepted, q);
    }
    MigratedOneAt(Migrated(keys, order[..last], accepted), order[last], order[last] in accepted, q);
  }

  lemma {:induction false} MigratedOneMoves(keys: Keys, provider: ProviderKind, accepted: bool, q: ProviderKind)
    ensures Plaintext(MigratedOne(keys, provider, accepted), q) ==
            if q == provider && Moves(keys, provider, accepted) then None else Plaintext(keys, q)
  {
    MigratedOneAt(keys, provider, accepted, q);
  }

  /** Exactly the providers a migration reports have lost their plaintext key, the others keep it. */
  lemma {:induction false} MovedIff(keys: Keys, order: seq<ProviderKind>, accepted: set<ProviderKind>, q: ProviderKind)
    ensures Plaintext(Migrated(keys, order, accepted), q) ==
            if q in Moved(keys, order, accepted) then None else Plaintext(keys, q)
    ensures q in Moved(keys, order, accepted) ==> q in order && Plaintext(keys, q).Some?
  {
    if order != [] {
      var last := |order| - 1;
      MovedIff(keys, order[..last], accepted, q);
      MigratedOneMoves(Migrated(keys, order[..last], accepted), order[last], order[last] in accepted, q);
    }
  }

  ghost predicate NoPlaintext(keys: Keys) {
    forall p :: Plaintext(keys, p).None?
  }

  lemma {:induction false} MigrateIdle(keys: Keys, order: seq<ProviderKind>, accepted: set<ProviderKind>)
    requires NoPlaintext(keys)
    ensures Migrated(keys, order, accepted) == keys
  {
    if order != [] { MigrateIdle(keys, order[..|order| - 1], accepted); }
  }

  ghost function Everyone(): set<ProviderKind> {
    set p: ProviderKind | p in ALL
  }

  /** After a migration in which every write succeeds no plaintext key remains, and migrating
      again changes nothing, whatever then fails. */
  lemma {:induction false} MigrateCompletes(keys: Keys, again: set<ProviderKind>)
    ensures var once := Migrated(keys, ALL, Everyone());
            NoPlaintext(once) && Migrated(once, ALL, again) == once
  {
    var once := Migrated(keys, ALL, Everyone());
    forall p ensures Plaintext(once, p).None? {
      AllListsEveryProvider(p);
      MigrateEmptiesConfig(keys, ALL, Everyone(), p);
    }
    MigrateIdle(once, ALL, again);
  }

  lemma {:induction false} UsedFromSecrets(place: Place)
    requires PlaintextAt(place).None? && place.root.None?
    ensures EffectiveAt(place) == SecretKey(place)
  {
  }

  /** A migration keeps every provider's effective key, whichever secret-store writes fail,
      exactly when the two providers that share a slot agree beforehand and no root key is
      hidden behind a blank block. */
  lemma {:induction false} MigratePreservesIff(keys: Keys)
    ensures (forall accepted: set<ProviderKind>, q ::
               Effective(Migrated(keys, ALL, accepted), q) == Effective(keys, q))
       <==> PairAgrees(keys) && !HiddenRoot(keys)
  {
    var all := Migrated(keys, ALL, Everyone());
    if HiddenRoot(keys) {
      AllListsEveryProvider(Deepseek);
      assert Surfaces(keys, Everyone());
      MigrateKeepsUnsharedIff(keys, Everyone(), Deepseek);
    } else if !PairAgrees(keys) {
      MigrateCompletes(keys, {});
      assert Plaintext(all, Siliconflow).None? && Plaintext(all, SiliconflowCN).None?;
      UsedFromSecrets(At(all, Siliconflow));
      UsedFromSecrets(At(all, SiliconflowCN));
      assert Effective(all, Siliconflow) == Effective(all, SiliconflowCN);
    } else {
      forall accepted: set<ProviderKind>, q ensures Effective(Migrated(keys, ALL, accepted), q) == Effective(keys, q) {
        if Shared(q) { MigrateKeepsPair(keys, ALL, accepted); } else { MigrateKeepsUnsharedIff(keys, accepted, q); }
      }
    }
  }

  // ---- Runs ----

  datatype Command =
    | Set(provider: ProviderKind, key: string, saved: bool)   // login, auth set
    | Clear(provider: ProviderKind)
    | Migrate(dryRun: bool, accepted: set<ProviderKind>)
    | Other                                                   // status, list, get, keyless Ollama setup

  function Do(keys: Keys, command: Command): Keys {
    match command
    case Set(provider, key, saved) => Persisted(keys, provider, key, saved)
    case Clear(provider) => Cleared(keys, provider)
    case Migrate(dryRun, accepted) => if dryRun then keys else Migrated(keys, ALL, accepted)
    case Other => keys
  }

  /** The same command on a plain map from providers to keys: a migration is no change at all. */
  function DoAbstract(plain: map<ProviderKind, string>, command: Command): map<ProviderKind, string> {
    match command
    case Set(provider, key, _) => if Blank(key) then plain - {provider} else plain[provider := key]
    case Clear(provider) => plain - {provider}
    case Migrate(_, _) => plain
    case Other => plain
  }

  function DoAll(keys: Keys, commands: seq<Command>): Keys
    decreases |commands|
  {
    if commands == [] then keys else DoAll(Do(keys, commands[0]), commands[1..])
  }

  function DoAllAbstract(plain: map<ProviderKind, string>, commands: seq<Command>): map<ProviderKind, string>
    decreases |commands|
  {
    if commands == [] then plain else DoAllAbstract(DoAbstract(plain, commands[0]), commands[1..])
  }

  /** Every provider with a slot of its own is used with the key the plain map holds for it. */
  ghost predicate Refines(keys: Keys, plain: map<ProviderKind, string>) {
    forall p :: !Shared(p) ==> Effective(keys, p) == Lookup(plain, p)
  }

  /** The commands that do something else than they say: a blank key that cannot be saved leaves
      the stored one in use, and a migration can bring out a hidden root. */
  predicate Strays(keys: Keys, command: Command) {
    match command
    case Set(provider, key, saved) => !Shared(provider) && Blank(key) && !saved && SecretKey(At(keys, provider)).Some?
    case Clear(_) => false
    case Migrate(dryRun, accepted) => !dryRun && Surfaces(keys, accepted)
    case Other => false
  }

  lemma {:induction false} SetRefinesIff(keys: Keys, plain: map<ProviderKind, string>, provider: ProviderKind, key: string, saved: bool)
    requires Refines(keys, plain)
    ensures Refines(Persisted(keys, provider, key, saved), if Blank(key) then plain - {provider} else plain[provider := key])
       <==> !Strays(keys, Set(provider, key, saved))
  {
    var now, wanted := Persisted(keys, provider, key, saved), if Blank(key) then plain - {provider} else plain[provider := key];
    SetTakesEffectIff(keys, provider, key, saved);
    assert Lookup(wanted, provider) == Filled(Some(key));
    forall p | !Shared(p) && p != provider ensures Effective(now, p) == Lookup(wanted, p) {
      OwnSlot(p, provider);
    }
  }

  lemma {:induction false} OwnSlot(p: ProviderKind, q: ProviderKind)
    ensures !Shared(p) && p != q ==> Slot(p) != Slot(q)
  {
  }

  lemma {:induction false} ClearRefines(keys: Keys, plain: map<ProviderKind, string>, provider: ProviderKind)
    requires Refines(keys, plain)
    ensures Refines(Cleared(keys, provider), plain - {provider})
  {
    ClearTakesEffect(keys, provider);
    forall p | !Shared(p) && p != provider ensures Effective(Cleared(keys, provider), p) == Lookup(plain - {provider}, p) {
      OwnSlot(p, provider);
    }
  }

  lemma {:induction false} MigrateRefinesIff(keys: Keys, plain: map<ProviderKind, string>, accepted: set<ProviderKind>)
    requires Refines(keys, plain)
    ensures Refines(Migrated(keys, ALL, accepted), plain) <==> !Surfaces(keys, accepted)
  {
    var now := Migrated(keys, ALL, accepted);
    MigrateKeepsUnsharedIff(keys, accepted, Deepseek);
    forall p | !Shared(p) && p != Deepseek ensures Effective(now, p) == Lookup(plain, p) {
      MigrateKeepsUnsharedIff(keys, accepted, p);
    }
  }

  /** One command keeps the refinement exactly when it is not one of those. */
  lemma {:induction false} DoRefinesIff(keys: Keys, plain: map<ProviderKind, string>, command: Command)
    requires Refines(keys, plain)
    ensures Refines(Do(keys, command), DoAbstract(plain, command)) <==> !Strays(keys, command)
  {
    match command {
      case Set(provider, key, saved) => SetRefinesIff(keys, plain, provider, key, saved);
      case Clear(provider) => ClearRefines(keys, plain, provider);
      case Migrate(dryRun, accepted) => if !dryRun { MigrateRefinesIff(keys, plain, accepted); }
      case Other =>
    }
  }

  predicate NoneStrays(keys: Keys, commands: seq<Command>)
    decreases |commands|
  {
    commands == [] || (!Strays(keys, commands[0]) && NoneStrays(Do(keys, commands[0]), commands[1..]))
  }

  ghost predicate RefinesThroughout(keys: Keys, plain: map<ProviderKind, string>, commands: seq<Command>)
    decreases |commands|
  {
    && Refines(keys, plain)
    && (commands == [] || RefinesThroughout(Do(keys, commands[0]), DoAbstract(plain, commands[0]), commands[1..]))
  }

  /** Over every run of login, set, clear and migrate commands, with secret-store writes failing
      at will, each provider with a slot of its own is used with the key a plain map driven by
      the same commands holds for it, at every point, exactly when no command strays. */
  lemma {:induction false} RunRefinesPlainMapIff(keys: Keys, plain: map<ProviderKind, string>, commands: seq<Command>)
    requires Refines(keys, plain)
    ensures RefinesThroughout(keys, plain, commands) <==> NoneStrays(keys, commands)
    ensures NoneStrays(keys, commands) ==> Refines(DoAll(keys, commands), DoAllAbstract(plain, commands))
    decreases |commands|
  {
    if commands != [] {
      DoRefinesIff(keys, plain, commands[0]);
      if !Strays(keys, commands[0]) {
        RunRefinesPlainMapIff(Do(keys, commands[0]), DoAbstract(plain, commands[0]), commands[1..]);
      }
    }
  }

  /** Commands that cannot stray: keys that are not blank or can be saved, from a start without a
      hidden root. */
  lemma {:induction false} TamedRunsRefine(keys: Keys, commands: seq<Command>)
    requires !HiddenRoot(keys)
    requires forall i :: 0 <= i < |commands| && commands[i].Set? ==> !Blank(commands[i].key) || commands[i].saved
    ensures NoneStrays(keys, commands)
    decreases |commands|
  {
    if commands != [] {
      HiddenRootStaysAway(keys, commands[0]);
      TamedRunsRefine(Do(keys, commands[0]), commands[1..]);
    }
  }

  /** No command ever creates a hidden root. */
  lemma {:induction false} HiddenRootStaysAway(keys: Keys, command: Command)
    requires !HiddenRoot(keys)
    ensures !HiddenRoot(Do(keys, command))
  {
    match command {
      case Set(provider, key, saved) => PersistedAt(keys, provider, key, saved, Deepseek);
      case Clear(provider) => ClearedAt(keys, provider, Deepseek);
      case Migrate(dryRun, accepted) =>
        MigratedUnsharedAt(keys, ALL, accepted, Deepseek);
        MigrateAtKeepsIff(At(keys, Deepseek), Deepseek in accepted);
      case Other =>
    }
  }

  // ---- Instances ----

  const HIDDEN := Keys(map[Deepseek := ""], Some("key"), map[])

  /** A key at the root behind a blank block: not in use before a migration, in use after it. */
  lemma {:induction false} HiddenRootComesOut(accepted: set<ProviderKind>)
    requires Deepseek in accepted
    ensures Effective(HIDDEN, Deepseek) == None && Effective(Migrated(HIDDEN, ALL, accepted), Deepseek) == Some("key")
  {
    AllListsEveryProvider(Deepseek);
    MigratedUnsharedAt(HIDDEN, ALL, accepted, Deepseek);
    HiddenPlace();
  }

  lemma {:induction false} HiddenPlace()
    ensures var place := At(HIDDEN, Deepseek);
            EffectiveAt(place) == None && EffectiveAt(MigrateAt(place, true)) == Some("key")
  {
    assert !Blank("key") by { assert !IsSpace("key"[0]); }
  }

  /** A blank key that cannot be saved leaves the old one in use. */
  lemma {:induction false} BlankSetIsIgnored()
    ensures var keys := Keys(map[], None, map[Deepseek := "old"]);
            Effective(Persisted(keys, Deepseek, "", false), Deepseek) == Some("old")
  {
    var keys := Keys(map[], None, map[Deepseek := "old"]);
    PersistedAt(keys, Deepseek, "", false, Deepseek);
    assert !Blank("old") by { assert !IsSpace("old"[0]); }
  }
}
