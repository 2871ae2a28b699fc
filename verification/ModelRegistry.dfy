/** The model registry of crates/agent/src/lib.rs: an index built first-come-first-served, a
    resolver that works through its priorities, and the provider inference built on top in
    crates/app-server/src/chat_completions.rs. */
module ModelRegistry {
  import opened Options
  import opened Text
  import opened Providers

  datatype ModelInfo = ModelInfo(id: string, provider: ProviderKind, aliases: seq<string>, tools: bool, reasoning: bool)

  datatype Strategy = Requested(name: string) | ProviderDefault(provider: ProviderKind) | GlobalDefault

  datatype Resolution = Resolution(requested: Option<string>, resolved: ModelInfo, usedFallback: bool, chain: seq<Strategy>)

  function Normalize(name: string): string {
    Lower(Trim(name))
  }

  function NormalizeAll(names: seq<string>): (r: seq<string>)
    ensures |r| == |names| && forall i :: 0 <= i < |names| ==> r[i] == Normalize(names[i])
  {
    seq(|names|, i requires 0 <= i < |names| => Normalize(names[i]))
  }

  /** A model answers to its id and its aliases, in any ASCII case. */
  predicate AnswersTo(model: ModelInfo, key: string) {
    Normalize(model.id) == key || key in NormalizeAll(model.aliases)
  }

  predicate Matches(model: ModelInfo, name: string) {
    AnswersTo(model, Normalize(name))
  }

  /** The first model of a list that answers to a key, by linear scan. */
  ghost predicate FirstAnswering(models: seq<ModelInfo>, key: string, i: nat) {
    i < |models| && AnswersTo(models[i], key) && forall j :: 0 <= j < i ==> !AnswersTo(models[j], key)
  }

  // ---- Names, letter by letter ----

  /** The same name but for ASCII case and white space around it. */
  predicate SameName(a: string, b: string) {
    SameLetters(Trim(a), Trim(b))
  }

  /** A model goes by its id and by its aliases. */
  predicate Named(model: ModelInfo, name: string) {
    SameName(model.id, name) || exists j :: 0 <= j < |model.aliases| && SameName(model.aliases[j], name)
  }

  lemma {:induction false} NormalizeTells(a: string, b: string)
    ensures Normalize(a) == Normalize(b) <==> SameName(a, b)
  {
    LowerTells(Trim(a), Trim(b));
  }

  lemma {:induction false} MatchesIff(model: ModelInfo, name: string)
    ensures Matches(model, name) <==> Named(model, name)
  {
    NormalizeTells(model.id, name);
    var keys := NormalizeAll(model.aliases);
    forall j | 0 <= j < |model.aliases| ensures keys[j] == Normalize(name) <==> SameName(model.aliases[j], name) {
      NormalizeTells(model.aliases[j], name);
    }
    if Normalize(name) in keys {
      var j :| 0 <= j < |keys| && keys[j] == Normalize(name);
      assert SameName(model.aliases[j], name);
    }
    if exists j :: 0 <= j < |model.aliases| && SameName(model.aliases[j], name) {
      var j :| 0 <= j < |model.aliases| && SameName(model.aliases[j], name);
      assert keys[j] == Normalize(name);
    }
  }

  /** The first model with a name, of one provider or of any. */
  ghost predicate FirstNamed(models: seq<ModelInfo>, provider: Option<ProviderKind>, name: string, i: nat) {
    && i < |models| && Fits(models[i], provider, name)
    && forall j :: 0 <= j < i ==> !Fits(models[j], provider, name)
  }

  predicate Fits(model: ModelInfo, provider: Option<ProviderKind>, name: string) {
    (provider.Some? ==> model.provider == provider.value) && Named(model, name)
  }

  predicate AnyFits(models: seq<ModelInfo>, provider: Option<ProviderKind>, name: string) {
    exists i :: 0 <= i < |models| && Fits(models[i], provider, name)
  }

  ghost predicate FirstOf(models: seq<ModelInfo>, provider: ProviderKind, i: nat) {
    i < |models| && models[i].provider == provider && forall j :: 0 <= j < i ==> models[j].provider != provider
  }

  predicate HasModel(models: seq<ModelInfo>, provider: ProviderKind) {
    exists i :: 0 <= i < |models| && models[i].provider == provider
  }

  // ---- Names passed through unlisted ----

  predicate IsControl(c: char) {
    c as int <= 31 || 127 <= c as int <= 159
  }

  predicate PassesThrough(provider: ProviderKind, name: string) {
    var trimmed := Trim(name);
    match provider
    case Atlascloud => trimmed != "" && '/' in trimmed
    case Arcee => trimmed != ""
    case XiaomiMimo => trimmed != "" && forall i :: 0 <= i < |trimmed| ==> !IsControl(trimmed[i])
    case _ => false
  }

  function PassedThrough(provider: ProviderKind, name: string): ModelInfo {
    var trimmed := Trim(name);
    ModelInfo(trimmed, provider, [], true, if provider == Arcee then Find(Lower(trimmed), "thinking").Some? else true)
  }

  /** What is passed through, without reference to how it is tested: for Atlascloud a name with a
      slash, for Arcee any that is not blank, for Xiaomi one with no control character inside. */
  predicate Passes(provider: ProviderKind, name: string) {
    match provider
    case Atlascloud => '/' in name
    case Arcee => !Blank(name)
    case XiaomiMimo => !Blank(name) && forall i :: 0 <= i < |Trim(name)| ==> !(Trim(name)[i] as int < 32 || 127 <= Trim(name)[i] as int < 160)
    case _ => false
  }

  lemma {:induction false} PassesIff(provider: ProviderKind, name: string)
    ensures PassesThrough(provider, name) <==> Passes(provider, name)
  {
    BlankIsTrimmedAway(name);
    SlashIsInside(name);
    assert forall i :: 0 <= i < |Trim(name)| ==> (IsControl(Trim(name)[i]) <==> Trim(name)[i] as int < 32 || 127 <= Trim(name)[i] as int < 160);
  }

  /** Trimming takes no slash away. */
  lemma {:induction false} SlashIsInside(name: string)
    ensures '/' in name <==> '/' in Trim(name)
  {
    TrimIsCore(name);
    var trimmed := Trim(name);
    var front, back :| Around(front, trimmed, back, name);
    InParts('/', front, trimmed, back);
    assert !IsSpace('/');
  }

  lemma {:induction false} InParts(c: char, front: string, core: string, back: string)
    ensures c in front + core + back <==> c in front || c in core || c in back
  {
  }

  /** A word occurs in a text, in any ASCII case. */
  ghost predicate Contains(text: string, word: string) {
    exists i: nat :: ContainsAt(text, word, i)
  }

  predicate ContainsAt(text: string, word: string, i: nat) {
    i + |word| <= |text| && forall k :: 0 <= k < |word| ==> SameLetter(text[i + k], word[k])
  }

  lemma {:induction false} ContainsIff(text: string, word: string)
    requires Lower(word) == word
    ensures Find(Lower(text), word).Some? <==> Contains(text, word)
  {
    forall i: nat ensures OccursAt(Lower(text), word, i) <==> ContainsAt(text, word, i) { ContainsAtIff(text, word, i); }
    if Contains(text, word) {
      var i: nat :| ContainsAt(text, word, i);
      assert OccursAt(Lower(text), word, i);
    }
  }

  lemma {:induction false} ContainsAtIff(text: string, word: string, i: nat)
    requires Lower(word) == word
    ensures OccursAt(Lower(text), word, i) <==> ContainsAt(text, word, i)
  {
    if i + |word| <= |text| {
      var part := text[i..i + |word|];
      assert Lower(text)[i..i + |word|] == Lower(part);
      LowerTells(part, word);
      assert forall k :: 0 <= k < |word| ==> part[k] == text[i + k];
    }
  }

  lemma {:induction false} PassedSpelled(provider: ProviderKind, name: string)
    ensures PassedThrough(provider, name)
         == ModelInfo(Trim(name), provider, [], true, provider == Arcee ==> Contains(Trim(name), "thinking"))
  {
    assert Lower("thinking") == "thinking";
    ContainsIff(Trim(name), "thinking");
  }

  lemma {:induction false} KeptSpelled(model: ModelInfo, name: string)
    ensures KeepCase(model, name) == model.(id := if SameLetters(model.id, Trim(name)) then Trim(name) else model.id)
  {
    LowerTells(model.id, Trim(name));
  }

  /** preserve_requested_model_id_case: the model, under the name it was asked for. */
  function KeepCase(model: ModelInfo, name: string): ModelInfo {
    if Lower(model.id) == Lower(Trim(name)) then model.(id := Trim(name)) else model
  }

  /** Whatever an index holds is what the linear scan finds. */
  ghost predicate Sound(models: seq<ModelInfo>, index: map<string, nat>) {
    forall key :: key in index ==> FirstAnswering(models, key, index[key])
  }

  /** Every name of the first `n` models is in the index. */
  ghost predicate Covers(models: seq<ModelInfo>, index: map<string, nat>, n: nat) {
    n <= |models| && forall i, key :: 0 <= i < n && AnswersTo(models[i], key) ==> key in index
  }

  /** All names of a model, as the index keeps them. */
  function KeysOf(model: ModelInfo): (r: seq<string>)
    ensures |r| == |model.aliases| + 1
  {
    [Normalize(model.id)] + NormalizeAll(model.aliases)
  }

  lemma {:induction false} KeyAt(model: ModelInfo, j: nat)
    requires j < |KeysOf(model)|
    ensures KeysOf(model)[j] == Normalize(if j == 0 then model.id else model.aliases[j - 1])
  {
  }

  lemma {:induction false} KeysAreAnswered(model: ModelInfo, key: string)
    ensures key in KeysOf(model) <==> AnswersTo(model, key)
  {
  }

  function Claimed(index: map<string, nat>, key: string, i: nat): map<string, nat> {
    if key in index then index else index[key := i]
  }

  function AllClaimed(index: map<string, nat>, keys: seq<string>, i: nat): map<string, nat> {
    if keys == [] then index else Claimed(AllClaimed(index, keys[..|keys| - 1], i), keys[|keys| - 1], i)
  }

  lemma {:induction false} ClaimStep(index: map<string, nat>, keys: seq<string>, j: nat, i: nat)
    requires j < |keys|
    ensures AllClaimed(index, keys[..0], i) == index
    ensures AllClaimed(index, keys[..j + 1], i) == Claimed(AllClaimed(index, keys[..j], i), keys[j], i)
  {
    assert keys[..j + 1][..j] == keys[..j];
  }

  /** Claiming adds what is new and overturns nothing. */
  lemma {:induction false} AllClaimedHolds(index: map<string, nat>, keys: seq<string>, i: nat)
    ensures var now := AllClaimed(index, keys, i);
            && (forall key :: key in now <==> key in index || key in keys)
            && (forall key :: key in now ==> now[key] == if key in index then index[key] else i)
  {
    if keys != [] {
      AllClaimedHolds(index, keys[..|keys| - 1], i);
      assert keys == keys[..|keys| - 1] + [keys[|keys| - 1]];
    }
  }

  lemma {:induction false} OneMoreModel(models: seq<ModelInfo>, index: map<string, nat>, i: nat)
    requires i < |models| && Sound(models, index) && Covers(models, index, i)
    ensures var now := AllClaimed(index, KeysOf(models[i]), i); Sound(models, now) && Covers(models, now, i + 1)
  {
    var keys := KeysOf(models[i]);
    var now := AllClaimed(index, keys, i);
    AllClaimedHolds(index, keys, i);
    forall key | key in now ensures FirstAnswering(models, key, now[key]) { KeysAreAnswered(models[i], key); }
    forall j, key | 0 <= j < i + 1 && AnswersTo(models[j], key) ensures key in now { KeysAreAnswered(models[i], key); }
  }

  class Registry {
    var models: seq<ModelInfo>
    var index: map<string, nat>

    /** The index agrees with the linear scan on every key. */
    ghost predicate Valid()
      reads this
    {
      Sound(models, index) && Covers(models, index, |models|)
    }

    /** ModelRegistry::new: nested loops, the first to claim a name keeps it. */
    constructor (models: seq<ModelInfo>)
      ensures Valid() && this.models == models
    {
      this.models := models;
      this.index := map[];
      new;
      for i := 0 to |models|
        invariant this.models == models
        invariant Sound(models, index) && Covers(models, index, i)
      {
        OneMoreModel(models, index, i);
        ClaimNames(i);
      }
    }

    /** The inner loop of the constructor: one model claims its id and its aliases. */
    method ClaimNames(i: nat)
      requires i < |models|
      modifies this`index
      ensures index == AllClaimed(old(index), KeysOf(models[i]), i)
    {
      ghost var before, keys := index, KeysOf(models[i]);
      ClaimStep(before, keys, 0, i);
      KeyAt(models[i], 0);
      Claim(Normalize(models[i].id), i);
      for j := 0 to |models[i].aliases|
        invariant index == AllClaimed(before, keys[..j + 1], i)
      {
        ClaimStep(before, keys, j + 1, i);
        KeyAt(models[i], j + 1);
        Claim(Normalize(models[i].aliases[j]), i);
      }
      assert keys[..|keys|] == keys;
    }

    /** entry(key).or_insert(i). */
    method Claim(key: string, i: nat)
      modifies this`index
      ensures index == Claimed(old(index), key, i)
    {
      if key !in index {
        index := index[key := i];
      }
    }

    /** The first model satisfying a test, as Iterator::find returns it. */
    method FindScoped(provider: ProviderKind, name: string) returns (at: Option<nat>)
      ensures at.Some? ==> FirstNamed(models, Some(provider), name, at.value)
      ensures at.None? ==> !AnyFits(models, Some(provider), name)
    {
      for i := 0 to |models|
        invariant forall j :: 0 <= j < i ==> !Fits(models[j], Some(provider), name)
      {
        MatchesIff(models[i], name);
        if models[i].provider == provider && Matches(models[i], name) {
          return Some(i);
        }
      }
      return None;
    }

    method FindDefault(provider: ProviderKind) returns (at: Option<nat>)
      ensures at.Some? ==> FirstOf(models, provider, at.value)
      ensures at.None? ==> !HasModel(models, provider)
    {
      for i := 0 to |models|
        invariant forall j :: 0 <= j < i ==> models[j].provider != provider
      {
        if models[i].provider == provider {
          return Some(i);
        }
      }
      return None;
    }

    /** resolve. */
    method Resolve(requested: Option<string>, hint: Option<ProviderKind>) returns (r: Resolution)
      requires Valid()
      ensures ResolvesTo(models, requested, hint, r)
    {
      var chain: seq<Strategy> := [];
      if requested.Some? {
        var name := requested.value;
        chain := chain + [Requested(name)];
        if hint == Some(Ollama) {
          return Resolution(requested, ModelInfo(Trim(name), Ollama, [], true, false), false, chain);
        }
        if hint.Some? {
          PassesIff(hint.value, name);
          var scoped := FindScoped(hint.value, name);
          if scoped.Some? {
            return Resolution(requested, models[scoped.value], false, chain);
          }
          if PassesThrough(hint.value, name) {
            PassedSpelled(hint.value, name);
            return Resolution(requested, PassedThrough(hint.value, name), false, chain);
          }
        }
        var key := Normalize(name);
        IndexIsFirstNamed(models, index, name);
        if key in index {
          KeptSpelled(models[index[key]], name);
          return Resolution(requested, KeepCase(models[index[key]], name), false, chain);
        }
      }
      var provider := if hint.Some? then hint.value else Deepseek;
      chain := chain + [ProviderDefault(provider)];
      var at := FindDefault(provider);
      if at.Some? {
        return Resolution(requested, models[at.value], true, chain);
      }
      chain := chain + [GlobalDefault];
      var last := if models == [] then ModelInfo("deepseek-v4-pro", Deepseek, [], true, true) else models[0];
      return Resolution(requested, last, true, chain);
    }

    /** inferred_provider_for_model: the configured provider keeps a name exactly when it has a
        model for it or takes any such name; otherwise the first model anywhere decides. */
    method InferredProvider(configured: ProviderKind, name: string) returns (provider: Option<ProviderKind>)
      requires Valid()
      ensures Infers(models, configured, name, provider)
    {
      var scoped := Resolve(Some(name), Some(configured));
      if !scoped.usedFallback && scoped.resolved.provider == configured {
        return Some(configured);
      }
      var global := Resolve(Some(name), None);
      return if global.usedFallback then None else Some(global.resolved.provider);
    }
  }

  // ---- What the resolver answers ----

  /** How a request that names a model is answered. */
  ghost predicate AnswersName(models: seq<ModelInfo>, name: string, hint: Option<ProviderKind>, model: ModelInfo) {
    if hint == Some(Ollama) then model == ModelInfo(Trim(name), Ollama, [], true, false)
    else if hint.Some? && AnyFits(models, hint, name) then exists i: nat :: FirstNamed(models, hint, name, i) && model == models[i]
    else if hint.Some? && Passes(hint.value, name) then
      model == ModelInfo(Trim(name), hint.value, [], true, hint.value == Arcee ==> Contains(Trim(name), "thinking"))
    else exists i: nat :: FirstNamed(models, None, name, i)
           && model == models[i].(id := if SameLetters(models[i].id, Trim(name)) then Trim(name) else models[i].id)
  }

  /** The model to fall back on: the provider's first, or else the first of all. */
  ghost predicate FallsBackTo(models: seq<ModelInfo>, provider: ProviderKind, model: ModelInfo) {
    if HasModel(models, provider) then exists i: nat :: FirstOf(models, provider, i) && model == models[i]
    else model == if models == [] then ModelInfo("deepseek-v4-pro", Deepseek, [], true, true) else models[0]
  }

  /** A named request finds a model unless Ollama is not the hint, the hint passes nothing through
      and no model of the registry has the name. */
  predicate Found(models: seq<ModelInfo>, name: string, hint: Option<ProviderKind>) {
    hint == Some(Ollama) || (hint.Some? && Passes(hint.value, name)) || AnyFits(models, None, name)
  }

  ghost predicate ResolvesTo(models: seq<ModelInfo>, requested: Option<string>, hint: Option<ProviderKind>, r: Resolution) {
    var provider := if hint.Some? then hint.value else Deepseek;
    && r.requested == requested
    && (r.usedFallback <==> requested.None? || !Found(models, requested.value, hint))
    && (if r.usedFallback then FallsBackTo(models, provider, r.resolved) else AnswersName(models, requested.value, hint, r.resolved))
    && r.chain == (if requested.Some? then [Requested(requested.value)] else [])
                + (if r.usedFallback then [ProviderDefault(provider)] else [])
                + (if r.usedFallback && !HasModel(models, provider) then [GlobalDefault] else [])
  }

  ghost predicate Infers(models: seq<ModelInfo>, configured: ProviderKind, name: string, provider: Option<ProviderKind>) {
    if configured == Ollama || AnyFits(models, Some(configured), name) || Passes(configured, name) then provider == Some(configured)
    else if AnyFits(models, None, name) then exists i: nat :: FirstNamed(models, None, name, i) && provider == Some(models[i].provider)
    else provider.None?
  }

  lemma {:induction false} FirstNamedOnce(models: seq<ModelInfo>, provider: Option<ProviderKind>, name: string, i: nat, j: nat)
    requires FirstNamed(models, provider, name, i) && FirstNamed(models, provider, name, j)
    ensures i == j
  {
  }

  /** The same but for the case of the id. */
  predicate Alike(one: ModelInfo, other: ModelInfo) {
    one == other.(id := one.id) && SameLetters(one.id, other.id)
  }

  lemma {:induction false} NamedAlike(model: ModelInfo, a: string, b: string)
    requires SameName(a, b)
    ensures Named(model, a) <==> Named(model, b)
  {
    NormalizeTells(a, b);
    MatchesIff(model, a);
    MatchesIff(model, b);
  }

  lemma {:induction false} PassesAlike(provider: ProviderKind, a: string, b: string)
    requires SameName(a, b)
    ensures Passes(provider, a) <==> Passes(provider, b)
    ensures Contains(Trim(a), "thinking") <==> Contains(Trim(b), "thinking")
  {
    PassesIff(provider, a);
    PassesIff(provider, b);
    LowerTells(Trim(a), Trim(b));
    assert Lower("thinking") == "thinking";
    ContainsIff(Trim(a), "thinking");
    ContainsIff(Trim(b), "thinking");
    var s, t := Trim(a), Trim(b);
    forall i | 0 <= i < |s| ensures IsControl(s[i]) <==> IsControl(t[i]) { assert SameLetter(s[i], t[i]); }
    forall i | 0 <= i < |s| ensures s[i] == '/' <==> t[i] == '/' { assert SameLetter(s[i], t[i]); }
  }

  lemma {:induction false} LettersSwap(s: string, t: string, u: string)
    ensures SameLetters(s, s)
    ensures SameLetters(s, t) <==> SameLetters(t, s)
    ensures SameLetters(s, t) && SameLetters(t, u) ==> SameLetters(s, u)
  {
    LowerTells(s, s);
    LowerTells(s, t);
    LowerTells(t, s);
    LowerTells(t, u);
    LowerTells(s, u);
  }

  lemma {:induction false} AnswersAlike(models: seq<ModelInfo>, hint: Option<ProviderKind>, a: string, b: string, one: ModelInfo, other: ModelInfo)
    requires SameName(a, b) && AnswersName(models, a, hint, one) && AnswersName(models, b, hint, other)
    ensures Alike(one, other)
  {
    forall model ensures Named(model, a) <==> Named(model, b) { NamedAlike(model, a, b); }
    if hint.Some? { PassesAlike(hint.value, a, b); }
    LettersSwap(Trim(a), Trim(b), Trim(b));
    if hint != Some(Ollama) && hint.Some? && AnyFits(models, hint, a) {
      var i: nat :| FirstNamed(models, hint, a, i) && one == models[i];
      var j: nat :| FirstNamed(models, hint, b, j) && other == models[j];
      FirstNamedOnce(models, hint, a, i, j);
      LettersSwap(one.id, one.id, one.id);
    } else if hint != Some(Ollama) && !(hint.Some? && Passes(hint.value, a)) {
      var i: nat :| FirstNamed(models, None, a, i) && one == models[i].(id := if SameLetters(models[i].id, Trim(a)) then Trim(a) else models[i].id);
      var j: nat :| FirstNamed(models, None, b, j) && other == models[j].(id := if SameLetters(models[j].id, Trim(b)) then Trim(b) else models[j].id);
      FirstNamedOnce(models, None, a, i, j);
      LettersSwap(models[i].id, Trim(a), Trim(b));
      LettersSwap(models[i].id, Trim(b), Trim(a));
    }
  }

  /** Case and outer white space of a name never matter: the same model up to the case of its id,
      the same provider, and the same word on fallback. */
  lemma {:induction false} ResolvesAlike(models: seq<ModelInfo>, hint: Option<ProviderKind>, a: string, b: string, one: Resolution, other: Resolution)
    requires SameName(a, b) && ResolvesTo(models, Some(a), hint, one) && ResolvesTo(models, Some(b), hint, other)
    ensures one.usedFallback == other.usedFallback && Alike(one.resolved, other.resolved)
  {
    forall model ensures Named(model, a) <==> Named(model, b) { NamedAlike(model, a, b); }
    if hint.Some? { PassesAlike(hint.value, a, b); }
    if one.usedFallback {
      LettersSwap(one.resolved.id, one.resolved.id, one.resolved.id);
      FallbackOnce(models, if hint.Some? then hint.value else Deepseek, one.resolved, other.resolved);
    } else {
      AnswersAlike(models, hint, a, b, one.resolved, other.resolved);
    }
  }

  lemma {:induction false} FallbackOnce(models: seq<ModelInfo>, provider: ProviderKind, one: ModelInfo, other: ModelInfo)
    requires FallsBackTo(models, provider, one) && FallsBackTo(models, provider, other)
    ensures one == other
  {
  }

  lemma {:induction false} InfersAlike(models: seq<ModelInfo>, configured: ProviderKind, a: string, b: string, one: Option<ProviderKind>, other: Option<ProviderKind>)
    requires SameName(a, b) && Infers(models, configured, a, one) && Infers(models, configured, b, other)
    ensures one == other
  {
    forall model ensures Named(model, a) <==> Named(model, b) { NamedAlike(model, a, b); }
    PassesAlike(configured, a, b);
    if one != Some(configured) && AnyFits(models, None, a) {
      var i: nat :| FirstNamed(models, None, a, i) && one == Some(models[i].provider);
      var j: nat :| FirstNamed(models, None, b, j) && other == Some(models[j].provider);
      FirstNamedOnce(models, None, a, i, j);
    }
  }

  /** In an index that agrees with the scan a name leads to the first model that goes by it, in any
      case, and is absent exactly when no model does. */
  lemma {:induction false} IndexIsFirstNamed(models: seq<ModelInfo>, index: map<string, nat>, name: string)
    requires Sound(models, index) && Covers(models, index, |models|)
    ensures Normalize(name) in index <==> AnyFits(models, None, name)
    ensures Normalize(name) in index ==> FirstNamed(models, None, name, index[Normalize(name)])
  {
    forall i | 0 <= i < |models| ensures AnswersTo(models[i], Normalize(name)) <==> Fits(models[i], None, name) {
      MatchesIff(models[i], name);
    }
  }

  /** So the model list determines the whole index. */
  lemma {:induction false} IndexIsDetermined(models: seq<ModelInfo>, one: map<string, nat>, other: map<string, nat>)
    requires Sound(models, one) && Covers(models, one, |models|)
    requires Sound(models, other) && Covers(models, other, |models|)
    ensures one == other
  {
    IndexIsWithin(models, one, other);
    IndexIsWithin(models, other, one);
  }

  lemma {:induction false} IndexIsWithin(models: seq<ModelInfo>, one: map<string, nat>, other: map<string, nat>)
    requires Sound(models, one) && Sound(models, other) && Covers(models, other, |models|)
    ensures forall key :: key in one ==> key in other && other[key] == one[key]
  {
    forall key | key in one ensures key in other && other[key] == one[key] {
      assert AnswersTo(models[one[key]], key);
    }
  }
}
