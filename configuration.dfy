/** Authority::Configuration: the settings object that configure hands to the
    caller's block. Its defaults come from lib/authority/configuration.rb. */
module AuthorityConfiguration {
  import opened Ruby

  /** A default strategy is a block called with (able, authorizer, user); its
      result is read for truthiness. */
  type Strategy = (Value, Value, Value) -> Value

  /** The built-in strategy: deny every request. */
  function DenyAll(able: Value, authorizer: Value, user: Value): Value {
    Bool(false)
  }

  /** The default vocabulary, verb => adjective, in this order. */
  function DefaultAbilities(): seq<(string, string)> {
    [("create", "creatable"), ("read", "readable"), ("update", "updatable"), ("delete", "deletable")]
  }

  /** The default controller action aliases, action => verb name, in this order. */
  function DefaultAuthorityActions(): seq<(string, string)> {
    [("index", "read"), ("show", "read"), ("new", "create"), ("create", "create"),
     ("edit", "update"), ("update", "update"), ("destroy", "delete")]
  }

  const DefaultUserMethod := "current_user"

  /** The observable contents of a Configuration: its four modelled fields, with
      the abilities hash given by its entries and whether it is frozen. */
  datatype ConfigState = ConfigState(
    defaultStrategy: Strategy,
    abilities: seq<(string, string)>,
    abilitiesFrozen: bool,
    authorityActions: seq<(string, string)>,
    authorityActionsFrozen: bool,
    userMethod: string)

  /** What Configuration.new holds. */
  function InitialState(): ConfigState {
    ConfigState(DenyAll, DefaultAbilities(), false, DefaultAuthorityActions(), false, DefaultUserMethod)
  }

  /** One statement of a configure block, all through the attr_accessor
      interface: assigning a field, or storing into one of the two hashes in
      place; or an exception the block raises itself. A hash assigned to
      abilities= or authority_actions= holds the given pairs and may already
      be frozen (a frozen constant, say). */
  datatype Setting =
    | SetDefaultStrategy(strategy: Strategy)
    | SetAbilities(pairs: seq<(string, string)>, frozen: bool)
    | StoreAbility(verb: string, adjective: string)
    | SetAuthorityActions(actions: seq<(string, string)>, frozen: bool)
    | StoreAuthorityAction(action: string, verbName: string)
    | SetUserMethod(name: string)
    | Raise(error: Failure)

  /** The effect of one statement: either the new contents, or the exception it raises. */
  function Step(s: ConfigState, setting: Setting): (r: Result<ConfigState, Failure>)
    ensures r.Err? <==>
      || (setting.StoreAbility? && s.abilitiesFrozen)
      || (setting.StoreAuthorityAction? && s.authorityActionsFrozen)
      || setting.Raise?
    ensures r.Err? ==> r.error == if setting.Raise? then setting.error else FrozenError
    ensures r.Ok? && setting.SetDefaultStrategy? ==> r.value.defaultStrategy == setting.strategy
    ensures r.Ok? && !setting.SetDefaultStrategy? ==> r.value.defaultStrategy == s.defaultStrategy
    ensures r.Ok? && setting.SetAbilities? ==>
      && (forall k :: Lookup(r.value.abilities, k) == LastBinding(setting.pairs, k))
      && (UniqueKeys(setting.pairs) ==> r.value.abilities == setting.pairs)
      && r.value.abilitiesFrozen == setting.frozen
    ensures setting.StoreAbility? && !s.abilitiesFrozen ==>
      r == Ok(s.(abilities := Put(s.abilities, setting.verb, setting.adjective)))
    ensures r.Ok? && !setting.SetAbilities? && !setting.StoreAbility? ==>
      r.value.abilities == s.abilities && r.value.abilitiesFrozen == s.abilitiesFrozen
    ensures r.Ok? && setting.SetAuthorityActions? ==>
      && (forall k :: Lookup(r.value.authorityActions, k) == LastBinding(setting.actions, k))
      && (UniqueKeys(setting.actions) ==> r.value.authorityActions == setting.actions)
      && r.value.authorityActionsFrozen == setting.frozen
    ensures setting.StoreAuthorityAction? && !s.authorityActionsFrozen ==>
      r == Ok(s.(authorityActions := Put(s.authorityActions, setting.action, setting.verbName)))
    ensures r.Ok? && !setting.SetAuthorityActions? && !setting.StoreAuthorityAction? ==>
      r.value.authorityActions == s.authorityActions && r.value.authorityActionsFrozen == s.authorityActionsFrozen
    ensures r.Ok? && setting.SetUserMethod? ==> r.value.userMethod == setting.name
    ensures r.Ok? && !setting.SetUserMethod? ==> r.value.userMethod == s.userMethod
  {
    match setting
    case SetDefaultStrategy(f) => Ok(s.(defaultStrategy := f))
    case SetAbilities(pairs, frozen) =>
      HashOfFacts(pairs);
      Ok(s.(abilities := HashOf(pairs), abilitiesFrozen := frozen))
    case StoreAbility(verb, adjective) =>
      if s.abilitiesFrozen then Err(FrozenError)
      else Ok(s.(abilities := Put(s.abilities, verb, adjective)))
    case SetAuthorityActions(actions, frozen) =>
      HashOfFacts(actions);
      Ok(s.(authorityActions := HashOf(actions), authorityActionsFrozen := frozen))
    case StoreAuthorityAction(action, verbName) =>
      if s.authorityActionsFrozen then Err(FrozenError)
      else Ok(s.(authorityActions := Put(s.authorityActions, action, verbName)))
    case SetUserMethod(name) => Ok(s.(userMethod := name))
    case Raise(e) => Err(e)
  }

  /** The contents after a block has run, and the exception that stopped it, if any. */
  datatype Applied = Applied(state: ConfigState, failure: Option<Failure>)

  /** Running a block: its statements in order, stopping at the first that raises. */
  function ApplyBlock(s: ConfigState, block: seq<Setting>): Applied
    decreases |block|
  {
    if block == [] then Applied(s, None)
    else
      match Step(s, block[0])
      case Ok(s') => ApplyBlock(s', block[1..])
      case Err(e) => Applied(s, Some(e))
  }

  /** Once the abilities hash is frozen, a block that stores into it in
      place raises FrozenError and leaves the vocabulary unchanged (unless an
      earlier statement replaces the hash or raises first). */
  lemma {:induction false} FrozenAbilitiesRejectStore(s: ConfigState, block: seq<Setting>, i: nat)
    requires i < |block| && block[i].StoreAbility?
    requires s.abilitiesFrozen
    requires forall j :: 0 <= j < i ==> !block[j].SetAbilities? && !block[j].Raise?
    decreases i
    ensures ApplyBlock(s, block).failure == Some(FrozenError)
    ensures ApplyBlock(s, block).state.abilities == s.abilities
  {
    if i > 0 {
      match Step(s, block[0])
      case Ok(s') =>
        assert block[1..][i - 1] == block[i];
        FrozenAbilitiesRejectStore(s', block[1..], i - 1);
      case Err(e) =>
    }
  }

  /** Likewise for a frozen authority_actions hash: a block that stores into
      it raises FrozenError and leaves the aliases unchanged (unless an
      earlier statement replaces the hash or raises first). */
  lemma {:induction false} FrozenAuthorityActionsRejectStore(s: ConfigState, block: seq<Setting>, i: nat)
    requires i < |block| && block[i].StoreAuthorityAction?
    requires s.authorityActionsFrozen
    requires forall j :: 0 <= j < i ==> !block[j].SetAuthorityActions? && !block[j].Raise?
    decreases i
    ensures ApplyBlock(s, block).failure == Some(FrozenError)
    ensures ApplyBlock(s, block).state.authorityActions == s.authorityActions
  {
    if i > 0 {
      match Step(s, block[0])
      case Ok(s') =>
        assert block[1..][i - 1] == block[i];
        FrozenAuthorityActionsRejectStore(s', block[1..], i - 1);
      case Err(e) =>
    }
  }

  /** Default contents: the vocabulary has the four verbs in order with their
      adjectives and no verb twice, and every alias targets one of those verbs. */
  lemma DefaultAbilitiesShape()
    ensures Keys(DefaultAbilities()) == ["create", "read", "update", "delete"]
    ensures Values(DefaultAbilities()) == ["creatable", "readable", "updatable", "deletable"]
    ensures UniqueKeys(DefaultAbilities())
  {
  }

  /** The seven default aliases, and each target is one of the default verbs. */
  lemma DefaultAuthorityActionsShape()
    ensures |DefaultAuthorityActions()| == 7
    ensures UniqueKeys(DefaultAuthorityActions())
    ensures Keys(DefaultAuthorityActions()) == ["index", "show", "new", "create", "edit", "update", "destroy"]
    ensures Values(DefaultAuthorityActions()) == ["read", "read", "create", "create", "update", "update", "delete"]
    ensures forall i :: 0 <= i < 7 ==> DefaultAuthorityActions()[i].1 in Keys(DefaultAbilities())
  {
    DefaultAbilitiesShape();
  }

  /** The default strategy answers false, so denies, for every (able, authorizer, user) triple. */
  lemma DenyAllDenies(able: Value, authorizer: Value, user: Value)
    ensures DenyAll(able, authorizer, user) == Bool(false)
    ensures !Truthy(DenyAll(able, authorizer, user))
  {
  }

  class Configuration {
    var defaultStrategy: Strategy
    var abilities: Hash<string, string>
    var authorityActions: seq<(string, string)>
    var authorityActionsFrozen: bool
    var userMethod: string

    ghost predicate Valid()
      reads this, abilities
    {
      abilities.Valid() && UniqueKeys(authorityActions)
    }

    ghost function State(): ConfigState
      reads this, abilities
    {
      ConfigState(defaultStrategy, abilities.entries, abilities.frozen, authorityActions, authorityActionsFrozen, userMethod)
    }

    /** Configuration.new: the defaults, with a fresh unfrozen abilities hash. */
    constructor ()
      ensures Valid() && fresh(abilities)
      ensures State() == InitialState()
    {
      defaultStrategy := DenyAll;
      abilities := new Hash(DefaultAbilities());
      authorityActions := DefaultAuthorityActions();
      authorityActionsFrozen := false;
      userMethod := DefaultUserMethod;
      new;
      DefaultAbilitiesShape();
      DefaultAuthorityActionsShape();
    }

    /** default_strategy=: replaces that field only. */
    method SetDefaultStrategy(f: Strategy)
      modifies this
      ensures abilities == old(abilities)
      ensures State() == old(State()).(defaultStrategy := f)
    {
      defaultStrategy := f;
    }

    /** abilities=: points the field at another hash object (frozen or not);
        nothing else changes. */
    method SetAbilities(h: Hash<string, string>)
      modifies this
      ensures abilities == h
      ensures defaultStrategy == old(defaultStrategy) && authorityActions == old(authorityActions)
      ensures authorityActionsFrozen == old(authorityActionsFrozen)
      ensures userMethod == old(userMethod)
    {
      abilities := h;
    }

    /** authority_actions=: points the field at a hash holding the given
        pairs, frozen or not; nothing else changes. A Ruby Hash never holds a
        key twice, so the pairs are taken through a hash literal. */
    method SetAuthorityActions(actions: seq<(string, string)>, frozen: bool)
      modifies this
      ensures abilities == old(abilities)
      ensures UniqueKeys(authorityActions)
      ensures State() == old(State()).(authorityActions := HashOf(actions), authorityActionsFrozen := frozen)
    {
      authorityActions := HashOf(actions);
      authorityActionsFrozen := frozen;
      HashOfUnique(actions);
    }

    /** authority_actions[action] = verb_name: raises FrozenError on a frozen
        hash and changes nothing; otherwise stores the pair and returns the verb name. */
    method StoreAuthorityAction(action: string, verbName: string) returns (r: Result<string, Failure>)
      requires UniqueKeys(authorityActions)
      modifies this
      ensures abilities == old(abilities)
      ensures UniqueKeys(authorityActions)
      ensures old(authorityActionsFrozen) ==> r == Err(FrozenError) && State() == old(State())
      ensures !old(authorityActionsFrozen) ==>
        r == Ok(verbName) && State() == old(State()).(authorityActions := Put(old(authorityActions), action, verbName))
    {
      if authorityActionsFrozen {
        r := Err(FrozenError);
      } else {
        PutUnique(authorityActions, action, verbName);
        authorityActions := Put(authorityActions, action, verbName);
        r := Ok(verbName);
      }
    }

    /** user_method=: replaces that field only. */
    method SetUserMethod(name: string)
      modifies this
      ensures abilities == old(abilities)
      ensures State() == old(State()).(userMethod := name)
    {
      userMethod := name;
    }

    /** Runs one block statement against this object. */
    method Run(setting: Setting) returns (failure: Option<Failure>)
      requires Valid()
      modifies this, abilities
      ensures Valid()
      ensures abilities == old(abilities) || fresh(abilities)
      ensures match Step(old(State()), setting)
        case Ok(s) => failure.None? && State() == s
        case Err(e) => failure == Some(e) && State() == old(State())
    {
      failure := None;
      match setting
      case SetDefaultStrategy(f) =>
        SetDefaultStrategy(f);
      case SetAbilities(pairs, frozen) =>
        var h := new Hash(pairs);
        if frozen { h.Freeze(); }
        HashOfUnique(pairs);
        SetAbilities(h);
      case StoreAbility(verb, adjective) =>
        var r := abilities.Store(verb, adjective);
        if r.Err? { failure := Some(r.error); }
      case SetAuthorityActions(actions, frozen) =>
        SetAuthorityActions(actions, frozen);
      case StoreAuthorityAction(action, verbName) =>
        var r := StoreAuthorityAction(action, verbName);
        if r.Err? { failure := Some(r.error); }
      case SetUserMethod(name) =>
        SetUserMethod(name);
      case Raise(e) =>
        failure := Some(e);
    }

    /** yield(configuration): runs the block's statements in order; the first
        exception stops the block and is returned. */
    method Apply(block: seq<Setting>) returns (failure: Option<Failure>)
      requires Valid()
      modifies this, abilities
      ensures Valid()
      ensures abilities == old(abilities) || fresh(abilities)
      ensures ApplyBlock(old(State()), block) == Applied(State(), failure)
    {
      failure := None;
      var i := 0;
      while i < |block| && failure.None?
        invariant 0 <= i <= |block|
        invariant Valid()
        invariant abilities == old(abilities) || fresh(abilities)
        invariant failure.None? ==> ApplyBlock(old(State()), block) == ApplyBlock(State(), block[i..])
        invariant failure.Some? ==> ApplyBlock(old(State()), block) == Applied(State(), failure)
      {
        assert block[i..][0] == block[i] && block[i..][1..] == block[i + 1..];
        failure := Run(block[i]);
        i := i + 1;
      }
    }
  }
}
