/** The Authority module of lib/authority.rb: predicate-name synthesis and the
    two enforcement entry points, and the process-wide state behind configure
    and abilities. */
module Authority {
  import opened Ruby
  import opened AuthorityConfiguration

  // ---------------------------------------------------------------------------
  // Dispatch: send becomes a lookup in a method table
  // ---------------------------------------------------------------------------

  /** The methods an object answers: name => the value it returns for an
      argument list. The predicates' own logic is an input to the model. */
  type PredicateTable = map<string, seq<Value> -> Value>

  /** The user's class, with its class-level methods. */
  datatype UserClass = UserClass(name: string, classMethods: PredicateTable)

  /** A user: its identity as a value, its instance methods and its class. */
  datatype User = User(self: Value, methods: PredicateTable, userClass: UserClass)

  /** The resource-scoped predicate for an action: can_<action>? */
  function CanName(action: string): string {
    "can_" + action + "?"
  }

  /** The class-level predicate for an action: authorizes_to_<action>? */
  function AuthorizesName(action: string): string {
    "authorizes_to_" + action + "?"
  }

  /** Distinct actions never share a predicate name. */
  lemma {:induction false} CanNameInjective(a: string, b: string)
    ensures CanName(a) == CanName(b) <==> a == b
  {
    if CanName(a) == CanName(b) {
      assert a == CanName(a)[4..|CanName(a)| - 1];
      assert b == CanName(b)[4..|CanName(b)| - 1];
    }
  }

  /** Distinct actions never share a class-level predicate name. */
  lemma {:induction false} AuthorizesNameInjective(a: string, b: string)
    ensures AuthorizesName(a) == AuthorizesName(b) <==> a == b
  {
    if AuthorizesName(a) == AuthorizesName(b) {
      assert a == AuthorizesName(a)[14..|AuthorizesName(a)| - 1];
      assert b == AuthorizesName(b)[14..|AuthorizesName(b)| - 1];
    }
  }

  /** Object#send on a method table: a missing method raises NoMethodError. */
  function Send(table: PredicateTable, name: string, args: seq<Value>): Result<Value, Failure> {
    if name in table then Ok(table[name](args)) else Err(NoMethodError(name))
  }

  /** The argument list a predicate receives: the first argument alone when
      there are no options, otherwise the first argument and Hash[*options]. */
  function PredicateArgs(first: Value, options: seq<Value>): (r: Result<seq<Value>, Failure>)
    ensures options == [] ==> r == Ok([first])
    ensures options != [] ==> (r.Ok? <==> HashFromArgs(options).Ok?)
    ensures r.Err? ==> r.error == ArgumentError(OddHashArguments)
    ensures r.Ok? && options != [] ==>
      |r.value| == 2 && r.value[0] == first && r.value[1].HashVal? &&
      UniqueKeys(r.value[1].entries) &&
      forall k :: Lookup(r.value[1].entries, k) ==
        if |options| == 1 then LastBinding(options[0].entries, k) else LastBinding(PairUp(options), k)
  {
    if options == [] then Ok([first])
    else
      var h :- HashFromArgs(options);
      Ok([first, HashVal(h)])
  }

  /** The usual call with one options hash: the predicate receives an equal
      copy of that hash, its pairs in the order given. */
  lemma {:induction false} PredicateArgsSingleHash(first: Value, h: seq<(Value, Value)>)
    requires UniqueKeys(h)
    ensures PredicateArgs(first, [HashVal(h)]) == Ok([first, HashVal(h)])
  {
    HashOfDistinct(h);
  }

  // ---------------------------------------------------------------------------
  // Enforcement
  // ---------------------------------------------------------------------------

  /** Authority.enforce: asks the user's can_<action>? about the resource;
      returns the resource if the answer is truthy and raises SecurityViolation
      otherwise. A malformed options list raises before any predicate is sought. */
  function Enforce(action: string, resource: Value, user: User, options: seq<Value>): (r: Result<Value, Failure>)
    ensures PredicateArgs(resource, options).Err? ==> r == Err(ArgumentError(OddHashArguments))
    ensures PredicateArgs(resource, options).Ok? ==>
      var args := PredicateArgs(resource, options).value;
      var name := CanName(action);
      && (name !in user.methods ==> r == Err(NoMethodError(name)))
      && (name in user.methods && Truthy(user.methods[name](args)) ==> r == Ok(resource))
      && (name in user.methods && !Truthy(user.methods[name](args)) ==>
            r == Err(SecurityViolation(user.self, action, resource)))
  {
    var args :- PredicateArgs(resource, options);
    var authorized :- Send(user.methods, CanName(action), args);
    if Truthy(authorized) then Ok(resource)
    else Err(SecurityViolation(user.self, action, resource))
  }

  /** Authority.enforce_custom: asks the user's CLASS, via authorizes_to_<action>?,
      about the user itself; returns the predicate's own truthy answer and raises
      SecurityViolation (still naming the resource) otherwise. */
  function EnforceCustom(action: string, resource: Value, user: User, options: seq<Value>): (r: Result<Value, Failure>)
    ensures PredicateArgs(user.self, options).Err? ==> r == Err(ArgumentError(OddHashArguments))
    ensures PredicateArgs(user.self, options).Ok? ==>
      var args := PredicateArgs(user.self, options).value;
      var name := AuthorizesName(action);
      var table := user.userClass.classMethods;
      && (name !in table ==> r == Err(NoMethodError(name)))
      && (name in table && Truthy(table[name](args)) ==> r == Ok(table[name](args)))
      && (name in table && !Truthy(table[name](args)) ==>
            r == Err(SecurityViolation(user.self, action, resource)))
  {
    var args :- PredicateArgs(user.self, options);
    var authorized :- Send(user.userClass.classMethods, AuthorizesName(action), args);
    if Truthy(authorized) then Ok(authorized)
    else Err(SecurityViolation(user.self, action, resource))
  }

  /** Whatever the predicates say, enforce can only return the resource, and
      enforce_custom can only return a truthy value. */
  lemma EnforceSuccessValues(action: string, resource: Value, user: User, options: seq<Value>)
    ensures Enforce(action, resource, user, options).Ok? ==>
      Enforce(action, resource, user, options).value == resource
    ensures EnforceCustom(action, resource, user, options).Ok? ==>
      Truthy(EnforceCustom(action, resource, user, options).value)
  {
  }

  /** Every exception either entry point raises is one of three: the odd-options
      ArgumentError, NoMethodError for the synthesized name, or the violation. */
  lemma EnforceFailures(action: string, resource: Value, user: User, options: seq<Value>)
    ensures Enforce(action, resource, user, options).Err? ==>
      Enforce(action, resource, user, options).error in
        {ArgumentError(OddHashArguments), NoMethodError(CanName(action)),
         SecurityViolation(user.self, action, resource)}
    ensures EnforceCustom(action, resource, user, options).Err? ==>
      EnforceCustom(action, resource, user, options).error in
        {ArgumentError(OddHashArguments), NoMethodError(AuthorizesName(action)),
         SecurityViolation(user.self, action, resource)}
  {
  }

  /** With options whose keys are all distinct, the predicate receives them as
      one hash holding exactly those pairs, in the order given. */
  lemma {:induction false} EnforceDistinctOptions(action: string, resource: Value, user: User, options: seq<Value>)
    requires options != [] && |options| % 2 == 0
    requires UniqueKeys(PairUp(options))
    requires CanName(action) in user.methods
    ensures PredicateArgs(resource, options) == Ok([resource, HashVal(PairUp(options))])
    ensures Enforce(action, resource, user, options).Ok? <==>
      Truthy(user.methods[CanName(action)]([resource, HashVal(PairUp(options))]))
  {
    HashOfDistinct(PairUp(options));
  }

  /** enforce_custom never hands the resource to the predicate: changing the
      resource changes only the resource named in a violation. */
  lemma EnforceCustomIgnoresResource(action: string, r1: Value, r2: Value, user: User, options: seq<Value>)
    ensures EnforceCustom(action, r2, user, options) ==
      match EnforceCustom(action, r1, user, options)
      case Err(SecurityViolation(u, a, _)) => Err(SecurityViolation(u, a, r2))
      case other => other
  {
  }

  /** The asymmetry of the two entry points: when both predicates answer true,
      enforce returns the resource and enforce_custom returns true. */
  lemma EnforceAsymmetry(action: string, resource: Value, user: User)
    requires CanName(action) in user.methods
    requires user.methods[CanName(action)]([resource]) == Bool(true)
    requires AuthorizesName(action) in user.userClass.classMethods
    requires user.userClass.classMethods[AuthorizesName(action)]([user.self]) == Bool(true)
    ensures Enforce(action, resource, user, []) == Ok(resource)
    ensures EnforceCustom(action, resource, user, []) == Ok(Bool(true))
  {
  }

  // ---------------------------------------------------------------------------
  // Process-wide state: the configuration singleton
  // ---------------------------------------------------------------------------

  /** The statements of a configure block; no block runs no statements. */
  function BlockStatements(block: Option<seq<Setting>>): seq<Setting> {
    if block.Some? then block.value else []
  }

  /** The state of the Authority module itself: its configuration accessor and
      whether the internal files have been required. */
  class Singleton {
    var configuration: Configuration?
    var internalsLoaded: bool

    ghost function Footprint(): set<object?>
      reads this, configuration
    {
      if configuration == null then {} else {configuration, configuration.abilities}
    }

    ghost predicate Valid()
      reads this, Footprint()
    {
      configuration != null ==> configuration.Valid()
    }

    /** Before configure: no configuration, nothing required. */
    constructor ()
      ensures Valid() && configuration == null && !internalsLoaded
    {
      configuration := null;
      internalsLoaded := false;
    }

    /** Authority.configuration=: replaces the singleton's configuration only. */
    method SetConfiguration(c: Configuration?)
      requires c != null ==> c.Valid()
      modifies this
      ensures Valid() && configuration == c && internalsLoaded == old(internalsLoaded)
    {
      configuration := c;
    }

    /** Authority.abilities: freezes the configuration's abilities hash in place
        and returns that same object; with no configuration yet, the call on nil
        raises NoMethodError. */
    method Abilities() returns (r: Result<Hash<string, string>, Failure>)
      requires Valid()
      modifies if configuration == null then {} else {configuration.abilities}
      ensures Valid() && configuration == old(configuration) && internalsLoaded == old(internalsLoaded)
      ensures configuration == null ==> r == Err(NoMethodError("abilities"))
      ensures configuration != null ==>
        && configuration.abilities == old(configuration.abilities)
        && r == Ok(configuration.abilities)
        && configuration.State() == old(configuration.State()).(abilitiesFrozen := true)
    {
      if configuration == null {
        r := Err(NoMethodError("abilities"));
      } else {
        configuration.abilities.Freeze();
        r := Ok(configuration.abilities);
      }
    }

    /** Authority.verbs: the abilities' keys in insertion order, freezing the hash. */
    method Verbs() returns (r: Result<seq<string>, Failure>)
      requires Valid()
      modifies if configuration == null then {} else {configuration.abilities}
      ensures Valid() && configuration == old(configuration) && internalsLoaded == old(internalsLoaded)
      ensures configuration == null ==> r == Err(NoMethodError("abilities"))
      ensures configuration != null ==>
        && configuration.abilities == old(configuration.abilities)
        && configuration.State() == old(configuration.State()).(abilitiesFrozen := true)
        && r == Ok(Keys(configuration.abilities.entries))
    {
      var h := Abilities();
      if h.Err? {
        r := Err(h.error);
      } else {
        r := Ok(Keys(h.value.entries));
      }
    }

    /** Authority.adjectives: the abilities' values in insertion order, freezing the hash. */
    method Adjectives() returns (r: Result<seq<string>, Failure>)
      requires Valid()
      modifies if configuration == null then {} else {configuration.abilities}
      ensures Valid() && configuration == old(configuration) && internalsLoaded == old(internalsLoaded)
      ensures configuration == null ==> r == Err(NoMethodError("abilities"))
      ensures configuration != null ==>
        && configuration.abilities == old(configuration.abilities)
        && configuration.State() == old(configuration.State()).(abilitiesFrozen := true)
        && r == Ok(Values(configuration.abilities.entries))
    {
      var h := Abilities();
      if h.Err? {
        r := Err(h.error);
      } else {
        r := Ok(Values(h.value.entries));
      }
    }

    /** Reading the vocabulary and then storing into the hash it returned fails:
        the hash is frozen and keeps its entries. */
    method StoreAfterRead(verb: string, adjective: string) returns (r: Result<string, Failure>)
      requires Valid() && configuration != null
      modifies configuration.abilities
      ensures Valid() && configuration == old(configuration)
      ensures r == Err(FrozenError)
      ensures configuration.abilities.entries == old(configuration.abilities.entries)
    {
      var h := Abilities();
      r := h.value.Store(verb, adjective);
    }

    /** require_authority_internals!: require loads its files only once, so
        the first call loads (and answers true) and every later one is a no-op. */
    method RequireInternals() returns (loaded: bool)
      modifies this
      ensures internalsLoaded && configuration == old(configuration)
      ensures loaded == !old(internalsLoaded)
    {
      loaded := !internalsLoaded;
      internalsLoaded := true;
    }

    /** Authority.configure: creates the Configuration only if there is none,
        runs the block against it, requires the internals and returns the same
        object. An exception from the block propagates before the internals
        are required. */
    method Configure(block: Option<seq<Setting>>) returns (r: Result<Configuration, Failure>, ghost loadedNow: bool)
      requires Valid()
      modifies this, Footprint()
      ensures Valid() && configuration != null
      ensures fresh(Footprint() - old(Footprint()))
      ensures old(configuration) != null ==> configuration == old(configuration)
      ensures old(configuration) == null ==> fresh(configuration)
      ensures ApplyBlock(if old(configuration) == null then InitialState() else old(configuration.State()),
                         BlockStatements(block))
              == Applied(configuration.State(), if r.Ok? then None else Some(r.error))
      ensures r.Ok? ==> r.value == configuration && internalsLoaded
      ensures r.Err? ==> internalsLoaded == old(internalsLoaded)
      ensures loadedNow == (r.Ok? && !old(internalsLoaded))
    {
      loadedNow := false;
      if configuration == null {
        configuration := new Configuration();
      }
      var failure: Option<Failure> := None;
      if block.Some? {
        failure := configuration.Apply(block.value);
      }
      if failure.Some? {
        r := Err(failure.value);
      } else {
        var loaded := RequireInternals();
        loadedNow := loaded;
        r := Ok(configuration);
      }
    }
  }

  /** Two configure calls: the second reuses the first's object and does not
      load the internals again. */
  method ConfigureTwice(a: Singleton, first: Option<seq<Setting>>, second: Option<seq<Setting>>)
    returns (r1: Result<Configuration, Failure>, r2: Result<Configuration, Failure>, ghost secondLoaded: bool)
    requires a.Valid()
    modifies a, a.Footprint()
    ensures r1.Ok? && r2.Ok? ==> r1.value == r2.value
    ensures r1.Ok? ==> a.internalsLoaded && !secondLoaded
  {
    ghost var firstLoaded;
    r1, firstLoaded := a.Configure(first);
    r2, secondLoaded := a.Configure(second);
  }
}
