# Authority: capability resolution, modelled in Dafny

This project models the core of the Authority gem. That core does four things:

- It keeps an ordered verb => adjective vocabulary on a process-wide `Configuration`.
- It freezes that vocabulary the first time `Authority.abilities` reads it.
- It turns an action into a predicate name: `can_<action>?` on the user, or `authorizes_to_<action>?` on the user's class.
- It turns the predicate's answer into a returned value or a raised `SecurityViolation`.

Files:

- `ruby.dfy` (module `Ruby`): the Ruby semantics the core depends on.
  - Values, and truthiness: only `nil` and `false` are falsey.
  - The exceptions the core raises or lets through.
  - `Hash` as an insertion-ordered association list (`Keys`, `Values`, `Lookup`, `Put`, `HashOf`, and `Hash[*args]` as `HashFromArgs`).
  - A `Hash` class whose `entries` change in place unless it is `frozen`.
- `configuration.dfy` (module `AuthorityConfiguration`): `Configuration#initialize` and its defaults, and the `attr_accessor` writers.
  - The block given to `configure` is a list of `Setting` statements, each an accessor assignment or an in-place store into one of the two hashes.
  - `ApplyBlock` is the meaning of such a block. `Configuration.Apply` runs it against the object, one statement at a time.
- `authority.dfy` (module `Authority`): predicate-name synthesis, `enforce`, `enforce_custom`, and the `Singleton` class.
  - `Singleton` holds the module's `configuration` accessor and an `internalsLoaded` flag for `require_authority_internals!`.

Dynamic dispatch is modelled as a lookup. `user.send(name, *args)` finds `name` in the user's method table (`User.methods`). `user.class.send(...)` uses the class's table (`UserClass.classMethods`). A missing name raises `NoMethodError`, which propagates unchanged. The predicates' bodies are inputs: each table maps a method name to a function from the argument list to a value.

Behaviour of the code worth knowing:

- `lib/authority/configuration.rb:18-26` has seven action aliases.
- Freezing applies to the hash object. Later in-place stores (`abilities[:x] = ...`) raise `FrozenError`. The `abilities=` and `authority_actions=` writers can still point the configuration at another hash, frozen or not (`Configuration.SetAbilities`, `Configuration.SetAuthorityActions`, `Step`); a later store raises exactly when that hash is frozen.
- A Ruby hash cannot hold a key twice: in a literal the later binding wins, and the key keeps its first position (`Put`, `HashOf`).
- `enforce_custom` returns the predicate's raw truthy value, which need not be `true`.
- `verbs` and `adjectives` return fresh arrays, so adding to or removing from them does not reach the hash. Their elements are the hash's own objects, though (see "## Left out").
- A configure block may raise an exception of its own (`Setting.Raise`). It propagates out of `configure`, and the internals are not required.

## Model

| member | source | states |
|---|---|---|
| `Ruby.HashFromArgs` | lib/authority.rb:37 | `Hash[*options]`: one hash argument is copied; otherwise the arguments pair up into keys and values. An odd count raises ArgumentError, and that is exactly the failing case. The result has unique keys, and each key is bound to the value of its last pair. |
| `Ruby.FlattenPairUp` | lib/authority.rb:37 | Pairing up an even flat options list and spreading it out again gives the list back. |
| `Ruby.PairUpFlatten` | lib/authority.rb:37 | Spreading key/value pairs out as a flat list gives twice as many arguments, and `Hash[*args]`'s pairing gets exactly those pairs back. |
| `Ruby.LookupKeys` | lib/authority.rb:18-20 | A key is bound in a hash exactly when it is among the hash's `keys`, so `verbs` lists exactly the verbs the vocabulary binds. |
| `Ruby.KeysValuesAligned` | lib/authority.rb:17-25 | `keys` and `values` have one entry per pair. Entry i of `values` is the value the hash binds to entry i of `keys`. |
| `Ruby.PutKeys` | lib/authority/configuration.rb:4 | Storing into a hash keeps insertion order: an existing key keeps its place and a new key goes last. |
| `Ruby.HashOfDistinct` | lib/authority/configuration.rb:11-26 | A hash literal without repeated keys holds exactly its pairs, in the order written. |
| `Ruby.Hash.constructor` | lib/authority/configuration.rb:11-16 | A hash literal builds a fresh, unfrozen hash with unique keys, each bound to the value of its last pair; without repeated keys it holds exactly the pairs written, in order. |
| `Ruby.Hash.Freeze` | lib/authority.rb:13-15 | `freeze` sets the frozen flag and leaves the entries unchanged. Freezing again changes nothing. |
| `Ruby.Hash.Store` | lib/authority.rb:10-15 | An in-place store into a frozen hash raises FrozenError and changes nothing. Otherwise it stores the pair and keeps the keys unique. |
| `AuthorityConfiguration.DefaultAbilitiesShape` | lib/authority/configuration.rb:11-16 | The default verbs are create, read, update, delete, in that order. The adjectives are creatable, readable, updatable, deletable. No verb appears twice. |
| `AuthorityConfiguration.DefaultAuthorityActionsShape` | lib/authority/configuration.rb:18-26 | There are seven default aliases, index, show, new, create, edit, update, destroy, in that order. Their targets are read, read, create, create, update, update, delete, in that order, each one of the default verbs. |
| `AuthorityConfiguration.DenyAllDenies` | lib/authority/configuration.rb:7-9 | The default strategy returns `false`, so it denies, for every (able, authorizer, user) triple. |
| `AuthorityConfiguration.Step` | lib/authority/configuration.rb:4 | A block statement raises only when it stores into a frozen `abilities` or `authority_actions` hash (FrozenError) or raises an exception of its own (that exception). Assigning `abilities=` installs a hash with the given bindings, exactly the given pairs when no key repeats, and frozen exactly when the assigned hash is (a fresh literal is not, a frozen constant is). A store into an unfrozen abilities hash adds the pair by `Put`. Assigning `authority_actions=` likewise installs the given bindings, frozen exactly when the assigned hash is, and a store into it when unfrozen adds the pair by `Put`. Each other assignment gives its field the given value. Every field the statement does not name is unchanged. |
| `AuthorityConfiguration.FrozenAbilitiesRejectStore` | lib/authority.rb:10-15 | Once the abilities hash is frozen, a block that stores into it raises FrozenError and leaves the vocabulary unchanged, unless an earlier statement replaces the hash or raises. |
| `AuthorityConfiguration.FrozenAuthorityActionsRejectStore` | lib/authority/configuration.rb:4 | Likewise, once an assigned `authority_actions` hash is frozen, a block that stores into it raises FrozenError and leaves the aliases unchanged, unless an earlier statement replaces that hash or raises. |
| `AuthorityConfiguration.Configuration.constructor` | lib/authority/configuration.rb:6-29 | A new configuration holds the deny-all strategy, the four default abilities in a fresh unfrozen hash, the seven aliases and `current_user`. |
| `AuthorityConfiguration.Configuration.SetDefaultStrategy` | lib/authority/configuration.rb:4 | `default_strategy=` replaces that field and nothing else. |
| `AuthorityConfiguration.Configuration.SetAbilities` | lib/authority/configuration.rb:4 | `abilities=` points the field at the given hash object and leaves the other fields unchanged. |
| `AuthorityConfiguration.Configuration.SetAuthorityActions` | lib/authority/configuration.rb:4 | `authority_actions=` installs a hash with the given bindings (unique keys), frozen or not as given, and changes nothing else. |
| `AuthorityConfiguration.Configuration.StoreAuthorityAction` | lib/authority/configuration.rb:4 | `authority_actions[action] = verb` raises FrozenError and changes nothing when that hash is frozen. Otherwise it stores the pair by `Put`, keeps the keys unique, and returns the verb name. |
| `AuthorityConfiguration.Configuration.SetUserMethod` | lib/authority/configuration.rb:4 | `user_method=` replaces that field and nothing else. |
| `AuthorityConfiguration.Configuration.Run` | lib/authority/configuration.rb:4 | Running one block statement on the object gives exactly the contents, or the exception, that `Step` describes. |
| `AuthorityConfiguration.Configuration.Apply` | lib/authority.rb:61 | `yield(configuration)` runs the block's statements in order and stops at the first exception. The final contents and the exception are those of `ApplyBlock`. |
| `Authority.CanNameInjective` | lib/authority.rb:35-37 | `can_<action>?` names are equal only for equal actions. |
| `Authority.AuthorizesNameInjective` | lib/authority.rb:46-48 | `authorizes_to_<action>?` names are equal only for equal actions. |
| `Authority.PredicateArgs` | lib/authority.rb:34-38 | The predicate receives the first argument alone when there are no options. Otherwise it receives the first argument and a hash built by `Hash[*options]` (unique keys, each bound to its last value), or the call raises ArgumentError when that fails. |
| `Authority.Enforce` | lib/authority.rb:33-42 | A malformed options list raises ArgumentError before any predicate is looked up. A missing `can_<action>?` raises NoMethodError. A truthy answer on exactly the resource (and the options hash) returns the resource. A falsey answer raises SecurityViolation(user, action, resource). |
| `Authority.EnforceCustom` | lib/authority.rb:44-53 | Asks `authorizes_to_<action>?` on the user's class, with the user as first argument. It returns the predicate's own truthy answer. A falsey answer raises SecurityViolation(user, action, resource). Malformed options and missing methods are handled as in `enforce`. |
| `Authority.EnforceSuccessValues` | lib/authority.rb:39-52 | `enforce` can only return the resource, and `enforce_custom` can only return a truthy value. |
| `Authority.EnforceFailures` | lib/authority.rb:33-53 | Each entry point raises only one of three exceptions: the odd-options ArgumentError, NoMethodError for its synthesized name, or SecurityViolation(user, action, resource). |
| `Authority.PredicateArgsSingleHash` | lib/authority.rb:37 | With a single options hash (the usual call), the predicate receives the first argument and an equal copy of that hash, its pairs in the order given. |
| `Authority.EnforceDistinctOptions` | lib/authority.rb:37 | When the option keys are distinct, the predicate receives the resource and exactly those pairs, in order, as one hash. |
| `Authority.EnforceCustomIgnoresResource` | lib/authority.rb:45-50 | `enforce_custom` never passes the resource to the predicate. Changing the resource changes only the resource field of a SecurityViolation; every other outcome (returned value, ArgumentError, NoMethodError) is identical. |
| `Authority.EnforceAsymmetry` | lib/authority.rb:39-52 | When both predicates answer true, `enforce` returns the resource and `enforce_custom` returns true. |
| `Authority.Singleton.constructor` | lib/authority.rb:55-57 | Before `configure` there is no configuration and no internals are loaded. |
| `Authority.Singleton.SetConfiguration` | lib/authority.rb:55-57 | `configuration=` replaces the configuration and leaves the internals flag unchanged. |
| `Authority.Singleton.Abilities` | lib/authority.rb:13-15 | Freezes the configuration's abilities hash and returns that same object. The entries and every other field are unchanged. With no configuration it raises NoMethodError. |
| `Authority.Singleton.Verbs` | lib/authority.rb:18-20 | Returns the ability keys in insertion order and leaves the hash frozen with its contents unchanged. |
| `Authority.Singleton.Adjectives` | lib/authority.rb:23-25 | Returns the ability values in insertion order and leaves the hash frozen with its contents unchanged. |
| `Authority.Singleton.StoreAfterRead` | lib/authority.rb:10-15 | After the vocabulary is read, storing into the returned hash raises FrozenError and leaves the entries unchanged. |
| `Authority.Singleton.RequireInternals` | lib/authority.rb:69-73 | The first call loads the internal files and reports it. Every later call is a no-op that reports false. The flag stays set. |
| `Authority.Singleton.Configure` | lib/authority.rb:59-65 | Creates a Configuration only when none exists, and otherwise keeps the same object. It runs the block against it with the result `ApplyBlock` gives. It then marks the internals loaded and returns that object. It reports a real load (`loadedNow`) exactly when it succeeds and the internals were not loaded before. If the block raises, the exception propagates and the internals are not required. |
| `Authority.ConfigureTwice` | lib/authority.rb:59-73 | After a successful first `configure`, a second one returns the same object and does not load the internals again (its `loadedNow` is false). |

## Left out

- The logger default (lib/authority/configuration.rb:30) depends on whether Rails is loaded and on STDERR. It is environment and I/O, so the `logger` accessor is not modelled.
- The files loaded by `require` (authority/abilities, authorizer, user_abilities, controller, railtie, version, security_violation) are not part of this model. Requiring the internals is modelled only as the one-shot `internalsLoaded` flag.
- SecurityViolation is modelled by its three fields. Its message text is not modelled.
- The ActiveSupport and logger requires at lib/authority.rb:1-5 are library loading with no logic of their own.
- The predicates' bodies, and any exception a predicate raises itself, are not modelled. A predicate is an input function from its arguments to a value. Only a missing predicate (NoMethodError) is modelled as a failure of the call.
- Thread safety of the process-wide configuration is not modelled. The model is sequential.
- `Hash[]` with a single array-of-pairs argument is not modelled: the model has no array value. Only the flat key/value list and the single-hash copy are modelled.
- `Authority.Singleton.SetConfiguration`: does not model assigning something other than a Configuration or nil. Ruby would accept any object there.
- AuthorityConfiguration.Setting: a block is limited to the six accessor statements and raising an exception. It cannot reassign `Authority.configuration` from inside the block (lib/authority.rb:64 would then return the new object), call other in-place Hash mutators such as `delete` or `merge!`, or assign a non-Hash to `abilities=`. A Hash assigned to `abilities=` or `authority_actions=` is modelled by its pairs and whether it is frozen; a Hash object shared with other code, whose later changes would show through the configuration, is not modelled. The `authority_actions` hash is held as a value with a frozen flag, not as a `Hash` object, so its identity is not modelled either.
- `Hash#freeze` (lib/authority.rb:14) is shallow: it stops changes to the hash's bindings only. The adjective strings (lib/authority/configuration.rb:12-15) stay mutable in Ruby, and `values` returns those same objects, so `Authority.adjectives.first << "x"` changes the vocabulary. The model treats every string as an immutable value, so it cannot express such a change.
- Action names, verbs, adjectives and the keys of the two configuration tables are modelled as strings, so a symbol there and the string of its name are not told apart. Option hashes keep them apart (`Value.Sym` and `Value.Str`).
