/** Sequences of invocations of `HelloContract`, and what holds across them:
    the global counter counts successful greetings until a reset, each
    address's records move only with its own greetings, initialization
    happens once, only the admin reconfigures the contract, and every TTL
    extension ever issued is one of the two the contract uses. */
module Runs {
  import opened Types
  import opened Storage
  import opened Semantics

  /** One external invocation of a mutating entry point. */
  datatype Call =
    | InitializeCall(admin: Address)
    | HelloCall(usuario: Address, nombre: Name)
    | ResetContadorCall(caller: Address)
    | TransferAdminCall(caller: Address, nuevoAdmin: Address)
    | SetLimiteCall(caller: Address, limite: uint32)

  /** The store after `c`. */
  function Perform(s: Store, c: Call): Store {
    match c
    case InitializeCall(a) => Initialize(s, a).store
    case HelloCall(u, n) => Hello(s, u, n).store
    case ResetContadorCall(a) => ResetContador(s, a).store
    case TransferAdminCall(a, b) => TransferAdmin(s, a, b).store
    case SetLimiteCall(a, l) => SetLimite(s, a, l).store
  }

  /** The TTL extensions `c` issues. */
  function Extended(s: Store, c: Call): seq<Extension> {
    match c
    case InitializeCall(a) => Initialize(s, a).extended
    case HelloCall(u, n) => Hello(s, u, n).extended
    case ResetContadorCall(a) => ResetContador(s, a).extended
    case TransferAdminCall(a, b) => TransferAdmin(s, a, b).extended
    case SetLimiteCall(a, l) => SetLimite(s, a, l).extended
  }

  /** `c` is a `hello` by `u` that returns `Ok`. */
  predicate GreetsAs(s: Store, c: Call, u: Address) {
    c.HelloCall? && c.usuario == u && Hello(s, u, c.nombre).result.Ok?
  }

  predicate Greets(s: Store, c: Call) {
    c.HelloCall? && GreetsAs(s, c, c.usuario)
  }

  /** The store after running `calls` in order from `s`. */
  function Run(s: Store, calls: seq<Call>): Store
    decreases |calls|
  {
    if calls == [] then s else Run(Perform(s, calls[0]), calls[1..])
  }

  /** Every TTL extension issued while running `calls`, in order. */
  function RunExtensions(s: Store, calls: seq<Call>): seq<Extension>
    decreases |calls|
  {
    if calls == [] then [] else Extended(s, calls[0]) + RunExtensions(Perform(s, calls[0]), calls[1..])
  }

  /** How many of `calls` are successful greetings. */
  function Greetings(s: Store, calls: seq<Call>): nat
    decreases |calls|
  {
    if calls == [] then 0
    else (if Greets(s, calls[0]) then 1 else 0) + Greetings(Perform(s, calls[0]), calls[1..])
  }

  /** How many of `calls` are successful greetings by `u`. */
  function GreetingsBy(s: Store, calls: seq<Call>, u: Address): nat
    decreases |calls|
  {
    if calls == [] then 0
    else (if GreetsAs(s, calls[0], u) then 1 else 0) + GreetingsBy(Perform(s, calls[0]), calls[1..], u)
  }

  /** Once an admin is stored, no sequence of calls removes it, so every
      later `initialize` fails with `NoInicializado`. */
  lemma {:induction false} StaysInitialized(s: Store, calls: seq<Call>, a: Address)
    requires Initialized(s)
    ensures Initialized(Run(s, calls))
    ensures Initialize(Run(s, calls), a) == Step(Err(NoInicializado), Run(s, calls), [])
    decreases |calls|
  {
    if calls != [] {
      StaysInitialized(Perform(s, calls[0]), calls[1..], a);
    }
  }

  /** A call other than `reset_contador`, that is not an `initialize` on a
      store without admin, raises the global counter by one exactly when it
      is a successful greeting; an admin, once stored, stays. */
  lemma CounterStep(s: Store, c: Call)
    requires !c.ResetContadorCall? && (Initialized(s) || !c.InitializeCall?)
    ensures GetContador(Perform(s, c)) as int == GetContador(s) as int + (if Greets(s, c) then 1 else 0)
    ensures Initialized(s) ==> Initialized(Perform(s, c))
  {
  }

  /** Counter monotonicity: with no `reset_contador` in between, the global
      counter grows by exactly the number of successful greetings. This holds
      from an initialized store, and also before initialization (`hello`
      needs none) as long as no `initialize` comes in between. */
  lemma {:induction false} CounterCountsGreetings(s: Store, calls: seq<Call>)
    requires Initialized(s) || forall i :: 0 <= i < |calls| ==> !calls[i].InitializeCall?
    requires forall i :: 0 <= i < |calls| ==> !calls[i].ResetContadorCall?
    ensures GetContador(Run(s, calls)) as int == GetContador(s) as int + Greetings(s, calls)
    decreases |calls|
  {
    if calls != [] {
      CounterStep(s, calls[0]);
      CounterCountsGreetings(Perform(s, calls[0]), calls[1..]);
    }
  }

  /** After `initialize` and N successful greetings with no reset, the
      global counter reads N. */
  lemma CounterAfterInitialize(s: Store, a: Address, calls: seq<Call>)
    requires !Initialized(s)
    requires forall i :: 0 <= i < |calls| ==> !calls[i].ResetContadorCall?
    ensures GetContador(Run(s, [InitializeCall(a)] + calls)) as int
         == Greetings(Initialize(s, a).store, calls)
  {
    var t := Initialize(s, a).store;
    assert ([InitializeCall(a)] + calls)[1..] == calls;
    CounterCountsGreetings(t, calls);
  }

  /** The first successful `initialize` writes the global counter as 0 even
      after greetings made before it, and leaves every address's counter and
      last greeting as they were, so those earlier greetings stay counted per
      address but no longer globally. */
  lemma InitializeKeepsUserRecords(s: Store, a: Address, u: Address)
    requires !Initialized(s)
    ensures GetContador(Initialize(s, a).store) == 0
    ensures GetContadorUsuario(Initialize(s, a).store, u) == GetContadorUsuario(s, u)
    ensures GetUltimoSaludo(Initialize(s, a).store, u) == GetUltimoSaludo(s, u)
  {
  }

  /** One call changes `u`'s counter and last greeting only when it is a
      successful greeting by `u`, which adds one and records the name. */
  lemma UserStep(s: Store, c: Call, u: Address)
    ensures GetContadorUsuario(Perform(s, c), u) as int
         == GetContadorUsuario(s, u) as int + (if GreetsAs(s, c, u) then 1 else 0)
    ensures GetUltimoSaludo(Perform(s, c), u)
         == if GreetsAs(s, c, u) then Some(c.nombre) else GetUltimoSaludo(s, u)
  {
  }

  /** Per-address counting: `u`'s counter grows by exactly the number of
      `u`'s successful greetings; no call resets it. */
  lemma {:induction false} UserCounterCountsGreetings(s: Store, calls: seq<Call>, u: Address)
    ensures GetContadorUsuario(Run(s, calls), u) as int == GetContadorUsuario(s, u) as int + GreetingsBy(s, calls, u)
    decreases |calls|
  {
    if calls != [] {
      UserStep(s, calls[0], u);
      UserCounterCountsGreetings(Perform(s, calls[0]), calls[1..], u);
    }
  }

  /** `get_ultimo_saludo(u)` stays `None` exactly as long as `u` has not
      greeted successfully. */
  lemma {:induction false} NeverGreetedIff(s: Store, calls: seq<Call>, u: Address)
    ensures GetUltimoSaludo(Run(s, calls), u).None?
        <==> GetUltimoSaludo(s, u).None? && GreetingsBy(s, calls, u) == 0
    decreases |calls|
  {
    if calls != [] {
      UserStep(s, calls[0], u);
      NeverGreetedIff(Perform(s, calls[0]), calls[1..], u);
    }
  }

  /** Per-address isolation: calls in which `u` never calls `hello` leave
      `u`'s counter and last greeting as they were. */
  lemma {:induction false} Isolation(s: Store, calls: seq<Call>, u: Address)
    requires forall i :: 0 <= i < |calls| ==> !(calls[i].HelloCall? && calls[i].usuario == u)
    ensures GetContadorUsuario(Run(s, calls), u) == GetContadorUsuario(s, u)
    ensures GetUltimoSaludo(Run(s, calls), u) == GetUltimoSaludo(s, u)
    decreases |calls|
  {
    if calls != [] {
      UserStep(s, calls[0], u);
      Isolation(Perform(s, calls[0]), calls[1..], u);
    }
  }

  /** Authorization over any run: while the admin `a` issues no
      `transfer_admin` and no `set_limite`, the admin and the character limit
      stay as they are, whoever else calls whatever. */
  lemma {:induction false} OnlyAdminReconfigures(s: Store, calls: seq<Call>, a: Address)
    requires Get(s, Admin) == Some(AddressValue(a))
    requires forall i :: 0 <= i < |calls| ==>
      !((calls[i].TransferAdminCall? || calls[i].SetLimiteCall?) && calls[i].caller == a)
    ensures Get(Run(s, calls), Admin) == Some(AddressValue(a))
    ensures Get(Run(s, calls), LimiteCaracteres) == Get(s, LimiteCaracteres)
    decreases |calls|
  {
    if calls != [] {
      OnlyAdminReconfigures(Perform(s, calls[0]), calls[1..], a);
    }
  }

  /** An extension the contract's TTL policy issues: of the instance tier or
      of a last-greeting entry, with (100, 100). */
  ghost predicate AllowedExtension(e: Extension) {
    && e.minExtension == TTL_MIN_EXTENSION && e.maxExpiration == TTL_MAX_EXPIRATION
    && (e.EntryExtended? ==> e.key.UltimoSaludo?)
  }

  /** Every extension of any run follows the policy; in particular a
      per-address counter entry is never extended. */
  lemma {:induction false} ExtensionPolicy(s: Store, calls: seq<Call>)
    ensures forall i :: 0 <= i < |RunExtensions(s, calls)| ==> AllowedExtension(RunExtensions(s, calls)[i])
    decreases |calls|
  {
    if calls != [] {
      ExtensionPolicy(Perform(s, calls[0]), calls[1..]);
    }
  }

  /** The character limit is an inclusive bound: a name of exactly the limit
      is accepted and one byte more is refused with `NombreMuyLargo`. */
  lemma LimitBoundary(s: Store, u: Address, n: Name, b: byte)
    requires |n| == EffectiveLimite(s) as int && 0 < |n|
    requires GetContador(s) < UINT32_MAX && GetContadorUsuario(s, u) < UINT32_MAX
    ensures Hello(s, u, n).result == Ok(HOLA)
    ensures Hello(s, u, n + [b]) == Step(Err(NombreMuyLargo), s, [])
  {
  }

  /** `set_limite(admin, 0)` is accepted, after which every non-empty name is
      refused with `NombreMuyLargo`. */
  lemma ZeroLimitRefusesEveryName(s: Store, a: Address, u: Address, n: Name)
    requires Get(s, Admin) == Some(AddressValue(a)) && 0 < |n|
    ensures SetLimite(s, a, 0).result == Ok(())
    ensures Hello(SetLimite(s, a, 0).store, u, n).result == Err(NombreMuyLargo)
  {
  }

  const ANA: Name := [65, 110, 97]  // "Ana"
  const TEST: Name := [84, 101, 115, 116]  // "Test"

  /** The unit tests of the contract, replayed on the model: the counter
      after `initialize`, the refused second `initialize` (code 4), a
      successful `hello`, the refused empty name (code 1), a reset by the
      admin and a refused reset by another address (code 3). */
  lemma TestScenarios(admin: Address, usuario: Address, otro: Address)
    requires admin != usuario && admin != otro
    ensures var s1 := Initialize(EMPTY, admin).store;
      && GetContador(s1) == 0
      && Initialize(s1, admin).result == Err(NoInicializado) && NoInicializado.Code() == 4
    ensures var s1 := Initialize(EMPTY, admin).store;
      var h := Hello(s1, usuario, ANA);
      && h.result == Ok(HOLA)
      && GetContador(h.store) == 1
      && GetContadorUsuario(h.store, usuario) == 1
      && GetUltimoSaludo(h.store, usuario) == Some(ANA)
    ensures var s1 := Initialize(EMPTY, admin).store;
      Hello(s1, usuario, []) == Step(Err(NombreVacio), s1, []) && NombreVacio.Code() == 1
    ensures var s2 := Hello(Initialize(EMPTY, admin).store, usuario, TEST).store;
      && GetContador(s2) == 1
      && ResetContador(s2, admin).result == Ok(())
      && GetContador(ResetContador(s2, admin).store) == 0
      && GetContadorUsuario(ResetContador(s2, admin).store, usuario) == 1
    ensures var s1 := Initialize(EMPTY, admin).store;
      ResetContador(s1, otro) == Step(Err(NoAutorizado), s1, []) && NoAutorizado.Code() == 3
    ensures var s := EMPTY.(persistent := PersistentTier(map[], map[usuario := 3]));
      GetContadorUsuario(s, usuario) == 3
  {
  }
}
