/** What each entry point of `HelloContract` does to the store, as pure
    functions from the store before the call to the response, the store after
    it and the TTL extensions it issued. Every mutator runs its checks first
    and writes nothing, and extends nothing, when a check fails. */
module Semantics {
  import opened Types
  import opened Storage

  /** What an invocation returns: the contract's `Ok`/`Err`, or an abort when
      a `u32` addition overflows (the host then discards the invocation's writes). */
  datatype Response<T> = Ok(value: T) | Err(error: Error) | Aborted

  /** The outcome of one invocation. */
  datatype Step<T> = Step(result: Response<T>, store: Store, extended: seq<Extension>)

  predicate Initialized(s: Store) {
    Has(s, Admin)
  }

  // ---- Queries: pure reads, each with its default on absence ----

  /** `get_contador`: the global greeting counter, 0 when unset. */
  function GetContador(s: Store): (r: uint32)
    ensures Get(s, ContadorSaludos) == Some(NumberValue(r)) || (!Has(s, ContadorSaludos) && r == 0)
  {
    s.instance.contador.UnwrapOr(0)
  }

  /** `get_ultimo_saludo`: the last name `u` greeted with, `None` when absent. */
  function GetUltimoSaludo(s: Store, u: Address): (r: Option<Name>)
    ensures r.None? <==> !Has(s, UltimoSaludo(u))
    ensures r.Some? ==> Get(s, UltimoSaludo(u)) == Some(NameValue(r.value))
  {
    if u in s.persistent.ultimoSaludo then Some(s.persistent.ultimoSaludo[u]) else None
  }

  /** `get_contador_usuario`: the greetings counted for `u`, 0 when unset. */
  function GetContadorUsuario(s: Store, u: Address): (r: uint32)
    ensures Get(s, ContadorPorUsuario(u)) == Some(NumberValue(r)) || (!Has(s, ContadorPorUsuario(u)) && r == 0)
  {
    if u in s.persistent.contadorPorUsuario then s.persistent.contadorPorUsuario[u] else 0
  }

  /** The character limit `hello` applies: the stored one, 32 when unset. */
  function EffectiveLimite(s: Store): (r: uint32)
    ensures Get(s, LimiteCaracteres) == Some(NumberValue(r)) || (!Has(s, LimiteCaracteres) && r == DEFAULT_LIMITE)
  {
    s.instance.limite.UnwrapOr(DEFAULT_LIMITE)
  }

  // ---- The guard shared by the three admin operations ----

  /** Looks up the admin and compares it with `caller`: `None` lets the
      operation proceed, otherwise the error it fails with. */
  function RequireAdmin(s: Store, caller: Address): (r: Option<Error>)
    ensures r.None? <==> Get(s, Admin) == Some(AddressValue(caller))
    ensures r == Some(NoInicializado) <==> !Initialized(s)
    ensures r == Some(NoAutorizado) <==> Initialized(s) && Get(s, Admin) != Some(AddressValue(caller))
  {
    match s.instance.admin
    case None => Some(NoInicializado)
    case Some(admin) => if caller != admin then Some(NoAutorizado) else None
  }

  // ---- Mutators ----

  /** `initialize(admin)`. A store that already has an admin is refused with
      `NoInicializado` (code 4); there is no separate "already initialized" error. */
  function Initialize(s: Store, admin: Address): (r: Step<()>)
    ensures Initialized(s) ==> r == Step(Err(NoInicializado), s, [])
    ensures !Initialized(s) ==> r.result == Ok(())
    ensures !Initialized(s) ==>
      && Get(r.store, Admin) == Some(AddressValue(admin))
      && Get(r.store, ContadorSaludos) == Some(NumberValue(0))
      && Get(r.store, LimiteCaracteres) == Some(NumberValue(DEFAULT_LIMITE))
    ensures !Initialized(s) ==> r.store.persistent == s.persistent
    ensures !Initialized(s) ==> r.extended == [InstanceExtended(TTL_MIN_EXTENSION, TTL_MAX_EXPIRATION)]
  {
    if s.instance.admin.Some? then
      Step(Err(NoInicializado), s, [])
    else
      Step(Ok(()),
           Store(InstanceTier(Some(admin), Some(0), Some(DEFAULT_LIMITE)), s.persistent),
           [InstanceExtended(TTL_MIN_EXTENSION, TTL_MAX_EXPIRATION)])
  }

  /** `hello(usuario, nombre)`: needs no initialization. An empty name fails
      with `NombreVacio`, a name longer than the effective limit with
      `NombreMuyLargo`; a counter already at `u32::MAX` aborts the call. */
  function Hello(s: Store, usuario: Address, nombre: Name): (r: Step<string>)
    ensures !r.result.Ok? ==> r.store == s && r.extended == []
    ensures r.result == Err(NombreVacio) <==> |nombre| == 0
    ensures r.result == Err(NombreMuyLargo) <==> 0 < |nombre| && |nombre| > EffectiveLimite(s) as int
    ensures r.result.Aborted? <==>
      && 0 < |nombre| <= EffectiveLimite(s) as int
      && (GetContador(s) == UINT32_MAX || GetContadorUsuario(s, usuario) == UINT32_MAX)
    ensures r.result.Ok? <==>
      && 0 < |nombre| <= EffectiveLimite(s) as int
      && GetContador(s) < UINT32_MAX && GetContadorUsuario(s, usuario) < UINT32_MAX
    ensures r.result.Ok? ==>
      && r.result.value == HOLA
      && GetContador(r.store) as int == GetContador(s) as int + 1
      && GetContadorUsuario(r.store, usuario) as int == GetContadorUsuario(s, usuario) as int + 1
      && GetUltimoSaludo(r.store, usuario) == Some(nombre)
      && Has(r.store, ContadorSaludos) && Has(r.store, ContadorPorUsuario(usuario))
    ensures r.result.Ok? ==>
      SameExcept(s, r.store, {ContadorSaludos, ContadorPorUsuario(usuario), UltimoSaludo(usuario)})
    ensures r.result.Ok? ==>
      r.extended == [EntryExtended(UltimoSaludo(usuario), TTL_MIN_EXTENSION, TTL_MAX_EXPIRATION),
                     InstanceExtended(TTL_MIN_EXTENSION, TTL_MAX_EXPIRATION)]
  {
    if |nombre| == 0 then
      Step(Err(NombreVacio), s, [])
    else if |nombre| > EffectiveLimite(s) as int then
      Step(Err(NombreMuyLargo), s, [])
    else
      var contador := GetContador(s);
      var contadorUsuario := GetContadorUsuario(s, usuario);
      if contador == UINT32_MAX || contadorUsuario == UINT32_MAX then
        Step(Aborted, s, [])
      else
        var p := s.persistent;
        Step(Ok(HOLA),
             Store(s.instance.(contador := Some(contador + 1)),
                   PersistentTier(p.ultimoSaludo[usuario := nombre],
                                  p.contadorPorUsuario[usuario := contadorUsuario + 1])),
             [EntryExtended(UltimoSaludo(usuario), TTL_MIN_EXTENSION, TTL_MAX_EXPIRATION),
              InstanceExtended(TTL_MIN_EXTENSION, TTL_MAX_EXPIRATION)])
  }

  /** `reset_contador(caller)`: the admin sets the global counter back to 0;
      per-address counters and last greetings stay. */
  function ResetContador(s: Store, caller: Address): (r: Step<()>)
    ensures r.result.Ok? <==> Get(s, Admin) == Some(AddressValue(caller))
    ensures r.result == Err(NoInicializado) <==> !Initialized(s)
    ensures r.result == Err(NoAutorizado) <==> Initialized(s) && Get(s, Admin) != Some(AddressValue(caller))
    ensures !r.result.Ok? ==> r.store == s
    ensures r.result.Ok? ==>
      Get(r.store, ContadorSaludos) == Some(NumberValue(0)) && SameExcept(s, r.store, {ContadorSaludos})
    ensures r.extended == []
  {
    var guard := RequireAdmin(s, caller);
    if guard.Some? then Step(Err(guard.value), s, [])
    else Step(Ok(()), s.(instance := s.instance.(contador := Some(0))), [])
  }

  /** `transfer_admin(caller, nuevoAdmin)`: the admin hands the role over. */
  function TransferAdmin(s: Store, caller: Address, nuevoAdmin: Address): (r: Step<()>)
    ensures r.result.Ok? <==> Get(s, Admin) == Some(AddressValue(caller))
    ensures r.result == Err(NoInicializado) <==> !Initialized(s)
    ensures r.result == Err(NoAutorizado) <==> Initialized(s) && Get(s, Admin) != Some(AddressValue(caller))
    ensures !r.result.Ok? ==> r.store == s
    ensures r.result.Ok? ==>
      Get(r.store, Admin) == Some(AddressValue(nuevoAdmin)) && SameExcept(s, r.store, {Admin})
    ensures r.extended == []
  {
    var guard := RequireAdmin(s, caller);
    if guard.Some? then Step(Err(guard.value), s, [])
    else Step(Ok(()), s.(instance := s.instance.(admin := Some(nuevoAdmin))), [])
  }

  /** `set_limite(caller, limite)`: the admin stores any `u32` as the new
      character limit, 0 included. */
  function SetLimite(s: Store, caller: Address, limite: uint32): (r: Step<()>)
    ensures r.result.Ok? <==> Get(s, Admin) == Some(AddressValue(caller))
    ensures r.result == Err(NoInicializado) <==> !Initialized(s)
    ensures r.result == Err(NoAutorizado) <==> Initialized(s) && Get(s, Admin) != Some(AddressValue(caller))
    ensures !r.result.Ok? ==> r.store == s
    ensures r.result.Ok? ==>
      Get(r.store, LimiteCaracteres) == Some(NumberValue(limite)) && SameExcept(s, r.store, {LimiteCaracteres})
    ensures r.extended == []
  {
    var guard := RequireAdmin(s, caller);
    if guard.Some? then Step(Err(guard.value), s, [])
    else Step(Ok(()), s.(instance := s.instance.(limite := Some(limite))), [])
  }
}
