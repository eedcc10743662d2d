/** `HelloContract` as an object over its storage: the instance tier's three
    entries and the persistent tier's two maps are fields that the entry
    points read and overwrite in the order the contract does, and a ghost log
    records each `extend_ttl` call. Every method is proved to do what the
    matching function of `Semantics` says. */
module Contract {
  import opened Types
  import opened Storage
  import opened Semantics

  class HelloContract {
    // instance tier
    var admin: Option<Address>
    var contador: Option<uint32>
    var limite: Option<uint32>
    // persistent tier
    var ultimoSaludo: map<Address, Name>
    var contadorPorUsuario: map<Address, uint32>
    /** Every TTL extension issued so far, oldest first. */
    ghost var ttlLog: seq<Extension>

    /** The storage this object holds. */
    function State(): Store
      reads this
    {
      Store(InstanceTier(admin, contador, limite), PersistentTier(ultimoSaludo, contadorPorUsuario))
    }

    /** A freshly deployed contract: nothing stored, nothing extended. */
    constructor ()
      ensures State() == EMPTY && ttlLog == []
    {
      admin, contador, limite := None, None, None;
      ultimoSaludo, contadorPorUsuario := map[], map[];
      ttlLog := [];
    }

    /** `get_contador`. */
    function GetContador(): (r: uint32)
      reads this
      ensures r == Semantics.GetContador(State())
      ensures contador.None? ==> r == 0
    {
      contador.UnwrapOr(0)
    }

    /** `get_ultimo_saludo`. */
    function GetUltimoSaludo(usuario: Address): (r: Option<Name>)
      reads this
      ensures r == Semantics.GetUltimoSaludo(State(), usuario)
      ensures r.None? <==> usuario !in ultimoSaludo
    {
      if usuario in ultimoSaludo then Some(ultimoSaludo[usuario]) else None
    }

    /** `get_contador_usuario`. */
    function GetContadorUsuario(usuario: Address): (r: uint32)
      reads this
      ensures r == Semantics.GetContadorUsuario(State(), usuario)
      ensures usuario !in contadorPorUsuario ==> r == 0
    {
      if usuario in contadorPorUsuario then contadorPorUsuario[usuario] else 0
    }

    /** `initialize`: store the admin, the counter and the limit, and extend
        the instance tier; refused once an admin exists. */
    method Initialize(admin: Address) returns (r: Response<()>)
      modifies this
      ensures var step := Semantics.Initialize(old(State()), admin);
        r == step.result && State() == step.store && ttlLog == old(ttlLog) + step.extended
    {
      if this.admin.Some? {
        return Err(NoInicializado);
      }
      this.admin := Some(admin);
      contador := Some(0);
      ttlLog := ttlLog + [InstanceExtended(TTL_MIN_EXTENSION, TTL_MAX_EXPIRATION)];
      limite := Some(DEFAULT_LIMITE);
      r := Ok(());
    }

    /** `hello`: validate the name, then bump both counters, record the name
        and extend the last-greeting entry and the instance tier. */
    method Hello(usuario: Address, nombre: Name) returns (r: Response<string>)
      modifies this
      ensures var step := Semantics.Hello(old(State()), usuario, nombre);
        r == step.result && State() == step.store && ttlLog == old(ttlLog) + step.extended
    {
      if |nombre| == 0 {
        return Err(NombreVacio);
      }
      var limiteActual := limite.UnwrapOr(DEFAULT_LIMITE);
      if |nombre| > limiteActual as int {
        return Err(NombreMuyLargo);
      }
      var contadorActual := contador.UnwrapOr(0);
      if contadorActual == UINT32_MAX {
        // `contador + 1` overflows and the invocation aborts before any write
        return Aborted;
      }
      var antes := contador;
      contador := Some(contadorActual + 1);
      var contadorUsuario := GetContadorUsuario(usuario);
      if contadorUsuario == UINT32_MAX {
        // `contador_usuario + 1` overflows; the host discards the write above
        contador := antes;
        return Aborted;
      }
      contadorPorUsuario := contadorPorUsuario[usuario := contadorUsuario + 1];
      ultimoSaludo := ultimoSaludo[usuario := nombre];
      ttlLog := ttlLog + [EntryExtended(UltimoSaludo(usuario), TTL_MIN_EXTENSION, TTL_MAX_EXPIRATION)];
      ttlLog := ttlLog + [InstanceExtended(TTL_MIN_EXTENSION, TTL_MAX_EXPIRATION)];
      r := Ok(HOLA);
    }

    /** `reset_contador`: the admin sets the global counter to 0. */
    method ResetContador(caller: Address) returns (r: Response<()>)
      modifies this
      ensures var step := Semantics.ResetContador(old(State()), caller);
        r == step.result && State() == step.store && ttlLog == old(ttlLog) + step.extended
    {
      if admin.None? {
        return Err(NoInicializado);
      }
      if caller != admin.value {
        return Err(NoAutorizado);
      }
      contador := Some(0);
      r := Ok(());
    }

    /** `transfer_admin`: the admin names a new admin. */
    method TransferAdmin(caller: Address, nuevoAdmin: Address) returns (r: Response<()>)
      modifies this
      ensures var step := Semantics.TransferAdmin(old(State()), caller, nuevoAdmin);
        r == step.result && State() == step.store && ttlLog == old(ttlLog) + step.extended
    {
      if admin.None? {
        return Err(NoInicializado);
      }
      if caller != admin.value {
        return Err(NoAutorizado);
      }
      admin := Some(nuevoAdmin);
      r := Ok(());
    }

    /** `set_limite`: the admin stores a new character limit. */
    method SetLimite(caller: Address, limite: uint32) returns (r: Response<()>)
      modifies this
      ensures var step := Semantics.SetLimite(old(State()), caller, limite);
        r == step.result && State() == step.store && ttlLog == old(ttlLog) + step.extended
    {
      if admin.None? {
        return Err(NoInicializado);
      }
      if caller != admin.value {
        return Err(NoAutorizado);
      }
      this.limite := Some(limite);
      r := Ok(());
    }
  }

  /** A client of the class: the contract's unit tests, replayed on a fresh
      object using nothing but the methods' contracts. It returns what the
      tests observe, and its postcondition is what they assert. */
  method ReplayTests(admin: Address, usuario: Address, otro: Address)
    returns (primero: Response<()>, contadorInicial: uint32, segundo: Response<()>, saludo: Response<string>,
             contadorTrasSaludo: uint32, contadorUsuario: uint32, ultimo: Option<Name>,
             vacio: Response<string>, resetAjeno: Response<()>, resetAdmin: Response<()>,
             contadorTrasReset: uint32)
    requires admin != usuario && admin != otro
    ensures primero == Ok(()) && contadorInicial == 0 && segundo == Err(NoInicializado) && segundo.error.Code() == 4
    ensures saludo == Ok(HOLA) && contadorTrasSaludo == 1 && contadorUsuario == 1
    ensures ultimo == Some([65, 110, 97])
    ensures vacio == Err(NombreVacio) && vacio.error.Code() == 1
    ensures resetAjeno == Err(NoAutorizado) && resetAjeno.error.Code() == 3
    ensures resetAdmin == Ok(()) && contadorTrasReset == 0
  {
    var c := new HelloContract();
    primero := c.Initialize(admin);
    contadorInicial := c.GetContador();
    segundo := c.Initialize(admin);

    saludo := c.Hello(usuario, [65, 110, 97]);
    contadorTrasSaludo := c.GetContador();
    contadorUsuario := c.GetContadorUsuario(usuario);
    ultimo := c.GetUltimoSaludo(usuario);

    vacio := c.Hello(usuario, []);

    resetAjeno := c.ResetContador(otro);
    resetAdmin := c.ResetContador(admin);
    contadorTrasReset := c.GetContador();
  }
}
