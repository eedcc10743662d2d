/** The contract's storage: an instance tier holding the three global values
    and a persistent tier holding the two per-address maps. */
module Storage {
  import opened Types

  datatype InstanceTier = InstanceTier(
    admin: Option<Address>,
    contador: Option<uint32>,
    limite: Option<uint32>)

  datatype PersistentTier = PersistentTier(
    ultimoSaludo: map<Address, Name>,
    contadorPorUsuario: map<Address, uint32>)

  datatype Store = Store(instance: InstanceTier, persistent: PersistentTier)

  /** The storage of a freshly deployed contract: no entry in either tier. */
  const EMPTY: Store := Store(InstanceTier(None, None, None), PersistentTier(map[], map[]))

  /** A stored value, as the host's `get` hands it back. */
  datatype Value = AddressValue(address: Address) | NumberValue(number: uint32) | NameValue(name: Name)

  /** The host's `get(&key)` on the tier that holds `k`. */
  function Get(s: Store, k: DataKey): (r: Option<Value>)
    ensures r.Some? && TierOf(k) == Instance ==> !r.value.NameValue?
    ensures r.Some? && k.UltimoSaludo? ==> r.value.NameValue?
  {
    match k
    case Admin =>
      if s.instance.admin.Some? then Some(AddressValue(s.instance.admin.value)) else None
    case ContadorSaludos =>
      if s.instance.contador.Some? then Some(NumberValue(s.instance.contador.value)) else None
    case LimiteCaracteres =>
      if s.instance.limite.Some? then Some(NumberValue(s.instance.limite.value)) else None
    case UltimoSaludo(u) =>
      if u in s.persistent.ultimoSaludo then Some(NameValue(s.persistent.ultimoSaludo[u])) else None
    case ContadorPorUsuario(u) =>
      if u in s.persistent.contadorPorUsuario then Some(NumberValue(s.persistent.contadorPorUsuario[u])) else None
  }

  /** The host's `has(&key)`. */
  function Has(s: Store, k: DataKey): (r: bool)
    ensures k == Admin ==> (r <==> s.instance.admin.Some?)
    ensures k == ContadorSaludos ==> (r <==> s.instance.contador.Some?)
    ensures k == LimiteCaracteres ==> (r <==> s.instance.limite.Some?)
    ensures k.UltimoSaludo? ==> (r <==> k.usuario in s.persistent.ultimoSaludo)
    ensures k.ContadorPorUsuario? ==> (r <==> k.usuario in s.persistent.contadorPorUsuario)
  {
    Get(s, k).Some?
  }

  /** Two stores agree on every key outside `changed`. */
  ghost predicate SameExcept(s: Store, t: Store, changed: set<DataKey>) {
    forall k :: k !in changed ==> Get(s, k) == Get(t, k)
  }
}
