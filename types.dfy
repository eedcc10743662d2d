/** Value types shared by the storage model, the contract semantics and the
    contract class: the contract's error enum, its storage keys and the
    fixed constants of `HelloContract`. */
module Types {

  /** Rust's `Option`, with the `unwrap_or` combinator every default-on-absence
      read of the contract goes through. */
  datatype Option<T> = None | Some(value: T) {
    function UnwrapOr(default: T): (r: T)
      ensures Some? ==> r == value
      ensures None? ==> r == default
    {
      match this
      case Some(v) => v
      case None => default
    }
  }

  /** Rust's `u32`. Arithmetic on it is written out where the contract does it. */
  newtype uint32 = x: int | 0 <= x <= 0xFFFF_FFFF

  const UINT32_MAX: uint32 := 0xFFFF_FFFF

  newtype byte = x: int | 0 <= x < 256

  /** A Soroban `String`: its `len()` is a length in bytes, so a name is a
      byte sequence and its length is `|name|`. */
  type Name = seq<byte>

  /** An account or contract address. The contract only ever compares
      addresses for equality. */
  datatype Address = Address(id: nat)

  /** The contract's error enum; each variant carries a fixed numeric code. */
  datatype Error = NombreVacio | NombreMuyLargo | NoAutorizado | NoInicializado {
    function Code(): (c: uint32)
      ensures 1 <= c <= 4
    {
      match this
      case NombreVacio => 1
      case NombreMuyLargo => 2
      case NoAutorizado => 3
      case NoInicializado => 4
    }
  }

  /** The inverse of `Error.Code`: the error a reported code stands for. */
  function ErrorFromCode(c: uint32): (r: Option<Error>)
    ensures r.Some? <==> 1 <= c <= 4
    ensures r.Some? ==> r.value.Code() == c
  {
    match c
    case 1 => Some(NombreVacio)
    case 2 => Some(NombreMuyLargo)
    case 3 => Some(NoAutorizado)
    case 4 => Some(NoInicializado)
    case _ => None
  }

  /** A code decodes back to the error that produced it, so distinct errors
      are reported under distinct codes. */
  lemma CodeRoundTrip(e: Error)
    ensures ErrorFromCode(e.Code()) == Some(e)
  {
  }

  /** The keys under which the contract stores its state. */
  datatype DataKey =
    | Admin
    | ContadorSaludos
    | UltimoSaludo(usuario: Address)
    | ContadorPorUsuario(usuario: Address)
    | LimiteCaracteres

  /** The two storage tiers: instance storage shares one TTL for all of its
      entries, persistent storage has a TTL per entry. */
  datatype Tier = Instance | Persistent

  /** The tier in which the contract keeps each key. */
  function TierOf(k: DataKey): (t: Tier)
    ensures t == Persistent <==> k.UltimoSaludo? || k.ContadorPorUsuario?
  {
    match k
    case Admin => Instance
    case ContadorSaludos => Instance
    case LimiteCaracteres => Instance
    case UltimoSaludo(_) => Persistent
    case ContadorPorUsuario(_) => Persistent
  }

  /** One `extend_ttl` call: on the whole instance tier, or on one
      persistent entry. The two numbers only record the call's two arguments
      (the host's threshold and extend-to ledger counts, named here after the
      contract's own comment); what the host does with them is not modelled. */
  datatype Extension =
    | InstanceExtended(minExtension: uint32, maxExpiration: uint32)
    | EntryExtended(key: DataKey, minExtension: uint32, maxExpiration: uint32)

  /** Both arguments of every `extend_ttl` call in the contract. */
  const TTL_MIN_EXTENSION: uint32 := 100
  const TTL_MAX_EXPIRATION: uint32 := 100

  /** The character limit written by `initialize` and assumed when none is stored. */
  const DEFAULT_LIMITE: uint32 := 32

  /** The symbol a successful `hello` returns. */
  const HOLA: string := "Hola"
}
