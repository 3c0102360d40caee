/** Values exchanged by the vehicle service: the persisted entity, its transfer
    shape, and the response envelope every service operation returns. */
module Modelo {

  datatype Option<+T> = None | Some(value: T)

  /** A manufacture date; the service only copies it, so no calendar rules apply. */
  datatype LocalDate = LocalDate(year: int, month: int, day: int)

  /** The store-assigned identifier (a Java Long); None before the first save. */
  type Id = nat

  /** The persisted entity Veiculo. */
  datatype Veiculo = Veiculo(
    id: Option<Id>,
    placa: string,
    modelo: string,
    marca: string,
    dataFabricacao: LocalDate,
    disponivel: bool)

  /** The transfer shape VeiculoDTO: the entity's fields without the id. */
  datatype VeiculoDTO = VeiculoDTO(
    placa: string,
    modelo: string,
    marca: string,
    dataFabricacao: LocalDate,
    disponivel: bool)

  /** HTTP statuses the service chooses between. */
  datatype Status = CREATED | OK | UNPROCESSABLE_ENTITY | NO_CONTENT

  /** An exception raised by the store that the service does not catch. */
  datatype StoreFault = StoreFault(message: string)

  /** What a service operation hands back: a ResponseEntity holding a status and
      a Response(message, detail) body, whose detail Java may leave null, or the
      store's exception propagating out of the operation. */
  datatype Reply<+T> =
    | Reply(status: Status, message: string, detail: Option<T>)
    | Fault(fault: StoreFault)

  /** The outcome of one call into the store: a value, or an exception. */
  datatype StoreResult<+T> = Done(value: T) | Failed(fault: StoreFault)

  const SUCESSO: string := "Sucesso"
  /** Message of PlacaInvalidaException. */
  const PLACA_INVALIDA: string := "Placa invalida!"
  /** Message of VeiculoNaoEncontradoException. */
  const VEICULO_NAO_ENCONTRADO: string := "Veículo não encontrado"

  /** The five-field projection of an entity, as the service builds a
      VeiculoDTO from a Veiculo through its getters and setters. */
  function ToDTO(v: Veiculo): (d: VeiculoDTO)
    ensures v == Veiculo(v.id, d.placa, d.modelo, d.marca, d.dataFabricacao, d.disponivel)
  {
    VeiculoDTO(v.placa, v.modelo, v.marca, v.dataFabricacao, v.disponivel)
  }

  /** The unsaved entity `cadastrar` builds from a DTO: every field copied and
      no id yet. */
  function NovoVeiculo(d: VeiculoDTO): (v: Veiculo)
    ensures ToDTO(v) == d
    ensures v.id == None
  {
    Veiculo(None, d.placa, d.modelo, d.marca, d.dataFabricacao, d.disponivel)
  }

  /** The fetched entity after `atualizar` has run its five setters on it: the
      DTO's fields with the entity's own id. */
  function Atualizado(v: Veiculo, d: VeiculoDTO): (r: Veiculo)
    ensures ToDTO(r) == d
    ensures r.id == v.id
  {
    v.(placa := d.placa, modelo := d.modelo, marca := d.marca,
       dataFabricacao := d.dataFabricacao, disponivel := d.disponivel)
  }

  /** The stream `map` of `listarTodos`: each entity projected, order kept. */
  function Projetar(vs: seq<Veiculo>): (ds: seq<VeiculoDTO>)
    ensures |ds| == |vs|
    ensures forall i :: 0 <= i < |vs| ==> ds[i] == ToDTO(vs[i])
  {
    if vs == [] then [] else [ToDTO(vs[0])] + Projetar(vs[1..])
  }
}
