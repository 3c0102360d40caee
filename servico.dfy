/** VeiculoService: validates the plate, consults the store, mutates it, and
    wraps the outcome in a response envelope. */
module Servico {
  import opened Modelo
  import opened Repositorio

  /** What the unit tests fix about ValidacaoPlaca.isPlacaValida, whose own
      code is not part of this model: the hyphenated plates used as fixtures
      pass, the unhyphenated ones fail. */
  ghost predicate AtendeFixtures(isPlacaValida: string -> bool)
    ensures AtendeFixtures(isPlacaValida) ==>
              var aceita := "XYZ-4578";
              isPlacaValida(aceita) && !isPlacaValida(aceita[..3] + aceita[4..])
  {
    assert "XYZ-4578"[..3] + "XYZ-4578"[4..] == "XYZ4578" by {
      assert "XYZ-4578"[..3] == "XYZ" && "XYZ-4578"[4..] == "4578";
    }
    && isPlacaValida("XYZ-4578")
    && isPlacaValida("XYZ-4588")
    && !isPlacaValida("XYZ4578")
    && !isPlacaValida("ABC1234")
  }

  class VeiculoService {
    const veiculoRepository: VeiculoRepository
    /** ValidacaoPlaca.isPlacaValida: true when the call returns, false when it
        throws PlacaInvalidaException. */
    const isPlacaValida: string -> bool

    constructor (repository: VeiculoRepository, validacaoPlaca: string -> bool)
      ensures veiculoRepository == repository && isPlacaValida == validacaoPlaca
    {
      veiculoRepository := repository;
      isPlacaValida := validacaoPlaca;
    }

    ghost predicate Valid()
      reads veiculoRepository
    {
      veiculoRepository.Valid()
    }

    /** cadastrar: save a new vehicle built from the DTO and answer with the
        DTO itself. */
    method Cadastrar(dto: VeiculoDTO) returns (r: Reply<VeiculoDTO>)
      requires Valid()
      modifies veiculoRepository
      ensures Valid() && veiculoRepository.fault == old(veiculoRepository.fault)
      ensures !isPlacaValida(dto.placa) ==>
                r == Reply(UNPROCESSABLE_ENTITY, PLACA_INVALIDA, None)
                && unchanged(veiculoRepository)
      ensures isPlacaValida(dto.placa) && old(veiculoRepository.fault).Some? ==>
                r == Fault(old(veiculoRepository.fault).value)
                && unchanged(veiculoRepository)
      ensures isPlacaValida(dto.placa) && old(veiculoRepository.fault).None? ==>
                var t := veiculoRepository.table;
                && r == Reply(CREATED, SUCESSO, Some(dto))
                && dto.placa in t
                && ToDTO(t[dto.placa]) == dto
                && (forall p :: p in old(veiculoRepository.table) ==>
                      old(veiculoRepository.table)[p].id != t[dto.placa].id)
                && t == old(veiculoRepository.table)[dto.placa := t[dto.placa]]
                && veiculoRepository.order ==
                     if dto.placa in old(veiculoRepository.table) then old(veiculoRepository.order)
                     else old(veiculoRepository.order) + [dto.placa]
    {
      if !isPlacaValida(dto.placa) {
        return Reply(UNPROCESSABLE_ENTITY, PLACA_INVALIDA, None);
      }
      var veiculo := NovoVeiculo(dto);
      var saved := veiculoRepository.Save(veiculo);
      r := match saved
           case Failed(f) => Fault(f)
           case Done(_) => Reply(CREATED, SUCESSO, Some(dto));
    }

    /** deletarVeiculoPelaPlaca: remove the vehicle with the plate; both the
        invalid plate and the missing vehicle answer 422 with detail false. */
    method DeletarVeiculoPelaPlaca(placa: string) returns (r: Reply<bool>)
      requires Valid()
      modifies veiculoRepository
      ensures Valid() && veiculoRepository.fault == old(veiculoRepository.fault)
      ensures !isPlacaValida(placa) ==>
                r == Reply(UNPROCESSABLE_ENTITY, PLACA_INVALIDA, Some(false))
                && unchanged(veiculoRepository)
      ensures isPlacaValida(placa) && old(veiculoRepository.fault).Some? ==>
                r == Fault(old(veiculoRepository.fault).value)
                && unchanged(veiculoRepository)
      ensures isPlacaValida(placa) && old(veiculoRepository.fault).None?
              && placa !in old(veiculoRepository.table) ==>
                r == Reply(UNPROCESSABLE_ENTITY, VEICULO_NAO_ENCONTRADO, Some(false))
                && unchanged(veiculoRepository)
      ensures isPlacaValida(placa) && old(veiculoRepository.fault).None?
              && placa in old(veiculoRepository.table) ==>
                && r == Reply(OK, SUCESSO, Some(true))
                && veiculoRepository.table == old(veiculoRepository.table) - {placa}
                && veiculoRepository.order == Without(old(veiculoRepository.order), placa)
    {
      if !isPlacaValida(placa) {
        return Reply(UNPROCESSABLE_ENTITY, PLACA_INVALIDA, Some(false));
      }
      var getVeiculo := veiculoRepository.FindByPlaca(placa);
      match getVeiculo {
        case Failed(f) =>
          r := Fault(f);
        case Done(None) =>
          r := Reply(UNPROCESSABLE_ENTITY, VEICULO_NAO_ENCONTRADO, Some(false));
        case Done(Some(veiculo)) =>
          var deleted := veiculoRepository.Delete(veiculo);
          r := match deleted
               case Failed(f) => Fault(f)
               case Done(_) => Reply(OK, SUCESSO, Some(true));
      }
    }

    /** atualizar: overwrite the stored vehicle with the DTO's plate; an invalid
        plate answers 422, a missing vehicle 204, both with no detail. */
    method Atualizar(dto: VeiculoDTO) returns (r: Reply<VeiculoDTO>)
      requires Valid()
      modifies veiculoRepository
      ensures Valid() && veiculoRepository.fault == old(veiculoRepository.fault)
      ensures !isPlacaValida(dto.placa) ==>
                r == Reply(UNPROCESSABLE_ENTITY, PLACA_INVALIDA, None)
                && unchanged(veiculoRepository)
      ensures isPlacaValida(dto.placa) && old(veiculoRepository.fault).Some? ==>
                r == Fault(old(veiculoRepository.fault).value)
                && unchanged(veiculoRepository)
      ensures isPlacaValida(dto.placa) && old(veiculoRepository.fault).None?
              && dto.placa !in old(veiculoRepository.table) ==>
                r == Reply(NO_CONTENT, VEICULO_NAO_ENCONTRADO, None)
                && unchanged(veiculoRepository)
      ensures isPlacaValida(dto.placa) && old(veiculoRepository.fault).None?
              && dto.placa in old(veiculoRepository.table) ==>
                var t := veiculoRepository.table;
                && dto.placa in t
                && r == Reply(OK, SUCESSO, Some(ToDTO(t[dto.placa])))
                && ToDTO(t[dto.placa]) == dto
                && t[dto.placa].id == old(veiculoRepository.table)[dto.placa].id
                && t == old(veiculoRepository.table)[dto.placa := t[dto.placa]]
                && veiculoRepository.order == old(veiculoRepository.order)
    {
      if !isPlacaValida(dto.placa) {
        return Reply(UNPROCESSABLE_ENTITY, PLACA_INVALIDA, None);
      }
      var getVeiculo := veiculoRepository.FindByPlaca(dto.placa);
      match getVeiculo {
        case Failed(f) =>
          r := Fault(f);
        case Done(None) =>
          r := Reply(NO_CONTENT, VEICULO_NAO_ENCONTRADO, None);
        case Done(Some(veiculo)) =>
          var atualizado := Atualizado(veiculo, dto);
          var veiculoSave := veiculoRepository.Save(atualizado);
          r := match veiculoSave
               case Failed(f) => Fault(f)
               case Done(v) => Reply(OK, SUCESSO, Some(ToDTO(v)));
      }
    }

    /** listarTodos: every stored vehicle's projection, in the store's order. */
    function ListarTodos(): (r: Reply<seq<VeiculoDTO>>)
      reads veiculoRepository
      requires Valid()
      ensures veiculoRepository.fault.Some? ==> r == Fault(veiculoRepository.fault.value)
      ensures veiculoRepository.fault.None? ==>
                r.Reply? && r.status == OK && r.message == SUCESSO && r.detail.Some?
      ensures r.Reply? ==>
                && r.detail.Some?
                && |r.detail.value| == |veiculoRepository.order| == |veiculoRepository.table|
                && (forall i :: 0 <= i < |veiculoRepository.order| ==>
                      r.detail.value[i] == ToDTO(veiculoRepository.table[veiculoRepository.order[i]]))
      ensures r.Reply? && veiculoRepository.table == map[] ==> r.detail == Some([])
    {
      match veiculoRepository.FindAll()
      case Failed(f) => Fault(f)
      case Done(listaVeiculos) => Reply(OK, SUCESSO, Some(Projetar(listaVeiculos)))
    }

    /** buscarVeiculoPelaPlaca: the store's lookup, with no plate validation. */
    function BuscarVeiculoPelaPlaca(placa: string): (r: StoreResult<Option<Veiculo>>)
      reads veiculoRepository
      requires Valid()
      ensures r == veiculoRepository.FindByPlaca(placa)
      ensures veiculoRepository.fault.Some? ==> r == Failed(veiculoRepository.fault.value)
      ensures veiculoRepository.fault.None? ==>
                r.Done? && (r.value.Some? <==> placa in veiculoRepository.table)
      ensures r.Done? && r.value.Some? ==>
                r.value.value == veiculoRepository.table[placa] && r.value.value.placa == placa
    {
      veiculoRepository.FindByPlaca(placa)
    }
  }
}
