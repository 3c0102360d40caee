/** Clients of VeiculoService: the unit tests' scenarios with the envelopes
    they expect, and properties that relate several operations. */
module Cenarios {
  import opened Modelo
  import opened Repositorio
  import opened Servico

  /** The DTO fixture (getVeiculoDTO): the projection of the stored fixture. */
  function VeiculoDTOFixture(): (d: VeiculoDTO)
    ensures d == ToDTO(VeiculoBDFixture())
  {
    VeiculoDTO("XYZ-4578", "F40", "FERRARI", LocalDate(2000, 1, 1), true)
  }

  /** The DTO fixture for updates (getVeiculoAtualizadoDTO): a plate other than
      the stored fixture's, and an unavailable vehicle. */
  function VeiculoAtualizadoDTOFixture(): (d: VeiculoDTO)
    ensures d.placa != VeiculoBDFixture().placa && !d.disponivel
  {
    VeiculoDTO("XYZ-4588", "F40", "FERRARI", LocalDate(2020, 5, 10), false)
  }

  /** The stored entity fixture (getVeiculoBD): a row that carries an id. */
  function VeiculoBDFixture(): (v: Veiculo)
    ensures v.id.Some?
  {
    Veiculo(Some(1), "XYZ-4578", "F40", "FERRARI", LocalDate(2000, 1, 1), true)
  }

  /** A service over a fresh store that holds `inicial`, when given. */
  method NovoServico(valid: string -> bool, inicial: Option<Veiculo>) returns (s: VeiculoService)
    requires inicial.Some? ==> inicial.value.id.Some?
    ensures fresh(s) && fresh(s.veiculoRepository) && s.Valid()
    ensures s.isPlacaValida == valid && s.veiculoRepository.fault == None
    ensures inicial.None? ==> s.veiculoRepository.table == map[] && s.veiculoRepository.order == []
    ensures inicial.Some? ==>
              && s.veiculoRepository.table == map[inicial.value.placa := inicial.value]
              && s.veiculoRepository.order == [inicial.value.placa]
  {
    var repo := new VeiculoRepository();
    if inicial.Some? {
      var _ := repo.Save(inicial.value);
    }
    s := new VeiculoService(repo, valid);
  }

  method DeveCriarCadastroDeVeiculo(valid: string -> bool) returns (r: Reply<VeiculoDTO>)
    requires AtendeFixtures(valid)
    ensures r == Reply(CREATED, "Sucesso", Some(VeiculoDTOFixture()))
  {
    var s := NovoServico(valid, None);
    r := s.Cadastrar(VeiculoDTOFixture());
  }

  method DeveRetonarErroPlacaInvalidaAoCadastrar(valid: string -> bool) returns (r: Reply<VeiculoDTO>)
    requires AtendeFixtures(valid)
    ensures r == Reply(UNPROCESSABLE_ENTITY, "Placa invalida!", None)
  {
    var s := NovoServico(valid, None);
    r := s.Cadastrar(VeiculoDTOFixture().(placa := "ABC1234"));
  }

  /** The store's save throws: the exception leaves the service unchanged. */
  method DeveRetornarErroAoCadastrarVeiculoNulo(valid: string -> bool, erro: StoreFault)
    returns (r: Reply<VeiculoDTO>)
    requires AtendeFixtures(valid)
    ensures r == Fault(erro)
  {
    var s := NovoServico(valid, None);
    s.veiculoRepository.fault := Some(erro);
    r := s.Cadastrar(VeiculoDTOFixture());
  }

  method DeveRemoverVeiculo(valid: string -> bool) returns (r: Reply<bool>)
    requires AtendeFixtures(valid)
    ensures r == Reply(OK, "Sucesso", Some(true))
  {
    var s := NovoServico(valid, Some(VeiculoBDFixture()));
    r := s.DeletarVeiculoPelaPlaca("XYZ-4578");
  }

  method DeveRetornarErroAoRemoverVeiculoPlacaInvalida(valid: string -> bool) returns (r: Reply<bool>)
    requires AtendeFixtures(valid)
    ensures r == Reply(UNPROCESSABLE_ENTITY, "Placa invalida!", Some(false))
  {
    var s := NovoServico(valid, None);
    r := s.DeletarVeiculoPelaPlaca("XYZ4578");
  }

  method DeveRetornarErroAoRemoverVeiculoNaoEncontrado(valid: string -> bool) returns (r: Reply<bool>)
    requires AtendeFixtures(valid)
    ensures r == Reply(UNPROCESSABLE_ENTITY, "Veículo não encontrado", Some(false))
  {
    var s := NovoServico(valid, None);
    r := s.DeletarVeiculoPelaPlaca("XYZ-4578");
  }

  /** The store's lookup fails: the exception propagates. */
  method DeveRetornarErroAoRemoverVeiculoNulo(valid: string -> bool, erro: StoreFault)
    returns (r: Reply<bool>)
    requires AtendeFixtures(valid)
    ensures r == Fault(erro)
  {
    var s := NovoServico(valid, None);
    s.veiculoRepository.fault := Some(erro);
    r := s.DeletarVeiculoPelaPlaca("XYZ-4578");
  }

  /** The stored vehicle becomes unavailable; the reply carries the new state. */
  method DeveAtualizarVeiculo(valid: string -> bool) returns (r: Reply<VeiculoDTO>)
    requires AtendeFixtures(valid)
    ensures r == Reply(OK, "Sucesso", Some(VeiculoDTOFixture().(disponivel := false)))
  {
    var s := NovoServico(valid, Some(VeiculoBDFixture()));
    r := s.Atualizar(VeiculoDTOFixture().(disponivel := false));
  }

  method DeveRetornarErroAoAtualizarVeiculo(valid: string -> bool) returns (r: Reply<VeiculoDTO>)
    requires AtendeFixtures(valid)
    ensures r == Reply(UNPROCESSABLE_ENTITY, "Placa invalida!", None)
  {
    var s := NovoServico(valid, None);
    r := s.Atualizar(VeiculoAtualizadoDTOFixture().(placa := "ABC1234"));
  }

  method DeveRetornarErroNaoencontradoAoAtualizarVeiculo(valid: string -> bool)
    returns (r: Reply<VeiculoDTO>)
    requires AtendeFixtures(valid)
    ensures r == Reply(NO_CONTENT, "Veículo não encontrado", None)
  {
    var s := NovoServico(valid, None);
    r := s.Atualizar(VeiculoAtualizadoDTOFixture());
  }

  /** The store's lookup throws during an update: the exception propagates. */
  method DeveRetornarErroVeiculoNulo(valid: string -> bool, erro: StoreFault)
    returns (r: Reply<VeiculoDTO>)
    requires AtendeFixtures(valid)
    ensures r == Fault(erro)
  {
    var s := NovoServico(valid, None);
    s.veiculoRepository.fault := Some(erro);
    r := s.Atualizar(VeiculoAtualizadoDTOFixture());
  }

  method DeveRetornarListaDeVeiculos(valid: string -> bool) returns (r: Reply<seq<VeiculoDTO>>)
    ensures r == Reply(OK, "Sucesso", Some([VeiculoDTOFixture()]))
  {
    var s := NovoServico(valid, Some(VeiculoBDFixture()));
    r := s.ListarTodos();
    assert r.detail.value == [r.detail.value[0]];
  }

  /** An empty store lists as an empty sequence. */
  method ListaVazia(valid: string -> bool) returns (r: Reply<seq<VeiculoDTO>>)
    ensures r == Reply(OK, "Sucesso", Some([]))
  {
    var s := NovoServico(valid, None);
    r := s.ListarTodos();
  }

  /** The lookup answers even for a plate the validator rejects. */
  method DeveRetornarVeiculoPelaPlaca(valid: string -> bool)
    returns (r: StoreResult<Option<Veiculo>>, semValidacao: StoreResult<Option<Veiculo>>)
    requires AtendeFixtures(valid)
    ensures r == Done(Some(VeiculoBDFixture()))
    ensures semValidacao == Done(Some(VeiculoBDFixture().(placa := "ABC1234")))
  {
    var s := NovoServico(valid, Some(VeiculoBDFixture().(placa := "ABC1234")));
    semValidacao := s.BuscarVeiculoPelaPlaca("ABC1234");
    s := NovoServico(valid, Some(VeiculoBDFixture()));
    r := s.BuscarVeiculoPelaPlaca("XYZ-4578");
  }

  /** For the same valid plate that no vehicle has, deleting answers 422 with
      detail false and updating answers 204 with no detail. */
  method NaoEncontradoAssimetrico(valid: string -> bool, dto: VeiculoDTO)
    returns (deletado: Reply<bool>, atualizado: Reply<VeiculoDTO>)
    requires valid(dto.placa)
    ensures deletado == Reply(UNPROCESSABLE_ENTITY, VEICULO_NAO_ENCONTRADO, Some(false))
    ensures atualizado == Reply(NO_CONTENT, VEICULO_NAO_ENCONTRADO, None)
    ensures deletado.status != atualizado.status
  {
    var s := NovoServico(valid, None);
    deletado := s.DeletarVeiculoPelaPlaca(dto.placa);
    atualizado := s.Atualizar(dto);
  }

  /** Deleting a vehicle just registered under a new plate restores the store. */
  method CadastrarDepoisDeletar(s: VeiculoService, dto: VeiculoDTO)
    returns (cadastrado: Reply<VeiculoDTO>, deletado: Reply<bool>)
    requires s.Valid() && s.veiculoRepository.fault == None
    requires s.isPlacaValida(dto.placa) && dto.placa !in s.veiculoRepository.table
    modifies s.veiculoRepository
    ensures cadastrado == Reply(CREATED, SUCESSO, Some(dto))
    ensures deletado == Reply(OK, SUCESSO, Some(true))
    ensures s.veiculoRepository.table == old(s.veiculoRepository.table)
    ensures s.veiculoRepository.order == old(s.veiculoRepository.order)
  {
    cadastrado := s.Cadastrar(dto);
    deletado := s.DeletarVeiculoPelaPlaca(dto.placa);
    WithoutAppended(old(s.veiculoRepository.order), dto.placa);
  }

  /** After a registration, the lookup finds a vehicle with the DTO's fields. */
  method CadastrarDepoisBuscar(s: VeiculoService, dto: VeiculoDTO)
    returns (encontrado: StoreResult<Option<Veiculo>>)
    requires s.Valid() && s.veiculoRepository.fault == None
    requires s.isPlacaValida(dto.placa)
    modifies s.veiculoRepository
    ensures encontrado.Done? && encontrado.value.Some? && ToDTO(encontrado.value.value) == dto
  {
    var _ := s.Cadastrar(dto);
    encontrado := s.BuscarVeiculoPelaPlaca(dto.placa);
  }

  /** After a registration under a new plate, the listing is the old listing
      followed by the DTO. */
  method CadastrarDepoisListar(s: VeiculoService, dto: VeiculoDTO)
    returns (lista: Reply<seq<VeiculoDTO>>)
    requires s.Valid() && s.veiculoRepository.fault == None
    requires s.isPlacaValida(dto.placa) && dto.placa !in s.veiculoRepository.table
    modifies s.veiculoRepository
    ensures lista.Reply? && lista.detail.Some?
    ensures old(s.ListarTodos()).Reply? && old(s.ListarTodos()).detail.Some?
    ensures lista.detail.value == old(s.ListarTodos()).detail.value + [dto]
  {
    ghost var antes := s.ListarTodos().detail.value;
    ghost var t0, o0 := s.veiculoRepository.table, s.veiculoRepository.order;
    var _ := s.Cadastrar(dto);
    lista := s.ListarTodos();
    ghost var t, o := s.veiculoRepository.table, s.veiculoRepository.order;
    assert o == o0 + [dto.placa];
    forall i | 0 <= i < |o0| ensures lista.detail.value[i] == antes[i] {
      assert o0[i] in t0 && o[i] == o0[i] && t[o0[i]] == t0[o0[i]];
    }
    assert lista.detail.value[|o0|] == dto;
    Acrescida(antes, lista.detail.value, dto);
  }

  /** A sequence that agrees with `antes` on its positions and has `d` after
      them is `antes + [d]`. */
  lemma Acrescida(antes: seq<VeiculoDTO>, depois: seq<VeiculoDTO>, d: VeiculoDTO)
    requires |depois| == |antes| + 1 && depois[|antes|] == d
    requires forall i :: 0 <= i < |antes| ==> depois[i] == antes[i]
    ensures depois == antes + [d]
  {
  }
}
