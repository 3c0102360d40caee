# Vehicle service (VeiculoService) in Dafny

A model of the service layer of a small vehicle registry. Vehicles are kept in a
store keyed by license plate (`placa`). The service offers five operations:

- `cadastrar` registers a vehicle.
- `deletarVeiculoPelaPlaca` removes one.
- `atualizar` overwrites one.
- `listarTodos` lists all of them.
- `buscarVeiculoPelaPlaca` looks one up.

Each of the first four answers with an envelope: an HTTP status (201, 200, 422
or 204), a message, and a detail that may be null. An exception that the store
raises is not caught; it propagates to the caller.

Files:

- `modelo.dfy` (module `Modelo`) holds the values. These are the entity `Veiculo`
  with its store-assigned `id`, the transfer shape `VeiculoDTO` (the same five
  fields without the id), the envelope `Reply` with its `Fault` variant for a
  propagating exception, and the fixed messages `"Sucesso"`, `"Placa invalida!"`
  and `"Veículo não encontrado"`. It also holds the entity/DTO conversions that
  the service writes out as getter/setter sequences.
- `repositorio.dfy` (module `Repositorio`) holds the store the service relies on,
  as a class `VeiculoRepository`. Its state is:
  - a map from plate to row;
  - the plates in listing order, which the model fixes as insertion order (the
    real store promises no order; see "## Left out");
  - the next id to hand out;
  - an optional exception that every store call raises while it is set.

  `save` inserts a row, or replaces the row that has the same plate. An entity
  without an id is given a fresh one. `delete` removes the row with the
  entity's plate. Its invariant `Valid()` states three things:
  - every row is stored under its own plate and has an id;
  - the order lists each stored plate exactly once;
  - the order lists nothing else.
- `servico.dfy` (module `Servico`) holds the class `VeiculoService`. The
  mutating operations are methods with `modifies` on the store. The two read
  operations are functions of the store's state. The plate validator
  `ValidacaoPlaca.isPlacaValida` is a function value given to the constructor:
  "returns" becomes `true` and "throws `PlacaInvalidaException`" becomes `false`.
  Its code is not part of this model. `AtendeFixtures` gathers the facts that the
  unit tests fix about it: `XYZ-4578` and `XYZ-4588` pass, `XYZ4578` and
  `ABC1234` fail.
- `cenarios.dfy` (module `Cenarios`) holds clients of the service. Each unit test
  of the service becomes a method whose postcondition is the expected envelope.
  Other methods relate several operations:
  - delete undoes a registration;
  - registering and then looking up finds the DTO's fields;
  - for the same absent plate, delete answers 422 and update answers 204.

The messages are the Portuguese strings the code and tests use ("Sucesso",
"Placa invalida!", "Veículo não encontrado"). In `atualizar`, the stored vehicle is looked up by the DTO's own
plate, so "overwriting the plate" never changes the key.

## Model

| member | source | states |
|---|---|---|
| Modelo.ToDTO | projeto-final-main/src/main/java/br/com/ada/testeautomatizado/service/VeiculoService.java:79-84 | the projection loses nothing but the id: the entity is its id together with the projected five fields (the same DTO build appears at lines 101-107) |
| Modelo.NovoVeiculo | projeto-final-main/src/main/java/br/com/ada/testeautomatizado/service/VeiculoService.java:33-38 | the new entity has no id yet and its five fields project back to exactly the DTO |
| Modelo.Atualizado | projeto-final-main/src/main/java/br/com/ada/testeautomatizado/service/VeiculoService.java:70-75 | after the five setters, the entity projects to exactly the DTO and keeps its own id |
| Modelo.Projetar | projeto-final-main/src/main/java/br/com/ada/testeautomatizado/service/VeiculoService.java:100-108 | the mapped list has the input's length and order, and element i is the projection of entity i |
| Repositorio.Without | projeto-final-main/src/main/java/br/com/ada/testeautomatizado/service/VeiculoService.java:54 | dropping a plate from a duplicate-free listing order removes exactly its one occurrence and keeps the other plates in their order; the result stays duplicate-free, and nothing changes when the plate is absent |
| Repositorio.WithoutAppended | projeto-final-main/src/main/java/br/com/ada/testeautomatizado/service/VeiculoService.java:39-54 | removing a plate that was just appended to the listing order gives back the old order |
| Repositorio.DistinctElements | projeto-final-main/src/main/java/br/com/ada/testeautomatizado/service/VeiculoService.java:99 | a duplicate-free listing has exactly as many entries as distinct plates, which makes the listing as long as the table |
| Repositorio.VeiculoRepository.constructor | projeto-final-main/src/main/java/br/com/ada/testeautomatizado/service/VeiculoService.java:23-24 | a new store is valid, empty and not failing |
| Repositorio.VeiculoRepository.FindByPlaca | projeto-final-main/src/main/java/br/com/ada/testeautomatizado/service/VeiculoService.java:52 | a failing store raises its exception; otherwise a row is found if and only if the plate is stored, and the row found is the stored one, carrying that plate and an id |
| Repositorio.VeiculoRepository.FindAll | projeto-final-main/src/main/java/br/com/ada/testeautomatizado/service/VeiculoService.java:99 | a failing store raises its exception; otherwise every stored row appears once, in listing order, and the list is as long as the table |
| Repositorio.VeiculoRepository.Save | projeto-final-main/src/main/java/br/com/ada/testeautomatizado/service/VeiculoService.java:77 | a failing store raises and changes nothing; otherwise exactly the entry for the entity's plate is set to the returned row, which has the entity's five fields, keeps a given id or gets one no earlier row had, and a new plate goes to the end of the listing |
| Repositorio.VeiculoRepository.Delete | projeto-final-main/src/main/java/br/com/ada/testeautomatizado/service/VeiculoService.java:54 | a failing store raises and changes nothing; otherwise only the entity's plate leaves the table and the listing |
| Servico.AtendeFixtures | projeto-final-main/src/test/java/br/com/ada/testeautomatizado/service/VeiculoServiceTest.java:49-56 | the validator facts the tests fix (XYZ-4578 and XYZ-4588 pass, XYZ4578 and ABC1234 fail, lines 55, 82, 91 and 141); in particular, removing the hyphen from the accepted XYZ-4578 gives a rejected plate |
| Servico.VeiculoService.constructor | projeto-final-main/src/main/java/br/com/ada/testeautomatizado/service/VeiculoService.java:23-27 | the service is wired to the given store and plate validator |
| Servico.VeiculoService.Cadastrar | projeto-final-main/src/main/java/br/com/ada/testeautomatizado/service/VeiculoService.java:30-47 | invalid plate gives 422 "Placa invalida!" with null detail and leaves the store unchanged; a store exception is relayed as is with the store unchanged; otherwise 201 "Sucesso" with the input DTO itself as detail, and exactly one table entry, under the DTO's plate, now holds a vehicle with the DTO's five fields and a fresh id |
| Servico.VeiculoService.DeletarVeiculoPelaPlaca | projeto-final-main/src/main/java/br/com/ada/testeautomatizado/service/VeiculoService.java:49-63 | invalid plate gives 422 "Placa invalida!"/false and an absent plate gives 422 "Veículo não encontrado"/false, both with the store unchanged; a store exception is relayed with the store unchanged; a present plate gives 200 "Sucesso"/true and removes exactly that entry |
| Servico.VeiculoService.Atualizar | projeto-final-main/src/main/java/br/com/ada/testeautomatizado/service/VeiculoService.java:65-96 | invalid plate gives 422 with null detail and an absent plate gives 204 "Veículo não encontrado" with null detail, both with the store unchanged; a store exception is relayed; a present plate has its five fields overwritten with the id kept, other entries and the order untouched, and gives 200 "Sucesso" with the saved entity's projection, which equals the DTO |
| Servico.VeiculoService.ListarTodos | projeto-final-main/src/main/java/br/com/ada/testeautomatizado/service/VeiculoService.java:98-111 | a healthy store always gives 200 "Sucesso" with a list as long as the table, whose element i projects the i-th stored vehicle in listing order; an empty store gives an empty list; a store exception propagates |
| Servico.VeiculoService.BuscarVeiculoPelaPlaca | projeto-final-main/src/main/java/br/com/ada/testeautomatizado/service/VeiculoService.java:113-115 | exactly the store's lookup, for any plate whether the validator accepts it or not, and the store does not change |
| Cenarios.VeiculoDTOFixture | projeto-final-main/src/test/java/br/com/ada/testeautomatizado/service/VeiculoServiceTest.java:171-179 | the DTO fixture is exactly the projection of the stored fixture |
| Cenarios.VeiculoAtualizadoDTOFixture | projeto-final-main/src/test/java/br/com/ada/testeautomatizado/service/VeiculoServiceTest.java:181-189 | the update fixture has a plate other than the stored fixture's and describes an unavailable vehicle |
| Cenarios.VeiculoBDFixture | projeto-final-main/src/test/java/br/com/ada/testeautomatizado/service/VeiculoServiceTest.java:191-200 | the stored fixture is a row that carries an id |
| Cenarios.NovoServico | projeto-final-main/src/test/java/br/com/ada/testeautomatizado/service/VeiculoServiceTest.java:32-38 | a fresh, healthy store that is empty or holds the one given row, wired into a service with the given validator |
| Cenarios.DeveCriarCadastroDeVeiculo | projeto-final-main/src/test/java/br/com/ada/testeautomatizado/service/VeiculoServiceTest.java:40-47 | registering the fixture DTO answers 201 "Sucesso" with that DTO |
| Cenarios.DeveRetonarErroPlacaInvalidaAoCadastrar | projeto-final-main/src/test/java/br/com/ada/testeautomatizado/service/VeiculoServiceTest.java:49-56 | registering plate ABC1234 answers 422 "Placa invalida!" with null detail |
| Cenarios.DeveRetornarErroAoCadastrarVeiculoNulo | projeto-final-main/src/test/java/br/com/ada/testeautomatizado/service/VeiculoServiceTest.java:58-64 | when save throws, registering propagates that exception |
| Cenarios.DeveRemoverVeiculo | projeto-final-main/src/test/java/br/com/ada/testeautomatizado/service/VeiculoServiceTest.java:66-74 | deleting the stored XYZ-4578 answers 200 "Sucesso"/true |
| Cenarios.DeveRetornarErroAoRemoverVeiculoPlacaInvalida | projeto-final-main/src/test/java/br/com/ada/testeautomatizado/service/VeiculoServiceTest.java:76-83 | deleting XYZ4578 answers 422 "Placa invalida!"/false |
| Cenarios.DeveRetornarErroAoRemoverVeiculoNaoEncontrado | projeto-final-main/src/test/java/br/com/ada/testeautomatizado/service/VeiculoServiceTest.java:85-92 | deleting XYZ-4578 from an empty store answers 422 "Veículo não encontrado"/false |
| Cenarios.DeveRetornarErroAoRemoverVeiculoNulo | projeto-final-main/src/test/java/br/com/ada/testeautomatizado/service/VeiculoServiceTest.java:94-101 | when the lookup fails, deleting propagates the exception |
| Cenarios.DeveAtualizarVeiculo | projeto-final-main/src/test/java/br/com/ada/testeautomatizado/service/VeiculoServiceTest.java:103-124 | updating the stored vehicle to unavailable answers 200 "Sucesso" with the updated DTO |
| Cenarios.DeveRetornarErroAoAtualizarVeiculo | projeto-final-main/src/test/java/br/com/ada/testeautomatizado/service/VeiculoServiceTest.java:126-134 | updating plate ABC1234 answers 422 "Placa invalida!" with null detail |
| Cenarios.DeveRetornarErroNaoencontradoAoAtualizarVeiculo | projeto-final-main/src/test/java/br/com/ada/testeautomatizado/service/VeiculoServiceTest.java:136-142 | updating the absent XYZ-4588 answers 204 "Veículo não encontrado" with null detail |
| Cenarios.DeveRetornarErroVeiculoNulo | projeto-final-main/src/test/java/br/com/ada/testeautomatizado/service/VeiculoServiceTest.java:144-151 | when the lookup throws, updating propagates the exception |
| Cenarios.DeveRetornarListaDeVeiculos | projeto-final-main/src/test/java/br/com/ada/testeautomatizado/service/VeiculoServiceTest.java:153-160 | a store holding the fixture entity lists as 200 "Sucesso" with exactly the fixture DTO |
| Cenarios.ListaVazia | projeto-final-main/src/main/java/br/com/ada/testeautomatizado/service/VeiculoService.java:98-111 | an empty store lists as 200 "Sucesso" with an empty list |
| Cenarios.DeveRetornarVeiculoPelaPlaca | projeto-final-main/src/test/java/br/com/ada/testeautomatizado/service/VeiculoServiceTest.java:162-168 | the lookup returns the stored fixture entity, and returns a stored row even under a plate the validator rejects |
| Cenarios.NaoEncontradoAssimetrico | projeto-final-main/src/main/java/br/com/ada/testeautomatizado/service/VeiculoService.java:57-92 | for one valid, absent plate, delete answers 422 with detail false and update answers 204 with null detail, so the two statuses differ |
| Cenarios.CadastrarDepoisDeletar | projeto-final-main/src/main/java/br/com/ada/testeautomatizado/service/VeiculoService.java:30-63 | registering under a new plate and then deleting that plate restores the table and the listing order exactly |
| Cenarios.CadastrarDepoisBuscar | projeto-final-main/src/main/java/br/com/ada/testeautomatizado/service/VeiculoService.java:30-115 | after a registration with a valid plate on a healthy store, the lookup of that plate finds a vehicle whose five fields are the DTO's |
| Cenarios.CadastrarDepoisListar | projeto-final-main/src/main/java/br/com/ada/testeautomatizado/service/VeiculoService.java:30-111 | after a registration under a new plate, the listing is the old listing followed by the DTO |

## Left out

- Spring's `ResponseEntity`, `HttpStatus`, dependency injection and logging. The status is a plain datatype and the service is wired by its constructor.
- Repositorio.VeiculoRepository.Save: the real store's `findAll` has no sort, so its listing order is whatever the database returns. The model fixes insertion order instead: `save` appends a new plate, `delete` drops the plate from the order, and replacing a row keeps the order. Three claims rest on that choice and not on the service: `Cenarios.CadastrarDepoisListar` (the new DTO ends the listing), the order half of `Cenarios.CadastrarDepoisDeletar`, and the `order` clause of `Servico.VeiculoService.Atualizar`. Against the real store, only the table parts of those claims hold; the listing holds the same vehicles, not necessarily in that order.
- Java `null`: null DTOs, null fields, and a store lookup that answers null instead of an Optional. The tests drive these through mocks; the model covers only what reaches the caller, the propagating exception (`Fault`).
- Repositorio.VeiculoRepository.Save: a failing store fails from its first call onwards. So in the model a `save` or `delete` cannot fail after a lookup that succeeded in the same operation. The service still relays such a failure, but no state reaches that branch.
- Repositorio.VeiculoRepository.Save: the store's rows are keyed by plate, so registering a plate that is already stored replaces that row. A relational store without a unique plate column would add a second row. Uniqueness of plates is assumed, not enforced, by the service.
- Repositorio.VeiculoRepository.Save: ids are opaque. The model hands out a counter, and promises only that a new row's id differs from every id already stored. The persistence layer's real id generation is not modelled.
- Servico.VeiculoService.Atualizar: the fetched entity is mutated in place before `save`. The model treats entities as values, so the store changes only through `save`. Any write-back of a managed entity by the persistence layer without `save` is out of scope.
- The plate format itself: the code of `ValidacaoPlaca` is not part of this model. The validator is any function from strings to booleans, constrained only by the test fixtures (`AtendeFixtures`).
- `LocalDate` semantics: the manufacture date is a triple that is only copied.
- The Mockito stubbing in the tests: the scenarios build a real store in the state the stubs describe.
