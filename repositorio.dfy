/** The store behind the service (the Spring Data repository VeiculoRepository),
    as the service relies on it: vehicles keyed by plate, listed in insertion
    order, ids assigned on first save, and an exception that every call raises
    while the store is failing. */
module Repositorio {
  import opened Modelo

  /** No element occurs twice. */
  ghost predicate NoDup(s: seq<string>)
  {
    forall i, j :: 0 <= i < j < |s| ==> s[i] != s[j]
  }

  /** `s` with every occurrence of `x` dropped, the others in their order. */
  function Without(s: seq<string>, x: string): (r: seq<string>)
    ensures forall y :: y in r <==> y in s && y != x
    ensures NoDup(s) ==> NoDup(r)
    ensures x !in s ==> r == s
    ensures NoDup(s) && x in s ==>
              exists k :: 0 <= k < |s| && s[k] == x && r == s[..k] + s[k + 1..]
  {
    if s == [] then []
    else
      var rest := Without(s[1..], x);
      if s[0] == x then
        assert NoDup(s) ==> rest == s[..0] + s[1..] by {
          if NoDup(s) { NoDupTail(s); }
        }
        rest
      else
        assert NoDup(s) ==> NoDup([s[0]] + rest) by {
          if NoDup(s) { NoDupTail(s); }
        }
        assert NoDup(s) && x in s ==>
                 exists k :: 0 <= k < |s| && s[k] == x && [s[0]] + rest == s[..k] + s[k + 1..] by {
          if NoDup(s) && x in s {
            NoDupTail(s);
            assert x in s[1..];
            var k' :| 0 <= k' < |s| - 1 && s[1..][k'] == x && rest == s[1..][..k'] + s[1..][k' + 1..];
            ConsSplice(s, k', rest);
          }
        }
        [s[0]] + rest
  }

  /** Splicing out position k of the tail, then putting the head back, splices
      out position k + 1 of the whole sequence. */
  lemma ConsSplice(s: seq<string>, k: nat, rest: seq<string>)
    requires k < |s| - 1 && rest == s[1..][..k] + s[1..][k + 1..]
    ensures s[k + 1] == s[1..][k]
    ensures [s[0]] + rest == s[..k + 1] + s[k + 2..]
  {
  }

  /** The tail of a sequence without duplicates has none either, and lacks the head. */
  lemma NoDupTail(s: seq<string>)
    requires NoDup(s) && s != []
    ensures NoDup(s[1..]) && s[0] !in s[1..]
  {
  }

  /** Removing an element that was just appended restores the sequence. */
  lemma {:induction false} WithoutAppended(s: seq<string>, x: string)
    requires x !in s
    ensures Without(s + [x], x) == s
  {
    if s != [] {
      assert (s + [x])[1..] == s[1..] + [x];
      WithoutAppended(s[1..], x);
    }
  }

  /** A sequence without duplicates has as many elements as its set. */
  lemma {:induction false} DistinctElements(s: seq<string>)
    requires NoDup(s)
    ensures |set x | x in s| == |s|
  {
    if s != [] {
      var rest := s[1..];
      NoDupTail(s);
      DistinctElements(rest);
      assert (set x | x in s) == {s[0]} + (set x | x in rest);
    }
  }

  class VeiculoRepository {
    /** The rows, keyed by plate. */
    var table: map<string, Veiculo>
    /** The plates in the order `findAll` lists them. */
    var order: seq<string>
    /** The next id the store hands out. */
    var nextId: Id
    /** While set, every call into the store raises this exception. */
    var fault: Option<StoreFault>

    ghost predicate Valid()
      reads this
    {
      && (forall p :: p in table ==>
            table[p].placa == p && table[p].id.Some? && table[p].id.value < nextId)
      && NoDup(order)
      && (forall p :: p in order <==> p in table)
    }

    constructor ()
      ensures Valid()
      ensures table == map[] && order == [] && fault == None
    {
      table := map[];
      order := [];
      nextId := 1;
      fault := None;
    }

    /** findByPlaca: the row stored under the plate, if any. */
    function FindByPlaca(placa: string): (r: StoreResult<Option<Veiculo>>)
      reads this
      requires Valid()
      ensures fault.Some? ==> r == Failed(fault.value)
      ensures fault.None? ==> r.Done? && (r.value.Some? <==> placa in table)
      ensures r.Done? && r.value.Some? ==>
                r.value.value == table[placa] && r.value.value.placa == placa
                && r.value.value.id.Some?
    {
      if fault.Some? then Failed(fault.value)
      else if placa in table then Done(Some(table[placa]))
      else Done(None)
    }

    /** findAll: every row exactly once, in insertion order. */
    function FindAll(): (r: StoreResult<seq<Veiculo>>)
      reads this
      requires Valid()
      ensures fault.Some? ==> r == Failed(fault.value)
      ensures fault.None? ==> r.Done?
      ensures r.Done? ==> |r.value| == |order| == |table|
      ensures r.Done? ==> forall i :: 0 <= i < |r.value| ==> r.value[i] == table[order[i]]
      ensures r.Done? ==> forall p :: p in table ==> table[p] in r.value
    {
      if fault.Some? then Failed(fault.value)
      else
        var o, t := order, table;
        var vs := seq(|o|, i requires 0 <= i < |o| => t[o[i]]);
        DistinctElements(order);
        assert (set x | x in order) == table.Keys;
        assert forall p :: p in table ==> table[p] in vs by {
          forall p | p in table ensures table[p] in vs {
            var i :| 0 <= i < |order| && order[i] == p;
            assert vs[i] == table[p];
          }
        }
        Done(vs)
    }

    /** save: insert the entity, or replace the row with its plate; an entity
        without an id is given one no row in the store carries. Returns the
        stored value. */
    method Save(v: Veiculo) returns (r: StoreResult<Veiculo>)
      requires Valid()
      modifies this
      ensures Valid() && fault == old(fault)
      ensures old(fault).Some? ==> r == Failed(old(fault).value) && unchanged(this)
      ensures old(fault).None? ==>
                && r.Done?
                && ToDTO(r.value) == ToDTO(v)
                && (v.id.Some? ==> r.value.id == v.id)
                && (v.id.None? ==>
                      r.value.id.Some? && forall p :: p in old(table) ==> old(table)[p].id != r.value.id)
                && table == old(table)[v.placa := r.value]
                && order == if v.placa in old(table) then old(order) else old(order) + [v.placa]
    {
      if fault.Some? {
        return Failed(fault.value);
      }
      var id: Id;
      if v.id.Some? {
        id := v.id.value;
        if nextId <= id {
          nextId := id + 1;
        }
      } else {
        id := nextId;
        nextId := nextId + 1;
      }
      var stored := v.(id := Some(id));
      if v.placa !in table {
        order := order + [v.placa];
      }
      table := table[v.placa := stored];
      r := Done(stored);
    }

    /** delete: remove the row with the entity's plate; nothing else changes. */
    method Delete(v: Veiculo) returns (r: StoreResult<()>)
      requires Valid()
      modifies this
      ensures Valid() && fault == old(fault)
      ensures old(fault).Some? ==> r == Failed(old(fault).value) && unchanged(this)
      ensures old(fault).None? ==>
                && r == Done(())
                && table == old(table) - {v.placa}
                && order == Without(old(order), v.placa)
    {
      if fault.Some? {
        return Failed(fault.value);
      }
      table := table - {v.placa};
      order := Without(order, v.placa);
      r := Done(());
    }
  }
}
