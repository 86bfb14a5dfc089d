/**
 The bookkeeping the store is meant to keep: every product's stock is its
 stock before any order, less what the stored orders ask of it. Completed
 operations keep it; a partial failure breaks it.
 */
module Consistencia {
  import opened Models
  import opened Inventario
  import opened Almacen

  /** A set with no members is the empty set. */
  lemma SinMiembros(claves: set<int>)
    ensures (forall k :: k !in claves) ==> claves == {}
  {
    if forall k :: k !in claves {
      assert claves == {};
    }
  }

  /** Some stored key: the order the total below is counted in. */
  ghost function Alguna(claves: set<int>): (k: int)
    requires claves != {}
    ensures k in claves
  {
    SinMiembros(claves);
    var k :| k in claves; k
  }

  /** Taking a stored key out of a map leaves one order fewer. */
  lemma Quitar(pedidos: map<int, seq<Detalle>>, k: int)
    requires k in pedidos
    ensures |pedidos - {k}| == |pedidos| - 1
  {
    assert pedidos.Keys == (pedidos - {k}).Keys + {k};
  }

  /** The total quantity of product `p` over all stored orders. */
  ghost function Comprometido(pedidos: map<int, seq<Detalle>>, p: int): int
    decreases |pedidos|
  {
    if pedidos.Keys == {} then 0
    else
      var k := Alguna(pedidos.Keys);
      Quitar(pedidos, k);
      Comprometido(pedidos - {k}, p) + CantidadDe(pedidos[k], p)
  }

  /** The total does not depend on the order in which orders are counted:
      any stored order can be taken out of it. */
  lemma {:induction false} ComprometidoSin(pedidos: map<int, seq<Detalle>>, k: int, p: int)
    requires k in pedidos
    ensures Comprometido(pedidos, p) == Comprometido(pedidos - {k}, p) + CantidadDe(pedidos[k], p)
    decreases |pedidos|
  {
    var j := Alguna(pedidos.Keys);
    if j != k {
      var sinJ, sinK := pedidos - {j}, pedidos - {k};
      Quitar(pedidos, j);
      Quitar(pedidos, k);
      assert Comprometido(pedidos, p) == Comprometido(sinJ, p) + CantidadDe(pedidos[j], p);
      ComprometidoSin(sinJ, k, p);
      ComprometidoSin(sinK, j, p);
      assert sinJ - {k} == sinK - {j};
    }
  }

  /** Storing lines under a key replaces that key's share of the total. */
  lemma ComprometidoCon(pedidos: map<int, seq<Detalle>>, k: int, detalle: seq<Detalle>, p: int)
    ensures Comprometido(pedidos[k := detalle], p) == Comprometido(pedidos - {k}, p) + CantidadDe(detalle, p)
  {
    ComprometidoSin(pedidos[k := detalle], k, p);
    assert pedidos[k := detalle] - {k} == pedidos - {k};
  }

  /** The stock agrees with the orders: each product's stock is its stock in
      `base`, the catalogue before any order, less what the orders ask. */
  ghost predicate Consistente(e: Estado, base: map<int, int>)
  {
    && e.existencias.Keys == base.Keys
    && forall p :: p in e.existencias ==> e.existencias[p] == base[p] - Comprometido(e.pedidos, p)
  }

  /** The seeded store is consistent with its own catalogue. */
  lemma InicialConsistente(catalogo: map<int, int>)
    ensures Consistente(Inicial(catalogo), catalogo)
  {
  }

  /** A completed Insertar keeps the stock consistent. */
  lemma InsertarConsistente(e: Estado, pedido: Pedido, base: map<int, int>)
    requires Consistente(e, base) && Insertar(e, pedido).resultado == Hecho(true)
    ensures Consistente(Insertar(e, pedido).estado, base)
  {
    InsertarExito(e, pedido);
    var clave := Clave(e, pedido.pedidoId);
    forall p | p in e.existencias
      ensures Insertar(e, pedido).estado.existencias[p] == base[p] - Comprometido(Insertar(e, pedido).estado.pedidos, p)
    {
      ComprometidoCon(e.pedidos, clave, pedido.detalle, p);
      assert e.pedidos - {clave} == e.pedidos;
    }
  }

  /** A completed Modificar keeps the stock consistent. */
  lemma ModificarConsistente(e: Estado, pedido: Pedido, base: map<int, int>)
    requires Consistente(e, base) && Modificar(e, pedido).resultado == Hecho(true)
    ensures Consistente(Modificar(e, pedido).estado, base)
  {
    ModificarExito(e, pedido);
    var id := pedido.pedidoId;
    forall p | p in e.existencias
      ensures Modificar(e, pedido).estado.existencias[p] == base[p] - Comprometido(Modificar(e, pedido).estado.pedidos, p)
    {
      ComprometidoCon(e.pedidos, id, pedido.detalle, p);
      ComprometidoSin(e.pedidos, id, p);
    }
  }

  /** A completed Eliminar keeps the stock consistent. */
  lemma EliminarConsistente(e: Estado, pedidoId: int, base: map<int, int>)
    requires Consistente(e, base) && Eliminar(e, pedidoId).resultado == Hecho(true)
    ensures Consistente(Eliminar(e, pedidoId).estado, base)
  {
    AfectarCompletoSiiCatalogado(e.existencias, e.pedidos[pedidoId], Suma);
    EliminarExito(e, pedidoId);
    forall p | p in e.existencias
      ensures Eliminar(e, pedidoId).estado.existencias[p] == base[p] - Comprometido(Eliminar(e, pedidoId).estado.pedidos, p)
    {
      ComprometidoSin(e.pedidos, pedidoId, p);
    }
  }

  /** A completed Guardar keeps the stock consistent, whichever way Existe
      sent it. */
  lemma GuardarConsistente(e: Estado, pedido: Pedido, base: map<int, int>)
    requires Consistente(e, base) && Guardar(e, pedido).resultado == Hecho(true)
    ensures Consistente(Guardar(e, pedido).estado, base)
  {
    if pedido.pedidoId in e.pedidos {
      ModificarConsistente(e, pedido, base);
    } else {
      InsertarConsistente(e, pedido, base);
    }
  }

  /** An Insertar whose second line names no product leaves the first line's
      stock taken with no order to show for it: the store is no longer
      consistent with its catalogue. */
  lemma InsertarParcialInconsistente()
    ensures var e := Inicial(map[1 := 10]);
            var r := Insertar(e, Pedido(0, [Detalle(1, 3), Detalle(9, 1)]));
            && r.resultado == Excepcion(ProductoNoEncontrado(9))
            && r.estado.existencias == map[1 := 7]
            && r.estado.pedidos == map[]
            && !Consistente(r.estado, map[1 := 10])
  {
    var d := [Detalle(1, 3), Detalle(9, 1)];
    assert d[..1] == [Detalle(1, 3)];
    assert d[..1][..0] == [];
    assert Afectar(map[1 := 10], d[..1], Resta) == Ajuste(map[1 := 7], None);
    assert Afectar(map[1 := 10], d, Resta) == Ajuste(map[1 := 7], Some(9));
  }

  /** An Insertar under a key already stored takes the stock and then fails
      to save, with the same effect. */
  lemma InsertarDuplicadoInconsistente()
    ensures var e := Estado(map[1 := 7], map[5 := [Detalle(1, 3)]], 5);
            var r := Insertar(e, Pedido(5, [Detalle(1, 2)]));
            && Consistente(e, map[1 := 10])
            && r.resultado == Excepcion(ClaveDuplicada(5))
            && r.estado.pedidos == e.pedidos
            && !Consistente(r.estado, map[1 := 10])
  {
    var e := Estado(map[1 := 7], map[5 := [Detalle(1, 3)]], 5);
    ComprometidoSin(e.pedidos, 5, 1);
    assert e.pedidos - {5} == map[];
    assert [Detalle(1, 3)][..0] == [];
    assert [Detalle(1, 2)][..0] == [];
  }
}
