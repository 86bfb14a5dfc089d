/**
 The order store of PedidoServices (Services/PedidoServices.cs:8-134) as a
 state machine over two tables: the catalogue's stock per product and the
 stored orders with their lines, plus the last key the SQLite
 AUTOINCREMENT sequence has handed out (Migrations/20251103021127_Inicial.cs:20-21).

 Each operation yields the state it leaves committed and what the caller
 sees: `Hecho(b)` for a returned bool, `Excepcion(e)` for a thrown exception.
 Stock adjustments run in their own context and commit line by line before
 the operation's own SaveChanges, so a failure after them leaves them in place.
 */
module Almacen {
  import opened Models
  import opened Inventario

  /** The committed contents of the two tables. */
  datatype Estado = Estado(existencias: map<int, int>, pedidos: map<int, seq<Detalle>>, ultimaClave: int)

  /** The exceptions the store's operations can raise. */
  datatype Error =
    | ProductoNoEncontrado(productoId: int)   // SingleAsync found no product
    | ClaveDuplicada(pedidoId: int)           // the order's key is already stored

  datatype Resultado = Hecho(exito: bool) | Excepcion(error: Error)

  datatype Paso = Paso(estado: Estado, resultado: Resultado)

  /** The key a newly added order is stored under: an unset key (0) takes the
      next value of the AUTOINCREMENT sequence, any other is kept. */
  function Clave(e: Estado, pedidoId: int): int
  {
    if pedidoId == 0 then e.ultimaClave + 1 else pedidoId
  }

  /** The states the operations reach from the seed: key 0 is never stored
      (it means "unset"), the sequence is at or past every stored key, and
      every stored line names a catalogued product. The schema has no foreign
      key from a line to its product; the last clause holds because lines are
      only saved after their stock adjustment completed and no operation
      removes a product. */
  predicate Valido(e: Estado)
  {
    && 0 <= e.ultimaClave
    && 0 !in e.pedidos
    && (forall k :: k in e.pedidos ==> k <= e.ultimaClave && Catalogado(e.existencias, e.pedidos[k]))
  }

  /** The store right after the seed: the catalogue, no orders. */
  function Inicial(catalogo: map<int, int>): (e: Estado)
    ensures Valido(e)
  {
    Estado(catalogo, map[], 0)
  }

  /** Insertar (Services/PedidoServices.cs:41-50): the stock is decreased by
      the order's lines, then the order is saved. A missing product stops the
      adjustment; a key already stored makes the save fail after the stock was
      decreased. */
  function Insertar(e: Estado, pedido: Pedido): (r: Paso)
    ensures r.estado.existencias.Keys == e.existencias.Keys
    ensures r.resultado != Hecho(false)
  {
    var a := Afectar(e.existencias, pedido.detalle, Resta);
    var clave := Clave(e, pedido.pedidoId);
    if a.faltante.Some? then
      Paso(e.(existencias := a.existencias), Excepcion(ProductoNoEncontrado(a.faltante.value)))
    else if clave in e.pedidos then
      Paso(e.(existencias := a.existencias), Excepcion(ClaveDuplicada(clave)))
    else
      var ultima := if clave > e.ultimaClave then clave else e.ultimaClave;
      Paso(Estado(a.existencias, e.pedidos[clave := pedido.detalle], ultima), Hecho(true))
  }

  /** Modificar (Services/PedidoServices.cs:52-75): returns false, changing
      nothing, when the key is not stored; otherwise gives back the stored
      lines' stock, takes the new lines' stock and saves the new lines. */
  function Modificar(e: Estado, pedido: Pedido): (r: Paso)
    ensures r.estado.existencias.Keys == e.existencias.Keys
    ensures r.resultado == Hecho(false) <==> pedido.pedidoId !in e.pedidos
    ensures r.resultado == Hecho(false) ==> r.estado == e
  {
    if pedido.pedidoId !in e.pedidos then Paso(e, Hecho(false))
    else
      var a := Afectar(e.existencias, e.pedidos[pedido.pedidoId], Suma);
      if a.faltante.Some? then
        Paso(e.(existencias := a.existencias), Excepcion(ProductoNoEncontrado(a.faltante.value)))
      else
        var b := Afectar(a.existencias, pedido.detalle, Resta);
        if b.faltante.Some? then
          Paso(e.(existencias := b.existencias), Excepcion(ProductoNoEncontrado(b.faltante.value)))
        else
          Paso(e.(existencias := b.existencias, pedidos := e.pedidos[pedido.pedidoId := pedido.detalle]), Hecho(true))
  }

  /** Eliminar (Services/PedidoServices.cs:77-94): returns false, changing
      nothing, when the key is not stored; otherwise gives back the order's
      stock and removes it. */
  function Eliminar(e: Estado, pedidoId: int): (r: Paso)
    ensures r.estado.existencias.Keys == e.existencias.Keys
    ensures r.resultado == Hecho(false) <==> pedidoId !in e.pedidos
    ensures r.resultado == Hecho(false) ==> r.estado == e
  {
    if pedidoId !in e.pedidos then Paso(e, Hecho(false))
    else
      var a := Afectar(e.existencias, e.pedidos[pedidoId], Suma);
      if a.faltante.Some? then
        Paso(e.(existencias := a.existencias), Excepcion(ProductoNoEncontrado(a.faltante.value)))
      else
        Paso(e.(existencias := a.existencias, pedidos := e.pedidos - {pedidoId}), Hecho(true))
  }

  /** Guardar (Services/PedidoServices.cs:104-115): Insertar when Existe says
      the key is not stored, Modificar otherwise. */
  function Guardar(e: Estado, pedido: Pedido): (r: Paso)
    ensures pedido.pedidoId !in e.pedidos ==> r == Insertar(e, pedido)
    ensures pedido.pedidoId in e.pedidos ==> r == Modificar(e, pedido)
  {
    if pedido.pedidoId !in e.pedidos then Insertar(e, pedido) else Modificar(e, pedido)
  }

  /** Insertar succeeds exactly when every line names a catalogued product
      and the key is free; it then stores the lines under that key and
      decreases each product by the quantities its lines ask. */
  lemma InsertarExito(e: Estado, pedido: Pedido)
    ensures Insertar(e, pedido).resultado == Hecho(true)
        <==> Catalogado(e.existencias, pedido.detalle) && Clave(e, pedido.pedidoId) !in e.pedidos
    ensures Insertar(e, pedido).resultado == Hecho(true) ==>
      && Insertar(e, pedido).estado.pedidos == e.pedidos[Clave(e, pedido.pedidoId) := pedido.detalle]
      && forall p :: p in e.existencias ==>
           Insertar(e, pedido).estado.existencias[p] == e.existencias[p] - CantidadDe(pedido.detalle, p)
  {
    AfectarCompletoSiiCatalogado(e.existencias, pedido.detalle, Resta);
    if Catalogado(e.existencias, pedido.detalle) {
      AfectarExito(e.existencias, pedido.detalle, Resta);
    }
  }

  /** An order without lines leaves the stock as it was. */
  lemma InsertarSinLineas(e: Estado, pedido: Pedido)
    requires pedido.detalle == []
    ensures Insertar(e, pedido).estado.existencias == e.existencias
  {
  }

  /** In a valid store an unset key never collides: the generated key is past
      every stored one. */
  lemma ClaveGeneradaLibre(e: Estado)
    requires Valido(e)
    ensures Clave(e, 0) !in e.pedidos
  {
  }

  /** Modificar succeeds exactly when the key is stored and every line of
      both versions names a catalogued product; it then stores exactly the
      new lines and moves each product by the old quantities minus the new. */
  lemma ModificarExito(e: Estado, pedido: Pedido)
    ensures Modificar(e, pedido).resultado == Hecho(true)
        <==> && pedido.pedidoId in e.pedidos
             && Catalogado(e.existencias, e.pedidos[pedido.pedidoId])
             && Catalogado(e.existencias, pedido.detalle)
    ensures Modificar(e, pedido).resultado == Hecho(true) ==>
      && Modificar(e, pedido).estado.pedidos == e.pedidos[pedido.pedidoId := pedido.detalle]
      && forall p :: p in e.existencias ==>
           Modificar(e, pedido).estado.existencias[p]
             == e.existencias[p] + CantidadDe(e.pedidos[pedido.pedidoId], p) - CantidadDe(pedido.detalle, p)
  {
    if pedido.pedidoId in e.pedidos {
      var original := e.pedidos[pedido.pedidoId];
      var a := Afectar(e.existencias, original, Suma);
      AfectarCompletoSiiCatalogado(e.existencias, original, Suma);
      AfectarCompletoSiiCatalogado(a.existencias, pedido.detalle, Resta);
      if Catalogado(e.existencias, original) && Catalogado(e.existencias, pedido.detalle) {
        AfectarDosVeces(e.existencias, original, Suma, pedido.detalle, Resta);
      }
    }
  }

  /** Eliminar on a stored key whose lines all name catalogued products
      removes the order and raises each product by the order's quantities. */
  lemma EliminarExito(e: Estado, pedidoId: int)
    requires pedidoId in e.pedidos && Catalogado(e.existencias, e.pedidos[pedidoId])
    ensures Eliminar(e, pedidoId).resultado == Hecho(true)
    ensures Eliminar(e, pedidoId).estado.pedidos == e.pedidos - {pedidoId}
    ensures forall p :: p in e.existencias ==>
      Eliminar(e, pedidoId).estado.existencias[p] == e.existencias[p] + CantidadDe(e.pedidos[pedidoId], p)
  {
    AfectarExito(e.existencias, e.pedidos[pedidoId], Suma);
  }

  /** Insertar then Eliminar of the same order restores the stock and the
      stored orders exactly; only the AUTOINCREMENT sequence has moved on. */
  lemma InsertarEliminar(e: Estado, pedido: Pedido)
    requires Insertar(e, pedido).resultado == Hecho(true)
    ensures var d := Insertar(e, pedido).estado;
            Eliminar(d, Clave(e, pedido.pedidoId)) == Paso(e.(ultimaClave := d.ultimaClave), Hecho(true))
  {
    InsertarExito(e, pedido);
    var clave := Clave(e, pedido.pedidoId);
    var d := Insertar(e, pedido).estado;
    AfectarInverso(e.existencias, pedido.detalle, Resta);
    assert d.pedidos - {clave} == e.pedidos;
  }

  /** Modificar has the stock effect and the outcome of Eliminar followed by
      Insertar of the new version, and on success leaves the same store; when
      the new lines fail, Modificar keeps the old order stored where the pair
      would have lost it. */
  lemma ModificarComoEliminarInsertar(e: Estado, pedido: Pedido)
    requires Valido(e) && pedido.pedidoId in e.pedidos
    ensures var m := Modificar(e, pedido);
            var r := Eliminar(e, pedido.pedidoId);
            var s := if r.resultado == Hecho(true) then Insertar(r.estado, pedido) else r;
            && m.resultado == s.resultado
            && m.estado.existencias == s.estado.existencias
            && (m.resultado == Hecho(true) ==> m.estado == s.estado)
  {
    var id := pedido.pedidoId;
    assert id != 0 && id <= e.ultimaClave;
    var r := Eliminar(e, id);
    if r.resultado == Hecho(true) {
      assert Clave(r.estado, id) == id;
      assert (e.pedidos - {id})[id := pedido.detalle] == e.pedidos[id := pedido.detalle];
    }
  }

  /** Every operation keeps the store valid, whatever it returns or raises. */
  lemma InsertarValido(e: Estado, pedido: Pedido)
    requires Valido(e)
    ensures Valido(Insertar(e, pedido).estado)
  {
    var r := Insertar(e, pedido);
    var clave := Clave(e, pedido.pedidoId);
    InsertarExito(e, pedido);
    forall k | k in r.estado.pedidos
      ensures k <= r.estado.ultimaClave && Catalogado(r.estado.existencias, r.estado.pedidos[k])
    {
    }
  }

  lemma ModificarValido(e: Estado, pedido: Pedido)
    requires Valido(e)
    ensures Valido(Modificar(e, pedido).estado)
  {
    var r := Modificar(e, pedido);
    if pedido.pedidoId in e.pedidos {
      var a := Afectar(e.existencias, e.pedidos[pedido.pedidoId], Suma);
      AfectarCompletoSiiCatalogado(e.existencias, e.pedidos[pedido.pedidoId], Suma);
      AfectarCompletoSiiCatalogado(a.existencias, pedido.detalle, Resta);
    }
    forall k | k in r.estado.pedidos
      ensures k <= r.estado.ultimaClave && Catalogado(r.estado.existencias, r.estado.pedidos[k])
    {
    }
  }

  lemma EliminarValido(e: Estado, pedidoId: int)
    requires Valido(e)
    ensures Valido(Eliminar(e, pedidoId).estado)
  {
    var r := Eliminar(e, pedidoId);
    forall k | k in r.estado.pedidos
      ensures k <= r.estado.ultimaClave && Catalogado(r.estado.existencias, r.estado.pedidos[k])
    {
    }
  }

  lemma GuardarValido(e: Estado, pedido: Pedido)
    requires Valido(e)
    ensures Valido(Guardar(e, pedido).estado)
  {
    if pedido.pedidoId in e.pedidos {
      ModificarValido(e, pedido);
    } else {
      InsertarValido(e, pedido);
    }
  }

  /** In a valid store Eliminar never raises: every stored line names a
      catalogued product, so giving its stock back always completes. */
  lemma EliminarNoFalla(e: Estado, pedidoId: int)
    requires Valido(e)
    ensures Eliminar(e, pedidoId).resultado == Hecho(pedidoId in e.pedidos)
  {
    if pedidoId in e.pedidos {
      EliminarExito(e, pedidoId);
    }
  }

  /** The seeded catalogue (DAL/Contexto.cs:17-42), as a stock map. */
  function Sembrado(): map<int, int>
  {
    map[1 := 150, 2 := 100, 3 := 50]
  }

  /** First step of the scenario: an order of 10 Arroz gets key 1. */
  lemma EscenarioAlta()
    ensures Insertar(Inicial(Sembrado()), Pedido(0, [Detalle(2, 10)]))
            == Paso(Estado(Sembrado()[2 := 90], map[1 := [Detalle(2, 10)]], 1), Hecho(true))
  {
    assert [Detalle(2, 10)][..0] == [];
  }

  /** Second step: the order is changed to 4 Arroz. */
  lemma EscenarioCambio()
    ensures Modificar(Estado(Sembrado()[2 := 90], map[1 := [Detalle(2, 10)]], 1), Pedido(1, [Detalle(2, 4)]))
            == Paso(Estado(Sembrado()[2 := 96], map[1 := [Detalle(2, 4)]], 1), Hecho(true))
  {
    assert [Detalle(2, 10)][..0] == [];
    assert [Detalle(2, 4)][..0] == [];
    assert Sembrado()[2 := 90][2 := 100] == Sembrado();
  }

  /** Third step: the order is deleted. */
  lemma EscenarioBaja()
    ensures Eliminar(Estado(Sembrado()[2 := 96], map[1 := [Detalle(2, 4)]], 1), 1)
            == Paso(Estado(Sembrado(), map[], 1), Hecho(true))
  {
    assert [Detalle(2, 4)][..0] == [];
    assert Sembrado()[2 := 96][2 := 100] == Sembrado();
    assert map[1 := [Detalle(2, 4)]] - {1} == map[];
  }

  /** The seeded catalogue (DAL/Contexto.cs:17-42): an order of 10 Arroz takes
      its stock from 100 to 90, changing it to 4 brings it to 96, and deleting
      it brings it back to 100. */
  lemma Escenario()
    ensures var e0 := Inicial(Sembrado());
            var e1 := Insertar(e0, Pedido(0, [Detalle(2, 10)]));
            var e2 := Modificar(e1.estado, Pedido(1, [Detalle(2, 4)]));
            var e3 := Eliminar(e2.estado, 1);
            && e1.resultado == Hecho(true) && e1.estado.existencias[2] == 90 && 1 in e1.estado.pedidos
            && e2.resultado == Hecho(true) && e2.estado.existencias[2] == 96
            && e3 == Paso(Estado(Sembrado(), map[], 1), Hecho(true))
  {
    EscenarioAlta();
    EscenarioCambio();
    EscenarioBaja();
  }
}
