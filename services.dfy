/**
 PedidoServices (Services/PedidoServices.cs:8-134) as a class over the two
 tables it reads and writes. `existencias` is the `Existencia` column, a C#
 `int` per product; `pedidos` the stored orders with their lines;
 `ultimaClave` the AUTOINCREMENT sequence. The ghost `exactas` is the
 unbounded running total of each product, of which the column is the 32-bit
 wrap; every state-changing method leaves `exactas`, `pedidos` and
 `ultimaClave` as the matching Almacen function says.
 */
module Services {
  import opened Models
  import opened Inventario
  import Almacen

  class PedidoServices {
    var existencias: map<int, Int32>
    var pedidos: map<int, seq<Detalle>>
    var ultimaClave: int
    ghost var exactas: map<int, int>

    /** The `int` column holds the exact totals wrapped to 32 bits. */
    ghost predicate Valid()
      reads this
    {
      existencias == Truncar(exactas)
    }

    /** The committed store, with exact stock. */
    ghost function Estado(): Almacen.Estado
      reads this
    {
      Almacen.Estado(exactas, pedidos, ultimaClave)
    }

    /** The service over the seeded catalogue (DAL/Contexto.cs:17-42), with no orders. */
    constructor (catalogo: map<int, Int32>)
      ensures Valid()
      ensures existencias == catalogo
      ensures Estado() == Almacen.Inicial(catalogo)
    {
      existencias := catalogo;
      pedidos := map[];
      ultimaClave := 0;
      exactas := catalogo;
      TruncarFijo(catalogo);
    }

    /** One line of AfectarExistencia (Services/PedidoServices.cs:24-29): add
        or subtract the quantity in the product's `int` column, which wraps on
        overflow, while the exact total moves by the signed quantity. */
    method AfectarProducto(productoId: int, cantidad: Int32, op: Operacion)
      requires Valid() && productoId in existencias
      modifies this
      ensures Valid()
      ensures exactas == old(exactas)[productoId := old(exactas)[productoId] + Cambio(op, cantidad)]
      ensures pedidos == old(pedidos) && ultimaClave == old(ultimaClave)
    {
      var suma := if op == Suma then existencias[productoId] + cantidad else existencias[productoId] - cantidad;
      assert suma == existencias[productoId] + Cambio(op, cantidad);
      TruncarPaso(exactas, productoId, Cambio(op, cantidad));
      existencias := existencias[productoId := Wrap(suma)];
      exactas := exactas[productoId := exactas[productoId] + Cambio(op, cantidad)];
    }

    /** AfectarExistencia (Services/PedidoServices.cs:16-33): the lines in
        order, each product looked up and adjusted and the change committed;
        a missing product ends the walk with the earlier lines applied. */
    method AfectarExistencia(detalle: seq<Detalle>, op: Operacion) returns (faltante: Option<int>)
      requires Valid()
      modifies this
      ensures Valid()
      ensures Ajuste(exactas, faltante) == Afectar(old(exactas), detalle, op)
      ensures pedidos == old(pedidos) && ultimaClave == old(ultimaClave)
    {
      var i := 0;
      while i < |detalle|
        invariant 0 <= i <= |detalle|
        invariant Valid()
        invariant Afectar(old(exactas), detalle[..i], op) == Ajuste(exactas, None)
        invariant pedidos == old(pedidos) && ultimaClave == old(ultimaClave)
      {
        var item := detalle[i];
        AfectarSiguiente(old(exactas), detalle, i, op, exactas);
        if item.productoId !in existencias {
          AfectarFallaPersiste(old(exactas), detalle, i + 1, op);
          return Some(item.productoId);
        }
        AfectarProducto(item.productoId, item.cantidad, op);
        i := i + 1;
      }
      assert detalle[..i] == detalle;
      return None;
    }

    /** Existe (Services/PedidoServices.cs:35-39). */
    method Existe(id: int) returns (b: bool)
      ensures b <==> id in pedidos
    {
      b := id in pedidos;
    }

    /** Insertar (Services/PedidoServices.cs:41-50). */
    method Insertar(pedido: Pedido) returns (r: Almacen.Resultado)
      requires Valid()
      modifies this
      ensures Valid()
      ensures Almacen.Paso(Estado(), r) == Almacen.Insertar(old(Estado()), pedido)
    {
      var faltante := AfectarExistencia(pedido.detalle, Resta);
      if faltante.Some? {
        return Almacen.Excepcion(Almacen.ProductoNoEncontrado(faltante.value));
      }
      var clave := if pedido.pedidoId == 0 then ultimaClave + 1 else pedido.pedidoId;
      if clave in pedidos {
        return Almacen.Excepcion(Almacen.ClaveDuplicada(clave));
      }
      pedidos := pedidos[clave := pedido.detalle];
      if clave > ultimaClave {
        ultimaClave := clave;
      }
      return Almacen.Hecho(true);
    }

    /** Modificar (Services/PedidoServices.cs:52-75). */
    method Modificar(pedido: Pedido) returns (r: Almacen.Resultado)
      requires Valid()
      modifies this
      ensures Valid()
      ensures Almacen.Paso(Estado(), r) == Almacen.Modificar(old(Estado()), pedido)
    {
      if pedido.pedidoId !in pedidos {
        return Almacen.Hecho(false);
      }
      var original := pedidos[pedido.pedidoId];
      var faltante := AfectarExistencia(original, Suma);
      if faltante.Some? {
        return Almacen.Excepcion(Almacen.ProductoNoEncontrado(faltante.value));
      }
      faltante := AfectarExistencia(pedido.detalle, Resta);
      if faltante.Some? {
        return Almacen.Excepcion(Almacen.ProductoNoEncontrado(faltante.value));
      }
      pedidos := pedidos[pedido.pedidoId := pedido.detalle];
      return Almacen.Hecho(true);
    }

    /** Eliminar (Services/PedidoServices.cs:77-94). */
    method Eliminar(pedidoId: int) returns (r: Almacen.Resultado)
      requires Valid()
      modifies this
      ensures Valid()
      ensures Almacen.Paso(Estado(), r) == Almacen.Eliminar(old(Estado()), pedidoId)
    {
      if pedidoId !in pedidos {
        return Almacen.Hecho(false);
      }
      var faltante := AfectarExistencia(pedidos[pedidoId], Suma);
      if faltante.Some? {
        return Almacen.Excepcion(Almacen.ProductoNoEncontrado(faltante.value));
      }
      pedidos := pedidos - {pedidoId};
      return Almacen.Hecho(true);
    }

    /** Buscar (Services/PedidoServices.cs:96-103): the stored order with
        its lines, or none for a key not stored. */
    method Buscar(pedidoId: int) returns (r: Option<Pedido>)
      ensures r.Some? <==> pedidoId in pedidos
      ensures r.Some? ==> r.value.pedidoId == pedidoId && r.value.detalle == pedidos[pedidoId]
    {
      if pedidoId in pedidos {
        r := Some(Pedido(pedidoId, pedidos[pedidoId]));
      } else {
        r := None;
      }
    }

    /** Guardar (Services/PedidoServices.cs:104-115). */
    method Guardar(pedido: Pedido) returns (r: Almacen.Resultado)
      requires Valid()
      modifies this
      ensures Valid()
      ensures Almacen.Paso(Estado(), r) == Almacen.Guardar(old(Estado()), pedido)
    {
      var existe := Existe(pedido.pedidoId);
      if !existe {
        r := Insertar(pedido);
      } else {
        r := Modificar(pedido);
      }
    }

    /** Listar (Services/PedidoServices.cs:117-125): the stored orders, with
        their lines, that satisfy `criterio`. */
    method Listar(criterio: Pedido -> bool) returns (r: set<Pedido>)
      ensures forall q :: q in r <==> q.pedidoId in pedidos && q.detalle == pedidos[q.pedidoId] && criterio(q)
    {
      r := set k | k in pedidos && criterio(Pedido(k, pedidos[k])) :: Pedido(k, pedidos[k]);
    }

    /** GetProductos (Services/PedidoServices.cs:127-133): every catalogue
        row with its stored stock. */
    method GetProductos() returns (r: set<Producto>)
      ensures forall q :: q in r <==> q.productoId in existencias && q.existencia == existencias[q.productoId]
    {
      r := set k | k in existencias :: Producto(k, existencias[k]);
    }
  }
}
