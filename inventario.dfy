/**
 The stock adjustment of PedidoServices.AfectarExistencia
 (Services/PedidoServices.cs:16-33) as a function on the catalogue's stock
 map, and what it does to every product's `Existencia`.

 The source walks the lines in order; for each line it looks the product up
 with `SingleAsync` (which throws when no product has that key), adds or
 subtracts the line's quantity and commits at once. A missing product
 therefore ends the walk with the lines before it already applied and
 committed. The arithmetic here is exact; the 32-bit `int` column holds the
 wrapped value of it (Models.Truncar), which the service class keeps.
 */
module Inventario {
  import opened Models

  /** The direction of an adjustment (`Operacion`, Services/PedidoServices.cs:10-14). */
  datatype Operacion = Suma | Resta

  /** The direction that undoes `op`. */
  function Inversa(op: Operacion): Operacion
  {
    if op == Suma then Resta else Suma
  }

  /** The signed change that `cantidad` brings to the stock under `op`. */
  function Cambio(op: Operacion, cantidad: int): int
  {
    if op == Suma then cantidad else -cantidad
  }

  /** The total quantity the lines in `detalle` ask of product `productoId`. */
  function CantidadDe(detalle: seq<Detalle>, productoId: int): int
    decreases |detalle|
  {
    if detalle == [] then 0
    else
      var ultimo := detalle[|detalle| - 1];
      CantidadDe(detalle[..|detalle| - 1], productoId)
        + (if ultimo.productoId == productoId then ultimo.cantidad else 0)
  }

  /** The products the lines of `detalle` name. */
  function Productos(detalle: seq<Detalle>): set<int>
    decreases |detalle|
  {
    if detalle == [] then {}
    else Productos(detalle[..|detalle| - 1]) + {detalle[|detalle| - 1].productoId}
  }

  /** Every line of `detalle` names a product of the catalogue. */
  predicate Catalogado(existencias: map<int, int>, detalle: seq<Detalle>)
  {
    Productos(detalle) <= existencias.Keys
  }

  /** The outcome of an adjustment: the stock it leaves committed, and the
      product whose lookup failed, if one did. */
  datatype Ajuste = Ajuste(existencias: map<int, int>, faltante: Option<int>)

  /** The effect of AfectarExistencia(detalle, op) on the stock map, line by
      line in the order of `detalle`. The catalogue's keys never change. */
  function Afectar(existencias: map<int, int>, detalle: seq<Detalle>, op: Operacion): (r: Ajuste)
    ensures r.existencias.Keys == existencias.Keys
    decreases |detalle|
  {
    if detalle == [] then Ajuste(existencias, None)
    else
      var previo := Afectar(existencias, detalle[..|detalle| - 1], op);
      var item := detalle[|detalle| - 1];
      if previo.faltante.Some? then previo
      else if item.productoId !in previo.existencias then Ajuste(previo.existencias, Some(item.productoId))
      else
        var p := item.productoId;
        Ajuste(previo.existencias[p := previo.existencias[p] + Cambio(op, item.cantidad)], None)
  }

  /** The adjustment completes exactly when every line names a catalogued product. */
  lemma {:induction false} AfectarCompletoSiiCatalogado(existencias: map<int, int>, detalle: seq<Detalle>, op: Operacion)
    ensures Afectar(existencias, detalle, op).faltante == None <==> Catalogado(existencias, detalle)
    decreases |detalle|
  {
    if detalle != [] {
      AfectarCompletoSiiCatalogado(existencias, detalle[..|detalle| - 1], op);
    }
  }

  /** A completed adjustment moves each product's stock by exactly the signed
      sum of the quantities of the lines that name it. */
  lemma AfectarExito(existencias: map<int, int>, detalle: seq<Detalle>, op: Operacion)
    requires Catalogado(existencias, detalle)
    ensures Afectar(existencias, detalle, op).faltante == None
    ensures forall p :: p in existencias ==>
      Afectar(existencias, detalle, op).existencias[p] == existencias[p] + Cambio(op, CantidadDe(detalle, p))
  {
    AfectarCompletoSiiCatalogado(existencias, detalle, op);
    forall p | p in existencias
      ensures Afectar(existencias, detalle, op).existencias[p] == existencias[p] + Cambio(op, CantidadDe(detalle, p))
    {
      AfectarEn(existencias, detalle, op, p);
    }
  }

  /** AfectarExito at one product, by induction on the lines. */
  lemma {:induction false} AfectarEn(existencias: map<int, int>, detalle: seq<Detalle>, op: Operacion, p: int)
    requires Catalogado(existencias, detalle) && p in existencias
    ensures Afectar(existencias, detalle, op).existencias[p] == existencias[p] + Cambio(op, CantidadDe(detalle, p))
    decreases |detalle|
  {
    if detalle != [] {
      var n := |detalle| - 1;
      AfectarEn(existencias, detalle[..n], op, p);
      AfectarCompletoSiiCatalogado(existencias, detalle[..n], op);
    }
  }

  /** Once the adjustment of a prefix has failed, the later lines change nothing. */
  lemma {:induction false} AfectarFallaPersiste(existencias: map<int, int>, detalle: seq<Detalle>, k: nat, op: Operacion)
    requires k <= |detalle|
    requires Afectar(existencias, detalle[..k], op).faltante.Some?
    ensures Afectar(existencias, detalle, op) == Afectar(existencias, detalle[..k], op)
    decreases |detalle|
  {
    if k < |detalle| {
      var n := |detalle| - 1;
      assert detalle[..n][..k] == detalle[..k];
      AfectarFallaPersiste(existencias, detalle[..n], k, op);
    } else {
      assert detalle[..k] == detalle;
    }
  }

  /** The partial failure: when line k is the first whose product is missing,
      the adjustment reports that product, and the stock it leaves is the
      stock after the lines before k, which stay applied. */
  lemma AfectarFalla(existencias: map<int, int>, detalle: seq<Detalle>, k: nat, op: Operacion)
    requires k < |detalle|
    requires Catalogado(existencias, detalle[..k])
    requires detalle[k].productoId !in existencias
    ensures Afectar(existencias, detalle, op).faltante == Some(detalle[k].productoId)
    ensures forall p :: p in existencias ==>
      Afectar(existencias, detalle, op).existencias[p] == existencias[p] + Cambio(op, CantidadDe(detalle[..k], p))
  {
    AfectarExito(existencias, detalle[..k], op);
    assert detalle[..k + 1][..k] == detalle[..k];
    AfectarFallaPersiste(existencias, detalle, k + 1, op);
  }

  /** A product that no line names keeps its stock, whether or not the
      adjustment completes. */
  lemma {:induction false} AfectarNoNombrado(existencias: map<int, int>, detalle: seq<Detalle>, op: Operacion, p: int)
    requires p in existencias && p !in Productos(detalle)
    ensures Afectar(existencias, detalle, op).existencias[p] == existencias[p]
    decreases |detalle|
  {
    if detalle != [] {
      AfectarNoNombrado(existencias, detalle[..|detalle| - 1], op, p);
    }
  }

  /** Two completed adjustments in a row move each product by the sum of
      their signed quantities. */
  lemma AfectarDosVeces(existencias: map<int, int>, primero: seq<Detalle>, op1: Operacion,
                        segundo: seq<Detalle>, op2: Operacion)
    requires Catalogado(existencias, primero) && Catalogado(existencias, segundo)
    ensures Afectar(Afectar(existencias, primero, op1).existencias, segundo, op2).faltante == None
    ensures forall p :: p in existencias ==>
      Afectar(Afectar(existencias, primero, op1).existencias, segundo, op2).existencias[p]
        == existencias[p] + Cambio(op1, CantidadDe(primero, p)) + Cambio(op2, CantidadDe(segundo, p))
  {
    AfectarExito(existencias, primero, op1);
    AfectarExito(Afectar(existencias, primero, op1).existencias, segundo, op2);
  }

  /** `Suma` and `Resta` undo each other: adjusting by `op` and then by the
      inverse direction over the same lines restores every stock exactly. */
  lemma AfectarInverso(existencias: map<int, int>, detalle: seq<Detalle>, op: Operacion)
    requires Catalogado(existencias, detalle)
    ensures Afectar(Afectar(existencias, detalle, op).existencias, detalle, Inversa(op)) == Ajuste(existencias, None)
  {
    AfectarDosVeces(existencias, detalle, op, detalle, Inversa(op));
    var fin := Afectar(Afectar(existencias, detalle, op).existencias, detalle, Inversa(op)).existencias;
    forall p | p in existencias
      ensures fin[p] == existencias[p]
    {
      var c := CantidadDe(detalle, p);
      assert Cambio(op, c) + Cambio(Inversa(op), c) == 0;
    }
  }

  /** Which lookup fails depends only on the catalogue's keys, never on the
      stock values. */
  lemma {:induction false} AfectarFaltanteClaves(m1: map<int, int>, m2: map<int, int>, detalle: seq<Detalle>, op: Operacion)
    requires m1.Keys == m2.Keys
    ensures Afectar(m1, detalle, op).faltante == Afectar(m2, detalle, op).faltante
    decreases |detalle|
  {
    if detalle != [] {
      AfectarFaltanteClaves(m1, m2, detalle[..|detalle| - 1], op);
    }
  }

  /** The adjustment of the lines up to and including line i, when those
      before it completed: line i's product moves by its signed quantity, or
      the adjustment stops there when the product is missing. */
  lemma AfectarSiguiente(existencias: map<int, int>, detalle: seq<Detalle>, i: nat, op: Operacion, previo: map<int, int>)
    requires i < |detalle|
    requires Afectar(existencias, detalle[..i], op) == Ajuste(previo, None)
    ensures var p := detalle[i].productoId;
            Afectar(existencias, detalle[..i + 1], op)
              == if p in previo then Ajuste(previo[p := previo[p] + Cambio(op, detalle[i].cantidad)], None)
                 else Ajuste(previo, Some(p))
  {
    assert detalle[..i + 1][..i] == detalle[..i];
  }

  /** No lower bound is enforced: subtracting more than is in stock leaves a
      negative `Existencia`. */
  lemma ExistenciaNegativa()
    ensures Afectar(map[2 := 5], [Detalle(2, 10)], Resta) == Ajuste(map[2 := -5], None)
  {
  }
}
