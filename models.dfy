/**
 The entities of the order store (Models/Pedido.cs, Models/PedidoDetalle.cs,
 Models/Productos.cs), reduced to the integer fields the inventory protocol
 reads, and the 32-bit arithmetic of C#'s `int`.
 */
module Models {

  datatype Option<+T> = None | Some(value: T)

  const Int32Min: int := -0x8000_0000
  const Int32Max: int := 0x7fff_ffff
  const Modulus: int := 0x1_0000_0000

  /** The values of a C# `int`. */
  type Int32 = x: int | -0x8000_0000 <= x <= 0x7fff_ffff

  /** What an unchecked C# `int` addition leaves in the variable: the exact
      result brought back into the `int` range by whole multiples of 2^32. */
  function Wrap(x: int): (r: Int32)
    ensures Int32Min <= x <= Int32Max ==> r == x
  {
    (x - Int32Min) % Modulus + Int32Min
  }

  /** Wrapping changes a value by a whole multiple of 2^32. */
  lemma WrapCongruente(x: int)
    ensures (x - Wrap(x)) % Modulus == 0
  {
  }

  /** Two `int` values that agree modulo 2^32 are the same value. */
  lemma CongruentEqual(a: Int32, b: Int32)
    requires (a - b) % Modulus == 0
    ensures a == b
  {
  }

  /** Wrapping an intermediate result changes nothing: adding to a wrapped
      value and wrapping again is wrapping the exact sum. */
  lemma WrapAdd(a: int, b: int)
    ensures Wrap(Wrap(a) + b) == Wrap(a + b)
  {
    var w := Wrap(a);
    var u := Wrap(w + b);
    var v := Wrap(a + b);
    WrapCongruente(a);
    WrapCongruente(w + b);
    WrapCongruente(a + b);
    var i, j, k := (a - w) / Modulus, (w + b - u) / Modulus, (a + b - v) / Modulus;
    assert a - w == i * Modulus;
    assert w + b - u == j * Modulus;
    assert a + b - v == k * Modulus;
    assert u - v == (k - i - j) * Modulus;
    CongruentEqual(u, v);
  }

  /** The stock map as the 32-bit `Existencia` column holds it: every exact
      value wrapped into the `int` range. */
  function Truncar(m: map<int, int>): map<int, Int32>
  {
    map k | k in m :: Wrap(m[k])
  }

  /** Wrapping after every single-product update is wrapping once at the
      end: updating the wrapped map wrapped-ly is wrapping the exact update. */
  lemma TruncarPaso(m: map<int, int>, k: int, c: int)
    requires k in m
    ensures Truncar(m[k := m[k] + c]) == Truncar(m)[k := Wrap(Truncar(m)[k] + c)]
  {
    WrapAdd(m[k], c);
  }

  /** A map whose values already fit in an `int` is its own wrapped form. */
  lemma TruncarFijo(m: map<int, Int32>)
    ensures Truncar(m) == m
  {
    forall k | k in m
      ensures Truncar(m)[k] == m[k]
    {
      assert Int32Min <= m[k] <= Int32Max;
    }
  }

  /** An order line (PedidoDetalle): the product it names and its quantity
      (`Cantidad`). The `Range(1, int.MaxValue)` annotation is not enforced by
      the service, so any `int` quantity is admitted. */
  datatype Detalle = Detalle(productoId: int, cantidad: Int32)

  /** An order (Pedido): its key and its lines. */
  datatype Pedido = Pedido(pedidoId: int, detalle: seq<Detalle>)

  /** A catalogue row (Productos): its key and its stock (`Existencia`). */
  datatype Producto = Producto(productoId: int, existencia: Int32)
}
