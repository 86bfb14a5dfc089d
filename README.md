# Order store and stock bookkeeping of `PedidoServices`

This project models the order service of a small Blazor/EF Core
application: `PedidoServices` keeps orders (`Pedido`, each with lines
`PedidoDetalle` naming a product and a quantity) and keeps each product's
stock (`Productos.Existencia`) in step with them. Inserting an order takes
its quantities out of stock, deleting it puts them back, and modifying it
puts back the old lines and takes the new ones. `Guardar` chooses between
insert and modify by asking `Existe`.

The model has five modules:

- `Models`: the entities, reduced to the integer fields the stock logic
  reads. It also holds the 32-bit arithmetic of C#'s `int` (`Wrap`,
  `Truncar`).
- `Inventario`: `AfectarExistencia` as the function `Afectar` on a stock
  map, in exact arithmetic. Its lemmas cover the per-product effect, the
  partial failure, and the inverse directions.
- `Almacen`: the store as a state machine. An `Estado` holds the stock, the
  orders and the AUTOINCREMENT sequence. `Insertar`, `Modificar`,
  `Eliminar` and `Guardar` each give the committed state and what the
  caller sees: a returned bool, or a raised exception.
- `Consistencia`: the bookkeeping invariant. Each product's stock equals
  its catalogue stock less the quantities of all stored orders. Completed
  operations keep it; a partial failure breaks it.
- `Services`: the class `PedidoServices`. Its fields are the stock column,
  the orders and the sequence. `AfectarExistencia` is a loop over the
  lines, and every method is proved to leave the state the `Almacen`
  function describes.

Behaviour the model follows from the code:

- A line whose product does not exist makes `SingleAsync` throw. The model
  reports this as `Excepcion(ProductoNoEncontrado(id))`.
- `AfectarExistencia` runs in its own context and saves after every line.
  So when a lookup fails, the lines before it stay applied, and the order
  itself is not saved.
- `Insertar` of an order with key 0 stores it under the next AUTOINCREMENT
  key. An explicit key that is already stored fails at the save, but only
  after the stock was already decreased. The model reports this as
  `ClaveDuplicada`.
- `Modificar` and `Eliminar` of a key that is not stored return `false`
  and change nothing.
- The stock is never checked against zero and may go negative.
- The `Existencia` column is a C# `int` and wraps on overflow. The class
  keeps the wrapped column, and beside it a ghost `exactas` with the exact
  totals. The `Almacen` and `Consistencia` results are about the exact
  totals, and the column is always their wrap modulo 2^32.

## Model

| member | source | states |
|---|---|---|
| `Models.WrapAdd` | Services/PedidoServices.cs:27-29 | Wrapping an intermediate `int` result changes nothing: adding to a wrapped value and wrapping gives the wrap of the exact sum. |
| `Models.TruncarPaso` | Services/PedidoServices.cs:24-29 | Updating one product of the wrapped column with wrapped arithmetic gives the column of the exact update. |
| `Inventario.Afectar` | Services/PedidoServices.cs:16-33 | An adjustment never adds or removes a catalogue product: the stock map keeps its keys. |
| `Inventario.AfectarCompletoSiiCatalogado` | Services/PedidoServices.cs:19-22 | The adjustment completes if and only if every line names an existing product. |
| `Inventario.AfectarExito` | Services/PedidoServices.cs:19-30 | When it completes, each product moves by exactly the signed sum of its lines' quantities: up for `Suma`, down for `Resta`. |
| `Inventario.AfectarNoNombrado` | Services/PedidoServices.cs:19-30 | A product no line names keeps its stock, whether or not the adjustment completes. |
| `Inventario.AfectarFallaPersiste` | Services/PedidoServices.cs:19-31 | Once a lookup has failed, the later lines change nothing. |
| `Inventario.AfectarFalla` | Services/PedidoServices.cs:19-31 | When line k is the first with a missing product, that product is reported. The stock left is that after lines 0..k-1, which stay committed. |
| `Inventario.AfectarSiguiente` | Services/PedidoServices.cs:19-31 | Adjusting one more line either moves that line's product by its signed quantity or stops, reporting the missing product. |
| `Inventario.AfectarFaltanteClaves` | Services/PedidoServices.cs:21-22 | Which lookup fails depends only on the catalogue's keys, never on stock values. |
| `Inventario.AfectarDosVeces` | Services/PedidoServices.cs:26-29 | Two completed adjustments in a row move each product by the sum of their signed quantities. |
| `Inventario.AfectarInverso` | Services/PedidoServices.cs:26-29 | `Suma` and `Resta` undo each other: after a completed adjustment, the opposite one over the same lines restores every stock exactly. |
| `Inventario.ExistenciaNegativa` | Services/PedidoServices.cs:29 | No lower bound: taking 10 from a stock of 5 leaves -5. |
| `Almacen.Inicial` | DAL/Contexto.cs:17-42 | The seeded store, a catalogue with no orders, satisfies the store invariant `Valido`. |
| `Almacen.Insertar` | Services/PedidoServices.cs:41-50 | Insertar never returns false; it either succeeds or raises. The catalogue's products are unchanged. |
| `Almacen.Modificar` | Services/PedidoServices.cs:52-75 | Modificar returns false exactly when the key is not stored, and then the store is unchanged. |
| `Almacen.Eliminar` | Services/PedidoServices.cs:77-94 | Eliminar returns false exactly when the key is not stored, and then the store is unchanged. |
| `Almacen.Guardar` | Services/PedidoServices.cs:104-115 | Guardar is Insertar when the key is not stored and Modificar when it is. |
| `Almacen.InsertarExito` | Services/PedidoServices.cs:45-49 | Insertar succeeds if and only if every line names a product and the key is free. It then stores the lines under that key and decreases each product by its lines' quantities. |
| `Almacen.InsertarSinLineas` | Services/PedidoServices.cs:45-49 | An order with no lines leaves the stock unchanged. |
| `Almacen.ClaveGeneradaLibre` | Migrations/20251103021127_Inicial.cs:20-21 | In a valid store the key generated for an unset key (0) is never already stored. |
| `Almacen.ModificarExito` | Services/PedidoServices.cs:55-74 | Modificar succeeds if and only if the key is stored and both versions' lines name products. The stored lines then become exactly the new ones, and each product moves by old quantities minus new ones. |
| `Almacen.EliminarExito` | Services/PedidoServices.cs:81-93 | Eliminar of a stored order whose lines name products removes it and raises each product by the order's quantities. |
| `Almacen.InsertarEliminar` | Services/PedidoServices.cs:41-94 | A completed Insertar followed by Eliminar of the same key restores the stock and the orders exactly. Only the sequence has advanced. |
| `Almacen.ModificarComoEliminarInsertar` | Services/PedidoServices.cs:52-94 | In a valid store Modificar has the same outcome and stock effect as Eliminar then Insertar of the new version. On success it also leaves the same store. |
| `Almacen.InsertarValido` | Services/PedidoServices.cs:41-50 | Insertar keeps the store invariant `Valido`, whatever it returns or raises. |
| `Almacen.ModificarValido` | Services/PedidoServices.cs:52-75 | Modificar keeps the store invariant `Valido`, whatever it returns or raises. |
| `Almacen.EliminarValido` | Services/PedidoServices.cs:77-94 | Eliminar keeps the store invariant `Valido`, whatever it returns or raises. |
| `Almacen.GuardarValido` | Services/PedidoServices.cs:104-115 | Guardar keeps the store invariant `Valido`. |
| `Almacen.EliminarNoFalla` | Services/PedidoServices.cs:81-93 | In a valid store Eliminar never raises. It returns whether the key was stored. |
| `Almacen.Escenario` | DAL/Contexto.cs:17-42 | On the seeded catalogue: inserting 10 Arroz leaves 90 under key 1; changing it to 4 leaves 96; deleting it restores 100 and an empty store. |
| `Consistencia.InicialConsistente` | DAL/Contexto.cs:17-42 | The seeded store's stock agrees with its (empty) orders. |
| `Consistencia.InsertarConsistente` | Services/PedidoServices.cs:41-50 | A completed Insertar keeps each product's stock equal to its catalogue stock less the stored orders' quantities. |
| `Consistencia.ModificarConsistente` | Services/PedidoServices.cs:52-75 | A completed Modificar keeps the stock consistent with the stored orders. |
| `Consistencia.EliminarConsistente` | Services/PedidoServices.cs:77-94 | A completed Eliminar keeps the stock consistent with the stored orders. |
| `Consistencia.GuardarConsistente` | Services/PedidoServices.cs:104-115 | A completed Guardar keeps the stock consistent with the stored orders. |
| `Consistencia.InsertarParcialInconsistente` | Services/PedidoServices.cs:16-50 | An Insertar whose second line names no product raises, stores no order and still takes the first line's stock. The store is then inconsistent. |
| `Consistencia.InsertarDuplicadoInconsistente` | Services/PedidoServices.cs:41-50 | An Insertar under a stored key raises at the save after taking the stock. This turns a consistent store into an inconsistent one. |
| `Services.PedidoServices.constructor` | DAL/Contexto.cs:17-42 | The service starts on the given catalogue with no orders and the sequence at 0. |
| `Services.PedidoServices.AfectarProducto` | Services/PedidoServices.cs:24-29 | One line's `+=`/`-=` on the `int` column. The exact total moves by the signed quantity, and the column stays its 32-bit wrap. |
| `Services.PedidoServices.AfectarExistencia` | Services/PedidoServices.cs:16-33 | The loop over the lines leaves the exact stock and the reported missing product that `Afectar` gives. Orders are untouched. |
| `Services.PedidoServices.Existe` | Services/PedidoServices.cs:35-39 | True if and only if the key is stored; changes nothing. |
| `Services.PedidoServices.Insertar` | Services/PedidoServices.cs:41-50 | The new state and the outcome are those of `Almacen.Insertar`, and the column stays the wrap of the exact stock. |
| `Services.PedidoServices.Modificar` | Services/PedidoServices.cs:52-75 | The new state and the outcome are those of `Almacen.Modificar`. |
| `Services.PedidoServices.Eliminar` | Services/PedidoServices.cs:77-94 | The new state and the outcome are those of `Almacen.Eliminar`. |
| `Services.PedidoServices.Buscar` | Services/PedidoServices.cs:96-103 | Returns the stored order with its lines, and none exactly when the key is not stored. Changes nothing. |
| `Services.PedidoServices.Guardar` | Services/PedidoServices.cs:104-115 | After the `Existe` test, the new state and the outcome are those of `Almacen.Guardar`. |
| `Services.PedidoServices.Listar` | Services/PedidoServices.cs:117-125 | Returns exactly the stored orders, with their lines, that satisfy the filter. Changes nothing. |
| `Services.PedidoServices.GetProductos` | Services/PedidoServices.cs:127-133 | Returns exactly the catalogue rows with their stored stock. Changes nothing. |

## Left out

- Entity Framework plumbing is not modelled: context factories and
  lifetimes, `Include`, `AsNoTracking`, change tracking. The operations are
  modelled by their effect on the committed tables.
- `Modificar` can hit a tracking conflict. `RemoveRange` on the original
  lines followed by `Update` of a new version that reuses their
  `DetalleId`s may make EF Core reject the save. `Modificar` is modelled as
  replacing the line list.
- `async`/`await` and `Task` are left out. Each call is modelled as one
  sequential step, with no interleaving between concurrent requests.
- `Services.PedidoServices.AfectarExistencia`: the per-line commit is
  modelled on local values. Line by line, the class writes its fields
  through `AfectarProducto`, and only the end state is specified. A concurrent
  reader seeing a partly applied order is not modelled.
- `Precio`, `Total`, `Fecha`, `ClienteNombre`, `Descripcion` and
  `DetalleId` are not modelled. The stock logic never reads them, and the
  service never computes `Total`.
- Data-annotation validation is not modelled. The service does not enforce
  `Required` or `Range(1, int.MaxValue)` on `Cantidad`, so any `int`
  quantity is admitted, including zero and negative ones.
- The exact number returned by `SaveChangesAsync` is not modelled; only
  success (`Hecho(true)`) is. Every save that is reached writes at least
  one row.
- Keys (`PedidoId`, `ProductoId`) are unbounded integers. The 32-bit
  limit of the AUTOINCREMENT sequence is not modelled.
- `Listar` takes the filter as a total predicate over orders, not as an
  `Expression`. It returns a set, so row order is not modelled.
- `GetProductos` returns a set, so row order is not modelled.
- Exceptions other than a missing product and a duplicate key are not
  modelled: database I/O failures and cancellation.
