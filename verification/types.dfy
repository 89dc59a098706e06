/** The records the application passes around: expenses, categories and the
    interpreter's result. */
module Types {
  import opened Optional
  import opened Dates

  /** The `type` of an expense record. */
  datatype ExpenseType = Gasto | Ingreso

  /** The text of an `ExpenseType`. */
  function TypeName(t: ExpenseType): string
  {
    match t
    case Gasto => "gasto"
    case Ingreso => "ingreso"
  }

  /** One expense (or income) record. Amounts are exact. */
  datatype Expense = Expense(
    id: string,
    date: Date,
    category: string,
    amount: real,
    description: string,
    kind: ExpenseType)

  /** An entry of the category table. */
  datatype Category = Category(id: string, name: string, icon: string, color: string)

  /** The `intencion` of a query. */
  datatype Intencion = MayorGasto | TopGastos

  /** The text of an `Intencion`. */
  function IntencionName(i: Intencion): string
  {
    match i
    case MayorGasto => "mayor_gasto"
    case TopGastos => "top_gastos"
  }

  /** A `ParsedMessage`: one constructor per `tipo`, each with the fields the
      application reads for that `tipo`; a field that may be `undefined` is an
      `Option`. */
  datatype ParsedMessage =
    | Gasto(monto: Option<real>, categoria: Option<string>, descripcion: Option<string>, fecha: Option<Date>)
    | Reporte(fechaInicio: Date, fechaFin: Date)
    | Consulta(intencion: Intencion)
    | Editar
    | Eliminar
    | Ayuda
    | Exportar(fechaInicio: Date, fechaFin: Date)
    | Preferencias
    | Na(razon: Option<string>)

  /** `xs.reduce((sum, e) => sum + e.amount, 0)`. */
  function Total(xs: seq<Expense>): real
    decreases |xs|
  {
    if |xs| == 0 then 0.0 else xs[0].amount + Total(xs[1..])
  }

  /** Totals add up over concatenation. */
  lemma {:induction false} TotalAppend(a: seq<Expense>, b: seq<Expense>)
    ensures Total(a + b) == Total(a) + Total(b)
    decreases |a|
  {
    if |a| == 0 {
      assert a + b == b;
    } else {
      assert (a + b)[1..] == a[1..] + b;
      TotalAppend(a[1..], b);
    }
  }
}
