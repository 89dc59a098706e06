/** The fixed category table and its two lookups. */
module Categories {
  import opened Optional
  import opened Strings
  import opened Seqs
  import opened Types

  /** The category table, in display order. */
  const Table: seq<Category> := [
    Category("alimentacion", "Alimentación", "\U{1F354}", "bg-red-500"),
    Category("vivienda", "Vivienda", "\U{1F3E1}", "bg-blue-500"),
    Category("transporte", "Transporte", "\U{1F697}", "bg-green-500"),
    Category("salud", "Salud", "\U{1F48A}", "bg-pink-500"),
    Category("educacion", "Educación", "\U{1F4DA}", "bg-indigo-500"),
    Category("telefono_internet", "Teléfono & Internet", "\U{1F4BB}", "bg-purple-500"),
    Category("financieros", "Financieros", "\U{1F4B3}", "bg-yellow-500"),
    Category("seguros", "Seguros", "\U{1F6E1}\U{FE0F}", "bg-teal-500"),
    Category("ocio", "Ocio", "\U{1F389}", "bg-orange-500"),
    Category("familia", "Familia", "\U{1F468}\U{200D}\U{1F469}\U{200D}\U{1F467}\U{200D}\U{1F466}", "bg-rose-500"),
    Category("personal_empresa", "Personal/Empresa", "\U{1F4BC}", "bg-slate-500"),
    Category("impuestos", "Impuestos", "\U{1F4CA}", "bg-gray-500"),
    Category("imp_vehiculos", "Imp. Vehículos", "\U{1F699}", "bg-emerald-500"),
    Category("insumos_empresa", "Insumos Empresa", "\U{1F3ED}", "bg-cyan-500"),
    Category("otros", "Otros", "\U{1F4E6}", "bg-amber-500")
  ]

  /** The table has fifteen entries with pairwise distinct ids, among them
      the fallback category `otros`. */
  lemma {:induction false} TableShape()
    ensures |Table| == 15
    ensures forall i, j :: 0 <= i < j < |Table| ==> Table[i].id != Table[j].id
    ensures exists i :: 0 <= i < |Table| && Table[i].id == "otros"
  {
    assert Table[14].id == "otros";
  }

  /** `getCategoryById`: the entry whose id is `id`, if there is one. */
  function GetCategoryById(id: string): (r: Option<Category>)
    ensures r.Some? ==> r.value in Table && r.value.id == id
    ensures r.None? <==> forall i :: 0 <= i < |Table| ==> Table[i].id != id
  {
    match FirstIndex(Table, (c: Category) => c.id == id)
    case Some(i) => Some(Table[i])
    case None => None
  }

  /** Since ids are distinct, the lookup by id finds exactly the entry with
      that id. */
  lemma {:induction false} GetCategoryByIdExact(id: string, c: Category)
    ensures GetCategoryById(id) == Some(c) <==> c in Table && c.id == id
  {
    TableShape();
    if c in Table && c.id == id {
      var r := GetCategoryById(id);
      var i :| 0 <= i < |Table| && Table[i] == c;
      assert r.Some?;
      var k :| 0 <= k < |Table| && Table[k] == r.value;
      assert i == k;
    }
  }

  /** The filter of `getCategoryByName`: the lower-cased name or id contains
      the lower-cased query. */
  predicate NameMatches(c: Category, query: string)
  {
    Contains(ToLower(c.name), ToLower(query)) || Contains(ToLower(c.id), ToLower(query))
  }

  /** `getCategoryByName`: the first entry, in table order, whose name or id
      contains the query, ignoring case. */
  function GetCategoryByName(query: string): (r: Option<Category>)
    ensures r.Some? ==> r.value in Table && NameMatches(r.value, query)
    ensures r.Some? ==> exists i :: 0 <= i < |Table| && Table[i] == r.value
                                    && forall j :: 0 <= j < i ==> !NameMatches(Table[j], query)
    ensures r.None? <==> forall i :: 0 <= i < |Table| ==> !NameMatches(Table[i], query)
  {
    match FirstIndex(Table, (c: Category) => NameMatches(c, query))
    case Some(i) => Some(Table[i])
    case None => None
  }

  /** The empty query is contained in every name, so it finds the first entry. */
  lemma {:induction false} GetCategoryByNameEmpty()
    ensures GetCategoryByName("") == Some(Table[0])
    ensures Table[0].name == "Alimentación"
  {
    assert StartsWith(ToLower(Table[0].name), ToLower(""));
  }

  /** The query's case does not matter. */
  lemma {:induction false} GetCategoryByNameIgnoresCase(query: string)
    ensures GetCategoryByName(query) == GetCategoryByName(ToLower(query))
  {
    ToLowerIdempotent(query);
    assert forall c :: NameMatches(c, query) <==> NameMatches(c, ToLower(query));
  }
}
