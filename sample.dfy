/** The six sample records the program exports, and what its reports make of them. */
module Sample {
  import opened Invoice
  import opened Grouping
  import SalesPerEmployee

  /** The records of `Main`, with prices in cents. */
  function SampleModels(): seq<InvoiceModel>
  {
    [ InvoiceModel(1, "Falciatrice", 7499, 2, 1, DateTime(2018, 6, 14, 9, 30, 12), "Mario"),
      InvoiceModel(2, "Sega Elettrica", 15000, 3, 1, DateTime(2018, 6, 14, 9, 30, 12), "Mario"),
      InvoiceModel(3, "Tritatutto", 3999, 1, 2, DateTime(2018, 6, 14, 20, 40, 0), "Mario"),
      InvoiceModel(4, "Concime", 599, 10, 3, DateTime(2018, 6, 16, 12, 12, 12), "Luigi"),
      InvoiceModel(5, "Forbici", 789, 10, 3, DateTime(2018, 6, 16, 12, 12, 12), "Luigi"),
      InvoiceModel(6, "Tenaglie", 899, 7, 3, DateTime(2018, 6, 16, 12, 12, 12), "Luigi") ]
  }

  /** Grouping the sample by employee: Mario's three records come first and share one group. */
  lemma SampleMarioGroup()
    ensures var xs := SampleModels();
      GroupBy(xs[..3], SalesPerEmployee.EmployeeOf) == [Group("Mario", xs[..3])]
  {
    var xs := SampleModels();
    var key := SalesPerEmployee.EmployeeOf;
    var mario := "Mario";
    assert key(xs[0]) == key(xs[1]) == key(xs[2]) == mario;
    assert xs[..1][..0] == [] && xs[..1] == [xs[0]];
    assert GroupBy(xs[..1], key) == [Group(mario, xs[..1])];
    assert xs[..2][..1] == xs[..1] && xs[..1] + [xs[1]] == xs[..2];
    assert GroupBy(xs[..2], key) == [Group(mario, xs[..2])];
    assert xs[..3][..2] == xs[..2] && xs[..2] + [xs[2]] == xs[..3];
    assert GroupBy(xs[..3], key) == [Group(mario, xs[..3])];
  }

  /** Luigi's records start a second group after Mario's. */
  lemma SampleGroups()
    ensures var xs := SampleModels();
      GroupBy(xs, SalesPerEmployee.EmployeeOf) == [Group("Mario", xs[..3]), Group("Luigi", xs[3..6])]
  {
    var xs := SampleModels();
    var key := SalesPerEmployee.EmployeeOf;
    var mario, luigi := "Mario", "Luigi";
    SampleMarioGroup();
    assert key(xs[3]) == key(xs[4]) == key(xs[5]) == luigi;
    assert mario != luigi by {
      assert mario[0] != luigi[0];
    }
    assert xs[..4][..3] == xs[..3] && xs[3..4] == [xs[3]];
    var gm := Group(mario, xs[..3]);
    InsertSecond(gm, luigi, xs[3]);
    assert GroupBy(xs[..4], key) == [gm, Group(luigi, xs[3..4])];
    assert xs[..5][..4] == xs[..4] && xs[3..4] + [xs[4]] == xs[3..5];
    InsertIntoSecond(gm, Group(luigi, xs[3..4]), xs[4]);
    assert GroupBy(xs[..5], key) == [gm, Group(luigi, xs[3..5])];
    assert xs[..5] == xs[..|xs| - 1] && xs[3..5] + [xs[5]] == xs[3..6];
    InsertIntoSecond(gm, Group(luigi, xs[3..5]), xs[5]);
  }

  lemma InsertSecond<K, T>(a: Group<K, T>, k: K, x: T)
    requires a.key != k
    ensures Insert([a], k, x) == [a, Group(k, [x])]
  {
    assert [a][1..] == [];
  }

  lemma InsertIntoSecond<K, T>(a: Group<K, T>, b: Group<K, T>, x: T)
    requires a.key != b.key
    ensures Insert([a, b], b.key, x) == [a, Group(b.key, b.items + [x])]
  {
    assert [a, b][1..] == [b] && [b][1..] == [];
  }

  /** Mario's sales: 2 x 74.99 + 3 x 150.00 + 1 x 39.99 = 639.97. */
  lemma SampleMarioTotal()
    ensures Sum(SampleModels()[..3], SalesPerEmployee.LineTotal) == 63997
  {
    var ls := SampleModels()[..3];
    var total := SalesPerEmployee.LineTotal;
    assert ls[..2][..1] == ls[..1] && ls[..1][..0] == [];
    assert Sum(ls[..1], total) == 14998;
    assert Sum(ls[..2], total) == 14998 + 45000;
  }

  /** Luigi's sales: 10 x 5.99 + 10 x 7.89 + 7 x 8.99 = 201.73. */
  lemma SampleLuigiTotal()
    ensures Sum(SampleModels()[3..6], SalesPerEmployee.LineTotal) == 20173
  {
    var ls := SampleModels()[3..6];
    var total := SalesPerEmployee.LineTotal;
    assert ls[..2][..1] == ls[..1] && ls[..1][..0] == [];
    assert Sum(ls[..1], total) == 5990;
    assert Sum(ls[..2], total) == 5990 + 7890;
  }

  /** The sales report of the sample: Mario first, as he appears first. */
  lemma SampleSales()
    ensures SalesPerEmployee.TotalsPerEmployee(SampleModels()) ==
      [SalesPerEmployee.EmployeeSales("Mario", 63997), SalesPerEmployee.EmployeeSales("Luigi", 20173)]
  {
    SampleGroups();
    SampleMarioTotal();
    SampleLuigiTotal();
  }
}
