/** Product interning. */
module Products {
  // Names are numbered in the order in which they first appear, and a product is the number of its name.

  import opened Delivery
  import opened MapKernel

  ghost predicate UniqueNames(names: seq<string>) {
    forall i, j | 0 <= i < j < |names| :: names[i] != names[j]
  }

  function IndexOf(names: seq<string>, name: string): (r: nat)
    ensures r <= |names| && (r < |names| ==> names[r] == name)
  {
    if names == [] then 0 else if names[0] == name then 0 else 1 + IndexOf(names[1..], name)
  }

  lemma {:induction false} IndexOfFirst(names: seq<string>, name: string)
    ensures forall i | 0 <= i < IndexOf(names, name) :: names[i] != name
    decreases |names|
  {
    if names != [] {
      IndexOfFirst(names[1..], name);
      assert forall i | 0 < i < |names| :: names[i] == names[1..][i - 1];
    }
  }

  /** The number of a name, which is added when it is new. */
  function Intern(names: seq<string>, name: string): (r: (seq<string>, nat))
    ensures r.1 < |r.0| && r.0[r.1] == name && names <= r.0
  {
    var i := IndexOf(names, name);
    if i < |names| then (names, i) else (names + [name], |names|)
  }

  /** Only a new name is added, at the end, and a name that is listed has its first number. */
  lemma InternMeaning(names: seq<string>, name: string)
    ensures var r := Intern(names, name);
            && r.0 == (if name in names then names else names + [name])
            && forall i | 0 <= i < r.1 :: r.0[i] != name
  {
    IndexOfFirst(names, name);
  }

  /** Interning lists no name twice. */
  lemma InternKeepsUnique(names: seq<string>, name: string)
    requires UniqueNames(names)
    ensures UniqueNames(Intern(names, name).0)
  {
    InternMeaning(names, name);
  }

  /** Interning recovers every number from its name exactly when no name is listed twice. */
  lemma NumbersAreStable(names: seq<string>)
    ensures UniqueNames(names) <==> forall i: nat | i < |names| :: Intern(names, names[i]) == (names, i)
  {
    forall i: nat | i < |names|
      ensures Intern(names, names[i]).1 <= i && names[Intern(names, names[i]).1] == names[i]
      ensures Intern(names, names[i]).0 == names
    {
      InternMeaning(names, names[i]);
    }
    if forall i: nat | i < |names| :: Intern(names, names[i]) == (names, i) {
      forall i: nat, j: nat | i < j < |names| ensures names[i] != names[j] {
        assert Intern(names, names[i]) == (names, i);
        assert Intern(names, names[j]) == (names, j);
      }
    }
  }

  class Product {
    const name: string
    var id: int

    constructor (name: string)
      ensures this.name == name
    {
      this.name := name;
    }
  }

  class Table {
    var products: seq<Product>

    constructor ()
      ensures Valid() && Names() == []
    {
      products := [];
    }

    /** Ids are dense, a product's id being its position, and no name is listed twice. */
    ghost predicate Valid()
      reads this, products
    {
      && (forall i | 0 <= i < |products| :: products[i].id == i)
      && UniqueNames(Names())
    }

    ghost function Names(): (r: seq<string>)
      reads this
      ensures |r| == |products|
      ensures forall i | 0 <= i < |r| :: r[i] == products[i].name
    {
      seq(|products|, i requires 0 <= i < |products| reads this => products[i].name)
    }

    method GetProductId(name: string) returns (id: int)
      requires Valid()
      ensures var i := IndexOf(Names(), name); id == if i < |products| then i else -1
      ensures if name in Names() then 0 <= id < |products| && products[id].name == name else id == -1
      ensures forall i | 0 <= i < id :: products[i].name != name
    {
      IndexOfFirst(Names(), name);
      var i := 0;
      while i < |products|
        invariant 0 <= i <= |products|
        invariant forall k | 0 <= k < i :: Names()[k] != name
      {
        if products[i].name == name {
          assert Names()[i] == name;
          return products[i].id;
        }
        i := i + 1;
      }
      return -1;
    }

    method GetProductName(id: nat) returns (name: string)
      requires id < |products|
      ensures name == Names()[id]
    {
      name := products[id].name;
    }

    method GetProduct(name: string) returns (res: Product)
      requires Valid()
      modifies this
      ensures Valid() && old(products) <= products
      ensures (Names(), res.id) == Intern(old(Names()), name)
    {
      InternKeepsUnique(Names(), name);
      var i := GetProductId(name);
      if i != -1 {
        return products[i];
      }
      res := new Product(name);
      products := products + [res];
      res.id := |products| - 1;
      assert Names() == old(Names()) + [name];
    }

    method InitStock(name: string, amount: int) returns (stock: Stock)
      requires Valid()
      modifies this
      ensures Valid() && old(products) <= products
      ensures fresh(stock) && stock.amount == amount
      ensures (Names(), stock.product) == Intern(old(Names()), name)
    {
      var product := GetProduct(name);
      stock := new Stock(product.id, amount);
    }
  }
}
