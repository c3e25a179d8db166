/**
 * Creating a category: the order index one above the highest of its type,
 * and a parent chosen among the top-level categories, so that the
 * category tree keeps at most two levels.
 */
module AddCategory {
  import opened Common
  import opened Rows

  /** Whether a category of the type has no order index. */
  predicate HasNullOrder(cs: seq<Category>, ty: CategoryType)
  {
    exists c :: c in cs && c.categoryType == Some(ty) && c.orderIndex.None?
  }

  /** The highest non-null order index among the categories of a type; `None` when there is none. */
  function MaxOrder(cs: seq<Category>, ty: CategoryType): (r: Option<int>)
    ensures r.Some? ==> exists c :: c in cs && c.categoryType == Some(ty) && c.orderIndex == r
    ensures r.Some? ==> forall c :: c in cs && c.categoryType == Some(ty) && c.orderIndex.Some? ==> c.orderIndex.value <= r.value
    ensures r.None? ==> forall c :: c in cs && c.categoryType == Some(ty) ==> c.orderIndex.None?
  {
    if cs == [] then None
    else
      var c := cs[|cs| - 1];
      var m := MaxOrder(cs[..|cs| - 1], ty);
      assert forall x :: x in cs <==> x in cs[..|cs| - 1] || x == c by {
        assert cs == cs[..|cs| - 1] + [c];
      }
      if c.categoryType != Some(ty) || c.orderIndex.None? then m
      else if m.None? || m.value < c.orderIndex.value then c.orderIndex
      else m
  }

  /**
   * The code as written: `order("order_index", { ascending: false })` puts
   * null order indexes first, `limit(1)` keeps that row, and
   * `?.order_index || 0` reads null, or a missing row, as 0.
   */
  function NewOrderIndexAsWritten(cs: seq<Category>, ty: CategoryType): int
  {
    var first := if HasNullOrder(cs, ty) then None else MaxOrder(cs, ty);
    1 + (if first.Some? then first.value else 0)
  }

  /** The order index of a new category: one above the highest non-null index of its type, 1 for the first. */
  function NewOrderIndex(cs: seq<Category>, ty: CategoryType): (r: int)
    ensures forall c :: c in cs && c.categoryType == Some(ty) && c.orderIndex.Some? ==> c.orderIndex.value < r
    ensures MaxOrder(cs, ty).None? ==> r == 1
  {
    var m := MaxOrder(cs, ty);
    1 + (if m.Some? then m.value else 0)
  }

  /** Without null order indexes of the type the code as written computes the same index. */
  lemma AsWrittenAgreesWithoutNulls(cs: seq<Category>, ty: CategoryType)
    requires !HasNullOrder(cs, ty)
    ensures NewOrderIndexAsWritten(cs, ty) == NewOrderIndex(cs, ty)
  {
  }

  /** With one null index beside index 3 the code as written picks 1, which does not come after 3. */
  lemma NullOrderSortsFirst()
    ensures var cs := [Category("a", "Rent", Some(ExpenseType), None, None),
                       Category("b", "Wages", Some(ExpenseType), None, Some(3))];
      NewOrderIndexAsWritten(cs, ExpenseType) == 1 && NewOrderIndex(cs, ExpenseType) == 4
  {
    var cs := [Category("a", "Rent", Some(ExpenseType), None, None),
               Category("b", "Wages", Some(ExpenseType), None, Some(3))];
    assert cs[0] in cs && cs[1] in cs;
    assert HasNullOrder(cs, ExpenseType);
    assert cs[..1] == [cs[0]];
    assert MaxOrder(cs[..1], ExpenseType) == None;
  }

  /** `categories.filter((c) => !c.parent_id)`: the parent choices. */
  function ParentChoices(cs: seq<Category>): (r: seq<Category>)
    ensures forall c :: c in r <==> c in cs && c.parentId.None?
  {
    Filter(cs, (c: Category) => c.parentId.None?)
  }

  /** Every parent of a category is itself top-level. */
  predicate TwoLevels(cs: seq<Category>)
  {
    forall c, p :: c in cs && p in cs && c.parentId == Some(p.id) ==> p.parentId.None?
  }

  predicate UniqueIds(cs: seq<Category>)
  {
    forall c, d :: c in cs && d in cs && c.id == d.id ==> c == d
  }

  /**
   * The row `handleSubmit` inserts: the type is always stored, also on a
   * child. A failed order read gives no data, which `|| 0` reads as 0, so
   * the index is 1.
   */
  function NewCategory(id: Id, name: string, ty: CategoryType, parentId: Option<Id>, cs: seq<Category>, readFails: bool): (c: Category)
    ensures c.id == id && c.name == name && c.categoryType == Some(ty) && c.parentId == parentId
    ensures !readFails ==> c.orderIndex == Some(NewOrderIndex(cs, ty))
    ensures readFails ==> c.orderIndex == Some(1)
  {
    Category(id, name, Some(ty), parentId, Some(if readFails then 1 else NewOrderIndex(cs, ty)))
  }

  /**
   * A category created with no parent or with one of the parent choices
   * keeps the tree at two levels, given that its id is new.
   */
  lemma CreatedKeepsTwoLevels(cs: seq<Category>, c: Category)
    requires TwoLevels(cs) && UniqueIds(cs)
    requires c.parentId.None? || exists p :: p in ParentChoices(cs) && c.parentId == Some(p.id)
    requires forall d :: d in cs ==> d.id != c.id && d.parentId != Some(c.id)
    ensures TwoLevels(cs + [c])
  {
    forall x, p | x in cs + [c] && p in cs + [c] && x.parentId == Some(p.id)
      ensures p.parentId.None?
    {
      if x == c && p != c {
        var q :| q in ParentChoices(cs) && c.parentId == Some(q.id);
        assert p.id == q.id;
      }
    }
  }

  /**
   * `handleSubmit`: read the order index of the type, then insert the
   * category; a failed read is not checked and gives index 1, a failed
   * insert changes nothing.
   */
  method Create(db: Store, name: string, ty: CategoryType, parentId: Option<Id>, readFails: bool, fails: bool)
    returns (created: bool)
    modifies db`categories, db`nextId
    ensures created == !fails
    ensures fails ==> db.categories == old(db.categories) && db.nextId == old(db.nextId)
    ensures !fails ==>
      db.categories == old(db.categories) + [NewCategory(GeneratedId(old(db.nextId)), name, ty, parentId, old(db.categories), readFails)] &&
      db.nextId == old(db.nextId) + 1
  {
    if fails {
      return false;
    }
    var order := if readFails then 1 else NewOrderIndex(db.categories, ty);
    var id := db.NewId();
    db.categories := db.categories + [Category(id, name, Some(ty), parentId, Some(order))];
    created := true;
  }
}
