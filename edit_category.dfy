/**
 * The edit-category dialog: the parent choices, saving the edited fields,
 * creating a new parent, and the delete that removes the category's
 * budgets, clears its transactions and deletes its direct children.
 */
module EditCategory {
  import opened Common
  import opened Rows
  import opened BudgetRows
  import opened AddCategory

  /**
   * The parent choices: the categories fetched with `neq("id", id)`,
   * filtered to the top-level ones.
   */
  function EditParentChoices(cs: seq<Category>, selfId: Id): (r: seq<Category>)
    ensures forall c :: c in r <==> c in cs && c.id != selfId && c.parentId.None?
  {
    Filter(cs, (c: Category) => c.id != selfId && c.parentId.None?)
  }

  /** `update({ name, type, parent_id }).eq("id", id)`. */
  function Updated(cs: seq<Category>, id: Id, name: string, ty: CategoryType, parentId: Option<Id>): (r: seq<Category>)
    ensures |r| == |cs|
    ensures forall i :: 0 <= i < |cs| ==>
      r[i] == (if cs[i].id == id then cs[i].(name := name, categoryType := Some(ty), parentId := parentId) else cs[i])
  {
    seq(|cs|, i requires 0 <= i < |cs| =>
      if cs[i].id == id then cs[i].(name := name, categoryType := Some(ty), parentId := parentId) else cs[i])
  }

  /**
   * Saving does not look at the edited category's children: giving a
   * parent with a child a parent makes a third level.
   */
  lemma SaveMakesThreeLevels()
    ensures var cs := [Category("p", "Office", Some(ExpenseType), None, None),
                       Category("q", "Rent", Some(ExpenseType), None, None),
                       Category("r", "Deposit", Some(ExpenseType), Some("q"), None)];
      TwoLevels(cs) && cs[0] in EditParentChoices(cs, "q") &&
      !TwoLevels(Updated(cs, "q", "Rent", ExpenseType, Some("p")))
  {
    var cs := [Category("p", "Office", Some(ExpenseType), None, None),
               Category("q", "Rent", Some(ExpenseType), None, None),
               Category("r", "Deposit", Some(ExpenseType), Some("q"), None)];
    assert TwoLevels(cs) by {
      forall c, p | c in cs && p in cs && c.parentId == Some(p.id)
        ensures p.parentId.None?
      {
        assert c == cs[2] && p == cs[1];
      }
    }
    assert cs[0] in EditParentChoices(cs, "q");
    var after := Updated(cs, "q", "Rent", ExpenseType, Some("p"));
    assert after[1].parentId == Some("p") && after[2].parentId == Some(after[1].id);
    assert after[1] in after && after[2] in after;
  }

  /**
   * Saving keeps the tree at two levels when the edited category has no
   * children and its parent is none or one of the parent choices.
   */
  lemma SaveKeepsTwoLevels(cs: seq<Category>, id: Id, name: string, ty: CategoryType, parentId: Option<Id>)
    requires TwoLevels(cs) && UniqueIds(cs)
    requires forall c :: c in cs ==> c.parentId != Some(id)
    requires parentId.None? || exists q :: q in EditParentChoices(cs, id) && parentId == Some(q.id)
    ensures TwoLevels(Updated(cs, id, name, ty, parentId))
  {
    var r := Updated(cs, id, name, ty, parentId);
    forall x, p | x in r && p in r && x.parentId == Some(p.id)
      ensures p.parentId.None?
    {
      var i :| 0 <= i < |r| && r[i] == x;
      var j :| 0 <= j < |r| && r[j] == p;
      assert cs[j].id == p.id;
      if cs[i].id == id {
        var q :| q in EditParentChoices(cs, id) && parentId == Some(q.id);
        assert q in cs && q.id != id && q.parentId.None?;
        assert cs[j].id == q.id;
        assert cs[j] == q;
        assert r[j] == cs[j];
      } else {
        assert r[i] == cs[i];
        assert cs[i].parentId == Some(cs[j].id);
        assert cs[j].id != id;
        assert r[j] == cs[j];
      }
    }
  }

  /** The dialog's state. */
  class Dialog {
    const selfId: Id
    var name: string
    var ty: CategoryType
    var parentId: Option<Id>
    var showNewParent: bool
    var newParentName: string

    constructor (c: Category)
      ensures selfId == c.id && ty == (if c.categoryType.Some? then c.categoryType.value else ExpenseType)
      ensures name == c.name && parentId == c.parentId && !showNewParent && newParentName == ""
    {
      selfId := c.id;
      name := c.name;
      ty := if c.categoryType.Some? then c.categoryType.value else ExpenseType;
      parentId := c.parentId;
      showNewParent := false;
      newParentName := "";
    }

    /** `handleSubmit`: the edited fields are written to the category's row; a failed update changes nothing. */
    method Save(db: Store, fails: bool) returns (saved: bool)
      modifies db`categories
      ensures saved == !fails
      ensures fails ==> db.categories == old(db.categories)
      ensures !fails ==> db.categories == Updated(old(db.categories), selfId, name, ty, parentId)
    {
      if fails {
        return false;
      }
      db.categories := Updated(db.categories, selfId, name, ty, parentId);
      saved := true;
    }

    /**
     * `handleCreateParent`: a blank name or a failed insert changes
     * nothing; otherwise a top-level category of the dialog's type is
     * inserted and becomes the chosen parent.
     */
    method CreateParent(db: Store, fails: bool)
      modifies this`parentId, this`showNewParent, this`newParentName, db`categories, db`nextId
      ensures Blank(old(newParentName)) || fails ==>
        db.categories == old(db.categories) && db.nextId == old(db.nextId) &&
        parentId == old(parentId) && showNewParent == old(showNewParent) && newParentName == old(newParentName)
      ensures !(Blank(old(newParentName)) || fails) ==>
        db.categories == old(db.categories) + [Category(GeneratedId(old(db.nextId)), old(newParentName), Some(ty), None, None)] &&
        db.nextId == old(db.nextId) + 1 &&
        parentId == Some(GeneratedId(old(db.nextId))) && !showNewParent && newParentName == ""
    {
      if Blank(newParentName) || fails {
        return;
      }
      var id := db.NewId();
      db.categories := db.categories + [Category(id, newParentName, Some(ty), None, None)];
      parentId := Some(id);
      showNewParent := false;
      newParentName := "";
    }
  }

  /** The created parent is offered as a parent choice afterwards. */
  lemma CreatedParentIsChoice(cs: seq<Category>, id: Id, name: string, ty: CategoryType, selfId: Id)
    requires id != selfId
    ensures Category(id, name, Some(ty), None, None) in EditParentChoices(cs + [Category(id, name, Some(ty), None, None)], selfId)
  {
  }

  // ---------------------------------------------------------------------
  // The delete

  /** `categories.delete().eq("parent_id", id)`: every direct child at once. */
  function RemoveChildren(cs: seq<Category>, parentId: Id): (r: seq<Category>)
    ensures forall c :: c in r <==> c in cs && c.parentId != Some(parentId)
  {
    Filter(cs, (c: Category) => c.parentId != Some(parentId))
  }

  datatype Outcome = Cancelled | BudgetsFailed | TransactionsFailed | ChildrenFailed | CategoryFailed | Deleted

  /**
   * `handleDelete`: after the confirmation, each of the four steps runs in
   * order and a failure returns at once, keeping the earlier steps.
   */
  method Delete(db: Store, id: Id, confirmed: bool, fails: nat -> bool) returns (outcome: Outcome)
    modifies db`budgets, db`transactions, db`categories
    ensures !confirmed ==> (outcome == Cancelled &&
      db.budgets == old(db.budgets) && db.transactions == old(db.transactions) && db.categories == old(db.categories))
    ensures confirmed ==> (outcome ==
      (if fails(0) then BudgetsFailed else if fails(1) then TransactionsFailed
       else if fails(2) then ChildrenFailed else if fails(3) then CategoryFailed else Deleted))
    ensures confirmed ==> db.budgets == (if fails(0) then old(db.budgets) else RemoveBudgetsOf(old(db.budgets), id))
    ensures confirmed ==> (db.transactions ==
      (if fails(0) || fails(1) then old(db.transactions) else ClearCategory(old(db.transactions), id)))
    ensures confirmed ==> (db.categories ==
      (if fails(0) || fails(1) || fails(2) then old(db.categories)
       else if fails(3) then RemoveChildren(old(db.categories), id)
       else RemoveCategory(RemoveChildren(old(db.categories), id), id)))
  {
    if !confirmed {
      return Cancelled;
    }
    if fails(0) {
      return BudgetsFailed;
    }
    db.budgets := RemoveBudgetsOf(db.budgets, id);
    if fails(1) {
      return TransactionsFailed;
    }
    db.transactions := ClearCategory(db.transactions, id);
    if fails(2) {
      return ChildrenFailed;
    }
    db.categories := RemoveChildren(db.categories, id);
    if fails(3) {
      return CategoryFailed;
    }
    db.categories := RemoveCategory(db.categories, id);
    outcome := Deleted;
  }

  /**
   * After a complete delete nothing refers to the category, its children
   * are gone, but their budgets and transactions stay and keep pointing at
   * them.
   */
  lemma DeleteKeepsChildRows(budgets: seq<Budget>, txs: seq<Transaction>, cs: seq<Category>, id: Id, child: Category)
    requires child in cs && child.parentId == Some(id) && child.id != id
    ensures var bs := RemoveBudgetsOf(budgets, id);
      var ts := ClearCategory(txs, id);
      var rest := RemoveCategory(RemoveChildren(cs, id), id);
      (forall b :: b in bs ==> b.categoryId != id) &&
      (forall t :: t in ts ==> t.categoryId != Some(id)) &&
      (forall c :: c in rest ==> c.id != id && c.parentId != Some(id)) &&
      (forall b :: b in budgets && b.categoryId == child.id ==> b in bs) &&
      (forall i :: 0 <= i < |txs| && txs[i].categoryId == Some(child.id) ==> ts[i] == txs[i])
  {
    var ts := ClearCategory(txs, id);
    forall t | t in ts ensures t.categoryId != Some(id) {
      var i :| 0 <= i < |ts| && ts[i] == t;
    }
  }
}
