/**
 * The category operations of the budget table: moving a category up or
 * down among its siblings by swapping `order_index` with its neighbour,
 * and the cascading delete that also removes the children's budgets and
 * category references.
 */
module BudgetCategories {
  import opened Common
  import opened Rows
  import opened BudgetRows
  import TransactionForm

  // ---------------------------------------------------------------------
  // The list the table is given

  predicate HasBudget(bs: seq<Budget>, id: Id)
  {
    exists b :: b in bs && b.categoryId == id
  }

  /**
   * `categoriesWithBudgets`: the categories with at least one loaded budget
   * row, in category order. Both pages hand this list to the budget table as
   * its `categories`, so the move and delete handlers see only these.
   */
  function CategoriesWithBudgets(cs: seq<Category>, bs: seq<Budget>): (r: seq<Category>)
    ensures forall c :: c in r <==> c in cs && HasBudget(bs, c.id)
    ensures |r| <= |cs|
  {
    if cs == [] then []
    else
      var c := cs[|cs| - 1];
      assert forall x :: x in cs <==> x in cs[..|cs| - 1] || x == c by {
        assert cs == cs[..|cs| - 1] + [c];
      }
      CategoriesWithBudgets(cs[..|cs| - 1], bs) + (if HasBudget(bs, c.id) then [c] else [])
  }

  // ---------------------------------------------------------------------
  // Sibling order

  /** `order_index || 0`. */
  function OrderKey(c: Category): int
  {
    if c.orderIndex.Some? then c.orderIndex.value else 0
  }

  /**
   * The siblings the move handlers sort: for a child, the categories with
   * the same parent (an absent parent id matches nothing, as `undefined`
   * equals no stored `parent_id`); for a top-level category, the top-level
   * categories of its type (nothing when it is not found).
   */
  function Siblings(cs: seq<Category>, categoryId: Id, isChild: bool, parentId: Option<Id>): (r: seq<Category>)
    ensures isChild ==> forall c :: c in r <==> c in cs && parentId.Some? && c.parentId == parentId
    ensures !isChild ==> forall c :: c in r ==> c in cs && c.parentId.None?
  {
    if isChild then Filter(cs, (c: Category) => parentId.Some? && c.parentId == parentId)
    else
      match TransactionForm.FindCategory(cs, categoryId)
      case None => []
      case Some(self) => Filter(cs, (c: Category) => c.parentId.None? && c.categoryType == self.categoryType)
  }

  predicate Sorted(s: seq<Category>)
  {
    forall i, j :: 0 <= i < j < |s| ==> OrderKey(s[i]) <= OrderKey(s[j])
  }

  /** Inserts after every element whose key is not greater: the step of a stable sort. */
  function Insert(s: seq<Category>, x: Category): seq<Category>
  {
    if s == [] then [x]
    else if OrderKey(s[0]) > OrderKey(x) then [x] + s
    else [s[0]] + Insert(s[1..], x)
  }

  /** `siblings.sort((a, b) => (a.order_index || 0) - (b.order_index || 0))`: a stable sort by the key. */
  function SortByOrder(s: seq<Category>): seq<Category>
  {
    if s == [] then [] else Insert(SortByOrder(s[..|s| - 1]), s[|s| - 1])
  }

  lemma {:induction false} InsertPermutes(s: seq<Category>, x: Category)
    ensures multiset(Insert(s, x)) == multiset(s) + multiset{x}
  {
    if s != [] && OrderKey(s[0]) <= OrderKey(x) {
      InsertPermutes(s[1..], x);
      assert s == [s[0]] + s[1..];
    }
  }

  lemma {:induction false} InsertSorted(s: seq<Category>, x: Category)
    requires Sorted(s)
    ensures Sorted(Insert(s, x))
  {
    if s != [] && OrderKey(s[0]) <= OrderKey(x) {
      var rest := s[1..];
      assert Sorted(rest) by {
        forall i, j | 0 <= i < j < |rest| ensures OrderKey(rest[i]) <= OrderKey(rest[j]) {
          assert rest[i] == s[i + 1] && rest[j] == s[j + 1];
        }
      }
      InsertSorted(rest, x);
      var ins := Insert(rest, x);
      assert forall y :: y in ins ==> OrderKey(s[0]) <= OrderKey(y) by {
        InsertPermutes(rest, x);
        forall y | y in ins ensures OrderKey(s[0]) <= OrderKey(y) {
          assert y in multiset(ins);
          if y != x {
            var k :| 0 <= k < |rest| && rest[k] == y;
            assert s[k + 1] == y;
          }
        }
      }
      PrependSorted(s[0], ins);
    }
  }

  lemma PrependSorted(a: Category, s: seq<Category>)
    requires Sorted(s) && forall y :: y in s ==> OrderKey(a) <= OrderKey(y)
    ensures Sorted([a] + s)
  {
    var r := [a] + s;
    forall i, j | 0 <= i < j < |r| ensures OrderKey(r[i]) <= OrderKey(r[j]) {
      if i == 0 {
        assert r[j] == s[j - 1] && r[j] in s;
      } else {
        assert r[i] == s[i - 1] && r[j] == s[j - 1];
      }
    }
  }

  /** The sorted siblings are sorted and are a permutation of the siblings. */
  lemma {:induction false} SortByOrderSorts(s: seq<Category>)
    ensures Sorted(SortByOrder(s))
    ensures multiset(SortByOrder(s)) == multiset(s)
  {
    if s != [] {
      var init := s[..|s| - 1];
      SortByOrderSorts(init);
      InsertSorted(SortByOrder(init), s[|s| - 1]);
      InsertPermutes(SortByOrder(init), s[|s| - 1]);
      assert s == init + [s[|s| - 1]];
    }
  }

  lemma {:induction false} InsertAtEnd(s: seq<Category>, x: Category)
    requires forall y :: y in s ==> OrderKey(y) <= OrderKey(x)
    ensures Insert(s, x) == s + [x]
  {
    if s != [] {
      assert s[0] in s;
      assert forall y :: y in s[1..] ==> y in s;
      InsertAtEnd(s[1..], x);
      assert s == [s[0]] + s[1..];
    }
  }

  /** The sort is stable on sorted input: an already ordered group keeps its order. */
  lemma {:induction false} SortedUnchanged(s: seq<Category>)
    requires Sorted(s)
    ensures SortByOrder(s) == s
  {
    if s != [] {
      var init := s[..|s| - 1];
      var x := s[|s| - 1];
      assert Sorted(init);
      SortedUnchanged(init);
      forall y | y in init ensures OrderKey(y) <= OrderKey(x) {
        var k :| 0 <= k < |init| && init[k] == y;
      }
      InsertAtEnd(init, x);
      assert init + [x] == s;
    }
  }

  // ---------------------------------------------------------------------
  // The swap

  /** `update({ order_index: v }).eq("id", id)`. */
  function SetOrder(cs: seq<Category>, id: Id, v: Option<int>): (r: seq<Category>)
    ensures |r| == |cs|
    ensures forall i :: 0 <= i < |cs| ==> r[i] == (if cs[i].id == id then cs[i].(orderIndex := v) else cs[i])
  {
    seq(|cs|, i requires 0 <= i < |cs| => if cs[i].id == id then cs[i].(orderIndex := v) else cs[i])
  }

  /**
   * The two writes of a move: the moved category takes its neighbour's
   * order index, then the neighbour takes the moved one's. Each write
   * happens unless it fails; a failure of the first does not stop the second.
   */
  function SwapWrites(cs: seq<Category>, moved: Category, other: Category, fails1: bool, fails2: bool): seq<Category>
  {
    var cs1 := if fails1 then cs else SetOrder(cs, moved.id, other.orderIndex);
    if fails2 then cs1 else SetOrder(cs1, other.id, moved.orderIndex)
  }

  /** The sorted sibling group a move works on. */
  function Group(cs: seq<Category>, categoryId: Id, isChild: bool, parentId: Option<Id>): seq<Category>
  {
    SortByOrder(Siblings(cs, categoryId, isChild, parentId))
  }

  /**
   * `handleMoveUp`: nothing at index 0 or past the group, otherwise a swap
   * with the previous sibling. The group comes from the table's list
   * `shown`; the writes go to the stored categories `cs`.
   */
  function MovedUp(cs: seq<Category>, shown: seq<Category>, categoryId: Id, i: nat, isChild: bool, parentId: Option<Id>, fails1: bool, fails2: bool): seq<Category>
  {
    var g := Group(shown, categoryId, isChild, parentId);
    if i == 0 || i >= |g| then cs else SwapWrites(cs, g[i], g[i - 1], fails1, fails2)
  }

  /** `handleMoveDown`: nothing at `maxIndex` or at the end of the group, otherwise a swap with the next sibling. */
  function MovedDown(cs: seq<Category>, shown: seq<Category>, categoryId: Id, i: nat, maxIndex: int, isChild: bool, parentId: Option<Id>, fails1: bool, fails2: bool): seq<Category>
  {
    var g := Group(shown, categoryId, isChild, parentId);
    if i == maxIndex || i + 1 >= |g| then cs else SwapWrites(cs, g[i], g[i + 1], fails1, fails2)
  }

  /** The writes of `handleMoveUp`; `refreshed` is whether the table reloads (both writes succeeded). */
  method MoveUp(db: Store, shown: seq<Category>, categoryId: Id, currentIndex: nat, isChild: bool, parentId: Option<Id>, fails1: bool, fails2: bool)
    returns (refreshed: bool)
    modifies db`categories
    ensures db.categories == MovedUp(old(db.categories), shown, categoryId, currentIndex, isChild, parentId, fails1, fails2)
    ensures refreshed <==>
      0 < currentIndex < |Group(shown, categoryId, isChild, parentId)| && !fails1 && !fails2
  {
    if currentIndex == 0 {
      return false;
    }
    var siblings := Group(shown, categoryId, isChild, parentId);
    if currentIndex >= |siblings| {
      return false;
    }
    var current := siblings[currentIndex];
    var previous := siblings[currentIndex - 1];
    if !fails1 {
      db.categories := SetOrder(db.categories, current.id, previous.orderIndex);
    }
    if !fails2 {
      db.categories := SetOrder(db.categories, previous.id, current.orderIndex);
    }
    refreshed := !fails1 && !fails2;
  }

  /** The writes of `handleMoveDown`. */
  method MoveDown(db: Store, shown: seq<Category>, categoryId: Id, currentIndex: nat, maxIndex: int, isChild: bool, parentId: Option<Id>, fails1: bool, fails2: bool)
    returns (refreshed: bool)
    modifies db`categories
    ensures db.categories == MovedDown(old(db.categories), shown, categoryId, currentIndex, maxIndex, isChild, parentId, fails1, fails2)
    ensures refreshed <==>
      currentIndex != maxIndex && currentIndex + 1 < |Group(shown, categoryId, isChild, parentId)| && !fails1 && !fails2
  {
    if currentIndex == maxIndex {
      return false;
    }
    var siblings := Group(shown, categoryId, isChild, parentId);
    if currentIndex + 1 >= |siblings| {
      return false;
    }
    var current := siblings[currentIndex];
    var next := siblings[currentIndex + 1];
    if !fails1 {
      db.categories := SetOrder(db.categories, current.id, next.orderIndex);
    }
    if !fails2 {
      db.categories := SetOrder(db.categories, next.id, current.orderIndex);
    }
    refreshed := !fails1 && !fails2;
  }

  /**
   * A move picks two neighbours of the sorted group: both are siblings in
   * the sense of `Siblings`, the earlier has the smaller or equal key.
   */
  lemma MoveUpNeighbours(cs: seq<Category>, categoryId: Id, i: nat, isChild: bool, parentId: Option<Id>)
    requires 0 < i < |Group(cs, categoryId, isChild, parentId)|
    ensures var g := Group(cs, categoryId, isChild, parentId);
      g[i] in Siblings(cs, categoryId, isChild, parentId) && g[i - 1] in Siblings(cs, categoryId, isChild, parentId) &&
      OrderKey(g[i - 1]) <= OrderKey(g[i])
  {
    var s := Siblings(cs, categoryId, isChild, parentId);
    SortByOrderSorts(s);
    var g := Group(cs, categoryId, isChild, parentId);
    assert g[i] in multiset(g) && g[i - 1] in multiset(g);
  }

  /** Of three stored categories, the table shows the first and the last when only they have budgets. */
  lemma ShownOfThree(a: Category, b: Category, c: Category, bs: seq<Budget>)
    requires HasBudget(bs, a.id) && !HasBudget(bs, b.id) && HasBudget(bs, c.id)
    ensures CategoriesWithBudgets([a, b, c], bs) == [a, c]
  {
    assert [a, b, c][..2] == [a, b] && [a, b][..1] == [a] && [a][..0] == [];
  }

  /** Two top-level categories of one type, in key order, are their own sorted group. */
  lemma GroupOfTwo(a: Category, c: Category)
    requires a.parentId.None? && c.parentId.None? && a.categoryType == c.categoryType
    requires a.id != c.id && OrderKey(a) <= OrderKey(c)
    ensures Group([a, c], c.id, false, None) == [a, c]
  {
    assert TransactionForm.FindCategory([a, c], c.id) == Some(c) by {
      assert [a, c][1..] == [c];
    }
    assert Siblings([a, c], c.id, false, None) == [a, c] by {
      assert [a, c][..1] == [a] && [a][..0] == [];
    }
    SortedUnchanged([a, c]);
  }

  /**
   * Top-level siblings a, b, c of one type in key order, where only a and c
   * have budget rows: the table shows a and c, so moving c up from index 1
   * swaps it with a and leaves b, which is not shown, alone.
   */
  lemma MoveSkipsHiddenSibling(a: Category, b: Category, c: Category, bs: seq<Budget>)
    requires a.parentId.None? && b.parentId.None? && c.parentId.None?
    requires a.categoryType == b.categoryType == c.categoryType
    requires a.id != b.id && b.id != c.id && a.id != c.id && OrderKey(a) <= OrderKey(b) <= OrderKey(c)
    requires HasBudget(bs, a.id) && !HasBudget(bs, b.id) && HasBudget(bs, c.id)
    ensures MovedUp([a, b, c], CategoriesWithBudgets([a, b, c], bs), c.id, 1, false, None, false, false) ==
      [a.(orderIndex := c.orderIndex), b, c.(orderIndex := a.orderIndex)]
  {
    ShownOfThree(a, b, c, bs);
    GroupOfTwo(a, c);
    SwapFirstAndLast(a, b, c);
  }

  /** Swapping the last of three rows with the first exchanges their indexes and keeps the middle one. */
  lemma SwapFirstAndLast(a: Category, b: Category, c: Category)
    requires a.id != b.id && b.id != c.id && a.id != c.id
    ensures SwapWrites([a, b, c], c, a, false, false) == [a.(orderIndex := c.orderIndex), b, c.(orderIndex := a.orderIndex)]
  {
    var r := SwapWrites([a, b, c], c, a, false, false);
    assert |r| == 3 && r[0] == a.(orderIndex := c.orderIndex) && r[1] == b && r[2] == c.(orderIndex := a.orderIndex);
  }

  /** Whether every row carrying an id has the given order index. */
  predicate HasOrder(cs: seq<Category>, id: Id, v: Option<int>)
  {
    forall i :: 0 <= i < |cs| && cs[i].id == id ==> cs[i].orderIndex == v
  }

  /**
   * When both writes succeed the two categories exchange order indexes and
   * every other row stays as it was; when only the second succeeds both
   * carry the moved one's index.
   */
  lemma SwapWritesEffect(cs: seq<Category>, a: Category, b: Category, fails1: bool, fails2: bool)
    requires a.id != b.id
    ensures var r := SwapWrites(cs, a, b, fails1, fails2);
      |r| == |cs| &&
      (forall i :: 0 <= i < |cs| && cs[i].id != a.id && cs[i].id != b.id ==> r[i] == cs[i]) &&
      (!fails1 ==> HasOrder(r, a.id, b.orderIndex)) &&
      (!fails2 ==> HasOrder(r, b.id, a.orderIndex)) &&
      (fails1 && !fails2 && HasOrder(cs, a.id, a.orderIndex) ==> HasOrder(r, a.id, a.orderIndex) && HasOrder(r, b.id, a.orderIndex))
  {
  }

  /** Moving back with the written rows undoes a successful swap of consistent rows. */
  lemma SwapBackRestores(cs: seq<Category>, a: Category, b: Category)
    requires a.id != b.id && HasOrder(cs, a.id, a.orderIndex) && HasOrder(cs, b.id, b.orderIndex)
    ensures SwapWrites(SwapWrites(cs, a, b, false, false), b.(orderIndex := a.orderIndex), a.(orderIndex := b.orderIndex), false, false) == cs
  {
    var r := SwapWrites(SwapWrites(cs, a, b, false, false), b.(orderIndex := a.orderIndex), a.(orderIndex := b.orderIndex), false, false);
    assert |r| == |cs|;
    forall i | 0 <= i < |cs| ensures r[i] == cs[i] {
    }
  }

  // ---------------------------------------------------------------------
  // The cascading delete of the budget table

  /** The three tables a delete touches. */
  datatype Tables = Tables(budgets: seq<Budget>, transactions: seq<Transaction>, categories: seq<Category>)

  /**
   * The three steps for one child: delete its budgets, clear its
   * transactions' category, delete it. Their errors are not checked, so a
   * failing step is skipped and the next one still runs.
   */
  function ChildStep(t: Tables, childId: Id, fails: nat -> bool): Tables
  {
    var b := if fails(0) then t.budgets else RemoveBudgetsOf(t.budgets, childId);
    var x := if fails(1) then t.transactions else ClearCategory(t.transactions, childId);
    var c := if fails(2) then t.categories else RemoveCategory(t.categories, childId);
    Tables(b, x, c)
  }

  /** The children's steps in order; `fails(i, s)` is the outcome of step `s` for the i-th child. */
  function ChildSteps(t: Tables, children: seq<Id>, fails: (nat, nat) -> bool): Tables
  {
    if children == [] then t
    else
      var n := |children| - 1;
      ChildStep(ChildSteps(t, children[..n], fails), children[n], (s: nat) => fails(n, s))
  }

  /** The steps for the first `i + 1` children are those for the first `i`, then the i-th child's three steps. */
  lemma ChildStepsNext(t: Tables, children: seq<Id>, i: nat, fails: (nat, nat) -> bool)
    requires i < |children|
    ensures var u := ChildSteps(t, children[..i], fails);
      ChildSteps(t, children[..i + 1], fails) ==
        Tables(if fails(i, 0) then u.budgets else RemoveBudgetsOf(u.budgets, children[i]),
               if fails(i, 1) then u.transactions else ClearCategory(u.transactions, children[i]),
               if fails(i, 2) then u.categories else RemoveCategory(u.categories, children[i]))
  {
    assert children[..i + 1][..i] == children[..i];
  }

  /** The outcome of the budget table's delete. */
  datatype DeleteOutcome = Cancelled | BudgetsFailed | TransactionsFailed | CategoryFailed | Deleted

  /**
   * `handleDeleteCategory`: after the confirmation, delete the category's
   * budgets and clear its transactions (each failure stops), run the
   * unchecked steps for every child in the table's list `shown`, then
   * delete the category itself.
   */
  method DeleteCategory(db: Store, shown: seq<Category>, categoryId: Id, confirmed: bool,
                        budgetsFail: bool, transactionsFail: bool, childFails: (nat, nat) -> bool, categoryFails: bool)
    returns (outcome: DeleteOutcome)
    modifies db`budgets, db`transactions, db`categories
    ensures !confirmed ==> outcome == Cancelled
    ensures !confirmed || budgetsFail ==>
      db.budgets == old(db.budgets) && db.transactions == old(db.transactions) && db.categories == old(db.categories)
    ensures confirmed && budgetsFail ==> outcome == BudgetsFailed
    ensures confirmed && !budgetsFail && transactionsFail ==>
      outcome == TransactionsFailed && db.transactions == old(db.transactions) && db.categories == old(db.categories) &&
      db.budgets == RemoveBudgetsOf(old(db.budgets), categoryId)
    ensures confirmed && !budgetsFail && !transactionsFail ==>
      var t := ChildSteps(Tables(RemoveBudgetsOf(old(db.budgets), categoryId), ClearCategory(old(db.transactions), categoryId), old(db.categories)),
                          ChildIds(shown, categoryId), childFails);
      db.budgets == t.budgets && db.transactions == t.transactions &&
      db.categories == (if categoryFails then t.categories else RemoveCategory(t.categories, categoryId)) &&
      outcome == (if categoryFails then CategoryFailed else Deleted)
  {
    if !confirmed {
      return Cancelled;
    }
    if budgetsFail {
      return BudgetsFailed;
    }
    db.budgets := RemoveBudgetsOf(db.budgets, categoryId);
    if transactionsFail {
      return TransactionsFailed;
    }
    db.transactions := ClearCategory(db.transactions, categoryId);
    var children := ChildIds(shown, categoryId);
    ghost var t0 := Tables(db.budgets, db.transactions, db.categories);
    for i := 0 to |children|
      invariant Tables(db.budgets, db.transactions, db.categories) == ChildSteps(t0, children[..i], childFails)
    {
      ChildStepsNext(t0, children, i, childFails);
      var child := children[i];
      if !childFails(i, 0) {
        db.budgets := RemoveBudgetsOf(db.budgets, child);
      }
      if !childFails(i, 1) {
        db.transactions := ClearCategory(db.transactions, child);
      }
      if !childFails(i, 2) {
        db.categories := RemoveCategory(db.categories, child);
      }
    }
    assert children[..|children|] == children;
    if categoryFails {
      return CategoryFailed;
    }
    db.categories := RemoveCategory(db.categories, categoryId);
    outcome := Deleted;
  }

  /** What a step that has run guarantees about one child: none of its budgets, transactions or rows remain. */
  predicate Gone(t: Tables, id: Id)
  {
    (forall b :: b in t.budgets ==> b.categoryId != id) &&
    (forall x :: x in t.transactions ==> x.categoryId != Some(id)) &&
    (forall c :: c in t.categories ==> c.id != id)
  }

  /** When no child step fails, every child and every row that refers to it is gone, and the rest is kept. */
  lemma {:induction false} ChildStepsClear(t: Tables, children: seq<Id>, fails: (nat, nat) -> bool)
    requires forall i, s :: 0 <= i < |children| && s < 3 ==> !fails(i, s)
    ensures Cleared(t, ChildSteps(t, children, fails), children)
  {
    if children != [] {
      var n := |children| - 1;
      var init := children[..n];
      assert init + [children[n]] == children && children[..n + 1] == children;
      ChildStepsClear(t, init, fails);
      ChildStepsNext(t, children, n, fails);
      FullStepClears(t, ChildSteps(t, init, fails), init, children[n]);
    }
  }

  /**
   * `r` is `t` after the steps for `done`: every one of them is gone, every
   * budget and category of another id is kept, and no transaction is removed.
   */
  predicate Cleared(t: Tables, r: Tables, done: seq<Id>)
  {
    (forall k :: k in done ==> Gone(r, k)) &&
    (forall b :: b in t.budgets && b.categoryId !in done ==> b in r.budgets) &&
    (forall c :: c in t.categories && c.id !in done ==> c in r.categories) &&
    |r.transactions| == |t.transactions|
  }

  /** One child's three steps when none fails. */
  function FullStep(u: Tables, id: Id): Tables
  {
    Tables(RemoveBudgetsOf(u.budgets, id), ClearCategory(u.transactions, id), RemoveCategory(u.categories, id))
  }

  /** A child's complete step clears it and keeps what the earlier steps established. */
  lemma FullStepClears(t: Tables, u: Tables, done: seq<Id>, id: Id)
    requires Cleared(t, u, done)
    ensures Cleared(t, FullStep(u, id), done + [id])
  {
    var r := FullStep(u, id);
    forall k | k in done + [id] ensures Gone(r, k) {
      assert k in done || k == id;
      forall x | x in r.transactions ensures x.categoryId != Some(k) {
        var j :| 0 <= j < |r.transactions| && r.transactions[j] == x;
        assert u.transactions[j] in u.transactions;
      }
    }
  }

  /**
   * After a complete delete nothing refers to the category or any of its
   * children in the table's list `shown`, and every other budget and
   * category is kept.
   */
  lemma DeleteClearsSubtree(budgets: seq<Budget>, transactions: seq<Transaction>, categories: seq<Category>, shown: seq<Category>,
                            categoryId: Id, fails: (nat, nat) -> bool)
    requires forall i, s :: 0 <= i < |ChildIds(shown, categoryId)| && s < 3 ==> !fails(i, s)
    ensures var children := ChildIds(shown, categoryId);
      var t := ChildSteps(Tables(RemoveBudgetsOf(budgets, categoryId), ClearCategory(transactions, categoryId), categories), children, fails);
      var after := Tables(t.budgets, t.transactions, RemoveCategory(t.categories, categoryId));
      Gone(after, categoryId) && (forall k :: k in children ==> Gone(after, k)) &&
      (forall b :: b in budgets && b.categoryId != categoryId && b.categoryId !in children ==> b in after.budgets) &&
      (forall c :: c in categories && c.id != categoryId && c.id !in children ==> c in after.categories)
  {
    var children := ChildIds(shown, categoryId);
    var t0 := Tables(RemoveBudgetsOf(budgets, categoryId), ClearCategory(transactions, categoryId), categories);
    ChildStepsClear(t0, children, fails);
    KeepsClear(t0, children, fails, categoryId);
  }

  /**
   * On the table's list of categories with budgets, a child with no budget
   * row is not among the children the delete visits: after a complete
   * delete it is still stored, and its parent id names the deleted category.
   */
  lemma BudgetlessChildSurvives(budgets: seq<Budget>, transactions: seq<Transaction>, categories: seq<Category>,
                                categoryId: Id, fails: (nat, nat) -> bool, child: Category)
    requires child in categories && child.parentId == Some(categoryId) && child.id != categoryId
    requires !HasBudget(budgets, child.id)
    requires forall i, s :: 0 <= i < |ChildIds(CategoriesWithBudgets(categories, budgets), categoryId)| && s < 3 ==> !fails(i, s)
    ensures var shown := CategoriesWithBudgets(categories, budgets);
      var t := ChildSteps(Tables(RemoveBudgetsOf(budgets, categoryId), ClearCategory(transactions, categoryId), categories),
                          ChildIds(shown, categoryId), fails);
      child in RemoveCategory(t.categories, categoryId) && (forall c :: c in RemoveCategory(t.categories, categoryId) ==> c.id != categoryId)
  {
    var shown := CategoriesWithBudgets(categories, budgets);
    var children := ChildIds(shown, categoryId);
    assert forall c :: c in shown ==> HasBudget(budgets, c.id);
    assert child.id !in children;
    DeleteClearsSubtree(budgets, transactions, categories, shown, categoryId, fails);
  }

  /** The children's steps never bring back a row of the category itself. */
  lemma {:induction false} KeepsClear(t: Tables, children: seq<Id>, fails: (nat, nat) -> bool, id: Id)
    requires forall b :: b in t.budgets ==> b.categoryId != id
    requires forall x :: x in t.transactions ==> x.categoryId != Some(id)
    ensures forall b :: b in ChildSteps(t, children, fails).budgets ==> b.categoryId != id
    ensures forall x :: x in ChildSteps(t, children, fails).transactions ==> x.categoryId != Some(id)
  {
    if children != [] {
      var n := |children| - 1;
      KeepsClear(t, children[..n], fails, id);
      var u := ChildSteps(t, children[..n], fails);
      var r := ChildStep(u, children[n], (s: nat) => fails(n, s));
      forall x | x in r.transactions ensures x.categoryId != Some(id) {
        var j :| 0 <= j < |r.transactions| && r.transactions[j] == x;
        if !fails(n, 1) {
          assert u.transactions[j] in u.transactions;
        }
      }
    }
  }
}
