/**
 * Download categories and their deletion: plan under the lock, persist without
 * it, commit under it again, renumbering every category above the deleted one.
 */
module Categories {
  import opened Common
  import opened Sources

  const U32_MAX: nat := 0xFFFF_FFFF

  /** What a category is, apart from its number. */
  datatype Body = Body(name: string, path: Option<string>, comment: string, priority: nat, color: Option<nat>)
  datatype Category = Category(id: nat, body: Body)
  datatype Transfer = Transfer(categoryId: nat, categoryName: string)
  type Table = map<nat, Category>

  datatype Store = Store(categories: Table, nextId: nat, transfers: map<FileHash, Transfer>)

  function Bump(id: nat): nat {
    if id + 1 <= U32_MAX then id + 1 else U32_MAX
  }

  // ---------------------------------------------------------------- renumbering

  /** The number a category has after `d` is deleted; the deleted one falls back to the default. */
  function Renumber(d: nat, i: nat): nat {
    if i == d then 0 else if d < i then i - 1 else i
  }

  /** The categories above `d` in ascending order, as `BTreeMap::range` yields them, with their new numbers. */
  function ShiftedUpTo(categories: Table, d: nat, hi: nat): seq<(nat, Category)> {
    if hi <= d + 1 then []
    else
      var before := ShiftedUpTo(categories, d, hi - 1);
      if hi - 1 in categories then before + [(hi - 1, categories[hi - 1].(id := hi - 2))] else before
  }

  function ShiftedAfterDelete(categories: Table, d: nat): seq<(nat, Category)> {
    ShiftedUpTo(categories, d, U32_MAX + 1)
  }

  /** The table after the deletion, by its meaning: every survivor under its new number. */
  function Deleted(categories: Table, d: nat): Table {
    map k | k in categories && k != d :: Renumber(d, k) := categories[k].(id := Renumber(d, k))
  }

  /** Renumbering the survivors is injective and keeps their order. */
  lemma RenumberOrder(d: nat, i: nat, j: nat)
    requires i != d && j != d
    ensures i < j <==> Renumber(d, i) < Renumber(d, j)
  {
  }

  lemma {:induction false} ShiftedHas(categories: Table, d: nat, hi: nat, i: nat)
    requires i < |ShiftedUpTo(categories, d, hi)|
    ensures var (was, c) := ShiftedUpTo(categories, d, hi)[i];
      d < was < hi && was in categories && c == categories[was].(id := was - 1)
    decreases hi
  {
    if i < |ShiftedUpTo(categories, d, hi - 1)| {
      ShiftedHas(categories, d, hi - 1, i);
    }
  }

  lemma {:induction false} ShiftedFinds(categories: Table, d: nat, hi: nat, was: nat)
    requires d < was < hi && was in categories
    ensures (was, categories[was].(id := was - 1)) in ShiftedUpTo(categories, d, hi)
    decreases hi
  {
    if was < hi - 1 {
      ShiftedFinds(categories, d, hi - 1, was);
    }
  }

  lemma {:induction false} ShiftedAscends(categories: Table, d: nat, hi: nat, i: nat, j: nat)
    requires i < j < |ShiftedUpTo(categories, d, hi)|
    ensures ShiftedUpTo(categories, d, hi)[i].0 < ShiftedUpTo(categories, d, hi)[j].0
    decreases hi
  {
    if j < |ShiftedUpTo(categories, d, hi - 1)| {
      ShiftedAscends(categories, d, hi - 1, i, j);
    } else {
      ShiftedHas(categories, d, hi - 1, i);
    }
  }

  ghost predicate InRange(categories: Table) {
    forall i :: i in categories ==> i <= U32_MAX
  }

  function Olds(shifted: seq<(nat, Category)>, k: nat): set<nat>
    requires k <= |shifted|
  {
    set q | 0 <= q < k :: shifted[q].0
  }

  lemma OldsNext(shifted: seq<(nat, Category)>, k: nat)
    requires k < |shifted|
    ensures Olds(shifted, k + 1) == Olds(shifted, k) + {shifted[k].0}
  {
  }

  lemma OldsAreAbove(categories: Table, d: nat)
    requires InRange(categories)
    ensures var shifted := ShiftedAfterDelete(categories, d);
      Olds(shifted, |shifted|) == set i | i in categories && d < i
  {
    var shifted := ShiftedAfterDelete(categories, d);
    forall i | i in Olds(shifted, |shifted|) ensures i in categories && d < i {
      var q :| 0 <= q < |shifted| && shifted[q].0 == i;
      ShiftedHas(categories, d, U32_MAX + 1, q);
    }
    forall i | i in categories && d < i ensures i in Olds(shifted, |shifted|) {
      ShiftedFinds(categories, d, U32_MAX + 1, i);
      var q :| 0 <= q < |shifted| && shifted[q] == (i, categories[i].(id := i - 1));
      assert shifted[q].0 == i;
    }
  }

  /** Removing the old numbers, one after the other. */
  method RemoveShifted(categories: Table, d: nat, shifted: seq<(nat, Category)>) returns (kept: Table)
    requires InRange(categories) && shifted == ShiftedAfterDelete(categories, d)
    ensures kept == map i | i in categories && i < d :: categories[i]
  {
    kept := categories - {d};
    for k := 0 to |shifted|
      invariant kept == map i | i in categories && i != d && i !in Olds(shifted, k) :: categories[i]
    {
      kept := kept - {shifted[k].0};
      OldsNext(shifted, k);
    }
    OldsAreAbove(categories, d);
  }

  /** The renumbered part of the table, once the categories with old numbers in `olds` are inserted. */
  function Inserted(categories: Table, d: nat, olds: set<nat>): Table {
    map k | k in categories && k != d && (k < d || k in olds) :: Renumber(d, k) := categories[k].(id := Renumber(d, k))
  }

  lemma InsertOne(categories: Table, d: nat, olds: set<nat>, was: nat)
    requires was in categories && d < was
    ensures Inserted(categories, d, olds)[was - 1 := categories[was].(id := was - 1)] ==
      Inserted(categories, d, olds + {was})
  {
  }

  lemma InsertNone(categories: Table, d: nat, low: Table)
    requires Keyed(categories) && low == map i | i in categories && i < d :: categories[i]
    ensures low == Inserted(categories, d, {})
  {
  }

  lemma InsertAll(categories: Table, d: nat, olds: set<nat>)
    requires InRange(categories)
    requires var shifted := ShiftedAfterDelete(categories, d); olds == Olds(shifted, |shifted|)
    ensures Inserted(categories, d, olds) == Deleted(categories, d)
  {
    OldsAreAbove(categories, d);
  }

  /** Inserting the k-th shifted category moves on by its old number. */
  lemma InsertNext(categories: Table, d: nat, shifted: seq<(nat, Category)>, k: nat)
    requires shifted == ShiftedAfterDelete(categories, d) && k < |shifted|
    ensures Inserted(categories, d, Olds(shifted, k))[shifted[k].1.id := shifted[k].1] ==
      Inserted(categories, d, Olds(shifted, k + 1))
  {
    ShiftedHas(categories, d, U32_MAX + 1, k);
    OldsNext(shifted, k);
    InsertOne(categories, d, Olds(shifted, k), shifted[k].0);
  }

  /** Inserting the renumbered categories completes the deletion. */
  method InsertShifted(categories: Table, d: nat, low: Table, shifted: seq<(nat, Category)>) returns (all: Table)
    requires InRange(categories) && Keyed(categories) && shifted == ShiftedAfterDelete(categories, d)
    requires low == map i | i in categories && i < d :: categories[i]
    ensures all == Deleted(categories, d)
  {
    all := low;
    InsertNone(categories, d, low);
    assert Olds(shifted, 0) == {};
    for k := 0 to |shifted|
      invariant all == Inserted(categories, d, Olds(shifted, k))
    {
      InsertNext(categories, d, shifted, k);
      var c := shifted[k].1;
      all := all[c.id := c];
    }
    InsertAll(categories, d, Olds(shifted, |shifted|));
  }

  /** `categories.keys().max()`, zero for an empty table. */
  function MaxBelow(categories: Table, hi: nat): (m: nat)
    ensures forall i :: i in categories && i < hi ==> i <= m
    ensures m == 0 || (m in categories && m < hi)
  {
    if hi == 0 then 0 else if hi - 1 in categories then hi - 1 else MaxBelow(categories, hi - 1)
  }

  function NextAfter(categories: Table): nat {
    Bump(MaxBelow(categories, U32_MAX + 1))
  }

  // ---------------------------------------------------------------- the operations

  datatype Reply = Failed | NotFound | Done(category: Category)

  /** Everything deletion decides before it persists. */
  datatype Plan = Plan(deleted: Category, categories: Table, nextId: nat, shifted: seq<Category>)
  datatype PlanReply = Refused | Absent | Planned(plan: Plan)

  function News(shifted: seq<(nat, Category)>): seq<Category> {
    seq(|shifted|, i requires 0 <= i < |shifted| => shifted[i].1)
  }

  /** `applied` is the validated request; `persisted` whether the metadata write succeeds. */
  function CreateIn(s: Store, applied: Option<Body>, persisted: bool): (Store, Reply) {
    if applied.None? then (s, Failed) else
      var bumped := s.(nextId := Bump(s.nextId));
      if !persisted then (bumped, Failed) else
        var c := Category(s.nextId, applied.value);
        (bumped.(categories := s.categories[c.id := c]), Done(c))
  }

  function UpdateIn(s: Store, id: nat, apply: Body -> Option<Body>, persisted: bool): (Store, Reply) {
    if id == 0 then (s, Failed)
    else if id !in s.categories then (s, NotFound)
    else
      var applied := apply(s.categories[id].body);
      if applied.None? || !persisted then (s, Failed) else
        var c := s.categories[id].(body := applied.value);
        (s.(categories := s.categories[id := c]), Done(c))
  }

  function PlanIn(s: Store, d: nat): PlanReply {
    if d == 0 then Refused
    else if d !in s.categories then Absent
    else Planned(Plan(
      s.categories[d], Deleted(s.categories, d), NextAfter(Deleted(s.categories, d)),
      News(ShiftedAfterDelete(s.categories, d))))
  }

  function DefaultName(categories: Table): string {
    if 0 in categories then categories[0].body.name else ""
  }

  function Remap(t: Transfer, d: nat, categories: Table): Transfer {
    if t.categoryId < d then t else
      var id := Renumber(d, t.categoryId);
      Transfer(id, if id == 0 then "" else if id in categories then categories[id].body.name
        else DefaultName(categories))
  }

  function CommitIn(s: Store, d: nat, plan: Plan): Store {
    Store(plan.categories, plan.nextId, map h | h in s.transfers :: Remap(s.transfers[h], d, plan.categories))
  }

  /**
   * The metadata store's own check before its transaction: the shifted snapshot
   * must count up from the deleted number without a gap.
   */
  predicate CountsUp(shifted: seq<Category>, from: nat) {
    forall i :: 0 <= i < |shifted| ==> shifted[i].id == from + i
  }

  ghost predicate Keyed(categories: Table) {
    forall i :: i in categories ==> categories[i].id == i
  }

  /** What every operation keeps. Only a saturated counter may equal a number in use. */
  ghost predicate Sound(s: Store) {
    && 0 in s.categories
    && Keyed(s.categories)
    && InRange(s.categories)
    && 1 <= s.nextId <= U32_MAX
    && (forall i :: i in s.categories ==> i < s.nextId || i == s.nextId == U32_MAX)
    && (forall h :: h in s.transfers ==> s.transfers[h].categoryId in s.categories)
  }

  /** The category part of the core state. */
  class CategoryState {
    var categories: Table
    var nextId: nat
    var transfers: map<FileHash, Transfer>

    ghost function View(): Store
      reads this
    {
      Store(categories, nextId, transfers)
    }

    method CreateCategory(applied: Option<Body>, persisted: bool) returns (reply: Reply)
      modifies this
      ensures (View(), reply) == CreateIn(old(View()), applied, persisted)
      ensures transfers == old(transfers)
      ensures if applied.None? then reply == Failed && nextId == old(nextId)
        else nextId == if old(nextId) + 1 <= 4294967295 then old(nextId) + 1 else 4294967295
      ensures if applied.Some? && persisted
        then
          && reply == Done(Category(old(nextId), applied.value))
          && categories == old(categories)[old(nextId) := reply.category]
        else reply == Failed && categories == old(categories)
    {
      if applied.None? {
        return Failed;
      }
      var c := Category(nextId, applied.value);
      nextId := Bump(nextId);
      if !persisted {
        return Failed;
      }
      categories := categories[c.id := c];
      return Done(c);
    }

    method UpdateCategory(id: nat, apply: Body -> Option<Body>, persisted: bool) returns (reply: Reply)
      modifies this
      ensures (View(), reply) == UpdateIn(old(View()), id, apply, persisted)
      ensures transfers == old(transfers) && nextId == old(nextId)
      ensures id != 0 && id !in old(categories) ==> reply == NotFound
      ensures if id != 0 && id in old(categories) && apply(old(categories)[id].body).Some? && persisted
        then
          && reply == Done(old(categories)[id].(body := apply(old(categories)[id].body).value))
          && categories == old(categories)[id := reply.category]
        else !reply.Done? && categories == old(categories)
    {
      if id == 0 {
        return Failed;
      }
      if id !in categories {
        return NotFound;
      }
      var applied := apply(categories[id].body);
      if applied.None? || !persisted {
        return Failed;
      }
      var updated := categories[id].(body := applied.value);
      categories := categories[id := updated];
      return Done(updated);
    }

    /** First phase of the deletion: reads the state and decides the new one. */
    method PlanDeletion(d: nat) returns (reply: PlanReply)
      requires InRange(categories) && Keyed(categories)
      ensures reply == PlanIn(View(), d)
    {
      if d == 0 {
        return Refused;
      }
      if d !in categories {
        return Absent;
      }
      var shifted := ShiftedAfterDelete(categories, d);
      var kept := RemoveShifted(categories, d, shifted);
      var planned := InsertShifted(categories, d, kept, shifted);
      return Planned(Plan(categories[d], planned, NextAfter(planned), News(shifted)));
    }

    /** Last phase: installs the plan and renumbers the transfers. */
    method CommitDeletion(d: nat, plan: Plan)
      modifies this
      ensures View() == CommitIn(old(View()), d, plan)
    {
      categories, nextId := plan.categories, plan.nextId;
      ghost var before := transfers;
      var todo := transfers.Keys;
      while todo != {}
        invariant todo <= before.Keys == transfers.Keys
        invariant categories == plan.categories && nextId == plan.nextId
        invariant forall h :: h in before ==>
          transfers[h] == if h in todo then before[h] else Remap(before[h], d, plan.categories)
        decreases |todo|
      {
        var h :| h in todo;
        todo := todo - {h};
        transfers := transfers[h := Remap(transfers[h], d, categories)];
      }
      assert transfers == CommitIn(old(View()), d, plan).transfers;
    }

    /** The whole deletion, as its caller sees it while holding the mutation gate. */
    method DeleteCategory(d: nat, stored: bool) returns (reply: Reply)
      requires InRange(categories) && Keyed(categories)
      modifies this
      ensures match PlanIn(old(View()), d)
        case Refused => reply == Failed && View() == old(View())
        case Absent => reply == NotFound && View() == old(View())
        case Planned(plan) =>
          if stored && CountsUp(plan.shifted, d)
          then reply == Done(old(categories)[d]) && View() == CommitIn(old(View()), d, plan)
          else reply == Failed && View() == old(View())
    {
      var planned := PlanDeletion(d);
      match planned {
        case Refused => return Failed;
        case Absent => return NotFound;
        case Planned(plan) =>
          if !(CountsUp(plan.shifted, d) && stored) {
            return Failed;
          }
          CommitDeletion(d, plan);
          return Done(plan.deleted);
      }
    }
  }
}
