/**
 * Category operations under the mutation gate, over whole runs.
 *
 * Numbers are reused and shifted, so a run is compared with an abstract store in
 * which every category keeps one token for its whole life.
 */
module CategoryRuns {
  import opened Common
  import opened Sources
  import opened Categories

  // ---------------------------------------------------------------- one operation

  lemma CreateSound(s: Store, applied: Option<Body>, persisted: bool)
    requires Sound(s)
    ensures Sound(CreateIn(s, applied, persisted).0)
  {
  }

  lemma UpdateSound(s: Store, id: nat, apply: Body -> Option<Body>, persisted: bool)
    requires Sound(s)
    ensures Sound(UpdateIn(s, id, apply, persisted).0)
  {
  }

  lemma DeletedKeys(categories: Table, d: nat, i: nat)
    requires i in categories && i != d
    ensures Renumber(d, i) in Deleted(categories, d)
    ensures Deleted(categories, d)[Renumber(d, i)] == categories[i].(id := Renumber(d, i))
  {
  }

  lemma CommitSound(s: Store, d: nat, plan: Plan)
    requires Sound(s) && PlanIn(s, d) == Planned(plan)
    ensures Sound(CommitIn(s, d, plan))
  {
  }

  /**
   * A new category never takes a number in use, exactly as long as the last
   * 32-bit number is free: the counter saturates there and hands it out again.
   */
  lemma CreateFreshExactly(s: Store)
    requires Sound(s)
    ensures s.nextId !in s.categories <==> U32_MAX !in s.categories
  {
  }

  /** A store in which the next creation replaces category 4294967295. */
  lemma CreateCanOverwrite(a: Body, b: Body)
    requires a != b
    ensures var s := Store(map[0 := Category(0, a), U32_MAX := Category(U32_MAX, a)], U32_MAX, map[]);
      && Sound(s)
      && CreateIn(s, Some(b), true).0.categories[U32_MAX].body == b
      && |CreateIn(s, Some(b), true).0.categories| == |s.categories|
  {
  }

  /** Deletion shows every transfer the category it showed before, or the default if that was deleted. */
  lemma DeletionKeepsMeaning(s: Store, d: nat, plan: Plan, h: FileHash)
    requires Sound(s) && PlanIn(s, d) == Planned(plan) && h in s.transfers
    ensures var s' := CommitIn(s, d, plan);
      var was, now := s.transfers[h].categoryId, s'.transfers[h].categoryId;
      if was == d then now == 0 && s'.transfers[h].categoryName == ""
      else
        && now in s'.categories
        && s'.categories[now].body == s.categories[was].body
        && (d < was ==> s'.transfers[h].categoryName == s.categories[was].body.name)
        && (was < d ==> s'.transfers[h] == s.transfers[h])
  {
    if s.transfers[h].categoryId != d {
      DeletedKeys(s.categories, d, s.transfers[h].categoryId);
    }
  }

  /** The next number is one above the largest in use, as long as there is one. */
  lemma NextAfterMeans(categories: Table)
    requires InRange(categories)
    ensures var n := NextAfter(categories);
      && (forall i :: i in categories ==> i < n || n == 4294967295)
      && (n == 1 || n - 1 in categories || (n == 4294967295 && n in categories))
  {
  }

  /**
   * A plan returns the category it deletes, and hands the metadata store every
   * category above it, in ascending order, with its contents and one number less.
   */
  lemma PlanMeans(s: Store, d: nat, plan: Plan, c: Category)
    requires Sound(s) && PlanIn(s, d) == Planned(plan)
    ensures plan.deleted == s.categories[d]
    ensures c in plan.shifted <==>
      c.id + 1 in s.categories && d < c.id + 1 && c.body == s.categories[c.id + 1].body
    ensures forall i, j :: 0 <= i < j < |plan.shifted| ==> plan.shifted[i].id < plan.shifted[j].id
  {
    var shifted := ShiftedAfterDelete(s.categories, d);
    if c in plan.shifted {
      var i :| 0 <= i < |plan.shifted| && plan.shifted[i] == c;
      ShiftedHas(s.categories, d, U32_MAX + 1, i);
    }
    if c.id + 1 in s.categories && d < c.id + 1 && c.body == s.categories[c.id + 1].body {
      var q := FindShifted(s.categories, d, c.id + 1);
      ShiftedHas(s.categories, d, U32_MAX + 1, q);
      assert plan.shifted[q] == c;
    }
    PlannedIds(s, d, plan);
    forall i, j | 0 <= i < j < |plan.shifted| ensures plan.shifted[i].id < plan.shifted[j].id {
      ShiftedAscends(s.categories, d, U32_MAX + 1, i, j);
    }
  }

  // ---------------------------------------------------------------- density

  /** The numbers in use are 0 to n-1. */
  ghost predicate Dense(s: Store) {
    forall i :: i in s.categories <==> 0 <= i < s.nextId
  }

  lemma CreateDense(s: Store, applied: Option<Body>, persisted: bool)
    requires Sound(s) && Dense(s) && s.nextId < U32_MAX
    ensures Dense(CreateIn(s, applied, persisted).0) <==> applied.None? || persisted
  {
    var s' := CreateIn(s, applied, persisted).0;
    if applied.Some? && !persisted {
      assert s.nextId !in s'.categories && s.nextId < s'.nextId;
    }
  }

  lemma DeletedDense(categories: Table, n: nat, d: nat, i: nat)
    requires (forall k :: k in categories <==> 0 <= k < n) && 0 < d < n
    ensures i in Deleted(categories, d) <==> i < n - 1
  {
    if i < n - 1 {
      DeletedKeys(categories, d, if i < d then i else i + 1);
    }
  }

  lemma CommitDense(s: Store, d: nat, plan: Plan)
    requires Sound(s) && Dense(s) && PlanIn(s, d) == Planned(plan)
    ensures Dense(CommitIn(s, d, plan))
    ensures CommitIn(s, d, plan).nextId == s.nextId - 1
  {
    forall i: nat ensures i in plan.categories <==> i < s.nextId - 1 {
      DeletedDense(s.categories, s.nextId, d, i);
    }
    assert s.nextId - 2 in plan.categories;
  }

  /** No number between the deleted category and the last one is unused. */
  ghost predicate NoGapAbove(categories: Table, d: nat) {
    forall i, j :: i in categories && d < j < i ==> j in categories
  }

  lemma FindShifted(categories: Table, d: nat, i: nat) returns (q: nat)
    requires InRange(categories) && i in categories && d < i
    ensures q < |ShiftedAfterDelete(categories, d)| && ShiftedAfterDelete(categories, d)[q].0 == i
  {
    ShiftedFinds(categories, d, U32_MAX + 1, i);
    var shifted := ShiftedAfterDelete(categories, d);
    q :| 0 <= q < |shifted| && shifted[q] == (i, categories[i].(id := i - 1));
  }

  lemma {:induction false} GaplessCounts(categories: Table, d: nat, i: nat)
    requires InRange(categories) && NoGapAbove(categories, d) && i < |ShiftedAfterDelete(categories, d)|
    ensures ShiftedAfterDelete(categories, d)[i].0 == d + 1 + i
  {
    var shifted := ShiftedAfterDelete(categories, d);
    ShiftedHas(categories, d, U32_MAX + 1, i);
    if i > 0 {
      GaplessCounts(categories, d, i - 1);
      ShiftedAscends(categories, d, U32_MAX + 1, i - 1, i);
    }
    if shifted[i].0 > d + 1 + i {
      var q := FindShifted(categories, d, d + 1 + i);
      if q < i {
        GaplessCounts(categories, d, q);
      } else if i < q {
        ShiftedAscends(categories, d, U32_MAX + 1, i, q);
      }
    }
  }

  lemma PlannedIds(s: Store, d: nat, plan: Plan)
    requires PlanIn(s, d) == Planned(plan)
    ensures |plan.shifted| == |ShiftedAfterDelete(s.categories, d)|
    ensures forall i :: 0 <= i < |plan.shifted| ==> plan.shifted[i].id + 1 == ShiftedAfterDelete(s.categories, d)[i].0
  {
    forall i | 0 <= i < |plan.shifted| ensures plan.shifted[i].id + 1 == ShiftedAfterDelete(s.categories, d)[i].0 {
      ShiftedHas(s.categories, d, U32_MAX + 1, i);
    }
  }

  lemma CountedIsGapless(s: Store, d: nat, plan: Plan, i: nat, j: nat)
    requires InRange(s.categories) && PlanIn(s, d) == Planned(plan) && CountsUp(plan.shifted, d)
    requires i in s.categories && d < j < i
    ensures j in s.categories
  {
    PlannedIds(s, d, plan);
    var q := FindShifted(s.categories, d, i);
    assert plan.shifted[q].id == d + q;
    assert plan.shifted[j - d - 1].id == j - 1;
    ShiftedHas(s.categories, d, U32_MAX + 1, j - d - 1);
  }

  /**
   * The metadata store accepts a deletion exactly when no number above the
   * deleted one is unused. A creation whose write failed leaves such a gap, and
   * then every category below it can no longer be deleted.
   */
  lemma DeletableExactly(s: Store, d: nat, plan: Plan)
    requires Sound(s) && PlanIn(s, d) == Planned(plan)
    ensures CountsUp(plan.shifted, d) <==> NoGapAbove(s.categories, d)
  {
    if CountsUp(plan.shifted, d) {
      forall i, j | i in s.categories && d < j < i ensures j in s.categories {
        CountedIsGapless(s, d, plan, i, j);
      }
    } else if NoGapAbove(s.categories, d) {
      PlannedIds(s, d, plan);
      forall i | 0 <= i < |plan.shifted| ensures plan.shifted[i].id == d + i {
        GaplessCounts(s.categories, d, i);
      }
    }
  }

  /** One failed write and one good one: category 1 can no longer be deleted. */
  lemma FailedCreateBlocksDeletion(s: Store, a: Body, b: Body, plan: Plan)
    requires Sound(s) && Dense(s) && 2 <= s.nextId && s.nextId + 1 < U32_MAX
    requires var gap := CreateIn(s, Some(a), false).0; PlanIn(CreateIn(gap, Some(b), true).0, 1) == Planned(plan)
    ensures !CountsUp(plan.shifted, 1)
  {
    var gap := CreateIn(s, Some(a), false).0;
    var s' := CreateIn(gap, Some(b), true).0;
    CreateSound(s, Some(a), false);
    CreateSound(gap, Some(b), true);
    DeletableExactly(s', 1, plan);
    assert s.nextId + 1 in s'.categories && s.nextId !in s'.categories;
  }

  // ---------------------------------------------------------------- whole runs

  /** An atomic step. All but `Drop` take the mutation gate; a deletion keeps it from its plan to its end. */
  datatype Op =
    | Create(applied: Option<Body>, persisted: bool)
    | Update(id: nat, apply: Body -> Option<Body>, persisted: bool)
    | BeginDelete(d: nat)
    | EndDelete(stored: bool)
    | Assign(hash: FileHash, id: nat, stored: bool)
    | Drop(hash: FileHash)

  /** Categories by token, what each transfer refers to, and the next token. Nothing is ever renumbered. */
  datatype Abstract = Abstract(bodies: map<nat, Body>, refs: map<FileHash, nat>, nextToken: nat)

  /** The concrete store, the deletion in progress, the abstract store, and the token behind each number. */
  datatype World = World(store: Store, pending: Option<(nat, Plan)>, abs: Abstract, token: map<nat, nat>)

  ghost predicate GateFree(w: World) {
    w.pending.None?
  }

  /** The abstract creation: a new token for the contents that were asked for. */
  ghost function CreateStep(w: World, applied: Option<Body>, persisted: bool): World {
    var store := CreateIn(w.store, applied, persisted).0;
    if applied.None? || !persisted then w.(store := store) else
      World(
        store, w.pending,
        Abstract(w.abs.bodies[w.abs.nextToken := applied.value], w.abs.refs, w.abs.nextToken + 1),
        w.token[w.store.nextId := w.abs.nextToken])
  }

  /** What the abstract store holds for a token after the edit is written. */
  ghost function Edited(bodies: map<nat, Body>, t: nat, apply: Body -> Option<Body>): map<nat, Body> {
    if t in bodies && apply(bodies[t]).Some? then bodies[t := apply(bodies[t]).value] else bodies
  }

  /** The abstract update: the contents behind the token are edited in place. */
  ghost function UpdateStep(w: World, id: nat, apply: Body -> Option<Body>, persisted: bool): World {
    var store := UpdateIn(w.store, id, apply, persisted).0;
    if id == 0 || id !in w.token || !persisted then w.(store := store) else
      w.(store := store, abs := w.abs.(bodies := Edited(w.abs.bodies, w.token[id], apply)))
  }

  ghost function Forget(refs: map<FileHash, nat>, t: nat): map<FileHash, nat> {
    map h | h in refs :: if refs[h] == t then 0 else refs[h]
  }

  ghost function EndStep(w: World, d: nat, plan: Plan, stored: bool): World {
    if !(stored && CountsUp(plan.shifted, d)) || d !in w.token then w.(pending := None) else
      var t := w.token[d];
      World(
        CommitIn(w.store, d, plan), None,
        Abstract(w.abs.bodies - {t}, Forget(w.abs.refs, t), w.abs.nextToken),
        Renumbered(w.token, d))
  }

  ghost function Renumbered(token: map<nat, nat>, d: nat): map<nat, nat> {
    map k | k in token && k != d :: Renumber(d, k) := token[k]
  }

  ghost function AssignStep(w: World, hash: FileHash, id: nat, stored: bool): World {
    if id !in w.store.categories || id !in w.token || !stored then w else
      var t := Transfer(id, w.store.categories[id].body.name);
      w.(store := w.store.(transfers := w.store.transfers[hash := t]),
         abs := w.abs.(refs := w.abs.refs[hash := w.token[id]]))
  }

  ghost function Step(w: World, op: Op): World {
    match op
    case Create(applied, persisted) => if GateFree(w) then CreateStep(w, applied, persisted) else w
    case Update(id, apply, persisted) => if GateFree(w) then UpdateStep(w, id, apply, persisted) else w
    case BeginDelete(d) =>
      if GateFree(w) && PlanIn(w.store, d).Planned? then w.(pending := Some((d, PlanIn(w.store, d).plan))) else w
    case EndDelete(stored) =>
      if GateFree(w) then w else EndStep(w, w.pending.value.0, w.pending.value.1, stored)
    case Assign(hash, id, stored) => if GateFree(w) then AssignStep(w, hash, id, stored) else w
    case Drop(hash) =>
      w.(store := w.store.(transfers := w.store.transfers - {hash}), abs := w.abs.(refs := w.abs.refs - {hash}))
  }

  /** A creation that would take a number in use is excluded; `CreateFreshExactly` says when that can be. */
  ghost predicate Safe(w: World, op: Op) {
    op.Create? ==> w.store.nextId !in w.store.categories
  }

  type Tokens = map<nat, nat>

  /** Tokens grow with the numbers, so they are distinct and keep the creation order. */
  ghost predicate Ordered(token: Tokens) {
    && 0 in token && token[0] == 0
    && forall i, j :: i in token && j in token && i < j ==> token[i] < token[j]
  }

  /** The category with this number has the contents its token has in the abstract store. */
  ghost predicate SameBody(token: Tokens, categories: Table, bodies: map<nat, Body>, next: nat, i: nat) {
    && (i in token <==> i in categories)
    && (i in token ==> token[i] in bodies && token[i] < next && bodies[token[i]] == categories[i].body)
  }

  ghost predicate HasNumber(token: Tokens, t: nat) {
    exists i :: i in token && token[i] == t
  }

  ghost predicate TokensMatch(token: Tokens, categories: Table, bodies: map<nat, Body>, next: nat) {
    && (forall i :: SameBody(token, categories, bodies, next, i))
    && (forall t :: t in bodies ==> HasNumber(token, t))
  }

  /** The transfer's number stands for the category the abstract store says it refers to. */
  ghost predicate SameRef(token: Tokens, transfers: map<FileHash, Transfer>, refs: map<FileHash, nat>, h: FileHash) {
    && (h in transfers <==> h in refs)
    && (h in transfers ==> transfers[h].categoryId in token && token[transfers[h].categoryId] == refs[h])
  }

  ghost predicate RefsMatch(token: Tokens, transfers: map<FileHash, Transfer>, refs: map<FileHash, nat>) {
    forall h :: SameRef(token, transfers, refs, h)
  }

  /** The plan made before persistence is still the plan for the present table. */
  ghost predicate PlanCurrent(w: World) {
    w.pending.Some? ==> PlanIn(w.store, w.pending.value.0) == Planned(w.pending.value.1)
  }

  ghost predicate Refines(w: World) {
    && Sound(w.store)
    && Ordered(w.token)
    && TokensMatch(w.token, w.store.categories, w.abs.bodies, w.abs.nextToken)
    && RefsMatch(w.token, w.store.transfers, w.abs.refs)
    && PlanCurrent(w)
  }

  // Creation.

  lemma CreateTokens(token: Tokens, categories: Table, bodies: map<nat, Body>, next: nat, c: Category)
    requires Ordered(token) && TokensMatch(token, categories, bodies, next) && c.id !in categories
    requires forall i :: i in categories ==> i < c.id
    ensures Ordered(token[c.id := next])
    ensures TokensMatch(token[c.id := next], categories[c.id := c], bodies[next := c.body], next + 1)
  {
    var token', categories', bodies' := token[c.id := next], categories[c.id := c], bodies[next := c.body];
    assert SameBody(token, categories, bodies, next, c.id);
    forall i | i in token ensures i in categories && token[i] < next {
      assert SameBody(token, categories, bodies, next, i);
    }
    var later := next + 1;
    forall i ensures SameBody(token', categories', bodies', later, i) {
      assert SameBody(token, categories, bodies, next, i);
    }
    forall t | t in bodies' ensures HasNumber(token', t) {
      if t == next {
        assert token'[c.id] == t;
      } else {
        assert HasNumber(token, t);
        var i :| i in token && token[i] == t;
        assert token'[i] == t;
      }
    }
  }

  lemma WiderTokens(token: Tokens, transfers: map<FileHash, Transfer>, refs: map<FileHash, nat>, i: nat, t: nat)
    requires RefsMatch(token, transfers, refs) && i !in token
    ensures RefsMatch(token[i := t], transfers, refs)
  {
    var token' := token[i := t];
    forall h ensures SameRef(token', transfers, refs, h) {
      assert SameRef(token, transfers, refs, h);
    }
  }

  lemma CreateRefines(w: World, applied: Option<Body>, persisted: bool)
    requires Refines(w) && GateFree(w) && w.store.nextId !in w.store.categories
    ensures Refines(CreateStep(w, applied, persisted))
  {
    CreateSound(w.store, applied, persisted);
    if applied.Some? && persisted {
      var c := Category(w.store.nextId, applied.value);
      CreateTokens(w.token, w.store.categories, w.abs.bodies, w.abs.nextToken, c);
      assert SameBody(w.token, w.store.categories, w.abs.bodies, w.abs.nextToken, c.id);
      WiderTokens(w.token, w.store.transfers, w.abs.refs, c.id, w.abs.nextToken);
    }
  }

  // Update.

  lemma UpdateTokens(token: Tokens, categories: Table, bodies: map<nat, Body>, next: nat, id: nat, body: Body)
    requires Ordered(token) && TokensMatch(token, categories, bodies, next) && id in token && id in categories
    ensures TokensMatch(token, categories[id := categories[id].(body := body)], bodies[token[id] := body], next)
  {
    assert SameBody(token, categories, bodies, next, id);
    var categories', bodies' := categories[id := categories[id].(body := body)], bodies[token[id] := body];
    forall i ensures SameBody(token, categories', bodies', next, i) {
      assert SameBody(token, categories, bodies, next, i);
    }
  }

  lemma UpdateRefines(w: World, id: nat, apply: Body -> Option<Body>, persisted: bool)
    requires Refines(w) && GateFree(w)
    ensures Refines(UpdateStep(w, id, apply, persisted))
  {
    UpdateSound(w.store, id, apply, persisted);
    assert SameBody(w.token, w.store.categories, w.abs.bodies, w.abs.nextToken, id);
    if id != 0 && id in w.token && persisted {
      var body := w.store.categories[id].body;
      if apply(body).Some? {
        UpdateTokens(w.token, w.store.categories, w.abs.bodies, w.abs.nextToken, id, apply(body).value);
      }
    }
  }

  // Deletion.

  /** The number a renumbered category had before. */
  ghost function Before(d: nat, i: nat): nat {
    if i < d then i else i + 1
  }

  /** `to` holds at `i` what `from` held before the deletion of `d`. */
  ghost predicate MovedAt<T>(from: map<nat, T>, to: map<nat, T>, d: nat, i: nat) {
    (i in to <==> Before(d, i) in from) && (i in to ==> to[i] == from[Before(d, i)])
  }

  ghost predicate Moved<T>(from: map<nat, T>, to: map<nat, T>, d: nat) {
    forall i :: MovedAt(from, to, d, i)
  }

  lemma RenumberedMoves(token: Tokens, d: nat)
    ensures Moved(token, Renumbered(token, d), d)
  {
  }

  /** The bodies of a table, by number. */
  ghost function Bodies(categories: Table): map<nat, Body> {
    map i | i in categories :: categories[i].body
  }

  lemma DeletedMoves(categories: Table, d: nat)
    ensures Moved(Bodies(categories), Bodies(Deleted(categories, d)), d)
  {
  }

  lemma DeleteOrdered(token: Tokens, token': Tokens, d: nat)
    requires Ordered(token) && d != 0 && Moved(token, token', d)
    ensures Ordered(token')
  {
    assert MovedAt(token, token', d, 0);
    forall i, j | i in token' && j in token' && i < j ensures token'[i] < token'[j] {
      assert MovedAt(token, token', d, i) && MovedAt(token, token', d, j);
    }
  }

  lemma DeleteTokens(
    token: Tokens, token': Tokens, categories: Table, categories': Table, bodies: map<nat, Body>, next: nat, d: nat)
    requires Ordered(token) && TokensMatch(token, categories, bodies, next) && d in token
    requires Moved(token, token', d) && Moved(Bodies(categories), Bodies(categories'), d)
    ensures TokensMatch(token', categories', bodies - {token[d]}, next)
  {
    var bodies' := bodies - {token[d]};
    forall i ensures SameBody(token', categories', bodies', next, i) {
      assert MovedAt(token, token', d, i);
      assert MovedAt(Bodies(categories), Bodies(categories'), d, i);
      assert SameBody(token, categories, bodies, next, Before(d, i));
    }
    forall t | t in bodies' ensures HasNumber(token', t) {
      assert HasNumber(token, t);
      var k :| k in token && token[k] == t;
      assert Before(d, Renumber(d, k)) == k;
      assert MovedAt(token, token', d, Renumber(d, k));
    }
  }

  lemma DeleteRefs(
    token: Tokens, token': Tokens, transfers: map<FileHash, Transfer>, refs: map<FileHash, nat>, d: nat,
    categories: Table)
    requires Ordered(token) && RefsMatch(token, transfers, refs) && d in token && d != 0 && Moved(token, token', d)
    ensures RefsMatch(token', map h | h in transfers :: Remap(transfers[h], d, categories), Forget(refs, token[d]))
  {
    var refs' := Forget(refs, token[d]);
    var transfers' := map h | h in transfers :: Remap(transfers[h], d, categories);
    forall h ensures SameRef(token', transfers', refs', h) {
      assert SameRef(token, transfers, refs, h);
      if h in transfers {
        var id := transfers[h].categoryId;
        assert MovedAt(token, token', d, 0);
        assert MovedAt(token, token', d, Renumber(d, id));
      }
    }
  }

  lemma CommitRefines(w: World, d: nat, plan: Plan)
    requires Refines(w) && w.pending == Some((d, plan)) && CountsUp(plan.shifted, d)
    ensures Refines(EndStep(w, d, plan, true))
  {
    assert SameBody(w.token, w.store.categories, w.abs.bodies, w.abs.nextToken, d);
    CommitSound(w.store, d, plan);
    RenumberedMoves(w.token, d);
    DeletedMoves(w.store.categories, d);
    var token' := Renumbered(w.token, d);
    DeleteOrdered(w.token, token', d);
    DeleteTokens(w.token, token', w.store.categories, plan.categories, w.abs.bodies, w.abs.nextToken, d);
    DeleteRefs(w.token, token', w.store.transfers, w.abs.refs, d, plan.categories);
  }

  lemma EndRefines(w: World, d: nat, plan: Plan, stored: bool)
    requires Refines(w) && w.pending == Some((d, plan))
    ensures Refines(EndStep(w, d, plan, stored))
    ensures !stored ==> EndStep(w, d, plan, stored) == w.(pending := None)
  {
    if stored && CountsUp(plan.shifted, d) {
      CommitRefines(w, d, plan);
    }
  }

  // Assignment and removal of transfers.

  lemma AssignRefines(w: World, hash: FileHash, id: nat, stored: bool)
    requires Refines(w) && GateFree(w)
    ensures Refines(AssignStep(w, hash, id, stored))
  {
    var w' := AssignStep(w, hash, id, stored);
    forall h ensures SameRef(w'.token, w'.store.transfers, w'.abs.refs, h) {
      assert SameRef(w.token, w.store.transfers, w.abs.refs, h);
    }
    forall i ensures SameBody(w'.token, w'.store.categories, w'.abs.bodies, w'.abs.nextToken, i) {
      assert SameBody(w.token, w.store.categories, w.abs.bodies, w.abs.nextToken, i);
    }
  }

  lemma DropRefines(w: World, hash: FileHash)
    requires Refines(w)
    ensures Refines(Step(w, Drop(hash)))
  {
    var w' := Step(w, Drop(hash));
    forall h ensures SameRef(w'.token, w'.store.transfers, w'.abs.refs, h) {
      assert SameRef(w.token, w.store.transfers, w.abs.refs, h);
    }
    forall i ensures SameBody(w'.token, w'.store.categories, w'.abs.bodies, w'.abs.nextToken, i) {
      assert SameBody(w.token, w.store.categories, w.abs.bodies, w.abs.nextToken, i);
    }
  }

  lemma StepRefines(w: World, op: Op)
    requires Refines(w) && Safe(w, op)
    ensures Refines(Step(w, op))
  {
    match op
    case Create(applied, persisted) => if GateFree(w) { CreateRefines(w, applied, persisted); }
    case Update(id, apply, persisted) => if GateFree(w) { UpdateRefines(w, id, apply, persisted); }
    case BeginDelete(d) =>
    case EndDelete(stored) =>
      if !GateFree(w) { EndRefines(w, w.pending.value.0, w.pending.value.1, stored); }
    case Assign(hash, id, stored) => if GateFree(w) { AssignRefines(w, hash, id, stored); }
    case Drop(hash) => DropRefines(w, hash);
  }

  ghost function After(w: World, ops: seq<Op>): World {
    if ops == [] then w else Step(After(w, ops[..|ops| - 1]), Last(ops))
  }

  ghost predicate SafeRun(w: World, ops: seq<Op>) {
    ops == [] || (SafeRun(w, ops[..|ops| - 1]) && Safe(After(w, ops[..|ops| - 1]), Last(ops)))
  }

  /**
   * Over every gated run with fallible persistence the numbered store refines the
   * store that never renumbers: same categories in the same order, and every
   * transfer refers to the category it was given, or to the default once that one
   * has been deleted.
   */
  lemma {:induction false} RunRefines(w: World, ops: seq<Op>)
    requires Refines(w) && SafeRun(w, ops)
    ensures Refines(After(w, ops))
  {
    if ops != [] {
      var init := ops[..|ops| - 1];
      RunRefines(w, init);
      StepRefines(After(w, init), Last(ops));
    }
  }

  /** Start-up: the counter is placed behind the loaded categories. */
  lemma LoadedSound(categories: Table)
    requires 0 in categories && Keyed(categories) && InRange(categories)
    ensures Sound(Store(categories, NextAfter(categories), map[]))
  {
  }

  /** Any sound store can start a run: take the present numbers as tokens. */
  ghost function Start(s: Store): World {
    World(
      s, None,
      Abstract(Bodies(s.categories), map h | h in s.transfers :: s.transfers[h].categoryId, U32_MAX + 1),
      map i | i in s.categories :: i)
  }

  lemma StartRefines(s: Store)
    requires Sound(s)
    ensures Refines(Start(s))
  {
  }

  // ---------------------------------------------------------------- density over runs

  /** Every valid creation is written, and has a number left. */
  ghost predicate Written(w: World, ops: seq<Op>) {
    ops == [] ||
    (var init, last := ops[..|ops| - 1], Last(ops);
     && Written(w, init)
     && (last.Create? ==> (last.applied.Some? ==> last.persisted) && After(w, init).store.nextId < U32_MAX))
  }

  /** In a dense store every deletion passes the metadata store's check. */
  lemma DenseDeletes(s: Store, d: nat, plan: Plan)
    requires Sound(s) && Dense(s) && PlanIn(s, d) == Planned(plan)
    ensures CountsUp(plan.shifted, d)
  {
    DeletableExactly(s, d, plan);
  }

  lemma StepDense(w: World, op: Op)
    requires Refines(w) && Dense(w.store)
    requires op.Create? ==> (op.applied.Some? ==> op.persisted) && w.store.nextId < U32_MAX
    ensures Dense(Step(w, op).store)
  {
    match op
    case Create(applied, persisted) => CreateDense(w.store, applied, persisted);
    case EndDelete(stored) =>
      if !GateFree(w) {
        CommitDense(w.store, w.pending.value.0, w.pending.value.1);
      }
    case _ =>
  }

  /** From a dense store, runs whose valid creations are all written stay dense, and so every deletion can be stored. */
  lemma {:induction false} RunDense(w: World, ops: seq<Op>, d: nat)
    requires Refines(w) && Dense(w.store) && Written(w, ops)
    ensures Refines(After(w, ops)) && Dense(After(w, ops).store)
    ensures var s := After(w, ops).store; PlanIn(s, d).Planned? ==> CountsUp(PlanIn(s, d).plan.shifted, d)
  {
    if ops != [] {
      var init, last := ops[..|ops| - 1], Last(ops);
      RunDense(w, init, d);
      StepRefines(After(w, init), last);
      StepDense(After(w, init), last);
    }
    var s := After(w, ops).store;
    if PlanIn(s, d).Planned? {
      DenseDeletes(s, d, PlanIn(s, d).plan);
    }
  }
}
