/**
 Exact holder counts. After every frame, each registered instance but the
 root has at least one holder, and its count is the number of collection slots
 of registered instances that hold it, plus one if the instance it is nested
 in is registered; so no visible element is unregistered.
 */
module ReplicaProofs {
  import opened Wrappers
  import opened Wire
  import opened StateTypes
  import opened OpCodec
  import opened Containers
  import opened Replica

  // ------------------------------------------------------------ slot counting

  /** How many slots of the collections at `places` hold `y`. */
  ghost function Slots(colls: map<Place, Coll>, places: set<Place>, y: Id): nat
    requires places <= colls.Keys
  {
    if places == {} then 0
    else
      var p :| p in places;
      Held(colls[p].contents)[y] + Slots(colls, places - {p}, y)
  }

  lemma SlotsRemove(colls: map<Place, Coll>, places: set<Place>, y: Id, p: Place)
    requires places <= colls.Keys && p in places
    ensures Slots(colls, places, y) == Held(colls[p].contents)[y] + Slots(colls, places - {p}, y)
    decreases |places|
  {
    hide Held;
    var q :| q in places && Slots(colls, places, y) == Held(colls[q].contents)[y] + Slots(colls, places - {q}, y);
    if q != p {
      SlotsRemove(colls, places - {q}, y, p);
      SlotsRemove(colls, places - {p}, y, q);
      assert places - {q} - {p} == places - {p} - {q};
    }
  }

  lemma SlotsUnion(colls: map<Place, Coll>, a: set<Place>, b: set<Place>, y: Id)
    requires a <= colls.Keys && b <= colls.Keys && a !! b
    ensures Slots(colls, a + b, y) == Slots(colls, a, y) + Slots(colls, b, y)
    decreases |b|
  {
    hide Held;
    if b == {} {
      assert a + b == a;
    } else {
      var p :| p in b;
      SlotsRemove(colls, b, y, p);
      SlotsRemove(colls, a + b, y, p);
      assert a + b - {p} == a + (b - {p});
      SlotsUnion(colls, a, b - {p}, y);
    }
  }

  lemma SlotsFrame(colls: map<Place, Coll>, colls': map<Place, Coll>, places: set<Place>, y: Id)
    requires places <= colls.Keys && places <= colls'.Keys
    requires forall p :: p in places ==> Held(colls[p].contents)[y] == Held(colls'[p].contents)[y]
    ensures Slots(colls, places, y) == Slots(colls', places, y)
    decreases |places|
  {
    hide Held;
    if places != {} {
      var p :| p in places;
      SlotsRemove(colls, places, y, p);
      SlotsRemove(colls', places, y, p);
      SlotsFrame(colls, colls', places - {p}, y);
    }
  }

  lemma SlotsZero(colls: map<Place, Coll>, places: set<Place>, y: Id)
    requires places <= colls.Keys
    ensures Slots(colls, places, y) == 0 <==> forall p :: p in places ==> Held(colls[p].contents)[y] == 0
    decreases |places|
  {
    hide Held;
    forall p | p in places
      ensures Slots(colls, places, y) >= Held(colls[p].contents)[y]
    {
      SlotsRemove(colls, places, y, p);
    }
    if places != {} && forall p :: p in places ==> Held(colls[p].contents)[y] == 0 {
      var p :| p in places;
      SlotsRemove(colls, places, y, p);
      SlotsZero(colls, places - {p}, y);
    }
  }

  // --------------------------------------------------------------- invariants

  /** The collections of registered instances. */
  ghost function Live(st: State): set<Place> {
    set p | p in st.colls && p.0 in st.refOf
  }

  ghost predicate NestedHeld(st: State, y: Id) {
    y in st.parent && st.parent[y].0 in st.refOf
  }

  /** Slots that hold `y` in registered instances, plus its registered nesting parent. */
  ghost function Count(st: State, y: Id): nat {
    Slots(st.colls, Live(st), y) + (if NestedHeld(st, y) then 1 else 0)
  }

  /** Nesting is a forest; nested instances and the root are in no collection. */
  ghost predicate GraphShape(st: State) {
    && st.root in st.classOf && st.root !in st.parent
    && (forall p :: p in st.nested ==> p.0 in st.classOf && st.nested[p] in st.parent && st.parent[st.nested[p]] == p)
    && (forall y :: y in st.parent ==>
          y in st.classOf && st.parent[y] in st.nested && st.nested[st.parent[y]] == y && st.parent[y].0 != y)
    && (forall p :: p in st.colls ==> p.0 in st.classOf && p !in st.nested)
    && (forall p, y :: p in st.colls && y in Held(st.colls[p].contents) ==>
          y in st.classOf && y !in st.parent && y != st.root)
  }

  /** Nonnegative entries are distinct: no two server fields share a local field. */
  predicate Distinct(local: seq<int>) {
    forall i, j :: 0 <= i < j < |local| && local[i] >= 0 ==> local[i] != local[j]
  }

  /** The registration tables describe the same instances. */
  ghost predicate Registered(st: State) {
    && st.refOf.Keys == st.bindingOf.Keys == st.holders.Keys
    && (forall y :: y in st.refOf ==> y in st.classOf)
    && (forall y :: y in st.bindingOf ==>
          |st.bindingOf[y].local| == |st.bindingOf[y].types| && Distinct(st.bindingOf[y].local))
    && (st.root in st.refOf ==> st.holders[st.root] == FOREVER)
    && (st.refOf != map[] ==> st.rootBound)
  }

  predicate InSpan(st: State, id: Id, k: int)
    requires id in st.refOf && id in st.bindingOf
  {
    st.refOf[id] < k <= st.refOf[id] + CollectionCount(st.bindingOf[id].types)
  }

  /** A refId leads only to what its block's instance owns. */
  ghost predicate RefsShape(st: State) {
    && (forall k :: k in st.refs && st.refs[k].Inst? ==>
          st.refs[k].id in st.refOf && st.refOf[st.refs[k].id] == k)
    && (forall k :: k in st.refs && st.refs[k].CollAt? ==>
          var p := st.refs[k].place;
          && p in st.colls && p.0 in st.refOf && p.0 in st.bindingOf && InSpan(st, p.0, k)
          && (p.1 as int) in st.bindingOf[p.0].local)
  }

  /** What a registered instance holds, it holds through mapped fields. */
  ghost predicate Mapped(st: State) {
    && (forall p :: p in st.colls && p.0 in st.bindingOf && (p.1 as int) !in st.bindingOf[p.0].local ==>
          Held(st.colls[p].contents) == multiset{})
    && (forall y :: y in st.refOf && y in st.parent && st.parent[y].0 in st.bindingOf ==>
          (st.parent[y].1 as int) in st.bindingOf[st.parent[y].0].local)
  }

  ghost predicate Shape(st: State) {
    GraphShape(st) && Registered(st) && RefsShape(st) && Mapped(st)
  }

  /** Visible elements are registered. */
  ghost predicate ElementsRegistered(st: State) {
    forall p, y :: p in Live(st) && y in Held(st.colls[p].contents) ==> y in st.refOf
  }

  /** Counts are exact, but for `debt`: releases still to be made. */
  ghost predicate Exact(st: State, debt: multiset<Id>) {
    forall y :: y in st.refOf && y != st.root && y in st.holders ==> st.holders[y] == Count(st, y) + debt[y]
  }

  /** Only instances in `pending` may be without a holder. */
  ghost predicate ZerosIn(st: State, pending: set<Id>) {
    forall y :: y in st.holders && y != st.root && st.holders[y] <= 0 ==> y in pending
  }

  /** The invariant within a frame. */
  ghost predicate Inv(st: State, debt: multiset<Id>, pending: set<Id>) {
    Shape(st) && ElementsRegistered(st) && Exact(st, debt) && ZerosIn(st, pending)
  }

  // -------------------------------------------------------------------- drops

  /** The collections `id` owns. */
  ghost function Owned(st: State, id: Id): set<Place> {
    set p | p in st.colls && p.0 == id
  }

  ghost function OwnedAt(st: State, id: Id, local: seq<int>): set<Place> {
    set p | p in st.colls && p.0 == id && (p.1 as int) in local
  }

  /** What one mapped field contributes. */
  lemma FieldCount(st: State, id: Id, l: int, rest: seq<int>, y: Id)
    requires GraphShape(st) && (l >= 0 ==> l !in rest)
    ensures multiset(Children(st, id, [l]))[y] + Slots(st.colls, OwnedAt(st, id, rest), y) ==
            Slots(st.colls, OwnedAt(st, id, [l] + rest), y) +
            (if l >= 0 && (id, l as nat) in st.nested && st.nested[(id, l as nat)] == y then 1 else 0)
  {
    hide Held, Slots, Ids;
    ChildrenOne(st, id, l);
    if l >= 0 && (id, l as nat) in st.colls {
      var p := (id, l as nat);
      assert OwnedAt(st, id, [l] + rest) - {p} == OwnedAt(st, id, rest);
      SlotsRemove(st.colls, OwnedAt(st, id, [l] + rest), y, p);
      HeldIs(st.colls[p].contents);
    } else {
      assert OwnedAt(st, id, [l] + rest) == OwnedAt(st, id, rest);
    }
  }

  lemma ChildrenOne(st: State, id: Id, l: int)
    ensures Children(st, id, [l]) ==
            if l < 0 then []
            else if (id, l as nat) in st.nested then [st.nested[(id, l as nat)]]
            else if (id, l as nat) in st.colls then Ids(SlotsOf(st.colls[(id, l as nat)].contents))
            else []
  {
    hide Ids, SlotsOf;
    assert [l][1..] == [];
  }

  lemma ChildrenStep(st: State, id: Id, local: seq<int>)
    requires local != []
    ensures Children(st, id, local) == Children(st, id, [local[0]]) + Children(st, id, local[1..])
  {
    hide Ids, SlotsOf;
    assert [local[0]][1..] == [];
  }

  /** `Children` counts each held slot and each nested instance once. */
  lemma {:induction false} ChildrenCount(st: State, id: Id, local: seq<int>, y: Id)
    requires GraphShape(st) && Distinct(local)
    ensures multiset(Children(st, id, local))[y] ==
            Slots(st.colls, OwnedAt(st, id, local), y) +
            (if y in st.parent && st.parent[y].0 == id && (st.parent[y].1 as int) in local then 1 else 0)
    decreases |local|
  {
    hide Held, Slots, Children;
    if local == [] {
      assert OwnedAt(st, id, local) == {};
      SlotsZero(st.colls, {}, y);
      NoChildren(st, id);
    } else {
      var l, rest := local[0], local[1..];
      assert Distinct(rest) && local == [l] + rest;
      ChildrenCount(st, id, rest, y);
      ChildrenStep(st, id, local);
      FieldCount(st, id, l, rest, y);
    }
  }

  lemma NoChildren(st: State, id: Id)
    ensures Children(st, id, []) == []
  {
  }

  lemma HeldIs(c: Contents)
    ensures Held(c) == multiset(Ids(SlotsOf(c)))
  {
  }

  /** Everything a registered instance holds is among its children. */
  lemma OwnedCount(st: State, id: Id, y: Id)
    requires Shape(st) && id in st.bindingOf && y in st.refOf
    ensures multiset(Children(st, id, st.bindingOf[id].local))[y] ==
            Slots(st.colls, Owned(st, id), y) + (if y in st.parent && st.parent[y].0 == id then 1 else 0)
  {
    hide Held, Slots, Children, RefsShape, GraphShape;
    var local := st.bindingOf[id].local;
    ChildrenCount(st, id, local, y);
    var others := Owned(st, id) - OwnedAt(st, id, local);
    SlotsUnion(st.colls, OwnedAt(st, id, local), others, y);
    assert OwnedAt(st, id, local) + others == Owned(st, id);
    SlotsZero(st.colls, others, y);
  }

  lemma ForgetCount(st: State, id: Id, y: Id)
    requires Shape(st) && id in st.refOf && y in st.refOf && y != id
    ensures Count(st, y) ==
            Count(Forget(st, id), y) + multiset(Children(st, id, st.bindingOf[id].local))[y]
  {
    hide Held, Slots, Children, RefsShape, GraphShape, Mapped;
    var st1 := Forget(st, id);
    OwnedCount(st, id, y);
    assert Live(st) == Live(st1) + Owned(st, id);
    SlotsUnion(st.colls, Live(st1), Owned(st, id), y);
  }

  predicate SameGraph(st: State, st': State) {
    && st'.root == st.root && st'.classOf == st.classOf && st'.nested == st.nested
    && st'.parent == st.parent && st'.colls == st.colls
  }

  lemma GraphFrame(st: State, st': State)
    requires GraphShape(st) && SameGraph(st, st')
    ensures GraphShape(st')
  {
    hide Held;
  }

  lemma ForgetRefs(st: State, id: Id)
    requires Registered(st) && RefsShape(st) && id in st.refOf
    ensures RefsShape(Forget(st, id))
  {
    hide Held, Distinct, CollectionCount;
    var st1 := Forget(st, id);
    forall k | k in st1.refs && st1.refs[k].CollAt?
      ensures st1.refs[k].place.0 != id
    {
      assert st.refs[k] == st1.refs[k] && !Within(st.refOf[id], k, CollectionCount(st.bindingOf[id].types) + 1);
    }
  }

  lemma ForgetShape(st: State, id: Id)
    requires Shape(st) && id in st.refOf && id != st.root
    ensures Shape(Forget(st, id))
  {
    hide Held, GraphShape, RefsShape, Distinct, Span;
    ForgetRefs(st, id);
    GraphFrame(st, Forget(st, id));
  }

  /** An instance without holders is in no live collection, so forgetting it hides nothing. */
  lemma ForgetKeeps(st: State, id: Id, debt: multiset<Id>, pending: set<Id>)
    requires Inv(st, debt, pending + {id}) && id in st.refOf && id != st.root && st.holders[id] <= 0
    ensures Inv(Forget(st, id), debt + multiset(Children(st, id, st.bindingOf[id].local)), pending)
  {
    hide Held, Slots, Children, RefsShape, GraphShape, Mapped;
    ForgetShape(st, id);
    var st1 := Forget(st, id);
    var debt' := debt + multiset(Children(st, id, st.bindingOf[id].local));
    SlotsZero(st.colls, Live(st), id);
    assert ElementsRegistered(st1);
    forall y | y in st1.refOf && y != st1.root && y in st1.holders
      ensures st1.holders[y] == Count(st1, y) + debt'[y]
    {
      ForgetCount(st, id, y);
    }
  }

  /** None of `ids` is the root. */
  ghost predicate Ordinary(root: Id, ids: seq<Id>) {
    forall i :: 0 <= i < |ids| ==> ids[i] != root
  }

  lemma {:induction false} ChildrenAreOrdinary(st: State, id: Id, local: seq<int>)
    requires GraphShape(st)
    ensures Ordinary(st.root, Children(st, id, local))
  {
    hide GraphShape, Children;
    if local == [] {
      NoChildren(st, id);
    } else {
      ChildrenStep(st, id, local);
      FieldOrdinary(st, id, local[0]);
      ChildrenAreOrdinary(st, id, local[1..]);
    }
  }

  lemma FieldOrdinary(st: State, id: Id, l: int)
    requires GraphShape(st)
    ensures Ordinary(st.root, Children(st, id, [l]))
  {
    hide Ids, Children;
    ChildrenOne(st, id, l);
    var children := Children(st, id, [l]);
    if l >= 0 && (id, l as nat) in st.colls {
      HeldIs(st.colls[(id, l as nat)].contents);
      forall i | 0 <= i < |children|
        ensures children[i] != st.root
      {
        assert children[i] in multiset(children);
      }
    }
  }

  lemma ForgetFields(st: State, id: Id)
    requires id in st.refOf && id in st.bindingOf
    ensures Forget(st, id).refOf == st.refOf - {id} && Forget(st, id).root == st.root
  {
  }

  lemma RegisteredToo(st: State, debt: multiset<Id>, pending: set<Id>, id: Id)
    requires Inv(st, debt, pending)
    ensures id in st.refOf <==> id in st.holders
    ensures id in st.refOf <==> id in st.bindingOf
  {
    hide GraphShape, RefsShape, Mapped, ElementsRegistered, Exact, ZerosIn;
  }

  lemma GraphOf(st: State, debt: multiset<Id>, pending: set<Id>)
    requires Inv(st, debt, pending)
    ensures GraphShape(st)
  {
  }

  lemma RefsFrame(st: State, st': State)
    requires RefsShape(st) && SameGraph(st, st') && st'.refs == st.refs
    requires st'.refOf == st.refOf && st'.bindingOf == st.bindingOf
    ensures RefsShape(st')
  {
    forall k | k in st'.refs && st'.refs[k].CollAt?
      ensures var p := st'.refs[k].place; p.0 in st'.refOf && p.0 in st'.bindingOf && InSpan(st', p.0, k)
    {
      assert InSpan(st, st.refs[k].place.0, k);
    }
  }

  lemma MappedFrame(st: State, st': State)
    requires Mapped(st) && SameGraph(st, st') && st'.refOf == st.refOf && st'.bindingOf == st.bindingOf
    ensures Mapped(st')
  {
    hide Held;
  }

  lemma CountFrame(st: State, st': State, y: Id)
    requires st'.colls == st.colls && st'.refOf == st.refOf && st'.parent == st.parent
    ensures Count(st', y) == Count(st, y) && Live(st') == Live(st)
  {
    assert Live(st') == Live(st);
  }

  /** `st` with another count for an instance that is not the root. */
  function Recount(st: State, id: Id, n: int): State {
    st.(holders := st.holders[id := n])
  }

  lemma RecountShape(st: State, id: Id, n: int)
    requires Shape(st) && id in st.holders && id != st.root
    ensures Shape(Recount(st, id, n))
    ensures ElementsRegistered(st) ==> ElementsRegistered(Recount(st, id, n))
  {
    hide GraphShape, RefsShape, Mapped, Held, Distinct;
    var st' := Recount(st, id, n);
    GraphFrame(st, st');
    RefsFrame(st, st');
    MappedFrame(st, st');
    CountFrame(st, st', id);
  }

  /** One child released: the debt moves into its count. */
  lemma SettleOne(st: State, child: Id, rest: multiset<Id>, pending: set<Id>)
    requires Inv(st, rest + multiset{child}, pending) && child != st.root
    ensures child !in st.holders ==> Inv(st, rest, pending)
    ensures child in st.holders ==> Inv(Recount(st, child, st.holders[child] - 1), rest, pending + {child})
    ensures child in st.holders && st.holders[child] > 1 ==>
              Inv(Recount(st, child, st.holders[child] - 1), rest, pending)
  {
    hide Shape, ElementsRegistered, Count;
    if child in st.holders {
      var st' := Recount(st, child, st.holders[child] - 1);
      RecountShape(st, child, st.holders[child] - 1);
      forall y | y in st'.refOf && y != st'.root && y in st'.holders
        ensures st'.holders[y] == Count(st', y) + rest[y]
      {
        CountFrame(st, st', y);
      }
    } else {
      RegisteredToo(st, rest + multiset{child}, pending, child);
    }
  }

  /** The cascade: dropping settles every debt it makes, on any graph. */
  lemma {:induction false} DropKeeps(st: State, id: Id, debt: multiset<Id>, pending: set<Id>)
    requires Inv(st, debt, pending + {id}) && id in st.refOf && id != st.root && st.holders[id] <= 0
    ensures Inv(Drop(st, id), debt, pending) && Drop(st, id).root == st.root
    decreases |st.refOf|, 0
  {
    hide Inv, Children, Forget, DropChildren;
    assert id in st.bindingOf by { RegisteredToo(st, debt, pending + {id}, id); }
    var local := st.bindingOf[id].local;
    ForgetKeeps(st, id, debt, pending);
    Shrinks(st.refOf, id);
    ForgetFields(st, id);
    GraphOf(st, debt, pending + {id});
    ChildrenAreOrdinary(st, id, local);
    DropChildrenKeeps(Forget(st, id), Children(st, id, local), debt, pending);
  }

  lemma {:induction false} DropChildrenKeeps(st: State, children: seq<Id>, debt: multiset<Id>, pending: set<Id>)
    requires Inv(st, debt + multiset(children), pending) && Ordinary(st.root, children)
    ensures Inv(DropChildren(st, children), debt, pending) && DropChildren(st, children).root == st.root
    decreases |st.refOf|, |children|
  {
    hide Inv, Drop;
    if children == [] {
      assert debt + multiset(children) == debt;
    } else {
      var c, rest := children[0], children[1..];
      assert children == [c] + rest;
      assert debt + multiset(children) == debt + multiset(rest) + multiset{c};
      SettleOne(st, c, debt + multiset(rest), pending);
      if c !in st.holders {
        DropChildrenKeeps(st, rest, debt, pending);
      } else {
        var st1 := Recount(st, c, st.holders[c] - 1);
        if st1.holders[c] <= 0 {
          RegisteredToo(st1, debt + multiset(rest), pending + {c}, c);
          DropKeeps(st1, c, debt + multiset(rest), pending);
          SubsetSize(Drop(st1, c).refOf.Keys, st.refOf.Keys);
          DropChildrenKeeps(Drop(st1, c), rest, debt, pending);
        } else {
          DropChildrenKeeps(st1, rest, debt, pending);
        }
      }
    }
  }

  ghost function SetOf(ids: seq<Id>): set<Id> {
    set i | 0 <= i < |ids| :: ids[i]
  }

  lemma SetOfStep(ids: seq<Id>)
    ensures ids == [] ==> SetOf(ids) == {}
    ensures ids != [] ==> SetOf(ids) == SetOf(ids[1..]) + {ids[0]}
  {
    if ids != [] {
      var a, b := SetOf(ids), SetOf(ids[1..]) + {ids[0]};
      forall y | y in a
        ensures y in b
      {
        var i :| 0 <= i < |ids| && ids[i] == y;
        assert i > 0 ==> ids[1..][i - 1] == y;
      }
      forall y | y in b
        ensures y in a
      {
        if y != ids[0] {
          var i :| 0 <= i < |ids[1..]| && ids[1..][i] == y;
          assert ids[i + 1] == y;
        }
      }
    }
  }

  /** The end of a frame leaves no instance without a holder. */
  lemma {:induction false} DropReleasedKeeps(st: State, released: seq<Id>)
    requires Inv(st, multiset{}, SetOf(released)) && Ordinary(st.root, released)
    ensures Inv(DropReleased(st, released), multiset{}, {}) && DropReleased(st, released).root == st.root
    decreases |released|
  {
    hide Inv, Drop, SetOf;
    SetOfStep(released);
    if released != [] {
      var id, rest := released[0], released[1..];
      if id in st.holders && st.holders[id] <= 0 {
        RegisteredToo(st, multiset{}, SetOf(rest) + {id}, id);
        DropKeeps(st, id, multiset{}, SetOf(rest));
        DropReleasedKeeps(Drop(st, id), rest);
      } else {
        NotPending(st, multiset{}, SetOf(rest), id);
        DropReleasedKeeps(st, rest);
      }
    }
  }

  lemma NotPending(st: State, debt: multiset<Id>, pending: set<Id>, id: Id)
    requires Inv(st, debt, pending + {id}) && (id in st.holders ==> st.holders[id] > 0)
    ensures Inv(st, debt, pending)
  {
    hide Shape, ElementsRegistered, Exact;
  }
}
